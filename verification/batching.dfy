/**
 * The packing that AMQPBackend.batch_enqueue performs, as a function of the
 * messages it is given (django_amqp/backend.py:87-107).
 *
 * A broker batch is the sequence of messages added to it so far. Whether an
 * add is accepted depends on the messages' sizes, given by `size`, and the
 * batch's `capacity`; both are parameters, since the byte accounting lives
 * in the broker SDK.
 */
module Batching {
  import opened Wrappers

  /** The total size of the messages in a batch. */
  function TotalSize<M>(batch: seq<M>, size: M -> nat): nat
  {
    if batch == [] then 0 else TotalSize(batch[..|batch| - 1], size) + size(batch[|batch| - 1])
  }

  /** Adding a message to a batch adds its size to the batch's total. */
  lemma TotalSizeAppend<M>(batch: seq<M>, m: M, size: M -> nat)
    ensures TotalSize(batch + [m], size) == TotalSize(batch, size) + size(m)
  {
    assert (batch + [m])[..|batch + [m]| - 1] == batch;
  }

  /**
   * add_message: the batch with `m` added when the total stays within
   * `capacity`, and None (the SDK raises ValueError) otherwise.
   */
  function TryAdd<M>(batch: seq<M>, m: M, size: M -> nat, capacity: nat): (r: Option<seq<M>>)
    ensures r.Some? <==> TotalSize(batch, size) + size(m) <= capacity
    ensures r.Some? ==> r.value == batch + [m] && TotalSize(r.value, size) <= capacity
  {
    TotalSizeAppend(batch, m, size);
    if TotalSize(batch + [m], size) <= capacity then Some(batch + [m]) else None
  }

  /** The concatenation of a sequence of batches. */
  function Flatten<M>(batches: seq<seq<M>>): (r: seq<M>)
  {
    if batches == [] then [] else Flatten(batches[..|batches| - 1]) + batches[|batches| - 1]
  }

  lemma FlattenAppend<M>(batches: seq<seq<M>>, b: seq<M>)
    ensures Flatten(batches + [b]) == Flatten(batches) + b
  {
    assert (batches + [b])[..|batches + [b]| - 1] == batches;
  }

  lemma {:induction false} FlattenPrepend<M>(b: seq<M>, batches: seq<seq<M>>)
    ensures Flatten([b] + batches) == b + Flatten(batches)
    decreases |batches|
  {
    if batches == [] {
      assert [b] + batches == [] + [b];
      FlattenAppend([], b);
    } else {
      var init, last := batches[..|batches| - 1], batches[|batches| - 1];
      assert batches == init + [last];
      assert [b] + batches == ([b] + init) + [last];
      FlattenAppend([b] + init, last);
      FlattenPrepend(b, init);
      FlattenAppend(init, last);
    }
  }

  /**
   * What a run of the packing loop does: the batches it sends, in order, how
   * many messages it took from the input, and whether it stopped because a
   * message did not fit even an empty batch.
   */
  datatype Packing<M> = Packing(sends: seq<seq<M>>, consumed: nat, tooLarge: bool)

  /** The loop run from an open `batch` over the messages still to come. */
  function PackFrom<M>(batch: seq<M>, rest: seq<M>, size: M -> nat, capacity: nat): (p: Packing<M>)
    ensures |p.sends| >= 1 && p.consumed <= |rest|
    ensures !p.tooLarge ==> p.consumed == |rest|
    decreases |rest|
  {
    if rest == [] then
      // the send after the loop, whatever the batch holds
      Packing([batch], 0, false)
    else
      match TryAdd(batch, rest[0], size, capacity)
      case Some(added) =>
        var p := PackFrom(added, rest[1..], size, capacity);
        p.(consumed := p.consumed + 1)
      case None =>
        // the batch is sent, a new one is created and the add is retried
        match TryAdd([], rest[0], size, capacity)
        case Some(restarted) =>
          var p := PackFrom(restarted, rest[1..], size, capacity);
          Packing([batch] + p.sends, p.consumed + 1, p.tooLarge)
        case None =>
          Packing([batch], 1, true)
  }

  /** A run that has already sent `flushed` and taken `taken` messages, then goes on as `p`. */
  function Resume<M>(flushed: seq<seq<M>>, taken: nat, p: Packing<M>): Packing<M>
  {
    Packing(flushed + p.sends, taken + p.consumed, p.tooLarge)
  }

  /** One turn of the loop whose add is accepted. */
  lemma AcceptedTurn<M>(flushed: seq<seq<M>>, taken: nat, batch: seq<M>, m: M, rest: seq<M>, size: M -> nat, capacity: nat)
    requires TryAdd(batch, m, size, capacity).Some?
    ensures Resume(flushed, taken, PackFrom(batch, [m] + rest, size, capacity))
         == Resume(flushed, taken + 1, PackFrom(batch + [m], rest, size, capacity))
  {
    assert ([m] + rest)[1..] == rest;
  }

  /**
   * One turn of the loop whose add is rejected: the batch is sent and the
   * retry into a fresh batch either goes on from there or ends the run.
   */
  lemma RestartedOrRejected<M>(flushed: seq<seq<M>>, taken: nat, batch: seq<M>, m: M, rest: seq<M>, size: M -> nat, capacity: nat)
    requires TryAdd(batch, m, size, capacity).None?
    ensures var r := Resume(flushed, taken, PackFrom(batch, [m] + rest, size, capacity));
      match TryAdd([], m, size, capacity)
      case Some(restarted) => r == Resume(flushed + [batch], taken + 1, PackFrom(restarted, rest, size, capacity))
      case None => r == Packing(flushed + [batch], taken + 1, true)
  {
    assert ([m] + rest)[1..] == rest;
    if TryAdd([], m, size, capacity).Some? {
      var q := PackFrom([m], rest, size, capacity);
      assert PackFrom(batch, [m] + rest, size, capacity) == Packing([batch] + q.sends, q.consumed + 1, q.tooLarge);
      assert flushed + ([batch] + q.sends) == (flushed + [batch]) + q.sends;
    }
  }

  /**
   * From any batch, the loop gives up exactly when some remaining message
   * does not fit an empty batch, and then the last message it took is the
   * first such message.
   */
  lemma {:induction false} PackFromRefusesOnlyOversized<M>(batch: seq<M>, rest: seq<M>, size: M -> nat, capacity: nat)
    ensures var p := PackFrom(batch, rest, size, capacity);
      (p.tooLarge <==> exists i :: 0 <= i < |rest| && size(rest[i]) > capacity) &&
      (p.tooLarge ==> 1 <= p.consumed && size(rest[p.consumed - 1]) > capacity &&
                      forall i :: 0 <= i < p.consumed - 1 ==> size(rest[i]) <= capacity)
    decreases |rest|
  {
    if rest != [] {
      var m := rest[0];
      match TryAdd(batch, m, size, capacity)
      case Some(added) =>
        PackFromRefusesOnlyOversized(added, rest[1..], size, capacity);
        assert forall i :: 0 < i < |rest| ==> rest[i] == rest[1..][i - 1];
      case None =>
        match TryAdd([], m, size, capacity)
        case Some(restarted) =>
          PackFromRefusesOnlyOversized(restarted, rest[1..], size, capacity);
          assert forall i :: 0 < i < |rest| ==> rest[i] == rest[1..][i - 1];
        case None =>
    }
  }

  /**
   * The loop run over all the messages of a call, from a fresh batch: it
   * sends at least once, and it gives up exactly when some message does not
   * fit an empty batch, having taken every message up to and including the
   * first such one; otherwise it takes every message.
   */
  function Pack<M>(msgs: seq<M>, size: M -> nat, capacity: nat): (p: Packing<M>)
    ensures |p.sends| >= 1 && p.consumed <= |msgs|
    ensures !p.tooLarge ==> p.consumed == |msgs|
    ensures p.tooLarge <==> exists i :: 0 <= i < |msgs| && size(msgs[i]) > capacity
    ensures p.tooLarge ==> 1 <= p.consumed && size(msgs[p.consumed - 1]) > capacity &&
                           forall i :: 0 <= i < p.consumed - 1 ==> size(msgs[i]) <= capacity
  {
    PackFromRefusesOnlyOversized([], msgs, size, capacity);
    PackFrom([], msgs, size, capacity)
  }

  /** Every message fits an empty batch on its own. */
  ghost predicate EachFits<M>(msgs: seq<M>, size: M -> nat, capacity: nat)
  {
    forall i :: 0 <= i < |msgs| ==> size(msgs[i]) <= capacity
  }

  lemma EachFitsTail<M>(msgs: seq<M>, size: M -> nat, capacity: nat)
    requires msgs != [] && EachFits(msgs, size, capacity)
    ensures EachFits(msgs[1..], size, capacity)
  {
    forall i | 0 <= i < |msgs| - 1 ensures size(msgs[1..][i]) <= capacity {
      assert msgs[1..][i] == msgs[i + 1];
    }
  }

  /**
   * When every message fits an empty batch, the loop takes every message and
   * the sent batches, concatenated, are the open batch followed by the
   * messages in input order: nothing dropped, duplicated or reordered.
   */
  lemma {:induction false} PackFromDelivers<M>(batch: seq<M>, rest: seq<M>, size: M -> nat, capacity: nat)
    requires EachFits(rest, size, capacity)
    ensures var p := PackFrom(batch, rest, size, capacity);
      !p.tooLarge && p.consumed == |rest| && Flatten(p.sends) == batch + rest
    decreases |rest|
  {
    if rest == [] {
      FlattenAppend([], batch);
    } else {
      var m := rest[0];
      assert rest == [m] + rest[1..];
      EachFitsTail(rest, size, capacity);
      match TryAdd(batch, m, size, capacity)
      case Some(added) =>
        PackFromDelivers(added, rest[1..], size, capacity);
      case None =>
        assert TotalSize([], size) == 0;
        assert size(rest[0]) <= capacity;
        var restarted := TryAdd([], m, size, capacity).value;
        assert restarted == [m];
        PackFromDelivers(restarted, rest[1..], size, capacity);
        FlattenPrepend(batch, PackFrom(restarted, rest[1..], size, capacity).sends);
    }
  }

  /** Every batch is within capacity. */
  ghost predicate AllWithin<M>(batches: seq<seq<M>>, size: M -> nat, capacity: nat)
  {
    forall i :: 0 <= i < |batches| ==> TotalSize(batches[i], size) <= capacity
  }

  /**
   * Every batch after the first is non-empty, and its first message would
   * have taken the batch before it over capacity.
   */
  ghost predicate FlushedWhenFull<M>(batches: seq<seq<M>>, size: M -> nat, capacity: nat)
  {
    forall i :: 1 <= i < |batches| ==>
      batches[i] != [] && TotalSize(batches[i - 1], size) + size(batches[i][0]) > capacity
  }

  /** Every batch the loop sends is within capacity, the open one included. */
  lemma {:induction false} PackFromWithinCapacity<M>(batch: seq<M>, rest: seq<M>, size: M -> nat, capacity: nat)
    requires TotalSize(batch, size) <= capacity
    ensures AllWithin(PackFrom(batch, rest, size, capacity).sends, size, capacity)
    decreases |rest|
  {
    if rest != [] {
      match TryAdd(batch, rest[0], size, capacity)
      case Some(added) =>
        PackFromWithinCapacity(added, rest[1..], size, capacity);
        assert PackFrom(batch, rest, size, capacity).sends == PackFrom(added, rest[1..], size, capacity).sends;
      case None =>
        match TryAdd([], rest[0], size, capacity)
        case Some(restarted) =>
          PackFromWithinCapacity(restarted, rest[1..], size, capacity);
          var q := PackFrom(restarted, rest[1..], size, capacity);
          var p := PackFrom(batch, rest, size, capacity);
          assert p == Packing([batch] + q.sends, q.consumed + 1, q.tooLarge);
          forall i | 1 <= i < |p.sends| ensures TotalSize(p.sends[i], size) <= capacity {
            assert p.sends[i] == q.sends[i - 1];
          }
        case None =>
    }
  }

  /**
   * A batch is sent only when the message after it did not fit: every sent
   * batch but the last is followed by a non-empty batch whose first message
   * would have taken it over capacity.
   */
  lemma {:induction false} PackFromFlushesWhenFull<M>(batch: seq<M>, rest: seq<M>, size: M -> nat, capacity: nat)
    ensures FlushedWhenFull(PackFrom(batch, rest, size, capacity).sends, size, capacity)
    decreases |rest|
  {
    if rest != [] {
      match TryAdd(batch, rest[0], size, capacity)
      case Some(added) =>
        PackFromFlushesWhenFull(added, rest[1..], size, capacity);
        assert PackFrom(batch, rest, size, capacity).sends == PackFrom(added, rest[1..], size, capacity).sends;
      case None =>
        match TryAdd([], rest[0], size, capacity)
        case Some(restarted) =>
          PackFromFlushesWhenFull(restarted, rest[1..], size, capacity);
          PackFromStartsWith(restarted, rest[1..], size, capacity);
          var q := PackFrom(restarted, rest[1..], size, capacity);
          var p := PackFrom(batch, rest, size, capacity);
          assert p == Packing([batch] + q.sends, q.consumed + 1, q.tooLarge);
          forall i | 2 <= i < |p.sends|
            ensures p.sends[i] != [] && TotalSize(p.sends[i - 1], size) + size(p.sends[i][0]) > capacity
          {
            assert p.sends[i] == q.sends[i - 1] && p.sends[i - 1] == q.sends[i - 2];
          }
        case None =>
    }
  }

  /** The first batch the loop sends extends the open batch. */
  lemma {:induction false} PackFromStartsWith<M>(batch: seq<M>, rest: seq<M>, size: M -> nat, capacity: nat)
    ensures var p := PackFrom(batch, rest, size, capacity);
      |p.sends[0]| >= |batch| && p.sends[0][..|batch|] == batch
    decreases |rest|
  {
    if rest != [] {
      match TryAdd(batch, rest[0], size, capacity)
      case Some(added) =>
        PackFromStartsWith(added, rest[1..], size, capacity);
        assert added[..|batch|] == batch;
      case None =>
    }
  }

  /**
   * The last batch sent is empty exactly when the loop had nothing to add:
   * the open batch was empty and there were no messages, or the very first
   * message did not fit even the empty batch (the flush before the failed
   * retry then sends the empty batch).
   */
  lemma {:induction false} PackFromLastEmpty<M>(batch: seq<M>, rest: seq<M>, size: M -> nat, capacity: nat)
    ensures var p := PackFrom(batch, rest, size, capacity);
      p.sends[|p.sends| - 1] == [] <==> batch == [] && (rest == [] || (p.tooLarge && p.consumed == 1))
    decreases |rest|
  {
    var p := PackFrom(batch, rest, size, capacity);
    if rest != [] {
      match TryAdd(batch, rest[0], size, capacity)
      case Some(added) =>
        PackFromLastEmpty(added, rest[1..], size, capacity);
        PackFromTooLargeConsumed(added, rest[1..], size, capacity);
      case None =>
        match TryAdd([], rest[0], size, capacity)
        case Some(restarted) =>
          PackFromLastEmpty(restarted, rest[1..], size, capacity);
          PackFromTooLargeConsumed(restarted, rest[1..], size, capacity);
        case None =>
          assert TotalSize([], size) == 0;
    }
  }

  /** A failed retry from a non-empty open batch comes after at least one message was placed. */
  lemma {:induction false} PackFromTooLargeConsumed<M>(batch: seq<M>, rest: seq<M>, size: M -> nat, capacity: nat)
    requires batch != []
    ensures var p := PackFrom(batch, rest, size, capacity);
      p.tooLarge ==> p.consumed >= 1 && (p.consumed == 1 ==> p.sends == [batch])
    decreases |rest|
  {
  }

  /** With no messages, batch_enqueue sends one empty batch. */
  lemma PackEmpty<M>(size: M -> nat, capacity: nat)
    ensures Pack([], size, capacity) == Packing([[]], 0, false)
  {
  }

  /**
   * When message k is the first that does not fit an empty batch, the loop
   * stops after taking it: the batches sent before hold exactly the messages
   * before k, in order, and message k is in none of them.
   */
  lemma {:induction false} PackFromStopsAtOversized<M>(batch: seq<M>, rest: seq<M>, k: nat, size: M -> nat, capacity: nat)
    requires k < |rest| && EachFits(rest[..k], size, capacity) && size(rest[k]) > capacity
    ensures var p := PackFrom(batch, rest, size, capacity);
      p.tooLarge && p.consumed == k + 1 && Flatten(p.sends) == batch + rest[..k]
    decreases |rest|
  {
    var m := rest[0];
    assert rest == [m] + rest[1..];
    if k == 0 {
      assert TotalSize([], size) == 0;
      assert TryAdd(batch, m, size, capacity).None?;
      FlattenAppend([], batch);
    } else {
      assert rest[1..][..k - 1] == rest[..k][1..];
      assert rest[1..][k - 1] == rest[k];
      EachFitsTail(rest[..k], size, capacity);
      assert rest[..k] == [m] + rest[1..][..k - 1];
      match TryAdd(batch, m, size, capacity)
      case Some(added) =>
        PackFromStopsAtOversized(added, rest[1..], k - 1, size, capacity);
      case None =>
        assert size(rest[..k][0]) <= capacity;
        assert TotalSize([], size) == 0;
        var restarted := TryAdd([], m, size, capacity).value;
        PackFromStopsAtOversized(restarted, rest[1..], k - 1, size, capacity);
        FlattenPrepend(batch, PackFrom(restarted, rest[1..], size, capacity).sends);
    }
  }

  /**
   * batch_enqueue when every message fits an empty batch: every job is taken,
   * the sent batches hold the messages in input order, each batch is within
   * capacity, a batch is sent early only when the next message did not fit,
   * and the final batch is empty only when there were no jobs.
   */
  lemma PackWhenEachFits<M>(msgs: seq<M>, size: M -> nat, capacity: nat)
    requires EachFits(msgs, size, capacity)
    ensures var p := Pack(msgs, size, capacity);
      !p.tooLarge && p.consumed == |msgs| && Flatten(p.sends) == msgs &&
      AllWithin(p.sends, size, capacity) && FlushedWhenFull(p.sends, size, capacity) &&
      (p.sends[|p.sends| - 1] == [] <==> msgs == [])
  {
    PackFromDelivers([], msgs, size, capacity);
    PackFromWithinCapacity([], msgs, size, capacity);
    PackFromFlushesWhenFull([], msgs, size, capacity);
    PackFromLastEmpty([], msgs, size, capacity);
  }

  /**
   * batch_enqueue when message k is the first that does not fit an empty
   * batch: the call fails after taking k + 1 jobs; the batches sent before
   * the failure hold the first k messages in order, and the last of them is
   * the empty batch exactly when k is 0.
   */
  lemma PackWhenOneTooLarge<M>(msgs: seq<M>, k: nat, size: M -> nat, capacity: nat)
    requires k < |msgs| && EachFits(msgs[..k], size, capacity) && size(msgs[k]) > capacity
    ensures var p := Pack(msgs, size, capacity);
      p.tooLarge && p.consumed == k + 1 && Flatten(p.sends) == msgs[..k] &&
      AllWithin(p.sends, size, capacity) && FlushedWhenFull(p.sends, size, capacity) &&
      (p.sends[|p.sends| - 1] == [] <==> k == 0)
  {
    PackFromStopsAtOversized([], msgs, k, size, capacity);
    PackFromWithinCapacity([], msgs, size, capacity);
    PackFromFlushesWhenFull([], msgs, size, capacity);
    PackFromLastEmpty([], msgs, size, capacity);
  }

  /**
   * A greedy packing of `msgs`: at least one batch, the batches hold the
   * messages in order, each is within capacity, and each batch after the
   * first starts with a message the batch before could not take.
   */
  ghost predicate IsGreedyPacking<M>(batches: seq<seq<M>>, msgs: seq<M>, size: M -> nat, capacity: nat)
  {
    |batches| >= 1 && Flatten(batches) == msgs &&
    AllWithin(batches, size, capacity) && FlushedWhenFull(batches, size, capacity)
  }

  lemma {:induction false} TotalSizePrefix<M>(s: seq<M>, j: nat, size: M -> nat)
    requires j <= |s|
    ensures TotalSize(s[..j], size) <= TotalSize(s, size)
    decreases |s| - j
  {
    if j < |s| {
      TotalSizePrefix(s, j + 1, size);
      assert s[..j + 1][..j] == s[..j];
    } else {
      assert s[..j] == s;
    }
  }

  /** Two greedy packings of the same messages, each of which fits an empty batch, are equal. */
  lemma {:induction false} GreedyPackingUnique<M>(b: seq<seq<M>>, c: seq<seq<M>>, msgs: seq<M>, size: M -> nat, capacity: nat)
    requires EachFits(msgs, size, capacity)
    requires IsGreedyPacking(b, msgs, size, capacity) && IsGreedyPacking(c, msgs, size, capacity)
    ensures b == c
    decreases |msgs|
  {
    FlattenPrepend(b[0], b[1..]);
    FlattenPrepend(c[0], c[1..]);
    assert b == [b[0]] + b[1..] && c == [c[0]] + c[1..];
    if |b| >= 2 {
      FirstBatchIsFull(b, msgs, size, capacity);
    }
    if |c| >= 2 {
      FirstBatchIsFull(c, msgs, size, capacity);
    }
    FirstBatchNotShorter(b, c, msgs, size, capacity);
    FirstBatchNotShorter(c, b, msgs, size, capacity);
    assert b[0] == msgs[..|b[0]|] && c[0] == msgs[..|c[0]|];
    assert b[0] == c[0];
    if |b| == 1 || |c| == 1 {
      assert |b| == 1 <==> |b[0]| == |msgs|;
      assert |c| == 1 <==> |c[0]| == |msgs|;
    } else {
      var tail := msgs[|b[0]|..];
      assert Flatten(b[1..]) == tail && Flatten(c[1..]) == tail;
      TailIsGreedy(b, size, capacity);
      TailIsGreedy(c, size, capacity);
      assert EachFits(tail, size, capacity) by {
        forall i | 0 <= i < |tail| ensures size(tail[i]) <= capacity {
          assert tail[i] == msgs[|b[0]| + i];
        }
      }
      GreedyPackingUnique(b[1..], c[1..], tail, size, capacity);
    }
  }

  /** Of two greedy packings of the same messages, neither has a shorter first batch. */
  lemma FirstBatchNotShorter<M>(b: seq<seq<M>>, c: seq<seq<M>>, msgs: seq<M>, size: M -> nat, capacity: nat)
    requires EachFits(msgs, size, capacity)
    requires IsGreedyPacking(b, msgs, size, capacity) && IsGreedyPacking(c, msgs, size, capacity)
    ensures |c[0]| <= |b[0]|
  {
    FlattenPrepend(b[0], b[1..]);
    FlattenPrepend(c[0], c[1..]);
    assert b == [b[0]] + b[1..] && c == [c[0]] + c[1..];
    assert c[0] == msgs[..|c[0]|];
    if |b| >= 2 {
      FirstBatchIsFull(b, msgs, size, capacity);
      if |b[0]| < |c[0]| {
        assert c[0][..|b[0]| + 1] == msgs[..|b[0]| + 1];
        TotalSizePrefix(c[0], |b[0]| + 1, size);
      }
    }
  }

  /**
   * In a greedy packing with more than one batch of messages that each fit an
   * empty batch, the first batch is non-empty, the second is non-empty, and the
   * first batch followed by the second's first message is a prefix of the
   * messages that is over capacity. With one batch, that batch is all the messages.
   */
  lemma FirstBatchIsFull<M>(b: seq<seq<M>>, msgs: seq<M>, size: M -> nat, capacity: nat)
    requires EachFits(msgs, size, capacity) && IsGreedyPacking(b, msgs, size, capacity) && |b| >= 2
    ensures b[0] != [] && b[1] != [] && |b[0]| < |msgs| && msgs[|b[0]|] == b[1][0]
    ensures TotalSize(msgs[..|b[0]| + 1], size) > capacity
  {
    assert b[1] != [] && TotalSize(b[0], size) + size(b[1][0]) > capacity;
    FirstTwoBatches(b, msgs);
    assert size(msgs[|b[0]|]) <= capacity;
    TotalSizeAppend(b[0], b[1][0], size);
  }

  /** Where the second batch starts in the messages a list of batches concatenates to. */
  lemma FirstTwoBatches<M>(b: seq<seq<M>>, msgs: seq<M>)
    requires |b| >= 2 && Flatten(b) == msgs && b[1] != []
    ensures |b[0]| < |msgs| && msgs[|b[0]|] == b[1][0] && msgs[..|b[0]| + 1] == b[0] + [b[1][0]]
  {
    var tail := b[1..];
    FlattenPrepend(b[0], tail);
    FlattenPrepend(tail[0], tail[1..]);
    assert b == [b[0]] + tail && tail == [tail[0]] + tail[1..];
    var later := Flatten(tail);
    assert msgs == b[0] + later && later == b[1] + Flatten(tail[1..]);
    assert later[0] == b[1][0];
    assert msgs[|b[0]|] == later[0];
    assert msgs[..|b[0]| + 1] == b[0] + [later[0]];
  }

  /** Dropping the first batch of a greedy packing leaves a greedy packing of the rest. */
  lemma TailIsGreedy<M>(b: seq<seq<M>>, size: M -> nat, capacity: nat)
    requires |b| >= 2 && AllWithin(b, size, capacity) && FlushedWhenFull(b, size, capacity)
    ensures AllWithin(b[1..], size, capacity) && FlushedWhenFull(b[1..], size, capacity)
  {
    forall i | 0 <= i < |b| - 1 ensures TotalSize(b[1..][i], size) <= capacity {
      assert b[1..][i] == b[i + 1];
    }
    forall i | 1 <= i < |b| - 1
      ensures b[1..][i] != [] && TotalSize(b[1..][i - 1], size) + size(b[1..][i][0]) > capacity
    {
      assert b[1..][i] == b[i + 1] && b[1..][i - 1] == b[i];
    }
  }

  /**
   * The packing batch_enqueue performs is the greedy packing: for messages
   * that each fit an empty batch, a sequence of batches is a greedy packing
   * of them exactly when it is what the loop sends.
   */
  lemma PackIsTheGreedyPacking<M>(batches: seq<seq<M>>, msgs: seq<M>, size: M -> nat, capacity: nat)
    requires EachFits(msgs, size, capacity)
    ensures IsGreedyPacking(batches, msgs, size, capacity) <==> batches == Pack(msgs, size, capacity).sends
  {
    PackWhenEachFits(msgs, size, capacity);
    if IsGreedyPacking(batches, msgs, size, capacity) {
      GreedyPackingUnique(batches, Pack(msgs, size, capacity).sends, msgs, size, capacity);
    }
  }
}
