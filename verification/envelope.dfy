/**
 * The message envelope (TaskStructure in django_amqp/backend.py) and the
 * JSON object it is dumped to before it becomes a message body.
 *
 * The JSON text itself is not modelled: a body is the JSON tree that
 * json.dumps writes out, with object members kept in insertion order, which
 * is the order json.dumps prints them in.
 */
module Envelope {
  import opened Wrappers

  /** A JSON value. Objects are member lists so that key order is visible. */
  datatype Json =
    | JNull
    | JBool(b: bool)
    | JNumber(n: int)
    | JString(s: string)
    | JArray(items: seq<Json>)
    | JObject(members: seq<(string, Json)>)

  /** The envelope: the task's module path and the call's arguments. */
  datatype TaskStructure = TaskStructure(func: string, args: seq<Json>, kwargs: seq<(string, Json)>)

  const FuncKey: string := "func"
  const ArgsKey: string := "args"
  const KwargsKey: string := "kwargs"

  /** The keys of an object's members, in order. */
  function Keys(members: seq<(string, Json)>): (ks: seq<string>)
    ensures |ks| == |members|
    ensures forall i :: 0 <= i < |members| ==> ks[i] == members[i].0
  {
    if members == [] then [] else [members[0].0] + Keys(members[1..])
  }

  /**
   * The value of the last member named `key`, as json.loads keeps it when a
   * key is repeated; None when no member has that name.
   */
  function Lookup(members: seq<(string, Json)>, key: string): (r: Option<Json>)
    ensures r.None? <==> forall i :: 0 <= i < |members| ==> members[i].0 != key
    ensures r.Some? ==> exists i :: 0 <= i < |members| && members[i] == (key, r.value) &&
                                    forall k :: i < k < |members| ==> members[k].0 != key
    decreases |members|
  {
    if members == [] then None
    else
      var n := |members| - 1;
      if members[n].0 == key then Some(members[n].1)
      else
        var r := Lookup(members[..n], key);
        if r.Some? then
          ghost var i :| 0 <= i < n && members[..n][i] == (key, r.value) &&
                         forall k :: i < k < n ==> members[..n][k].0 != key;
          assert members[i] == (key, r.value);
          assert forall k :: i < k < |members| ==> members[k].0 != key by {
            forall k | i < k < |members| ensures members[k].0 != key {
              if k < n {
                assert members[..n][k] == members[k];
              }
            }
          }
          r
        else
          assert forall i :: 0 <= i < |members| ==> members[i].0 != key by {
            forall i | 0 <= i < |members| ensures members[i].0 != key {
              if i < n {
                assert members[..n][i] == members[i];
              }
            }
          }
          r
  }

  /** model_dump of a TaskStructure: an object with the keys func, args, kwargs. */
  function Encode(e: TaskStructure): (body: Json)
    ensures body.JObject? && Keys(body.members) == [FuncKey, ArgsKey, KwargsKey]
  {
    JObject([(FuncKey, JString(e.func)), (ArgsKey, JArray(e.args)), (KwargsKey, JObject(e.kwargs))])
  }

  /**
   * Validation of a body back into a TaskStructure: the body must be an object
   * whose func is a string, whose args is an array and whose kwargs is an
   * object; other members are ignored, and a repeated key counts by its
   * last member.
   */
  function Decode(body: Json): (r: Option<TaskStructure>)
    ensures (r.Some? <==>
              body.JObject? &&
              Lookup(body.members, FuncKey).Some? && Lookup(body.members, FuncKey).value.JString? &&
              Lookup(body.members, ArgsKey).Some? && Lookup(body.members, ArgsKey).value.JArray? &&
              Lookup(body.members, KwargsKey).Some? && Lookup(body.members, KwargsKey).value.JObject?)
    ensures r.Some? ==> body.JObject? &&
                        Lookup(body.members, FuncKey) == Some(JString(r.value.func)) &&
                        Lookup(body.members, ArgsKey) == Some(JArray(r.value.args)) &&
                        Lookup(body.members, KwargsKey) == Some(JObject(r.value.kwargs))
  {
    if !body.JObject? then None
    else
      var f := Lookup(body.members, FuncKey);
      var a := Lookup(body.members, ArgsKey);
      var k := Lookup(body.members, KwargsKey);
      if f.Some? && f.value.JString? && a.Some? && a.value.JArray? && k.Some? && k.value.JObject? then
        Some(TaskStructure(f.value.s, a.value.items, k.value.members))
      else None
  }

  /** Decoding a dumped envelope gives the envelope back. */
  lemma RoundTrip(e: TaskStructure)
    ensures Decode(Encode(e)) == Some(e)
  {
    var ms := Encode(e).members;
    assert ms[..2] == [ms[0], ms[1]] && ms[..2][..1] == [ms[0]];
    assert Lookup(ms, KwargsKey) == Some(JObject(e.kwargs));
    assert Lookup(ms, ArgsKey) == Some(JArray(e.args)) by {
      assert Lookup(ms, ArgsKey) == Lookup(ms[..2], ArgsKey);
    }
    assert Lookup(ms, FuncKey) == Some(JString(e.func)) by {
      assert Lookup(ms, FuncKey) == Lookup(ms[..2], FuncKey) == Lookup(ms[..2][..1], FuncKey);
    }
  }

  /** Two envelopes with the same body are the same envelope. */
  lemma EncodeInjective(e1: TaskStructure, e2: TaskStructure)
    requires Encode(e1) == Encode(e2)
    ensures e1 == e2
  {
    RoundTrip(e1);
    RoundTrip(e2);
  }

  /**
   * A body with exactly the keys func, args, kwargs, in that order, that
   * decodes at all is the dump of what it decodes to.
   */
  lemma DecodeCanonical(body: Json)
    requires body.JObject? && Keys(body.members) == [FuncKey, ArgsKey, KwargsKey]
    requires Decode(body).Some?
    ensures Encode(Decode(body).value) == body
  {
    var ms := body.members;
    var e := Decode(body).value;
    assert ms[0].0 == FuncKey && ms[1].0 == ArgsKey && ms[2].0 == KwargsKey;
    assert ms == [ms[0], ms[1], ms[2]];
    assert ms[..2] == [ms[0], ms[1]] && ms[..2][..1] == [ms[0]];
    assert ms[2].1 == JObject(e.kwargs);
    assert ms[1].1 == JArray(e.args) by {
      assert Lookup(ms, ArgsKey) == Lookup(ms[..2], ArgsKey);
    }
    assert ms[0].1 == JString(e.func) by {
      assert Lookup(ms, FuncKey) == Lookup(ms[..2], FuncKey) == Lookup(ms[..2][..1], FuncKey);
    }
  }

  /** When a key is repeated, a body is read by its last member with that key. */
  lemma {:induction false} LookupLastWins(members: seq<(string, Json)>, key: string, v: Json)
    ensures Lookup(members + [(key, v)], key) == Some(v)
  {
    assert (members + [(key, v)])[|members|] == (key, v);
  }
}
