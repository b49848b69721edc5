/**
 * The broker side that AMQPBackend talks to, reduced to what the backend
 * observes: a queue sender that records every send and every scheduled
 * message, and hands out sequence numbers for scheduled messages.
 */
module Broker {
  import opened Envelope

  /** A broker message; its body is the dumped envelope. */
  datatype Message = Message(body: Json)

  /** A message scheduled for delivery at `at`, with the number the broker gave it. */
  datatype ScheduledMessage = ScheduledMessage(message: Message, at: int, sequenceNumber: int)

  /**
   * A sender bound to one queue. `sent` holds one entry per send call, in
   * call order: the messages that call delivered (a single message is a
   * one-element send). `maxBatchSize` and `size` are the broker's batch
   * limit and its size accounting.
   */
  class QueueSender {
    const queueName: string
    const maxBatchSize: nat
    const size: Message -> nat
    var sent: seq<seq<Message>>
    var scheduled: seq<ScheduledMessage>
    var nextSequenceNumber: int

    /** Sequence numbers are increasing, so each identifies one scheduled message. */
    ghost predicate Valid()
      reads this
    {
      (forall i :: 0 <= i < |scheduled| ==> scheduled[i].sequenceNumber < nextSequenceNumber) &&
      (forall i, j :: 0 <= i < j < |scheduled| ==> scheduled[i].sequenceNumber < scheduled[j].sequenceNumber)
    }

    constructor (queueName: string, maxBatchSize: nat, size: Message -> nat)
      ensures Valid()
      ensures this.queueName == queueName && this.maxBatchSize == maxBatchSize && this.size == size
      ensures sent == [] && scheduled == []
    {
      this.queueName := queueName;
      this.maxBatchSize := maxBatchSize;
      this.size := size;
      sent := [];
      scheduled := [];
      nextSequenceNumber := 0;
    }

    /** send_messages: delivers the given messages in one call. */
    method SendMessages(messages: seq<Message>)
      requires Valid()
      modifies this
      ensures Valid()
      ensures sent == old(sent) + [messages]
      ensures scheduled == old(scheduled) && nextSequenceNumber == old(nextSequenceNumber)
    {
      sent := sent + [messages];
    }

    /**
     * schedule_messages: schedules one message for `at` and returns the
     * sequence numbers of what it scheduled, one per message.
     */
    method ScheduleMessages(message: Message, at: int) returns (numbers: seq<int>)
      requires Valid()
      modifies this
      ensures Valid()
      ensures |numbers| == 1
      ensures scheduled == old(scheduled) + [ScheduledMessage(message, at, numbers[0])]
      ensures forall i :: 0 <= i < |old(scheduled)| ==> old(scheduled)[i].sequenceNumber != numbers[0]
      ensures sent == old(sent)
    {
      var n := nextSequenceNumber;
      scheduled := scheduled + [ScheduledMessage(message, at, n)];
      nextSequenceNumber := n + 1;
      numbers := [n];
    }
  }
}
