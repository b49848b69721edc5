/**
 * AMQPBackend (django_amqp/backend.py): the task backend that turns Django
 * task calls into Service Bus messages.
 *
 * Django's settings, the clock and the Service Bus client are outside the
 * model: the connection-string setting and "now" are parameters, and the
 * queue sender the client would open for the task's queue is passed in.
 */
module Backend {
  import opened Wrappers
  import opened Envelope
  import opened Batching
  import opened Broker

  /** The Python callable behind a task; the registry keys it by its qualified name. */
  datatype TaskFunc = TaskFunc(moduleName: string, qualName: string)

  /** A task as the backend reads it; `runAfter` is a timestamp, absent for "now". */
  datatype Task = Task(func: TaskFunc, modulePath: string, queueName: string, runAfter: Option<int>)

  /** One entry of batch_enqueue's jobs_data: the positional and keyword arguments of one call. */
  datatype Job = Job(args: seq<Json>, kwargs: seq<(string, Json)>)

  datatype BackendError =
    | ImproperlyConfigured    // the connection-string setting is missing or empty
    | ScheduleTimeNotInFuture // the ValueError raised for a run_after that is not in the future
    | MessageSizeExceeded     // the broker refused a message even into an empty batch

  /**
   * The message for one call of `task`: the dumped envelope of its module
   * path and the call's arguments. Its body has exactly the keys func, args
   * and kwargs, in that order.
   */
  function MessageFor(task: Task, args: seq<Json>, kwargs: seq<(string, Json)>): (m: Message)
    ensures m.body.JObject? && Keys(m.body.members) == [FuncKey, ArgsKey, KwargsKey]
  {
    Message(Encode(TaskStructure(task.modulePath, args, kwargs)))
  }

  /** Every message the backend builds reads back as the task's module path and the call's arguments. */
  lemma MessageForReadsBack(task: Task, args: seq<Json>, kwargs: seq<(string, Json)>)
    ensures Decode(MessageFor(task, args, kwargs).body) == Some(TaskStructure(task.modulePath, args, kwargs))
  {
    RoundTrip(TaskStructure(task.modulePath, args, kwargs));
  }

  /** The messages batch_enqueue builds for its jobs, one per job, in order. */
  function JobMessages(task: Task, jobs: seq<Job>): (msgs: seq<Message>)
    ensures |msgs| == |jobs|
    ensures forall i :: 0 <= i < |jobs| ==> msgs[i] == MessageFor(task, jobs[i].args, jobs[i].kwargs)
  {
    if jobs == [] then [] else [MessageFor(task, jobs[0].args, jobs[0].kwargs)] + JobMessages(task, jobs[1..])
  }

  /** What enqueue does with a message: send it now, schedule it, or refuse. */
  datatype Dispatch = SendNow | ScheduleAt(at: int) | RejectPast

  /**
   * enqueue's run_after decision: no run_after sends now; a run_after
   * strictly after `now` schedules at that time; any other run_after is
   * refused.
   */
  function DispatchFor(runAfter: Option<int>, now: int): (d: Dispatch)
    ensures d.SendNow? <==> runAfter.None?
    ensures d.RejectPast? <==> runAfter.Some? && runAfter.value <= now
    ensures d.ScheduleAt? ==> runAfter == Some(d.at) && now < d.at
  {
    match runAfter
    case None => SendNow
    case Some(t) => if t <= now then RejectPast else ScheduleAt(t)
  }

  /**
   * The check __init__ makes of the connection-string setting (None when the
   * setting is absent): it is accepted exactly when present and non-empty.
   */
  function ConnectionString(setting: Option<string>): (r: Result<string, BackendError>)
    ensures r.Success? <==> setting.Some? && setting.value != ""
    ensures r.Success? ==> r.value == setting.value
    ensures r.Failure? ==> r.error == ImproperlyConfigured
  {
    if setting.Some? && setting.value != "" then Success(setting.value) else Failure(ImproperlyConfigured)
  }

  /** The caller's jobs_data list, which batch_enqueue empties from the front. */
  class JobList {
    var items: seq<Job>

    constructor (items: seq<Job>)
      ensures this.items == items
    {
      this.items := items;
    }

    /** pop(0) */
    method PopFront() returns (job: Job)
      requires items != []
      modifies this
      ensures job == old(items)[0] && items == old(items)[1..]
    {
      job := items[0];
      items := items[1..];
    }
  }

  class AMQPBackend {
    const alias: string
    /** The connection string __init__ accepted; the client is built from it. */
    const connStr: string
    /** The task registry: each validated task's callable, by qualified name. */
    var tasks: map<string, TaskFunc>

    /**
     * A backend exists only with a non-empty connection string, and the
     * registry keeps each callable under its own qualified name.
     */
    ghost predicate Valid()
      reads this
    {
      connStr != "" &&
      forall name :: name in tasks ==> tasks[name].qualName == name
    }

    /** __init__ once the setting has been accepted; NewAMQPBackend makes the check. */
    constructor (alias: string, connStr: string)
      requires connStr != ""
      ensures Valid() && this.alias == alias && this.connStr == connStr && tasks == map[]
    {
      this.alias := alias;
      this.connStr := connStr;
      tasks := map[];
    }

    /**
     * enqueue: builds the task's message, then sends it now, schedules it
     * and returns the broker's sequence numbers, or raises when run_after is
     * not in the future, in which case nothing is sent or scheduled.
     */
    method Enqueue(task: Task, args: seq<Json>, kwargs: seq<(string, Json)>, now: int, sender: QueueSender)
      returns (r: Result<Option<seq<int>>, BackendError>)
      requires Valid() && sender.Valid() && sender.queueName == task.queueName
      modifies sender
      ensures sender.Valid()
      ensures var m := MessageFor(task, args, kwargs);
        match DispatchFor(task.runAfter, now)
        case RejectPast =>
          r == Failure(ScheduleTimeNotInFuture) &&
          sender.sent == old(sender.sent) && sender.scheduled == old(sender.scheduled)
        case SendNow =>
          r == Success(None) &&
          sender.sent == old(sender.sent) + [[m]] && sender.scheduled == old(sender.scheduled)
        case ScheduleAt(at) =>
          r.Success? && r.value.Some? && |r.value.value| == 1 &&
          sender.scheduled == old(sender.scheduled) + [ScheduledMessage(m, at, r.value.value[0])] &&
          sender.sent == old(sender.sent)
    {
      var message := MessageFor(task, args, kwargs);
      match task.runAfter
      case Some(at) =>
        if at <= now {
          return Failure(ScheduleTimeNotInFuture);
        }
        var numbers := sender.ScheduleMessages(message, at);
        return Success(Some(numbers));
      case None =>
        sender.SendMessages([message]);
        return Success(None);
    }

    /**
     * batch_enqueue: pops the jobs from the front of `jobs`, packs their
     * messages into batches as Pack describes and sends each batch; the
     * final batch is sent whatever it holds. If a message does not fit an
     * empty batch the call stops with an error, leaving sent what was sent
     * and the jobs after the failing one in `jobs`.
     */
    method BatchEnqueue(task: Task, jobs: JobList, sender: QueueSender) returns (r: Result<(), BackendError>)
      requires Valid() && sender.Valid() && sender.queueName == task.queueName
      modifies sender, jobs
      ensures sender.Valid() && sender.scheduled == old(sender.scheduled)
      ensures var p := Pack(JobMessages(task, old(jobs.items)), sender.size, sender.maxBatchSize);
        sender.sent == old(sender.sent) + p.sends &&
        jobs.items == old(jobs.items)[p.consumed..] &&
        (r.Failure? <==> p.tooLarge) &&
        (r.Failure? ==> r.error == MessageSizeExceeded)
      ensures r.Success? ==> jobs.items == []
    {
      ghost var items0 := jobs.items;
      // the whole run, as Pack gives it; Pack starts from an empty batch
      ghost var whole := Resume(sender.sent, 0, PackFrom([], JobMessages(task, items0), sender.size, sender.maxBatchSize));
      ghost var i := 0;
      var size, capacity := sender.size, sender.maxBatchSize;
      var batch: seq<Message> := []; // create_message_batch
      while jobs.items != []
        invariant 0 <= i <= |items0| && jobs.items == items0[i..]
        invariant sender.Valid() && sender.scheduled == old(sender.scheduled)
        invariant whole == Resume(sender.sent, i, PackFrom(batch, JobMessages(task, jobs.items), size, capacity))
        decreases |jobs.items|
      {
        ghost var rest := JobMessages(task, jobs.items[1..]);
        ghost var before := jobs.items;
        var job := jobs.PopFront();
        var message := MessageFor(task, job.args, job.kwargs);
        assert JobMessages(task, before) == [message] + rest;
        assert jobs.items == items0[i + 1..];
        var added := TryAdd(batch, message, size, capacity);
        if added.Some? {
          AcceptedTurn(sender.sent, i, batch, message, rest, size, capacity);
        } else {
          RestartedOrRejected(sender.sent, i, batch, message, rest, size, capacity);
          sender.SendMessages(batch);
          // a fresh batch, into which the add is retried
          added := TryAdd([], message, size, capacity);
          if added.None? {
            return Failure(MessageSizeExceeded);
          }
        }
        batch := added.value;
        i := i + 1;
      }
      sender.SendMessages(batch);
      return Success(());
    }

    /** validate_task: records the task's callable under its qualified name. */
    method ValidateTask(task: Task)
      requires Valid()
      modifies this
      ensures Valid()
      ensures tasks == old(tasks)[task.func.qualName := task.func]
    {
      tasks := tasks[task.func.qualName := task.func];
    }
  }

  /**
   * Construction of the backend: fails with ImproperlyConfigured when the
   * connection-string setting is missing or empty, and otherwise gives a
   * backend with an empty task registry.
   */
  method NewAMQPBackend(alias: string, setting: Option<string>) returns (r: Result<AMQPBackend, BackendError>)
    ensures r.Failure? <==> setting.None? || setting.value == ""
    ensures r.Failure? ==> r.error == ImproperlyConfigured
    ensures r.Success? ==> fresh(r.value) && r.value.Valid() && r.value.alias == alias &&
                           r.value.connStr == setting.value && r.value.tasks == map[]
  {
    match ConnectionString(setting)
    case Failure(e) =>
      return Failure(e);
    case Success(connStr) =>
      var backend := new AMQPBackend(alias, connStr);
      return Success(backend);
  }

  /**
   * The body the enqueue test expects for dummy_function called with
   * ("arg1",) and {"key": "value"}: func is the task's own module path,
   * whatever that path is.
   */
  lemma DummyFunctionMessage(task: Task)
    ensures MessageFor(task, [JString("arg1")], [("key", JString("value"))]).body ==
      JObject([("func", JString(task.modulePath)),
               ("args", JArray([JString("arg1")])),
               ("kwargs", JObject([("key", JString("value"))]))])
  {
  }

  /**
   * The enqueue test as a client of the model: a backend built with a
   * connection string enqueues dummy_function, defined in the module
   * tests.test_backend, without run_after and sends exactly that one message.
   */
  method EnqueueTaskScenario(size: Message -> nat, now: int)
  {
    var created := NewAMQPBackend("default", Some("DUMMY_CONN_STRING"));
    assert created.Success?;
    var backend := created.value;
    var task := Task(TaskFunc("tests.test_backend", "dummy_function"), "tests.test_backend.dummy_function", "default", None);
    var sender := new QueueSender("default", 1024, size);
    var r := backend.Enqueue(task, [JString("arg1")], [("key", JString("value"))], now, sender);
    assert r == Success(None);
    DummyFunctionMessage(task);
    assert sender.sent == [[Message(JObject([("func", JString(task.modulePath)),
                                             ("args", JArray([JString("arg1")])),
                                             ("kwargs", JObject([("key", JString("value"))]))]))]];
    assert sender.scheduled == [];
  }

  /**
   * batch_enqueue with an empty jobs list, as a client of the model: the
   * loop never runs and the final send delivers an empty batch.
   */
  method EmptyBatchScenario(task: Task, size: Message -> nat, capacity: nat)
  {
    var created := NewAMQPBackend("default", Some("DUMMY_CONN_STRING"));
    var backend := created.value;
    var sender := new QueueSender(task.queueName, capacity, size);
    var jobs := new JobList([]);
    assert JobMessages(task, []) == [];
    PackEmpty(size, capacity);
    var r := backend.BatchEnqueue(task, jobs, sender);
    assert r.Success? && sender.sent == [[]] && jobs.items == [];
  }
}
