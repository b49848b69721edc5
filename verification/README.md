# django-amqp task backend, modelled in Dafny

`AMQPBackend` is a Django task backend that publishes task calls to Azure
Service Bus queues. Each call of a task becomes one message. The message body
is the JSON dump of a `TaskStructure` envelope `{func, args, kwargs}`.

`enqueue` sends one message right away. With a `run_after` time it schedules
the message instead and returns the broker's sequence numbers. It refuses a
`run_after` that is not in the future. `batch_enqueue` takes a list of
`(args, kwargs)` jobs for one task. It pops the jobs from the front of the
list and packs their messages into size-bounded broker batches. When the
broker rejects an add, it sends the current batch and retries the message in
a fresh batch. After the loop it always sends the last batch. The
constructor refuses to build a backend without a connection-string setting.
`validate_task` records each task's callable in a registry keyed by the
callable's qualified name.

Files:

- `wrappers.dfy`: `Option` and `Result`.
- `envelope.dfy` (module `Envelope`): JSON values, whose objects keep their
  members in order, and the `TaskStructure` envelope. `Encode` is the dump.
  `Decode` reads a body back: it succeeds exactly when `func` is a string,
  `args` an array and `kwargs` an object, and a repeated top-level key
  counts by its last member, as `json.loads` keeps it.
- `batching.dfy` (module `Batching`): the broker batch as a sequence of
  messages with an abstract `size` and a `capacity`. `PackFrom`/`Pack` give
  the run of the packing loop as a function: the batches sent, the number of
  jobs taken, and whether it stopped on a message too large for an empty
  batch. The lemmas about `Pack` are here.
- `broker.dfy` (module `Broker`): `QueueSender`, a class that logs every send
  call (`sent: seq<seq<Message>>`) and every scheduled message, and hands out
  increasing sequence numbers.
- `backend.dfy` (module `Backend`): the task and job data, the `run_after`
  decision, the connection-string check, the `JobList` class for the caller's
  `jobs_data`, and the `AMQPBackend` class. `BatchEnqueue` is a `while` loop
  proved against `Pack`. Its invariant says that the sends so far, followed
  by the loop run from the current batch over the remaining jobs, make up
  the whole run (`Resume(sent, i, PackFrom(batch, remaining))`).

Three behaviours of the code that the model keeps as written:

- The code sends the final batch unconditionally (backend.py:107), so with
  no jobs it makes one send call with an empty batch (`PackEmpty`,
  `EmptyBatchScenario`).
- The code has no size check of its own. If a message does not fit even an
  empty batch, the retry at backend.py:105 raises the broker's error
  (`MessageSizeExceeded`). By then the current batch has already been sent
  at line 103, and that batch is empty when the first job is the oversized
  one. The failing job has already been popped.
- The constructor checks only that the setting is present and truthy
  (backend.py:35-42). It does not check that the connection string is well
  formed.

## Model

| member | source | states |
|---|---|---|
| `Envelope.Encode` | django_amqp/backend.py:17-26 | the dumped envelope is a JSON object whose keys are exactly `func`, `args`, `kwargs`, in that order |
| `Envelope.Decode` | django_amqp/backend.py:17-26 | a body decodes exactly when it is an object whose `func` is a string, `args` an array and `kwargs` an object (a repeated key counts by its last member), and the result holds those three values |
| `Envelope.RoundTrip` | django_amqp/backend.py:17-26 | decoding the dump of any envelope gives that envelope back |
| `Envelope.EncodeInjective` | django_amqp/backend.py:17-26 | two envelopes with the same body are equal |
| `Envelope.DecodeCanonical` | django_amqp/backend.py:17-26 | a body with exactly the keys func, args, kwargs in order that decodes is the dump of its decoding |
| `Backend.MessageFor` | django_amqp/backend.py:63-69 | the body built for one call (enqueue, and each job of batch_enqueue at lines 92-98) is a JSON object with exactly the keys func, args, kwargs, in that order |
| `Backend.MessageForReadsBack` | django_amqp/backend.py:63-69 | each message body reads back as the task's module path and the call's arguments |
| `Backend.JobMessages` | django_amqp/backend.py:89-98 | batch_enqueue builds one message per job, in job order, each from the task's module path and that job's arguments |
| `Backend.DummyFunctionMessage` | tests/test_backend.py:27-42 | the body for dummy_function with `("arg1",)` and `{"key": "value"}` is `{"func": <the task's module path>, "args": ["arg1"], "kwargs": {"key": "value"}}` |
| `Backend.DispatchFor` | django_amqp/backend.py:73-80 | no run_after sends now; a run_after at or before now is refused; a later run_after schedules at exactly that time |
| `Backend.AMQPBackend.Enqueue` | django_amqp/backend.py:44-80 | refused run_after: error and nothing sent or scheduled; no run_after: exactly one message sent, result None; future run_after: exactly one message scheduled at run_after and its sequence number returned |
| `Broker.QueueSender.ScheduleMessages` | django_amqp/backend.py:76-78 | schedules one message and returns one sequence number, distinct from every number handed out before |
| `Broker.QueueSender.SendMessages` | django_amqp/backend.py:103-107 | one send call appends exactly its messages to the log and changes nothing else |
| `Backend.ConnectionString` | django_amqp/backend.py:35-42 | the setting is accepted exactly when it is present and non-empty; otherwise ImproperlyConfigured |
| `Backend.NewAMQPBackend` | django_amqp/backend.py:32-42 | construction fails with ImproperlyConfigured exactly when the setting is missing or empty; otherwise it builds a fresh backend that holds the accepted connection string and an empty task registry |
| `Backend.AMQPBackend.constructor` | django_amqp/backend.py:32-42 | a backend is built only from a non-empty connection string (the check `__init__` makes before returning); it starts with an empty registry and satisfies the backend invariant |
| `Backend.AMQPBackend.ValidateTask` | django_amqp/backend.py:109-117 | the registry gains or overwrites the entry for the task's qualified name with its callable, and every entry stays keyed by its callable's qualified name |
| `Backend.JobList.PopFront` | django_amqp/backend.py:90 | pop(0) returns the first job and leaves the rest of the list, in order |
| `Batching.TryAdd` | django_amqp/backend.py:101 | an add succeeds exactly when the batch's total size plus the message's stays within capacity, and then appends the message |
| `Backend.AMQPBackend.BatchEnqueue` | django_amqp/backend.py:82-107 | the sends made are exactly the batches of `Pack` over the jobs' messages; the list keeps only the jobs `Pack` did not take, so it is empty on success; the call fails exactly when `Pack` stops on an oversized message |
| `Batching.PackWhenEachFits` | django_amqp/backend.py:89-107 | if every message fits an empty batch: all jobs taken, the sent batches concatenate to the messages in input order, every batch within capacity, every batch after the first starts with a message that overflowed the batch before it, so a batch is sent early only when an add is rejected, and the final batch is empty exactly when there were no jobs |
| `Batching.PackWhenOneTooLarge` | django_amqp/backend.py:100-105 | if message k is the first that does not fit an empty batch: the call fails after popping k + 1 jobs, the batches already sent hold exactly the first k messages in order, and the last of them is empty exactly when k = 0 |
| `Batching.PackIsTheGreedyPacking` | django_amqp/backend.py:100-107 | for messages that each fit an empty batch, a list of batches is what the loop sends exactly when it is a greedy packing: in order, within capacity, and each batch closed only when the next message would overflow it |
| `Batching.PackFrom` | django_amqp/backend.py:87-107 | the loop run from a given batch over the remaining messages sends at least once, takes no more messages than it is given, and takes all of them unless it stops on an oversized one |
| `Batching.PackFromRefusesOnlyOversized` | django_amqp/backend.py:100-105 | from any batch, the loop gives up exactly when some remaining message does not fit an empty batch, and the last message it took is the first such one |
| `Batching.Pack` | django_amqp/backend.py:87-107 | the loop over all the messages sends at least once; it fails exactly when some message does not fit an empty batch, having taken every message up to and including the first such one, and otherwise takes every message |
| `Batching.PackEmpty` | django_amqp/backend.py:87-107 | with no jobs the loop body never runs and exactly one empty batch is sent |

## Left out

- Azure Service Bus SDK internals: the client, the transport, and the byte
  accounting inside `add_message`. A batch is a sequence of messages, and an
  add fits when the sum of an abstract per-message `size` stays within
  `capacity`.
- Transport failures (network, authentication, queue not found) raised by
  send or schedule calls. A send always succeeds in the model. So does the
  single-message send in `enqueue`, whatever the message's size.
- Connection lifecycle: the `with` block of `batch_enqueue` and the client
  that `enqueue` never closes. The queue sender that
  `get_queue_sender(queue_name=task.queue_name)` would return is passed in.
  Callers must pass the sender for the task's queue.
- Django `settings` and `timezone.now()`: the connection-string setting is an
  `Option<string>` parameter, and `now` is an integer timestamp. A setting
  that is present but not a string (Python truthiness of other values) is
  not modelled.
- `super().__init__` and `super().validate_task`: Django's task framework is
  not part of this model. `Task.module_path` is taken as given.
- JSON text: the exact string that `json.dumps` writes, and pydantic's
  coercions. Argument values are JSON trees of null, booleans, integers,
  strings, arrays and objects. Floats, and the `TypeError` for values that
  cannot be serialised, are not modelled.
- Sequence numbers: the broker's numbering is replaced by a counter in
  `QueueSender`. The model promises only that a new number differs from
  every earlier one.
- The result of a scheduled `enqueue` is the list of sequence numbers that
  `schedule_messages` gives back, one per scheduled message. The source's
  return annotation and comment speak of a single number.
- Keys inside `kwargs`: the model's `kwargs` is a sequence of members and
  is not required to have unique keys. `Decode` passes the members of
  `kwargs` through as they are and does not merge repeated keys the way a
  Python dict would.
- The `supports_defer = True` class attribute (backend.py:30) is a flag for
  Django's task framework, which is not part of this model. That the backend
  does defer is what `Enqueue`'s scheduling case states.
- `enqueue` and `batch_enqueue` read the setting again when they connect.
  The model uses the connection string accepted at construction.
