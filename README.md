# Tarantool queue client — a Dafny model

`tarantool/queue` is a thin PHP client for a task queue that lives inside a
Tarantool database server. Scheduling, priorities, TTL/TTR and state changes
all happen on the server. The client builds each remote call: the stored
function name `queue.tube.<tube>:<op>` and its positional arguments. It then
reads the reply: it turns row 0 into a `Task`, picks out a scalar, or walks a
dot-separated path through the statistics array. The `Queue` class takes
the PECL `\Tarantool` driver directly (src/Queue.php:20) and indexes its raw
reply as `$result[0]` and `$result[0][0]`. Three small adapters reshape the
replies of the different driver variants, and they do not all produce that
shape. Only `ClientAdapter` yields the `$result[0]` / `$result[0][0]` layout
that `Queue` reads. `TarantoolAdapter` turns a scalar reply `[[v]]` into
`[v]`, so kick's `$result[0][0]` would read null. `PeclHandler` returns
row 0 itself, so a task decoder would be handed the id instead of the tuple.
`TarantoolAdapter.KickAfterUnwrapIsNull` and
`PeclHandler.TaskAfterHandlerIsTypeError` prove both mismatches, and
`ClientAdapter.KickAfterWrap` proves the match.

This project models that client-side logic and proves what it promises.

- `php.dfy` (module `Php`) holds the PHP semantics the client relies on:
  - values and ordered arrays;
  - reading `$v[$k]`, `isset`, `empty`, `??` and array union `+`;
  - the cast of a string offset such as `"7"` to the integer key `7`;
  - `explode('.', ...)`.
- `task.dfy` (module `Tasks`) models `Task::createFromTuple`, the getters and
  the five state predicates. The state codes of `States.php` are folded in.
- `queue.dfy` (module `Queues`) models the tube handle `Queue`:
  - one request builder per operation;
  - the decoders of row 0;
  - `statistics`, as a method with a loop proved against a recursive
    specification function.
- `tarantool_adapter.dfy`, `client_adapter.dfy` and `pecl_handler.dfy` model
  the three reply normalisers.
- `remote.dfy` (module `Remote`) and `wrappers.dfy` (module `Wrappers`) hold
  the shared types. A remote call is a `Request`. The database driver is a
  function parameter of type `Caller`: it returns the raw reply or the
  exception it throws.

In the model a `Task` is a datatype value. Its fields `id`, `state` and `data`
are the getters. Being a value, it cannot change after it is made, just as
the PHP object's private fields are assigned only in its private constructor.

Three details of `src/Queue.php` are worth stating:
- The statistics function it calls is `queue.statistics` (src/Queue.php:142).
- A path segment fails when `isset` fails, so a key whose value is null counts as missing.
- The integration tests call `stats('tasks.total')` and `statistics('tasks', 'delayed')`. Neither matches `Queue::statistics($path = null)` as written. The model follows that signature.

## Model

| member | source | states |
|---|---|---|
| `Php.IsSetIffIndex` | src/Queue.php:150 | `isset($v[$k])` holds exactly when reading the offset gives non-null, and `empty($v[$k])` exactly when that read value is falsy |
| `Php.Union` | src/Task.php:29 | `$a + $b` keeps all of `$a` first, then adds only entries of `$b` whose key `$a` lacks |
| `Php.UnionLookup` | src/Task.php:29 | in `$a + $b` every key keeps its value from `$a`; only keys `$a` lacks take their value from `$b` |
| `Php.ArrayKey` | src/Queue.php:150-153 | a string offset selects a string key equal to itself, or an integer key within the 64-bit range |
| `Php.ArrayKeyOfDecimal` | src/Queue.php:150-153 | the decimal form of any 64-bit integer, used as an offset, selects that integer key (so `"0"` reads row 0 of a list) |
| `Php.ArrayKeyIntIsDecimal` | src/Queue.php:150-153 | a string offset selects an integer key only if it is exactly that integer's decimal form (`"07"`, `"-0"`, `"+1"` stay string keys) |
| `Php.Explode` | src/Queue.php:149 | `explode('.', path)` gives at least one segment and no segment contains a dot |
| `Php.ImplodeExplode` | src/Queue.php:149 | joining the segments with dots gives back the path, so no character is lost or reordered |
| `Php.ExplodeImplode` | src/Queue.php:149 | exploding dot-joined dot-free segments gives the segments back, empty ones included |
| `Php.ExplodeConcat` | src/Queue.php:149 | a dot-free first segment, a dot and the rest explode to that segment followed by the rest's segments |
| `Tasks.FromTuple` | src/Task.php:20-32 | the tuple is accepted exactly when it is an array whose offset 0 holds an int and offset 1 a string; the task then carries offsets 0, 1 and 2 unchanged, offset 2 reading as null when absent; otherwise a TypeError |
| `Tasks.FromTupleToTuple` | src/Task.php:27-47 | building a task from `[id, state, data]` and reading the getters gives back exactly id, state and data |
| `Tasks.FromTuplePair` | src/Task.php:29 | a two-element tuple `[id, state]` yields a task whose data is null |
| `Tasks.FromTupleIgnoresRest` | src/Task.php:29-31 | elements after offset 2 of the tuple do not affect the task |
| `Tasks.Task.IsReady` | src/Task.php:49-52 | a ready task's state is none of the other four codes |
| `Tasks.Task.IsTaken` | src/Task.php:54-57 | a taken task's state is none of the other four codes |
| `Tasks.Task.IsDone` | src/Task.php:59-62 | a done task's state is none of the other four codes |
| `Tasks.Task.IsBuried` | src/Task.php:64-67 | a buried task's state is none of the other four codes |
| `Tasks.Task.IsDelayed` | src/Task.php:69-72 | a delayed task's state is none of the other four codes |
| `Tasks.PredicateIffCode` | src/Task.php:49-72 | each of the five predicates holds exactly when the state equals its code `r`, `t`, `-`, `!`, `~` |
| `Tasks.ExactlyOnePredicate` | src/Task.php:49-72 | for each of the five codes, its predicate holds and the other four do not |
| `Tasks.UnknownStateNoPredicate` | src/Task.php:49-72 | a state outside the five codes makes all five predicates false |
| `Queues.Queue.Prefix` | src/Queue.php:24 | the stored prefix is one character longer than `queue.tube.` plus the tube name, and parses back to this queue's tube with an empty operation |
| `Queues.FuncNameRoundTrip` | src/Queue.php:24 | the name `queue.tube.<tube>:<op>` gives back its tube and its operation when the operation has no colon |
| `Queues.ParseFuncNameInverse` | src/Queue.php:24 | every name that parses as a per-tube name is `queue.tube.` + tube + `:` + operation |
| `Queues.PutReleaseNames` | src/Queue.php:33-78 | put and release call the per-tube name that parses back to the handle's tube and `put` / `release` |
| `Queues.TakeName` | src/Queue.php:46-52 | take calls the per-tube name that parses back to the handle's tube and `take`, whatever the timeout |
| `Queues.TaskOpNames` | src/Queue.php:59-126 | ack, peek, bury and delete call the per-tube name that parses back to the handle's tube and their operation |
| `Queues.TubeOpNames` | src/Queue.php:109-131 | kick and truncate call the per-tube name that parses back to the handle's tube and their operation |
| `Queues.Queue.PutRequest` | src/Queue.php:33-36 | put calls `queue.tube.<tube>:put` with `[data]` when options is null or empty, else with `[data, options]` |
| `Queues.Queue.TakeRequest` | src/Queue.php:46-49 | take calls `queue.tube.<tube>:take` with no argument exactly when the timeout is null; any other timeout, 0 included, is sent as the one argument |
| `Queues.Queue.AckRequest` | src/Queue.php:59-61 | ack calls `queue.tube.<tube>:ack` with exactly `[taskId]` |
| `Queues.Queue.ReleaseRequest` | src/Queue.php:72-75 | release calls `queue.tube.<tube>:release` with `[taskId]` when options is null or empty, else `[taskId, options]` |
| `Queues.Queue.PeekRequest` | src/Queue.php:85-87 | peek calls `queue.tube.<tube>:peek` with exactly `[taskId]` |
| `Queues.Queue.BuryRequest` | src/Queue.php:97-99 | bury calls `queue.tube.<tube>:bury` with exactly `[taskId]` |
| `Queues.Queue.KickRequest` | src/Queue.php:109-111 | kick calls `queue.tube.<tube>:kick` with exactly `[count]` |
| `Queues.Queue.DeleteRequest` | src/Queue.php:121-123 | delete calls `queue.tube.<tube>:delete` with exactly `[taskId]` |
| `Queues.Queue.TruncateRequest` | src/Queue.php:128-131 | truncate calls `queue.tube.<tube>:truncate` and passes no argument list |
| `Queues.Queue.StatisticsRequest` | src/Queue.php:142 | statistics calls `queue.statistics`, a name outside the per-tube scheme, with the tube name as its only argument |
| `Queues.DecodeTask` | src/Queue.php:36-38 | put, ack, release, peek, bury and delete return a task exactly when row 0 is a task tuple, and that task carries row 0's fields; otherwise a TypeError |
| `Queues.DecodeTake` | src/Queue.php:51 | take returns null exactly when `empty($result[0])`; otherwise the task row 0 describes, or a TypeError if row 0 is not a task tuple |
| `Queues.DecodeKick` | src/Queue.php:111-113 | kick's result is non-null exactly when field 0 of row 0 is set, and then it is the value stored under that key |
| `Queues.DecodeTaskOfRows` | src/Queue.php:61-63 | a reply whose row 0 is a task's tuple decodes to that task whatever rows follow |
| `Queues.DecodeTakeNoTask` | src/Queue.php:51 | take gives null for a reply with no rows and for one whose row 0 is an empty list |
| `Queues.DecodeTakeOfRows` | src/Queue.php:51 | take gives the task of row 0 when row 0 is a task tuple |
| `Queues.DecodeKickCount` | src/Queue.php:113 | kick returns whatever value is in row 0, field 0, unchanged |
| `Queues.Walk` | src/Queue.php:149-154 | the path walk either fails with `Invalid path "<path>".` quoting the whole path, or, for a non-empty list of segments, reaches a non-null value (`explode` gives every path, `""` included, at least one segment) |
| `Queues.DecodeStatistics` | src/Queue.php:144-156 | a null path returns `$result[0][0]`; a given path either fails with the invalid-path error quoting that path or returns a non-null value |
| `Queues.Statistics` | src/Queue.php:140-157 | the loop returns `$result[0][0]` unchanged for a null path, and otherwise computes exactly the segment-by-segment walk; any failure is the invalid-path error for the whole path |
| `Queues.WalkAppend` | src/Queue.php:149-154 | walking a path's segments is walking a prefix of them and then the rest from where the prefix ended; a failure in the prefix stops the walk |
| `Queues.StatisticsBySegments` | src/Queue.php:148-156 | a path made of dot-free segments is walked through those segments, in order |
| `Queues.StatisticsTwoSegments` | src/Queue.php:148-156 | `"a.b"` returns offset b of offset a of the statistics array, or the invalid-path error when either is not set |
| `Queues.StatisticsEmptyPath` | src/Queue.php:149-152 | the empty path fails with `Invalid path "".` when the statistics array has no key `""` set |
| `Queues.StatisticsEmptyKey` | src/Queue.php:149-155 | when the statistics array has a key `""` set, the empty path returns the value under that key |
| `Queues.StatisticsLeadingDot` | src/Queue.php:149-152 | a path starting with a dot fails at once, with the error quoting the whole path, when the statistics array has no key `""` set |
| `Queues.StatisticsTrailingDot` | src/Queue.php:149-152 | a path `seg.` ending with a dot fails on its empty last segment when the value reached by `seg` has no key `""` set |
| `Queues.StatisticsNullIsMissing` | src/Queue.php:150-151 | a segment whose value is null counts as missing: the path fails instead of returning null |
| `Queues.NamedKey` | src/Queue.php:150-153 | a path segment whose first character is neither a digit nor `-` is used as a string key, never cast to an integer |
| `Queues.StatisticsNested` | src/Queue.php:148-156 | a two-segment path `a.b` over a reply holding `{a: {b: v}}` with non-null v returns v, when neither `a` nor `b` is cast to an integer key |
| `Queues.StatisticsTasksTotal` | src/Queue.php:148-156 | `tasks.total` on a reply holding `{tasks: {total: n}}` returns n |
| `TarantoolAdapter.Normalize` | src/TarantoolAdapter.php:36 | the reply is kept when `result[0][1]` is set, otherwise replaced by `result[0]` when that is set, otherwise kept |
| `TarantoolAdapter.Call` | src/TarantoolAdapter.php:25-27 | the variadic arguments reach the driver as one list, in order, under the same name; a driver exception passes through; a reply comes back normalised |
| `TarantoolAdapter.TuplesKept` | src/TarantoolAdapter.php:31-36 | a reply of tuples whose first row has a non-null second field is returned unchanged |
| `TarantoolAdapter.ScalarUnwrapped` | src/TarantoolAdapter.php:31-36 | a scalar reply `[[v]]` becomes `[v]` |
| `TarantoolAdapter.KickAfterUnwrapIsNull` | src/Queue.php:109-113 | kick reads n from the raw scalar reply `[[n]]`, but reads null from the same reply once this adapter has unwrapped it |
| `TarantoolAdapter.EmptyKept` | src/TarantoolAdapter.php:33-36 | an empty reply `[]` stays `[]` |
| `ClientAdapter.Normalize` | src/ClientAdapter.php:29 | the data is kept exactly when `data[0][0]` is set, otherwise wrapped as `[data]`; offset 0 of the result always exists, and is set whenever the data is an array |
| `ClientAdapter.Call` | src/ClientAdapter.php:25-29 | name and arguments reach the driver unchanged; a driver exception passes through; the data comes back normalised |
| `ClientAdapter.RowsKept` | src/ClientAdapter.php:29 | data whose first row has a non-null first field is returned unchanged |
| `ClientAdapter.ScalarRowWrapped` | src/ClientAdapter.php:29 | a single scalar row `[n]` becomes `[[n]]` |
| `ClientAdapter.EmptyWrapped` | src/ClientAdapter.php:29 | empty data `[]` becomes `[[]]` |
| `ClientAdapter.KickAfterWrap` | src/Queue.php:109-113 | after this adapter wraps a scalar row `[n]`, kick's `$result[0][0]` reads n |
| `ClientAdapter.EmptyReplyTakesNothing` | src/ClientAdapter.php:29 | after normalisation an empty reply still makes take return null |
| `PeclHandler.Normalize` | src/PeclHandler.php:27 | the result is null exactly when `empty($result[0])`, and otherwise is `$result[0]` itself, a truthy value |
| `PeclHandler.Invoke` | src/PeclHandler.php:23-27 | name and arguments, or their absence, reach the driver unchanged; a driver exception passes through; the reply comes back normalised |
| `PeclHandler.OnlyRow0Matters` | src/PeclHandler.php:27 | two replies with the same row 0 give the same result |
| `PeclHandler.LaterRowsIgnored` | src/PeclHandler.php:27 | rows after row 0 never affect the result |
| `PeclHandler.TaskAfterHandlerIsTypeError` | src/Queue.php:33-38 | a task tuple in row 0 of the raw reply decodes to its task, but the handler's result (row 0 itself) fails with a TypeError |
| `PeclHandler.NoRowGivesNull` | src/PeclHandler.php:27 | a reply with no rows, or with an empty row 0, gives null |

## Left out

- The database driver, the network and the `take` timeout wait. The driver is the `Caller` parameter of the adapters. A queue operation is modelled as the request it sends and the decoding of whatever reply comes back. The queue's own `client` field and its single remote call per operation are not represented.
- The tube name is typed as a string. In PHP `$tubeName` is untyped (src/Queue.php:20). It is interpolated into the prefix as a string (src/Queue.php:24) but sent to `queue.statistics` as the raw value (src/Queue.php:142).
- Server-side queue behaviour: priorities, TTL/TTR expiry, delays, which task a `take` returns, kick counts and statistics contents. The integration tests exercise these; they are not client code.
- Tasks.FromTuple: PHP's coercive-mode conversions of the constructor arguments are not modelled. Examples are the string `"5"` accepted as id 5, or an int state turned into a string. The model raises a TypeError for any id that is not an int and any state that is not a string.
- String offsets: PHP lets `$s[0]` and `isset($s["0"])` reach into a string. In the model every non-array value has no offsets, so reading one gives null and `isset` is false. Objects implementing `ArrayAccess` are treated the same way.
- Integer width: ids, counts and other integers are unbounded. PHP's are 64-bit. Only the string-offset cast (`Php.ArrayKey`) applies the 64-bit range.
- Floats are kept as their IEEE 754 bit pattern and used only for truthiness (`0.0` and `-0.0` are falsy).
- The value `truncate` returns (always null) is not modelled; its reply is discarded.
- Call arguments are a list (`seq<Value>`, positions 0, 1, 2, …). PHP's `array $args` (src/ClientAdapter.php:25, src/PeclHandler.php:23) and the variadic `...$args` (src/TarantoolAdapter.php:25) may also carry string keys, which the adapters forward unchanged; the model cannot express such argument arrays.
- `src/PureHandler.php` (it only forwards to the driver), `src/Options.php` and `src/TtlOptions.php` (constants only).
- Plain objects used as arrays: PHP throws an Error (`Cannot use object of type X as array`) when code indexes an object that does not implement `ArrayAccess`. The model gives such a value (`Opaque`) no offsets instead, so reading one yields null and `isset` is false.
- Queues.Queue.PutRequest and Queues.Queue.ReleaseRequest: the `array $options = null` declaration (src/Queue.php:33, src/Queue.php:72) makes PHP raise a TypeError for any other argument. Here that declaration is a precondition (`options` is null or an array), and the TypeError path is not modelled.
- Array well-formedness: `Arr(entries)` can hold a key twice, and a string key such as `"7"` that PHP would have cast to the integer key 7. PHP never builds either. The model does not exclude them, and its lookups take the first entry whose key is equal.
- The constructor type checks and `getName` that `tests/Unit/QueueTest.php` exercises are not in `src/Queue.php` as written.
