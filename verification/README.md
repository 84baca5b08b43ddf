# easy-http core in Dafny

A model of the logic inside easy-http, a Lua binding for libcurl that performs
HTTP requests synchronously or on a worker thread. Four pieces are modelled:

- **Response buffer** (`buffer.dfy`, module `Buffer`). This is `struct easyhttp_Buffer`: a byte count
  followed by storage of exactly `size + 1` characters, the last one NUL. Append
  reallocates to exactly the new size. There is no doubling. The class keeps the storage in an `array<char>`.
- **Request options** (`options.dfy`, module `Options`). This covers the defaults, the field-by-field
  reading of the configuration table, and the loop that turns the `headers` table
  into `Key: Value` lines through a reused scratch buffer. It also covers the transport settings derived
  from the options. The Lua table is a map of `LuaValue`s. The `headers` table is a
  sequence of pairs in `lua_next` order. The `curl_slist` is a `seq<string>`.
- **Asynchronous request unit** (`async_spec.dfy`, module `AsyncSpec`, and `async.dfy`, module `Async`).
  `AsyncSpec` is a sequential state machine. Each locked region of `src/async.c` is one
  atomic step, and the worker thread is reduced to its phase. Worker events (handle creation,
  chunks, transport failure or success) and the caller's `cancel` drive it. The
  proofs cover its invariant over every trace, first-cause-wins, chunk accumulation and the `response`
  decision. `Async.AsyncRequest` is the record as an object. Each worker-event method
  (`WorkerInitFailed`, `WorkerStarted`, `BufferWrite`, `TransportFailed`, `TransportSucceeded`)
  and `Cancel` is proved to perform exactly one step of the state machine and to keep the invariant.
  `IsDone` and `Response` only read the record. `HandleError` is the helper the failing worker
  methods share; it performs `AsyncSpec.HandleError` and leaves the exit to its caller.
- **Response-header table** of the synchronous request in the older `easyhttp.c` (`header_split.dfy`,
  module `ResponseHeaders`). This is the split at the first colon and the table
  fill, where a later key overwrites an earlier one. `lua_table.dfy` (module `LuaTable`) holds the table fill
  of the asynchronous `response`, written over key/value pairs; there too a later key wins.

Allocation failures, thread and mutex results, the transport's chunks, result,
status and header list are inputs. Characters stand for C `char` bytes.

A few facts about the code the model keeps:
- The buffer grows to exactly the needed size; it does not double.
- A `headers` value that is not a table is ignored and raises no error.
- Header values are neither trimmed nor stripped of CR/LF.
- Equal response-header keys overwrite each other in the result table.
- The defaults are a timeout of 0 and no redirect following (src/common.h:41-42). The comment above
  `easyhttp_async_request` (src/async.c:126-127) documents 30 and true instead. The model uses the
  values the code sets.
- The synchronous request in `easyhttp.c` reads the header list it splits from
  `CURLINFO_COOKIELIST` (easyhttp.c:61). That is the cookie list, not the response headers. The model
  takes whatever list of lines that call yields.

## Model

| member | source | states |
|---|---|---|
| Buffer.Create | src/common.h:137-144 | a fresh buffer has size 0 and a NUL at `data[0]`; it is NULL exactly when the allocation fails |
| Buffer.ResponseBuffer.Append | src/common.h:146-158 | on success the size grows by the chunk length, the content is the old content followed by the chunk, and the storage is exactly `size + 1` long with a NUL at `data[size]`; on allocation failure nothing changes |
| Buffer.Write | src/common.h:160-171 | on success the same buffer is kept with the chunk appended and `size * nmemb` is reported; on allocation failure the pointer becomes NULL, the old block is untouched and 0 is reported |
| Buffer.ResponseBuffer.Empty | src/common.h:139 | the zero-filled allocation holds an empty body followed by its NUL |
| Buffer.ResponseBuffer.Contents | easyhttp.c:63 | the body handed to Lua has exactly `size` bytes, and the storage is that body followed by one NUL |
| Options.Defaults | src/common.h:38-45 | method `GET`, no body, timeout 0, no redirect following, max redirects -1, no output file, no headers |
| Options.AbsentKeysKeepDefaults | src/common.h:49-85 | every key absent from the configuration keeps its default; an empty configuration gives exactly the defaults |
| Options.ParseScalars | src/common.h:49-85 | the scalar fields raise exactly when a present `method`, `body`, `timeout`, `max_redirects` or `output_file` has the wrong type; on success no header lines are set yet |
| Options.PresentKeysOverride | src/common.h:49-85 | a present, well-typed field replaces its default: method and body as given, timeout and max redirects as C `int`s, `follow_redirects` through `lua_toboolean`, the output file handle |
| Options.CheckString | src/common.h:51-61 | a string field is accepted exactly when it holds a string, otherwise a Lua error is raised |
| Options.CheckInteger | src/common.h:63-79 | an integer field is accepted exactly when it holds an integer, otherwise a Lua error is raised |
| Options.CheckFile | src/common.h:81-85 | the output file is accepted exactly when it is a `FILE*` userdata |
| Options.ToBoolean | src/common.h:69-73 | `follow_redirects` is false exactly for nil and false |
| Options.CInt | src/common.h:65 | a Lua integer stored into a C `int` keeps its low 32 bits as two's complement: in range, congruent modulo 2^32, unchanged when it already fits |
| Options.CStr | src/common.h:100 | `strlen` sees the characters before the first NUL, a NUL-free prefix of the string |
| Options.Snprintf | src/common.h:111 | at most `cap - 1` characters of the formatted line survive, all of it when it fits |
| Options.Need | src/common.h:100-102 | a pair needs exactly the length of its line plus one byte for the NUL (`len(key) + len(value) + 3`) |
| Options.Lines | src/common.h:111-112 | one `Key: Value` line per pair, in iteration order |
| Options.MaxNeed | src/common.h:101-102 | the largest need among the pairs, 0 for none |
| Options.SerialiseFrom | src/common.h:97-114 | from any point of the loop: at most one line per remaining pair, one per pair on success, the scratch size never shrinks, and running out of memory needs a failed allocation and reports the resize message |
| Options.SerialiseHeaders | src/common.h:87-117 | without a failed allocation there is no out-of-memory outcome; a failed first `malloc` leaves an empty list; success gives one line per pair |
| Options.SerialiseFromRaises | src/common.h:97-99 | the loop raises only on a pair whose key or value is not a string, and without a failed allocation it always raises on one |
| Options.BuildHeaderList | src/common.h:87-117 | the loop builds the list, status and scratch size that the serialisation defines, including its error exits |
| Options.SerialiseFromLines | src/common.h:97-114 | from any point of the loop, the lines built are full lines of a prefix of the pairs; running out of memory reports the resize message; the scratch size never shrinks |
| Options.SerialiseHeadersLines | src/common.h:91-114 | whatever the outcome, the list holds one untruncated line per pair for a prefix of the pairs in order, complete on success; out of memory needs a failed allocation, and the first-allocation message appears exactly when the initial `malloc` fails |
| Options.SerialiseFromComplete | src/common.h:97-114 | with string pairs and no failed allocation, the loop yields every line and the scratch ends at the larger of its start size and the largest need |
| Options.SerialiseHeadersComplete | src/common.h:91-117 | with string pairs and no failed allocation, the serialisation succeeds with one line per pair and a scratch buffer of exactly the largest need (it grows only when a line does not fit) |
| Options.ParseEmpty | src/common.h:47-122 | an empty configuration yields the defaults and a NULL error |
| Options.ParseSucceeds | src/common.h:47-122 | a well-typed configuration without allocation failure yields a NULL error, the defaults for absent keys and the serialised header lines |
| Options.Parse | src/common.h:47-122 | an `*error` message needs a failed allocation and a `headers` table; without a `headers` table there are no header lines and no error; an ill-typed scalar field raises |
| Options.ParseRaises | src/common.h:47-122 | without a failed allocation the reader raises exactly when a present scalar field has the wrong type or the `headers` table holds a non-string key or value; with failed allocations it raises only then |
| Options.ParseOptions | src/common.h:47-122 | the reader returns the Lua error, or the options with the `*error` message, as `Options.Parse` defines them |
| Options.SetOptions | src/common.h:124-134 | the custom request method is set first; post fields are set exactly when there is a body; the header list is set exactly when it is non-empty; timeout, redirect following and redirect limit are always set |
| LuaTable.AssignKeys | src/async.c:216-219 | a key is in the filled table exactly when it was there before or some pair assigns it |
| LuaTable.AssignLastWins | src/async.c:216-219 | a key holds the value of the last pair that assigns it |
| LuaTable.AssignUntouched | src/async.c:216-219 | a key no pair assigns keeps its value |
| ResponseHeaders.ColonIndex | easyhttp.c:67 | the position of the first colon, or none exactly when the line has no colon |
| ResponseHeaders.SplitLine | easyhttp.c:67-70 | no entry exactly for a line without a colon; the key is the colon-free text before the first colon; the value is the text from two characters past it |
| ResponseHeaders.TableOf | easyhttp.c:65-73 | no key of the table contains a colon; an empty list gives an empty table |
| ResponseHeaders.FillTable | easyhttp.c:65-73 | the loop over the header list yields the table of the lines processed in order |
| ResponseHeaders.TableKeys | easyhttp.c:66-72 | a key is in the table exactly when some line with a colon carries it; lines without a colon add nothing |
| ResponseHeaders.TableLastWins | easyhttp.c:66-71 | a key holds the value of the last line carrying it |
| AsyncSpec.ThreadErrorMessage | src/async.c:36-54 | `thrd_nomem`, `thrd_timedout` and `thrd_busy` map to their messages, anything else to "unknown error" |
| AsyncSpec.Init | src/async.h:13-27 | a new unit has no error, is neither cancelled nor done, and its worker has not started |
| AsyncSpec.HandleError | src/async.c:20-34 | on a cancelled unit nothing changes and the worker reports a cancellation; otherwise the message is recorded, the unit marked cancelled and the error exit code 0xB returned |
| AsyncSpec.HandleErrorAsWritten | src/async.c:20-34 | as written, a cancelled unit is left unchanged and 1 is returned; otherwise the message is recorded, the unit is marked cancelled and 0xB is returned |
| AsyncSpec.ChunkStep | src/async.c:56-70 | a cancelled unit ends the worker with 0xA and keeps its body; otherwise the body grows by the chunk exactly when the allocation succeeds and is lost otherwise; nothing else changes |
| AsyncSpec.CopyFrom | src/async.c:93-117 | the worker always exits and the body and status stay as they are; the count grows by at most one per remaining header, and by exactly that on success; only a failed allocation stops the loop early; on an already cancelled unit no error is recorded |
| AsyncSpec.WorkerStep | src/async.c:72-119 | done and cancelled are never cleared, and a cancelled unit records no error; only success changes the status; the start creates an empty body; every event but the start and a chunk ends the worker |
| AsyncSpec.Step | src/async.c:72-119 | done and cancelled are never cleared, and a cancelled unit records no error; a worker that has exited produces no more events |
| AsyncSpec.CancelStep | src/async.c:224-239 | cancelling a done unit changes nothing; otherwise only the cancelled flag is raised |
| AsyncSpec.InitInv | src/async.c:131-161 | a new unit satisfies the invariant |
| AsyncSpec.FailInv | src/async.c:20-34 | a worker that fails before being done leaves a unit satisfying the invariant |
| AsyncSpec.CopyFromInv | src/async.c:93-117 | every outcome of the header-copy loop satisfies the invariant |
| AsyncSpec.StepInv | src/async.c:56-119 | every worker event and every `cancel` keeps the invariant: done and error exclude each other, each terminal state goes with its exit code, an error comes with the cancelled flag, a done unit has a body and `headerCount` complete header entries |
| AsyncSpec.RunInv | src/async.c:72-239 | every trace of worker events and cancellations from a valid unit keeps the invariant |
| AsyncSpec.DoneExcludesError | src/async.c:72-119 | no reachable unit is both done and in error |
| AsyncSpec.TerminalIsFinal | src/async.c:224-239 | once a unit is done or holds an error no event changes it again, so the first terminal cause wins and cancel-after-done is a no-op |
| AsyncSpec.FailureAfterCancel | src/async.c:89-91 | a transport failure after `cancel` records no error and the worker reports the cancellation |
| AsyncSpec.ChunkAfterCancel | src/async.c:56-64 | with the cancelled flag raised, a chunk ends the worker with 0xA and leaves the body untouched |
| AsyncSpec.Copies | src/async.c:106-114 | entry `k` of a complete copy holds key and value of received header `k` |
| AsyncSpec.CopyAll | src/async.c:93-117 | from any point of the loop with no failed allocation, the count grows by one per remaining header, the entries are appended in enumeration order, nothing else changes, and the unit ends done with exit code 0 |
| AsyncSpec.SuccessCopiesAll | src/async.c:93-118 | a successful transfer with no failed allocation stores the status; the header array is every received header in order with a matching count; the unit is done with no error |
| AsyncSpec.ChunksAccumulate | src/async.c:66-69 | chunks that all fit leave exactly their concatenation after the earlier body |
| AsyncSpec.Decide | src/async.c:174-222 | a recorded error is returned before anything else; a unit that is not done is joined, a failed join is reported with its reason, exit code 0xA reports "request was cancelled" and an unknown code "unknown error"; a done unit delivers body, status and header table |
| AsyncSpec.ExitReply | src/async.c:194-209 | every non-zero exit code is a failure: 0xA reports "request was cancelled", 0xB the recorded error, any other code "unknown error" |
| AsyncSpec.DecideAcrossJoin | src/async.c:174-222 | an error seen at the call is returned; a reply is delivered only when no error was seen at the call and the unit was done then, or the join succeeded with exit code 0; in that last case the finished unit is delivered |
| AsyncSpec.DecideIndependentOfTiming | src/async.c:185-211 | checking at the call and reading the exit code and results after a successful join gives what deciding on the finished unit gives |
| AsyncSpec.DeliveredHeaders | src/async.c:213-219 | a done unit delivers its body and status, and each copied header whose key does not appear later is in the table with its value |
| AsyncSpec.CancelledFailureReported | src/async.c:196-209 | a request cancelled before its transport fails is reported as "request was cancelled" |
| AsyncSpec.CancelledFailureAsWritten | src/async.c:24-27 | as written, a request cancelled before its transport fails is reported as "unknown error" |
| Async.AsyncRequest.constructor | src/async.c:133-139 | a new record is the initial unit with the given URL and options; both are constant fields, so no later step changes them |
| Async.AsyncRequest.HandleError | src/async.c:20-34 | performs the corrected `AsyncSpec.HandleError` on the record (0xA on a cancelled unit) and returns its exit code |
| Async.AsyncRequest.WorkerInitFailed | src/async.c:75-78 | a failed handle creation goes through `handle_error`, and the worker exits with its code; the invariant holds |
| Async.AsyncRequest.WorkerStarted | src/async.c:80-86 | the worker creates an empty response buffer and starts the transfer; the invariant holds |
| Async.AsyncRequest.BufferWrite | src/async.c:56-70 | a cancelled unit ends the worker with 0xA and leaves the buffer alone; otherwise the chunk is appended and `size * nmemb` is returned, or 0 with the buffer lost when allocation fails |
| Async.AsyncRequest.TransportFailed | src/async.c:88-91 | a transport failure goes through `handle_error`, and the worker exits with its code |
| Async.AsyncRequest.TransportSucceeded | src/async.c:93-118 | stores the status; counts, grows and copies each header in order; hands allocation failures to `handle_error`; marks the unit done last; the invariant holds |
| Async.AsyncRequest.IsDone | src/async.c:163-171 | reports done exactly when the worker finished successfully |
| Async.AsyncRequest.Cancel | src/async.c:224-239 | on a done unit returns false and "request is already done" and changes nothing; otherwise raises the flag and returns true |
| Async.AsyncRequest.Response | src/async.c:174-222 | returns the decision `AsyncSpec.Decide` makes on the record, building the header table in array order |
| Async.Start | src/async.c:131-161 | a non-string URL or ill-typed option raises; an options error is returned; a mutex failure is returned before any thread is created; a thread failure is returned with its reason; otherwise a fresh valid unit holding the parsed options is created and spawned (with a `headers` table the code's extra pop means Lua does not receive it; see Left out) |

## Left out

- Lua API calls are not modelled; configuration tables are maps and sequences of values. Lua errors carry only what was expected, not the message text.
- `luaL_checkstring` accepting numbers and `luaL_checkinteger` accepting numeric strings are not modelled: only strings and integers pass. A non-table options argument is not modelled.
- libcurl calls are inputs. The effect of `easyhttp_set_options` is the list of settings `Options.SetOptions` returns. The worker's configuration of its handle is not part of the state.
- Threads and the mutex are abstracted: each locked region is one atomic step and interleavings are not verified.
- Locking defects are not modelled. `handle_error` re-locks the held mutex at src/async.c:104, 108 and 112, and the model treats that call as if the lock were free. src/async.c:192 and 220 unlock a mutex that is not held. `cancelled` is read without the lock at src/async.c:59 and written without it at src/async.c:244.
- AsyncSpec.HandleError: returns 0xA on a unit that is already cancelled, where src/async.c:26 returns 1. This is the corrected code of the finding below. `Fail`, `WorkerStep`, `Step` and `Run` all inherit the change. So do `StepInv`, `RunInv`, `TerminalIsFinal` and `DecideIndependentOfTiming`. The exit-code clause of `Inv` holds only with it: as written, a cancelled worker that then fails exits with 1. `HandleErrorAsWritten` and `CancelledFailureAsWritten` model the code as written.
- Async.AsyncRequest.HandleError: performs the corrected `AsyncSpec.HandleError`, so every worker method of the class (`WorkerInitFailed`, `TransportFailed`, `TransportSucceeded`) returns 0xA where src/async.c:26 returns 1 on an already cancelled unit.
- The record from `lua_newuserdata` is never zeroed by the source. The model starts from zero values (`AsyncSpec.Init`).
- Async.AsyncRequest.WorkerStarted: the unchecked `easyhttp_buffer_create` at src/async.c:85 is assumed to succeed. If it failed, src/common.h:163 or src/async.c:213 would dereference NULL.
- AsyncSpec.Enabled: no chunk and no success are allowed once the response buffer is lost (NULL). After a short write the transport does end the transfer with a failure. A zero-length chunk whose `realloc` fails is different. It makes the sink set the buffer to NULL and return 0 (src/common.h:165-167), and 0 equals `size * nmemb`, so it is not a short write. The transfer can then succeed, and `response` would dereference NULL at src/async.c:213. The model excludes that path. `Inv`'s clause that a done unit has a body depends on the exclusion.
- ResponseHeaders.SplitLine: `WellFormed` excludes a line whose first colon is its last character. For such a line `colon + 2` at easyhttp.c:70 reads past the terminator, which is undefined behaviour and is not modelled.
- Async.Start: the Lua stack is not modelled. With a `headers` table in the options, `easyhttp_parse_options` pops one value more than it pushed: src/common.h:116 and again src/common.h:118 for the single push at src/common.h:87. That removes the request object pushed at src/async.c:133. So `return 1` at src/async.c:160 hands Lua the options table (or a later argument) instead of the request. The caller never receives the unit, and its worker runs on until `__gc` joins it. `Async.Start`'s `Spawned` result is the request the code evidently means to return, not what Lua sees in that case.
- Async.AsyncRequest.Response: sequential model. It requires the worker to have finished whenever it would be joined. `AsyncSpec.DecideIndependentOfTiming` shows that deciding then equals deciding across the join when the join succeeds. Joining a second time after a cancelled or failed worker is undefined in the source and is not modelled.
- Async.AsyncRequest.TransportSucceeded: a failed header-key copy leaves the new array entry with both fields NULL in the model. In the source its value field is never written.
- The `__gc` teardown (src/async.c:241-260) is not modelled. It raises `cancelled` without the lock (src/async.c:244), joins the thread and frees memory.
- The allocation failure of `curl_slist_append` is not modelled. It would return NULL and drop the list built so far.
- Buffer.Write: the count is an unbounded number. The `size_t` product and the `int` return cannot wrap for chunks of at most libcurl's maximum write size.
- The synchronous request plumbing in src/easyhttp.c is not modelled. That includes the choice of the output-file sink at lines 58-63. In easyhttp.c only the header split, the table fill and the body read are modelled. The model takes the list of header lines as given; the source reads it from `CURLINFO_COOKIELIST`.
- src/multi.h, the root async.c, async.h and common.h are superseded or unfinished revisions. The root common.h buffer code is identical to src/common.h.

## Findings

| source | as written | input that shows it | evidently intended | confidence | as-written member | corrected member |
|---|---|---|---|---|---|---|
| src/async.c:24-27 | `handle_error` returns 1 for a unit that is already cancelled, and `response` (src/async.c:196-209) maps 1 to "unknown error" | call `cancel` during the transfer, then the transport fails (for example the host cannot be resolved) | the worker exits with `EASYHTTP_EXIT_CANCELLED`, so `response` reports "request was cancelled" | medium, not executed | AsyncSpec.CancelledFailureAsWritten | AsyncSpec.CancelledFailureReported |
