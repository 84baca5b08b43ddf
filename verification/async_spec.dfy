/**
 * The asynchronous request unit as a sequential state machine. Each locked
 * region of `src/async.c` is one atomic step; the mutex and the worker
 * thread are abstracted into the phase of the worker. The transport's
 * behaviour (chunks, failure or success, status, response headers) arrives
 * as events, and allocation failures as flags inside them.
 */
module AsyncSpec {
  import opened Wrappers
  import LuaTable

  const ExitSuccess := 0
  const ExitCancelled := 0xA
  const ExitError := 0xB

  /** The result codes of the C11 thread functions. */
  datatype ThreadStatus = ThrdSuccess | ThrdNomem | ThrdTimedout | ThrdBusy | ThrdError

  /** `thread_error_message`. */
  function ThreadErrorMessage(t: ThreadStatus): (m: string)
    ensures t == ThrdNomem ==> m == "out of memory"
    ensures t == ThrdTimedout ==> m == "timed out"
    ensures t == ThrdBusy ==> m == "resource busy"
    ensures t == ThrdSuccess || t == ThrdError ==> m == "unknown error"
  {
    match t
    case ThrdNomem => "out of memory"
    case ThrdTimedout => "timed out"
    case ThrdBusy => "resource busy"
    case _ => "unknown error"
  }

  /** Where the worker thread is: not yet past handle creation, in the transfer, or gone with an exit code. */
  datatype WorkerPhase = NotStarted | Transferring | Exited(code: int)

  /** One element of the copied header array; None is a NULL left by a failed `strdup` (or never written). */
  datatype Slot = Slot(key: Option<string>, value: Option<string>)

  predicate Full(slot: Slot) {
    slot.key.Some? && slot.value.Some?
  }

  /**
   * The shared record (`struct easyhttp_AsyncRequest`): `body` is the
   * response buffer's contents (None while the pointer is NULL), `headers`
   * the header array (None while NULL) and `headerCount` its counter.
   */
  datatype Unit = Unit(
    error: Option<string>,
    cancelled: bool,
    done: bool,
    body: Option<seq<char>>,
    responseCode: int,
    headers: Option<seq<Slot>>,
    headerCount: nat,
    worker: WorkerPhase)

  /** A unit just handed to its worker. */
  function Init(): (s: Unit)
    ensures s.error.None? && !s.cancelled && !s.done && s.worker == NotStarted
  {
    Unit(None, false, false, None, 0, None, 0, NotStarted)
  }

  // ---------------------------------------------------------------------
  // Recording an error

  /**
   * `handle_error` with the exit code it evidently means for a unit that is
   * already cancelled: the earlier cause is kept and the worker reports a
   * cancellation. Otherwise the message is recorded, the unit is marked
   * cancelled and the worker reports an error.
   */
  function HandleError(s: Unit, message: string): (r: (Unit, int))
    ensures s.cancelled ==> r == (s, ExitCancelled)
    ensures !s.cancelled ==> r.0 == s.(error := Some(message), cancelled := true) && r.1 == ExitError
  {
    if s.cancelled then (s, ExitCancelled)
    else (s.(error := Some(message), cancelled := true), ExitError)
  }

  /** `handle_error` as written: a unit that is already cancelled makes the worker exit with 1. */
  function HandleErrorAsWritten(s: Unit, message: string): (r: (Unit, int))
    ensures s.cancelled ==> r == (s, 1)
    ensures !s.cancelled ==> r.0 == s.(error := Some(message), cancelled := true) && r.1 == ExitError
  {
    if s.cancelled then (s, 1)
    else (s.(error := Some(message), cancelled := true), ExitError)
  }

  /** The worker returns whatever `handle_error` returned. */
  function Fail(s: Unit, message: string): Unit {
    var (s', code) := HandleError(s, message);
    s'.(worker := Exited(code))
  }

  function FailAsWritten(s: Unit, message: string): Unit {
    var (s', code) := HandleErrorAsWritten(s, message);
    s'.(worker := Exited(code))
  }

  // ---------------------------------------------------------------------
  // Worker events

  /** Which allocation of the header copy fails, if any, and for which header. */
  datatype HeaderFailure = NoFailure | ArrayFails(at: nat) | KeyFails(at: nat) | ValueFails(at: nat)

  datatype WorkerEvent =
    | InitFailed                                                  // `curl_easy_init` returned NULL
    | Started                                                     // handle configured, response buffer created
    | Chunk(size: nat, nmemb: nat, data: seq<char>, allocOk: bool) // the byte sink is called
    | TransportFailed(message: string)                           // `curl_easy_perform` failed
    | TransportSucceeded(status: int, received: seq<(string, string)>, failure: HeaderFailure)

  datatype Event = Worker(e: WorkerEvent) | Cancel

  const CurlInitFailed := "failed to create curl handle"
  const HeaderArrayFailed := "failed to allocate memory for headers"
  const HeaderKeyFailed := "failed to allocate memory for header key"
  const HeaderValueFailed := "failed to allocate memory for header value"
  const AlreadyDone := "request is already done"
  const WasCancelled := "request was cancelled"
  const UnknownError := "unknown error"

  /**
   * Whether the worker can produce the event now. Chunks and success need a
   * response buffer: after the sink has reported a short write the
   * transport ends the transfer with a failure.
   */
  predicate Enabled(s: Unit, e: WorkerEvent) {
    match e
    case InitFailed => s.worker == NotStarted
    case Started => s.worker == NotStarted
    case Chunk(size, nmemb, data, _) => s.worker == Transferring && s.body.Some? && |data| == size * nmemb
    case TransportFailed(_) => s.worker == Transferring
    case TransportSucceeded(_, _, _) => s.worker == Transferring && s.body.Some?
  }

  /** `buffer_write`: a cancelled unit ends the worker; otherwise the chunk is appended (the buffer is lost if that fails). */
  function ChunkStep(s: Unit, data: seq<char>, allocOk: bool): (r: Unit)
    requires s.body.Some?
    ensures r.error == s.error && r.cancelled == s.cancelled && r.done == s.done
    ensures r.responseCode == s.responseCode && r.headers == s.headers && r.headerCount == s.headerCount
    ensures s.cancelled ==> r.body == s.body && r.worker == Exited(ExitCancelled)
    ensures !s.cancelled ==> r.worker == s.worker && (r.body.Some? <==> allocOk)
    ensures !s.cancelled && allocOk ==> r.body.value == s.body.value + data
  {
    if s.cancelled then s.(worker := Exited(ExitCancelled))
    else if allocOk then s.(body := Some(s.body.value + data))
    else s.(body := None)
  }

  /**
   * The header-copy loop from header `i` on: count first, then grow the
   * array, then copy the key, then the value; a failure hands over to
   * `handle_error` and the worker returns. After the last header the unit
   * is marked done.
   */
  function CopyFrom(s: Unit, received: seq<(string, string)>, i: nat, failure: HeaderFailure): (r: Unit)
    requires i <= |received|
    ensures r.worker.Exited? && r.body == s.body && r.responseCode == s.responseCode
    ensures s.done ==> r.done
    ensures s.cancelled ==> r.cancelled && r.error == s.error
    ensures r.headerCount <= s.headerCount + (|received| - i)
    ensures r.worker == Exited(ExitSuccess) ==> r.done && r.headerCount == s.headerCount + (|received| - i)
    ensures failure == NoFailure ==> r.worker == Exited(ExitSuccess)
    decreases |received| - i
  {
    if i == |received| then s.(done := true, worker := Exited(ExitSuccess))
    else
      var s1 := s.(headerCount := s.headerCount + 1);
      var arr := s.headers.GetOr([]);
      if failure == ArrayFails(i) then Fail(s1.(headers := None), HeaderArrayFailed)
      else if failure == KeyFails(i) then Fail(s1.(headers := Some(arr + [Slot(None, None)])), HeaderKeyFailed)
      else if failure == ValueFails(i) then
        Fail(s1.(headers := Some(arr + [Slot(Some(received[i].0), None)])), HeaderValueFailed)
      else CopyFrom(s1.(headers := Some(arr + [Slot(Some(received[i].0), Some(received[i].1))])), received, i + 1, failure)
  }

  function WorkerStep(s: Unit, e: WorkerEvent): (r: Unit)
    requires Enabled(s, e)
    ensures s.done ==> r.done
    ensures s.cancelled ==> r.cancelled && r.error == s.error
    ensures r.responseCode == if e.TransportSucceeded? then e.status else s.responseCode
    ensures e.Started? ==> r.body == Some([]) && r.worker == Transferring
    ensures !e.Started? && !e.Chunk? ==> r.worker.Exited?
  {
    match e
    case InitFailed => Fail(s, CurlInitFailed)
    case Started => s.(body := Some([]), worker := Transferring)
    case Chunk(_, _, data, allocOk) => ChunkStep(s, data, allocOk)
    case TransportFailed(m) => Fail(s, m)
    case TransportSucceeded(status, received, failure) => CopyFrom(s.(responseCode := status), received, 0, failure)
  }

  /** `cancel`: refused on a done unit, otherwise the flag is raised. */
  function CancelStep(s: Unit): (r: Unit)
    ensures s.done ==> r == s
    ensures !s.done ==> r == s.(cancelled := true)
  {
    if s.done then s else s.(cancelled := true)
  }

  /** One step; an event the worker cannot produce in this state changes nothing. */
  function Step(s: Unit, e: Event): (r: Unit)
    ensures s.done ==> r.done
    ensures s.cancelled ==> r.cancelled && r.error == s.error
    ensures s.worker.Exited? && e.Worker? ==> r == s
  {
    match e
    case Cancel => CancelStep(s)
    case Worker(w) => if Enabled(s, w) then WorkerStep(s, w) else s
  }

  function Run(s: Unit, es: seq<Event>): Unit
    decreases |es|
  {
    if es == [] then s else Run(Step(s, es[0]), es[1..])
  }

  // ---------------------------------------------------------------------
  // The invariant

  /**
   * done and error exclude each other; each terminal state goes with its
   * exit code; an error always comes with the cancelled flag; a done unit
   * holds a body and a header array of `headerCount` complete entries.
   */
  ghost predicate Inv(s: Unit) {
    && (s.done <==> s.worker == Exited(ExitSuccess))
    && (s.done ==> s.error.None? && s.body.Some?)
    && (s.done ==> |s.headers.GetOr([])| == s.headerCount && forall k :: 0 <= k < s.headerCount ==> Full(s.headers.GetOr([])[k]))
    && (s.error.Some? <==> s.worker == Exited(ExitError))
    && (s.error.Some? ==> s.cancelled)
    && (s.worker == Exited(ExitCancelled) ==> s.cancelled)
    && (s.worker.Exited? ==> s.worker.code in {ExitSuccess, ExitCancelled, ExitError})
    && (!s.worker.Exited? ==> s.headers.None? && s.headerCount == 0)
  }

  lemma InitInv()
    ensures Inv(Init())
  {
  }

  /** The state inside the header-copy loop, before the unit is done. */
  ghost predicate Copying(s: Unit) {
    && s.worker == Transferring && !s.done && s.error.None? && s.body.Some?
    && |s.headers.GetOr([])| == s.headerCount
    && (forall k :: 0 <= k < s.headerCount ==> Full(s.headers.GetOr([])[k]))
  }

  lemma FailInv(s: Unit, m: string)
    requires s.worker == Transferring || s.worker == NotStarted
    requires !s.done && s.error.None?
    ensures Inv(Fail(s, m))
  {
  }

  lemma {:induction false} CopyFromInv(s: Unit, received: seq<(string, string)>, i: nat, failure: HeaderFailure)
    requires i <= |received| && Copying(s)
    ensures Inv(CopyFrom(s, received, i, failure))
    decreases |received| - i
  {
    if i < |received| {
      var s1 := s.(headerCount := s.headerCount + 1);
      var arr := s.headers.GetOr([]);
      if failure == ArrayFails(i) {
        FailInv(s1.(headers := None), HeaderArrayFailed);
      } else if failure == KeyFails(i) {
        FailInv(s1.(headers := Some(arr + [Slot(None, None)])), HeaderKeyFailed);
      } else if failure == ValueFails(i) {
        FailInv(s1.(headers := Some(arr + [Slot(Some(received[i].0), None)])), HeaderValueFailed);
      } else {
        var s2 := s1.(headers := Some(arr + [Slot(Some(received[i].0), Some(received[i].1))]));
        assert Copying(s2);
        CopyFromInv(s2, received, i + 1, failure);
      }
    }
  }

  lemma StepInv(s: Unit, e: Event)
    requires Inv(s)
    ensures Inv(Step(s, e))
  {
    match e
    case Cancel =>
    case Worker(w) =>
      if Enabled(s, w) {
        match w
        case TransportSucceeded(status, received, failure) =>
          CopyFromInv(s.(responseCode := status), received, 0, failure);
        case _ =>
      }
  }

  /** Every trace of worker events and cancellations keeps the invariant. */
  lemma {:induction false} RunInv(s: Unit, es: seq<Event>)
    requires Inv(s)
    ensures Inv(Run(s, es))
    decreases |es|
  {
    if es != [] {
      StepInv(s, es[0]);
      RunInv(Step(s, es[0]), es[1..]);
    }
  }

  /** In particular no reachable unit is both done and in error. */
  lemma DoneExcludesError(es: seq<Event>)
    ensures var s := Run(Init(), es); !(s.done && s.error.Some?)
  {
    RunInv(Init(), es);
  }

  // ---------------------------------------------------------------------
  // Terminal states and precedence

  /** Once a unit is done or holds an error, no event changes it any more: the first terminal cause wins. */
  lemma {:induction false} TerminalIsFinal(s: Unit, es: seq<Event>)
    requires Inv(s) && (s.done || s.error.Some?)
    ensures Run(s, es) == s
    decreases |es|
  {
    if es != [] {
      assert Step(s, es[0]) == s;
      TerminalIsFinal(s, es[1..]);
    }
  }

  /** A transport failure after `cancel` records no error: the worker reports the cancellation instead. */
  lemma FailureAfterCancel(s: Unit, m: string)
    requires Inv(s) && s.worker == Transferring
    ensures var t := Step(Step(s, Cancel), Worker(TransportFailed(m)));
      t.error.None? && t.cancelled && t.worker == Exited(ExitCancelled) && !t.done
  {
  }

  /** With the cancelled flag raised, the sink ends the worker without touching the buffer. */
  lemma ChunkAfterCancel(s: Unit, size: nat, nmemb: nat, data: seq<char>, allocOk: bool)
    requires Inv(s) && s.worker == Transferring && s.body.Some? && |data| == size * nmemb
    ensures var t := Step(Step(s, Cancel), Worker(Chunk(size, nmemb, data, allocOk)));
      t.body == s.body && t.worker == Exited(ExitCancelled) && t.error == s.error
  {
  }

  /** The header entries a complete copy makes: entry `k` holds key and value of header `k`. */
  function Copies(received: seq<(string, string)>): (slots: seq<Slot>)
    ensures |slots| == |received|
    ensures forall k :: 0 <= k < |received| ==> slots[k] == Slot(Some(received[k].0), Some(received[k].1))
  {
    if received == [] then [] else [Slot(Some(received[0].0), Some(received[0].1))] + Copies(received[1..])
  }

  /**
   * From any point of the copy loop, a transfer with no failed allocation
   * appends one entry per remaining header, in order, counts each of them
   * and ends done; nothing else changes.
   */
  lemma {:induction false} CopyAll(s: Unit, received: seq<(string, string)>, i: nat)
    requires i <= |received|
    ensures var t := CopyFrom(s, received, i, NoFailure);
      && t.done && t.worker == Exited(ExitSuccess) && t.error == s.error
      && t.body == s.body && t.responseCode == s.responseCode && t.cancelled == s.cancelled
      && t.headerCount == s.headerCount + (|received| - i)
      && t.headers.GetOr([]) == s.headers.GetOr([]) + Copies(received[i..])
    decreases |received| - i
  {
    var arr := s.headers.GetOr([]);
    if i < |received| {
      var s2 := s.(headerCount := s.headerCount + 1,
        headers := Some(arr + [Slot(Some(received[i].0), Some(received[i].1))]));
      assert CopyFrom(s, received, i, NoFailure) == CopyFrom(s2, received, i + 1, NoFailure);
      CopyAll(s2, received, i + 1);
      assert received[i..][1..] == received[i + 1..];
      assert Copies(received[i..]) == [Slot(Some(received[i].0), Some(received[i].1))] + Copies(received[i + 1..]);
      assert s2.headers.GetOr([]) + Copies(received[i + 1..]) == arr + Copies(received[i..]);
    } else {
      assert Copies(received[i..]) == [];
      assert arr + [] == arr;
    }
  }

  /**
   * The success event on a transferring unit: the status is stored, the
   * header array holds every received header in order with a matching
   * count, and the unit is done with no error.
   */
  lemma SuccessCopiesAll(s: Unit, status: int, received: seq<(string, string)>)
    requires Inv(s) && s.worker == Transferring && s.body.Some?
    ensures var t := Step(s, Worker(TransportSucceeded(status, received, NoFailure)));
      && t.done && t.worker == Exited(ExitSuccess) && t.error.None?
      && t.responseCode == status && t.body == s.body
      && t.headerCount == |received| && t.headers.GetOr([]) == Copies(received)
  {
    var e := TransportSucceeded(status, received, NoFailure);
    assert Enabled(s, e);
    assert Step(s, Worker(e)) == CopyFrom(s.(responseCode := status), received, 0, NoFailure);
    assert s.headers.None? && s.headerCount == 0 && s.error.None?;
    CopyAll(s.(responseCode := status), received, 0);
    assert received[0..] == received;
  }

  // ---------------------------------------------------------------------
  // Chunks accumulate

  predicate GoodChunk(e: Event) {
    e.Worker? && e.e.Chunk? && e.e.allocOk && |e.e.data| == e.e.size * e.e.nmemb
  }

  /** The bytes of a run of chunk events, concatenated in order. */
  function ChunkBytes(es: seq<Event>): seq<char>
    requires forall i :: 0 <= i < |es| ==> GoodChunk(es[i])
  {
    if es == [] then []
    else
      assert GoodChunk(es[0]);
      es[0].e.data + ChunkBytes(es[1..])
  }

  /** Chunks that all fit leave exactly their concatenation behind the earlier body. */
  lemma {:induction false} ChunksAccumulate(s: Unit, es: seq<Event>)
    requires s.worker == Transferring && !s.cancelled && s.body.Some?
    requires forall i :: 0 <= i < |es| ==> GoodChunk(es[i])
    ensures Run(s, es) == s.(body := Some(s.body.value + ChunkBytes(es)))
    decreases |es|
  {
    if es != [] {
      assert GoodChunk(es[0]);
      var s1 := Step(s, es[0]);
      assert s1 == s.(body := Some(s.body.value + es[0].e.data));
      ChunksAccumulate(s1, es[1..]);
      assert Run(s, es) == Run(s1, es[1..]);
      assert ChunkBytes(es) == es[0].e.data + ChunkBytes(es[1..]);
      assert s.body.value + es[0].e.data + ChunkBytes(es[1..]) == s.body.value + ChunkBytes(es);
    } else {
      assert s.body.value + ChunkBytes(es) == s.body.value;
    }
  }

  // ---------------------------------------------------------------------
  // The response

  /** What `response` hands back: the body, status and header table, or nil plus a message (itself possibly nil). */
  datatype Reply = Failed(message: Option<string>) | Delivered(body: seq<char>, status: int, headers: map<string, string>)

  /** The header array read for the first `headerCount` entries. */
  function SlotPairs(slots: seq<Slot>, n: nat): (ps: seq<(string, string)>)
    ensures |ps| == (if n <= |slots| then n else |slots|)
  {
    var m := if n <= |slots| then n else |slots|;
    seq(m, k requires 0 <= k < m => (slots[k].key.GetOr(""), slots[k].value.GetOr("")))
  }

  function Deliver(s: Unit): Reply {
    Delivered(s.body.GetOr([]), s.responseCode,
      LuaTable.Assign(map[], SlotPairs(s.headers.GetOr([]), s.headerCount)))
  }

  /** The message for a non-zero exit code of the joined worker; the error slot is read after the join. */
  function ExitReply(code: int, error: Option<string>): (r: Reply)
    ensures r.Failed?
    ensures code == ExitCancelled ==> r.message == Some(WasCancelled)
    ensures code == ExitError ==> r.message == error
    ensures code != ExitCancelled && code != ExitError ==> r.message == Some(UnknownError)
  {
    if code == ExitCancelled then Failed(Some(WasCancelled))
    else if code == ExitError then Failed(error)
    else Failed(Some(UnknownError))
  }

  /**
   * The decision logic of `response`, on a unit whose worker has finished
   * whenever it would have to be joined: a recorded error first; a unit
   * that is not done is joined and its exit code decides; a done unit
   * delivers.
   */
  function Decide(s: Unit, join: ThreadStatus): (r: Reply)
    requires s.error.Some? || s.done || s.worker.Exited?
    ensures s.error.Some? ==> r == Failed(s.error)
    ensures s.error.None? && s.done ==> r == Deliver(s)
    ensures s.error.None? && !s.done && join != ThrdSuccess ==>
      r == Failed(Some("failed to join thread: " + ThreadErrorMessage(join)))
    ensures s.error.None? && !s.done && join == ThrdSuccess && s.worker.code == ExitCancelled ==>
      r == Failed(Some(WasCancelled))
    ensures s.error.None? && !s.done && join == ThrdSuccess && s.worker.code !in {ExitSuccess, ExitCancelled, ExitError} ==>
      r == Failed(Some(UnknownError))
  {
    if s.error.Some? then Failed(s.error)
    else if !s.done then
      if join != ThrdSuccess then Failed(Some("failed to join thread: " + ThreadErrorMessage(join)))
      else if s.worker.code != ExitSuccess then ExitReply(s.worker.code, s.error)
      else Deliver(s)
    else Deliver(s)
  }

  /**
   * `response` over time: the error and done checks see the unit at the
   * call, the join waits for the worker, and the exit code, the error and
   * the results are read from the unit the worker left behind.
   */
  function DecideAcrossJoin(atCall: Unit, afterJoin: Unit, join: ThreadStatus): (r: Reply)
    requires afterJoin.worker.Exited?
    ensures atCall.error.Some? ==> r == Failed(atCall.error)
    ensures r.Delivered? ==> atCall.error.None? && (atCall.done || (join == ThrdSuccess && afterJoin.worker.code == ExitSuccess))
    ensures atCall.error.None? && !atCall.done && join == ThrdSuccess && afterJoin.worker.code == ExitSuccess ==> r == Deliver(afterJoin)
  {
    if atCall.error.Some? then Failed(atCall.error)
    else if !atCall.done then
      if join != ThrdSuccess then Failed(Some("failed to join thread: " + ThreadErrorMessage(join)))
      else if afterJoin.worker.code != ExitSuccess then ExitReply(afterJoin.worker.code, afterJoin.error)
      else Deliver(afterJoin)
    else Deliver(atCall)
  }

  /**
   * When the join succeeds, deciding at the call and reading after the
   * join gives what deciding on the finished unit gives.
   */
  lemma DecideIndependentOfTiming(s: Unit, es: seq<Event>)
    requires Inv(s) && Run(s, es).worker.Exited?
    ensures DecideAcrossJoin(s, Run(s, es), ThrdSuccess) == Decide(Run(s, es), ThrdSuccess)
  {
    RunInv(s, es);
    if s.done || s.error.Some? {
      TerminalIsFinal(s, es);
    }
  }

  /** A done unit delivers its body, its status and one table entry per copied header, the last one of a key winning. */
  lemma DeliveredHeaders(s: Unit, join: ThreadStatus, i: nat)
    requires Inv(s) && s.done && i < s.headerCount
    requires var slots := s.headers.GetOr([]);
      forall j :: i < j < s.headerCount ==> slots[j].key != slots[i].key
    ensures var r := Decide(s, join); var slot := s.headers.value[i];
      && r.Delivered? && r.body == s.body.value && r.status == s.responseCode
      && slot.key.value in r.headers && r.headers[slot.key.value] == slot.value.value
  {
    var slots := s.headers.GetOr([]);
    var ps := SlotPairs(slots, s.headerCount);
    assert Full(slots[i]);
    assert forall j :: i < j < |ps| ==> Full(slots[j]) && ps[j].0 == slots[j].key.value;
    LuaTable.AssignLastWins(map[], ps, i);
  }

  /** A failure after a cancellation is reported as the cancellation. */
  lemma CancelledFailureReported(s: Unit, m: string, join: ThreadStatus)
    requires Inv(s) && s.worker == Transferring
    ensures var t := Step(Step(s, Cancel), Worker(TransportFailed(m)));
      join == ThrdSuccess ==> Decide(t, join) == Failed(Some(WasCancelled))
  {
  }

  /**
   * As written, `handle_error` makes a cancelled worker exit with 1, which
   * `response` does not know: a request cancelled before its transport
   * failed is reported as an unknown error.
   */
  lemma CancelledFailureAsWritten()
    ensures var s := CancelStep(WorkerStep(Init(), Started));
      var t := FailAsWritten(s, "Could not resolve hostname");
      Decide(t, ThrdSuccess) == Failed(Some(UnknownError))
  {
  }
}
