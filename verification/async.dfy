/**
 * The asynchronous request unit of `src/async.c` as an object whose fields
 * the worker's steps and the caller's operations update. Every method is
 * tied to the state machine of `AsyncSpec` through `State()`, and keeps its
 * invariant.
 */
module Async {
  import opened Wrappers
  import Buffer
  import Options
  import LuaTable
  import opened AsyncSpec

  class AsyncRequest {
    const url: string
    const options: Options.Options  // written once, before the worker starts
    var response: Buffer.ResponseBuffer?
    var responseCode: int
    var headers: Option<seq<Slot>>
    var headerCount: nat
    var error: Option<string>
    var cancelled: bool
    var done: bool
    var thread: WorkerPhase  // the worker thread's progress, standing for the `thrd_t` handle

    ghost function Footprint(): set<object?>
      reads this, response
    {
      if response == null then {this} else {this, response, response.data}
    }

    ghost predicate BufferOk()
      reads this, response, Footprint()
    {
      response != null ==> response.Valid()
    }

    /** The record as a value of the state machine. */
    function State(): Unit
      reads this, response, Footprint()
      requires BufferOk()
    {
      Unit(error, cancelled, done, if response == null then None else Some(response.Contents()),
        responseCode, headers, headerCount, thread)
    }

    ghost predicate Valid()
      reads this, response, Footprint()
    {
      BufferOk() && Inv(State())
    }

    /** A unit as `easyhttp_async_request` hands it to its worker. */
    constructor (url: string, options: Options.Options)
      ensures Valid() && State() == Init()
      ensures this.url == url && this.options == options
    {
      this.url := url;
      this.options := options;
      response := null;
      responseCode := 0;
      headers := None;
      headerCount := 0;
      error := None;
      cancelled := false;
      done := false;
      thread := NotStarted;
      new;
      InitInv();
    }

    /** `handle_error` (with the corrected exit code for an already cancelled unit). */
    method HandleError(message: string) returns (code: int)
      requires BufferOk()
      modifies this
      ensures BufferOk() && response == old(response)
      ensures (State(), code) == AsyncSpec.HandleError(old(State()), message)
    {
      if cancelled {
        return ExitCancelled;
      }
      error := Some(message);
      cancelled := true;
      code := ExitError;
    }

    /** The worker could not create its transport handle. */
    method WorkerInitFailed()
      requires Valid() && thread == NotStarted
      modifies this
      ensures Valid() && State() == Step(old(State()), Worker(InitFailed))
    {
      ghost var s := State();
      var code := HandleError(CurlInitFailed);
      thread := Exited(code);
      StepInv(s, Worker(InitFailed));
    }

    /** The worker configured its handle and created the response buffer (assumed to succeed). */
    method WorkerStarted()
      requires Valid() && thread == NotStarted
      modifies this
      ensures Valid() && State() == Step(old(State()), Worker(Started))
      ensures fresh(response)
    {
      ghost var s := State();
      response := new Buffer.ResponseBuffer.Empty();
      thread := Transferring;
      StepInv(s, Worker(Started));
    }

    /**
     * `buffer_write`: a cancelled unit ends the worker with the cancelled
     * exit code and leaves the buffer alone; otherwise the chunk goes
     * through `easyhttp_buffer_write` and its count is reported.
     */
    method BufferWrite(size: nat, nmemb: nat, data: seq<char>, allocOk: bool) returns (consumed: nat)
      requires Valid() && Enabled(State(), Chunk(size, nmemb, data, allocOk))
      modifies this, response
      ensures Valid() && State() == Step(old(State()), Worker(Chunk(size, nmemb, data, allocOk)))
      ensures !old(cancelled) ==> consumed == if allocOk then size * nmemb else 0
    {
      ghost var s := State();
      if cancelled {
        thread := Exited(ExitCancelled);
        StepInv(s, Worker(Chunk(size, nmemb, data, allocOk)));
        return 0;
      }
      var kept, n := Buffer.Write(response, size, nmemb, data, allocOk);
      response := kept;
      consumed := n;
      StepInv(s, Worker(Chunk(size, nmemb, data, allocOk)));
    }

    /** `curl_easy_perform` failed with `message`. */
    method TransportFailed(message: string)
      requires Valid() && thread == Transferring
      modifies this
      ensures Valid() && State() == Step(old(State()), Worker(AsyncSpec.TransportFailed(message)))
    {
      ghost var s := State();
      var code := HandleError(message);
      thread := Exited(code);
      StepInv(s, Worker(AsyncSpec.TransportFailed(message)));
    }

    /**
     * The success path: the status is stored, each received header is
     * counted, the array grown by one entry and key and value copied into
     * it; a failed allocation hands over to `handle_error`. After the last
     * header the unit is done.
     */
    method TransportSucceeded(status: int, received: seq<(string, string)>, failure: HeaderFailure)
      requires Valid() && Enabled(State(), AsyncSpec.TransportSucceeded(status, received, failure))
      modifies this
      ensures Valid() && State() == Step(old(State()), Worker(AsyncSpec.TransportSucceeded(status, received, failure)))
    {
      ghost var s := State();
      responseCode := status;
      ghost var target := CopyFrom(State(), received, 0, failure);
      var i := 0;
      while i < |received|
        invariant 0 <= i <= |received|
        invariant response == old(response) && BufferOk()
        invariant thread == Transferring && error.None? && !done
        invariant CopyFrom(State(), received, i, failure) == target
      {
        headerCount := headerCount + 1;
        if failure == ArrayFails(i) {
          headers := None;
          var code := HandleError(HeaderArrayFailed);
          thread := Exited(code);
          StepInv(s, Worker(AsyncSpec.TransportSucceeded(status, received, failure)));
          return;
        }
        var grown := headers.GetOr([]);
        if failure == KeyFails(i) {
          headers := Some(grown + [Slot(None, None)]);
          var code := HandleError(HeaderKeyFailed);
          thread := Exited(code);
          StepInv(s, Worker(AsyncSpec.TransportSucceeded(status, received, failure)));
          return;
        }
        if failure == ValueFails(i) {
          headers := Some(grown + [Slot(Some(received[i].0), None)]);
          var code := HandleError(HeaderValueFailed);
          thread := Exited(code);
          StepInv(s, Worker(AsyncSpec.TransportSucceeded(status, received, failure)));
          return;
        }
        headers := Some(grown + [Slot(Some(received[i].0), Some(received[i].1))]);
        i := i + 1;
      }
      done := true;
      thread := Exited(ExitSuccess);
      StepInv(s, Worker(AsyncSpec.TransportSucceeded(status, received, failure)));
    }

    /** `is_done`. */
    method IsDone() returns (d: bool)
      requires Valid()
      ensures d <==> State().worker == Exited(ExitSuccess)
    {
      d := done;
    }

    /** `cancel`: refused with a message on a done unit, otherwise the flag is raised and true returned. */
    method Cancel() returns (ok: bool, message: Option<string>)
      requires Valid()
      modifies this
      ensures Valid() && State() == Step(old(State()), AsyncSpec.Cancel)
      ensures ok == !old(done)
      ensures message == if ok then None else Some(AlreadyDone)
    {
      ghost var s := State();
      if done {
        return false, Some(AlreadyDone);
      }
      cancelled := true;
      StepInv(s, AsyncSpec.Cancel);
      return true, None;
    }

    /**
     * `response`, on a unit whose worker has finished whenever it must be
     * joined: the recorded error first, then the join outcome and the
     * worker's exit code, then the body, status and header table.
     */
    method Response(join: ThreadStatus) returns (r: Reply)
      requires Valid() && (error.Some? || done || thread.Exited?)
      ensures r == Decide(State(), join)
    {
      if error.Some? {
        return Failed(error);
      }
      if !done && join != ThrdSuccess {
        return Failed(Some("failed to join thread: " + ThreadErrorMessage(join)));
      }
      if !done && thread.code != ExitSuccess {
        return ExitReply(thread.code, error);
      }
      var body := if response == null then [] else response.Contents();
      var slots := headers.GetOr([]);
      var n := if headerCount <= |slots| then headerCount else |slots|;
      ghost var ps := SlotPairs(slots, headerCount);
      var table := map[];
      var i := 0;
      while i < n
        invariant 0 <= i <= n
        invariant table == LuaTable.Assign(map[], ps[..i])
      {
        assert ps[..i + 1][..i] == ps[..i];
        table := table[slots[i].key.GetOr("") := slots[i].value.GetOr("")];
        i := i + 1;
      }
      assert ps[..i] == ps;
      r := Delivered(body, responseCode, table);
    }
  }

  /** What `easyhttp_async_request` returns: a Lua error, nil plus a message, or a running unit. */
  datatype StartResult = StartRaised(expected: string) | StartRefused(message: string) | Spawned(request: AsyncRequest)

  /**
   * `easyhttp_async_request`: the URL must be a string; the options are
   * read (allocation attempt `failAt` failing, if any); then the mutex is
   * initialised and only after that the worker thread created.
   */
  method Start(url: Options.LuaValue, cfg: Options.Config, failAt: Option<nat>, mutex: ThreadStatus, thread: ThreadStatus)
      returns (r: StartResult)
    ensures !url.Str? ==> r == StartRaised("string expected")
    ensures url.Str? && Options.Parse(cfg, failAt).ParseRaised? ==>
      r == StartRaised(Options.Parse(cfg, failAt).expected)
    ensures url.Str? && Options.Parse(cfg, failAt).Parsed? && Options.Parse(cfg, failAt).error.Some? ==>
      r == StartRefused(Options.Parse(cfg, failAt).error.value)
    ensures r.Spawned? ==> Options.Parse(cfg, failAt).Parsed? && Options.Parse(cfg, failAt).error.None?
    ensures url.Str? && Options.Parse(cfg, failAt).Parsed? && Options.Parse(cfg, failAt).error.None? ==>
      && (mutex != ThrdSuccess ==> r == StartRefused("failed to create mutex"))
      && (mutex == ThrdSuccess && thread != ThrdSuccess ==>
            r == StartRefused("failed to create thread: " + ThreadErrorMessage(thread)))
      && (mutex == ThrdSuccess && thread == ThrdSuccess ==> r.Spawned?)
    ensures r.Spawned? ==> fresh(r.request) && r.request.Valid() && r.request.State() == Init()
    ensures r.Spawned? ==> r.request.url == url.s && r.request.options == Options.Parse(cfg, failAt).options
  {
    var u := Options.CheckString(url);
    if u.Raised? {
      return StartRaised(u.expected);
    }
    var parsed := Options.ParseOptions(cfg, failAt);
    if parsed.ParseRaised? {
      return StartRaised(parsed.expected);
    }
    if parsed.error.Some? {
      return StartRefused(parsed.error.value);
    }
    if mutex != ThrdSuccess {
      return StartRefused("failed to create mutex");
    }
    if thread != ThrdSuccess {
      return StartRefused("failed to create thread: " + ThreadErrorMessage(thread));
    }
    var request := new AsyncRequest(u.value, parsed.options);
    r := Spawned(request);
  }
}
