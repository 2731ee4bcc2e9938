/** `prefork_request_handler` and `coprocess`: handler logic run in a worker process, its
    output sent back over a pipe and its status and headers in an envelope. The process,
    the pipe and the queue are values here: the worker's run is a `TaskRun`, the pipe is the
    list of results of successive `read()` calls, and the queue carries one `Envelope`. */
module IsolatedExecutor {
  import opened Wrappers
  import opened PhpValues

  /** The size `Process::read()` reads at most at once. */
  const ChunkSize := 8192

  /** The marker the faulted worker writes when it has no output. */
  const Sentinel := "EOF"

  const SuperglobalsDisabled :=
    "Superglobals are disabled which enables coroutines, cannot use coprocess inside coroutine, use coroutines directly."

  /** The result of one `$worker->read()`: bytes, or false. */
  datatype Read = Data(bytes: string) | Fail

  /** `strlen` of a read (`strlen(false)` is 0). */
  function Len(r: Read): nat {
    if r.Data? then |r.bytes| else 0
  }

  /** The pipe: a read past the recorded results returns false. */
  function ReadAt(chan: seq<Read>, i: nat): Read {
    if i < |chan| then chan[i] else Fail
  }

  /** An empty string or false ends the drain loop and is not appended. */
  predicate StopsDrain(r: Read) {
    r == Fail || r == Data("")
  }

  /** Everything the pipe delivers, in order. */
  function Concat(chan: seq<Read>): string {
    if chan == [] then "" else (if chan[0].Data? then chan[0].bytes else "") + Concat(chan[1..])
  }

  /** What the loop appends from the remaining reads rest, after a full chunk. */
  function Tail(rest: seq<Read>): string {
    if rest == [] || StopsDrain(rest[0]) then ""
    else if |rest[0].bytes| == ChunkSize then rest[0].bytes + Tail(rest[1..])
    else rest[0].bytes
  }

  /** The body the drain loop collects from the pipe. */
  function Drained(chan: seq<Read>): Read {
    var first := ReadAt(chan, 0);
    if Len(first) == ChunkSize then Data(first.bytes + Tail(chan[1..])) else first
  }

  /** The drain loop: keep reading while a read is exactly a full chunk; an empty or false
      read ends it unappended. */
  method Drain(chan: seq<Read>) returns (data: Read)
    ensures data == Drained(chan)
  {
    var next := 0;
    var recv := ReadAt(chan, next);
    next := next + 1;
    data := recv;
    while Len(recv) == ChunkSize
      invariant 1 <= next
      invariant Len(recv) == ChunkSize ==> next <= |chan| && data.Data? && Drained(chan) == Data(data.bytes + Tail(chan[next..]))
      invariant Len(recv) != ChunkSize ==> data == Drained(chan)
      decreases |chan| - next
    {
      recv := ReadAt(chan, next);
      if StopsDrain(recv) {
        break;
      }
      assert chan[next..][1..] == chan[next + 1..];
      next := next + 1;
      data := Data(data.bytes + recv.bytes);
    }
  }

  /** Reads 0 .. k-1 are all full chunks. */
  ghost predicate FullChunks(chan: seq<Read>, k: nat) {
    k <= |chan| && forall i :: 0 <= i < k ==> chan[i].Data? && |chan[i].bytes| == ChunkSize
  }

  lemma {:induction false} TailPrefix(rest: seq<Read>)
    ensures Tail(rest) <= Concat(rest)
  {
    if rest != [] && !StopsDrain(rest[0]) && |rest[0].bytes| == ChunkSize {
      TailPrefix(rest[1..]);
    }
  }

  /** What the loop collects is always a prefix of everything the pipe delivers. */
  lemma DrainedIsPrefix(chan: seq<Read>)
    requires Drained(chan).Data?
    ensures Drained(chan).bytes <= Concat(chan)
  {
    if Len(ReadAt(chan, 0)) == ChunkSize {
      TailPrefix(chan[1..]);
    }
  }

  lemma {:induction false} TailStopsOnEmpty(rest: seq<Read>, k: nat)
    requires FullChunks(rest, k) && StopsDrain(ReadAt(rest, k))
    ensures Tail(rest) == Concat(rest[..k])
  {
    if k > 0 {
      assert rest[..k][1..] == rest[1..][..k - 1];
      TailStopsOnEmpty(rest[1..], k - 1);
    }
  }

  lemma {:induction false} TailKeepsShortRead(rest: seq<Read>, k: nat)
    requires 1 <= k <= |rest| && FullChunks(rest, k - 1)
    requires rest[k - 1].Data? && rest[k - 1].bytes != "" && |rest[k - 1].bytes| != ChunkSize
    ensures Tail(rest) == Concat(rest[..k])
  {
    assert rest[..k][1..] == rest[1..][..k - 1];
    if k > 1 {
      TailKeepsShortRead(rest[1..], k - 1);
    }
  }

  /** After full chunks 0 .. k-1, an empty or false read k ends the loop: the body is
      exactly reads 0 .. k-1. */
  lemma DrainStopsOnEmpty(chan: seq<Read>, k: nat)
    requires 1 <= k && FullChunks(chan, k) && StopsDrain(ReadAt(chan, k))
    ensures Drained(chan) == Data(Concat(chan[..k]))
  {
    assert ReadAt(chan[1..], k - 1) == ReadAt(chan, k);
    TailStopsOnEmpty(chan[1..], k - 1);
    assert chan[..k][1..] == chan[1..][..k - 1];
  }

  /** After full chunks 0 .. k-2, a short read k-1 ends the loop and is included (when it
      is the first read it is the whole body, even when it is empty). */
  lemma DrainKeepsShortRead(chan: seq<Read>, k: nat)
    requires 1 <= k <= |chan| && FullChunks(chan, k - 1)
    requires chan[k - 1].Data? && |chan[k - 1].bytes| != ChunkSize
    requires k > 1 ==> chan[k - 1].bytes != ""
    ensures Drained(chan) == Data(Concat(chan[..k]))
  {
    assert chan[..k][1..] == chan[1..][..k - 1];
    if k > 1 {
      TailKeepsShortRead(chan[1..], k - 1);
    } else {
      assert chan[..1][1..] == [];
    }
  }

  /** A pipe that hands out the written bytes in full chunks, then the short rest (an empty
      read when the length is a multiple of the chunk size). */
  function Chunked(w: string): seq<Read>
    decreases |w|
  {
    if |w| < ChunkSize then [Data(w)] else [Data(w[..ChunkSize])] + Chunked(w[ChunkSize..])
  }

  lemma {:induction false} TailOfChunked(w: string)
    ensures Tail(Chunked(w)) == w
    decreases |w|
  {
    if |w| >= ChunkSize {
      TailOfChunked(w[ChunkSize..]);
      assert Chunked(w)[1..] == Chunked(w[ChunkSize..]);
      assert w == w[..ChunkSize] + w[ChunkSize..];
    }
  }

  /** Over such a pipe the drain loop recovers exactly the bytes written. */
  lemma DrainOfChunked(w: string)
    ensures Drained(Chunked(w)) == Data(w)
  {
    if |w| >= ChunkSize {
      TailOfChunked(w[ChunkSize..]);
      assert Chunked(w)[1..] == Chunked(w[ChunkSize..]);
      assert w == w[..ChunkSize] + w[ChunkSize..];
    }
  }

  /** The parent's sentinel check: a received `"EOF"` becomes the empty body. */
  function Received(data: Read): (r: Read)
    ensures data != Data(Sentinel) ==> r == data
    ensures data == Data(Sentinel) ==> r == Data("")
  {
    if data == Data(Sentinel) then Data("") else data
  }

  /** An exception that escaped the task logic: whether it is `ExitException`, and its message. */
  datatype Throwable = Throwable(isExitException: bool, message: string)

  /** What running the task logic did: its buffered output (up to the fault, if any), what
      `http_response_code()` reports (None for false), the response headers it set, and the
      exception that escaped, if one did. */
  datatype TaskRun = TaskRun(output: string, responseCode: Option<int>, headers: seq<(string, string)>, thrown: Option<Throwable>)

  /** The result metadata the worker pushes on the queue. */
  datatype Envelope =
    | Completed(statusCode: int, headers: seq<(string, string)>, exitCode: int, length: nat)
    | Faulted(statusCode: int, headers: seq<(string, string)>, exited: bool, length: nat, error: Throwable)

  /** `$code ? $code : fallback` on the result of `http_response_code()`. */
  function CodeOr(code: Option<int>, fallback: int): int {
    if code.Some? && code.value != 0 then code.value else fallback
  }

  /** The bytes the prefork worker writes to the pipe. */
  function WorkerWrite(run: TaskRun): string {
    if run.thrown.None? || StringTruthy(run.output) then run.output else Sentinel
  }

  /** The envelope the prefork worker pushes. */
  function WorkerEnvelope(run: TaskRun): Envelope {
    match run.thrown
    case None => Completed(CodeOr(run.responseCode, 200), run.headers, 0, |run.output|)
    case Some(e) =>
      Faulted(CodeOr(run.responseCode, if e.isExitException then 200 else 500),
              run.headers, e.isExitException, |run.output|, e)
  }

  /** The body the parent returns for a worker run, when the pipe hands out what was written. */
  function ParentBody(run: TaskRun): Read {
    Received(Drained(Chunked(WorkerWrite(run))))
  }

  /** Normal completion: the status is the code the logic set, else 200; the length is the
      output's; the body arrives intact, except that a genuine `"EOF"` arrives empty. */
  lemma CompletedRoundTrip(run: TaskRun)
    requires run.thrown.None?
    ensures WorkerEnvelope(run).Completed? && WorkerEnvelope(run).exitCode == 0
    ensures WorkerEnvelope(run).statusCode == (if run.responseCode.Some? && run.responseCode.value != 0 then run.responseCode.value else 200)
    ensures WorkerEnvelope(run).headers == run.headers && WorkerEnvelope(run).length == |run.output|
    ensures ParentBody(run) == Data(run.output) <==> run.output != Sentinel
    ensures run.output == Sentinel ==> ParentBody(run) == Data("")
  {
    DrainOfChunked(WorkerWrite(run));
  }

  /** A fault: the status is the code set, else 200 for `ExitException` and 500 otherwise;
      the partial output arrives unless it is falsy ("" or "0", replaced by the sentinel) or
      is itself `"EOF"`, and then the body is empty. */
  lemma FaultedRoundTrip(run: TaskRun)
    requires run.thrown.Some?
    ensures WorkerEnvelope(run).Faulted?
    ensures WorkerEnvelope(run).exited == run.thrown.value.isExitException
    ensures WorkerEnvelope(run).statusCode ==
              if run.responseCode.Some? && run.responseCode.value != 0 then run.responseCode.value
              else if run.thrown.value.isExitException then 200 else 500
    ensures WorkerEnvelope(run).length == |run.output| && WorkerEnvelope(run).error == run.thrown.value
    ensures ParentBody(run) == Data(if StringTruthy(run.output) && run.output != Sentinel then run.output else "")
  {
    DrainOfChunked(WorkerWrite(run));
  }

  /** The sentinel collides: a completed run printing `"EOF"`, a fault with no output and a
      fault with output `"0"` all reach the parent as the same empty body. */
  lemma SentinelCollision(h: seq<(string, string)>, code: Option<int>, e: Throwable)
    ensures ParentBody(TaskRun("EOF", code, h, None)) == Data("")
    ensures ParentBody(TaskRun("", code, h, Some(e))) == Data("")
    ensures ParentBody(TaskRun("0", code, h, Some(e))) == Data("")
  {
    CompletedRoundTrip(TaskRun("EOF", code, h, None));
    FaultedRoundTrip(TaskRun("", code, h, Some(e)));
    FaultedRoundTrip(TaskRun("0", code, h, Some(e)));
  }

  /** One call made on the outer response. */
  datatype SinkCall = SetStatus(code: int) | AddHeader(key: string, value: string)

  /** The calls that applying an envelope makes: the status first, then every header in order. */
  function EnvelopeCalls(env: Envelope): (calls: seq<SinkCall>)
    ensures |calls| == 1 + |env.headers| && calls[0] == SetStatus(env.statusCode)
    ensures forall i :: 0 <= i < |env.headers| ==> calls[i + 1] == AddHeader(env.headers[i].0, env.headers[i].1)
  {
    [SetStatus(env.statusCode)] + seq(|env.headers|, i requires 0 <= i < |env.headers| => AddHeader(env.headers[i].0, env.headers[i].1))
  }

  /** The outer response, as the list of calls made on it (`response_set_status`,
      `response_add_header`). */
  class ResponseSink {
    var calls: seq<SinkCall>

    constructor ()
      ensures calls == []
    {
      calls := [];
    }

    method SetStatus(code: int)
      modifies this
      ensures calls == old(calls) + [SinkCall.SetStatus(code)]
    {
      calls := calls + [SinkCall.SetStatus(code)];
    }

    method AddHeader(key: string, value: string)
      modifies this
      ensures calls == old(calls) + [SinkCall.AddHeader(key, value)]
    {
      calls := calls + [SinkCall.AddHeader(key, value)];
    }
  }

  /** Applies an envelope: the status, then each header in order. */
  method ApplyEnvelope(sink: ResponseSink, env: Envelope)
    modifies sink
    ensures sink.calls == old(sink.calls) + EnvelopeCalls(env)
  {
    sink.SetStatus(env.statusCode);
    for i := 0 to |env.headers|
      invariant sink.calls == old(sink.calls) + EnvelopeCalls(env)[..i + 1]
    {
      sink.AddHeader(env.headers[i].0, env.headers[i].1);
      assert EnvelopeCalls(env)[..i + 2] == EnvelopeCalls(env)[..i + 1] + [EnvelopeCalls(env)[i + 1]];
    }
    assert EnvelopeCalls(env)[..|env.headers| + 1] == EnvelopeCalls(env);
  }

  /** The parent side of `prefork_request_handler`: drain the pipe, map the sentinel, apply
      the envelope, return the body. */
  method CollectResult(sink: ResponseSink, chan: seq<Read>, env: Envelope) returns (body: Read)
    modifies sink
    ensures body == Received(Drained(chan))
    ensures sink.calls == old(sink.calls) + EnvelopeCalls(env)
  {
    var data := Drain(chan);
    if data == Data(Sentinel) {
      data := Data("");
    }
    ApplyEnvelope(sink, env);
    body := data;
  }

  /** `prefork_request_handler` from the worker's run to the parent's result. */
  method PreforkRequestHandler(sink: ResponseSink, run: TaskRun) returns (body: Read)
    modifies sink
    ensures body == ParentBody(run)
    ensures sink.calls == old(sink.calls) + EnvelopeCalls(WorkerEnvelope(run))
  {
    body := CollectResult(sink, Chunked(WorkerWrite(run)), WorkerEnvelope(run));
  }

  /** The error `coprocess` throws when superglobals are disabled. */
  datatype CoprocessError = Exception(message: string)

  /** The bytes the coprocess worker writes: all output, or after a fault the partial output
      when it is truthy and nothing otherwise. */
  function CoprocessWrite(run: TaskRun): string {
    if run.thrown.None? || StringTruthy(run.output) then run.output else ""
  }

  /** The coprocess worker's exit code: 0 on completion or `ExitException`, 1 on any other fault. */
  function CoprocessExitCode(run: TaskRun): (code: int)
    ensures code == 0 || code == 1
    ensures code == 1 <==> run.thrown.Some? && !run.thrown.value.isExitException
  {
    match run.thrown
    case None => 0
    case Some(e) => if e.isExitException then 0 else 1
  }

  /** `coprocess`: refuses when superglobals are disabled, otherwise returns one read of the pipe. */
  function Coprocess(superglobals: bool, chan: seq<Read>): (r: Result<Read, CoprocessError>)
    ensures !superglobals ==> r == Err(Exception(SuperglobalsDisabled))
    ensures superglobals ==> r == Ok(ReadAt(chan, 0))
  {
    if !superglobals then Err(Exception(SuperglobalsDisabled)) else Ok(ReadAt(chan, 0))
  }

  /** Unlike the prefork path, `coprocess` reads the pipe once: a caller gets at most the first
      chunk of the output. */
  lemma CoprocessSingleRead(run: TaskRun)
    ensures var w := CoprocessWrite(run);
      Coprocess(true, Chunked(w)) == Ok(Data(if |w| < ChunkSize then w else w[..ChunkSize]))
  {
  }
}
