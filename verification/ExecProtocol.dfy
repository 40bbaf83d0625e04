/**
 The exec session of cordium-go/exec.go as a transition system. Its atomic steps
 are the critical sections, channel operations and atomic loads of the code; its
 threads are the receive loop, the stdin loop, the kill-grace timer and any
 number of Kill, Write, Wait and Output callers. A run is any sequence of
 actions; an action that its thread cannot take (it is blocked, or is elsewhere)
 leaves the state as it is, so every script of actions is a run.
 */
module ExecProtocol {
  import opened Prelude
  import C = Capture

  // ---- Data --------------------------------------------------------------

  datatype Stream = Stdout | Stderr

  datatype Chunk = Chunk(stream: Stream, data: seq<Byte>)

  /** Why the session's context ended. */
  datatype CtxErr = Canceled | DeadlineExceeded

  /** What a failed Recv reports: a clean end, a cancellation status, anything else. */
  datatype RecvErr = Eof | CanceledStatus | Failure(code: int)

  /** The error a session ends with. */
  datatype Fault =
    | ContextEnded(why: CtxErr)
    | WriterFailed(code: int)
    | StreamFailed(cause: RecvErr)
    | EndedEarly

  datatype Config = Config(
    streaming: bool,
    hasStdout: bool, hasStderr: bool, hasCombined: bool,
    capture: Option<nat>,
    bufferSize: nat,
    source: Option<seq<Byte>>,
    terminateOnEof: bool)

  /** The fields that the session's mutex protects, and the killed flag. */
  datatype Record = Record(killed: bool, exited: bool, exitCode: int, err: Option<Fault>, stamped: bool)

  datatype Outcome =
    | Finished(exitCode: int, killed: bool, captured: Option<Captured>)
    | Failed(fault: Fault)

  datatype Captured = Captured(stdout: seq<Byte>, stderr: seq<Byte>, combined: seq<Byte>, truncated: bool)

  datatype Bufs = Bufs(stdout: C.Buf, stderr: C.Buf, combined: C.Buf)

  /** What the caller's writers took, and how many bytes they left out without an error. */
  datatype Sink = Sink(taken: seq<Byte>, missed: nat)

  datatype Sinks = Sinks(stdout: Sink, stderr: Sink, combined: Sink)

  /** Where the receive loop is. */
  datatype Receiver =
    | Receiving
    | Writing(chunk: Chunk)
    | WritingCombined(chunk: Chunk)
    | Capturing(chunk: Chunk)
    | Publishing(chunk: Chunk)
    | CheckingExited(cause: RecvErr)
    | CheckingKilled(cause: RecvErr)
    | CheckingCtx(cause: RecvErr)
    | Normalizing(cause: RecvErr)
    | RecordingExit(code: int)
    | RecordingErr(fault: Fault)
    | ClosingOutput
    | Finishing
    | ClosingDone
    | Releasing
    | Ended

  /** The output channel: what was consumed, what is buffered, and its two flags. */
  datatype Output = Output(consumed: seq<Chunk>, buffered: seq<Chunk>, closed: bool, wanted: bool)

  datatype Waiter = Entering | Draining | Awaiting | Returned(outcome: Outcome)

  datatype Timer = Idle | Armed | Over

  datatype Request = Start | WriteData(data: seq<Byte>) | Kill

  /** How a read of the stdin source ended. */
  datatype ReadEnd = More | AtEof | ReadFailed

  /** Where the stdin loop is. */
  datatype Stdin =
    | Reading
    | Checking(data: seq<Byte>, end: ReadEnd)
    | Sending(data: seq<Byte>, end: ReadEnd)
    | Ending(end: ReadEnd)
    | Killing
    | SendingKill
    | ArmingKill
    | Stopped

  datatype Requests = Requests(
    sent: seq<Request>,
    stdin: Stdin, read: nat,
    writes: seq<seq<Byte>>,
    killsToSend: nat, killsToArm: nat, timer: Timer)

  datatype State = State(
    cfg: Config,
    record: Record,
    ctx: Option<CtxErr>,
    recv: Receiver,
    received: seq<Chunk>,
    captured: seq<Chunk>,
    bufs: Bufs,
    sinks: Sinks,
    out: Output,
    done: bool,
    waiters: seq<Waiter>,
    req: Requests)

  // ---- Critical sections (exec.go:605-610, 790-810, 842-854) -------------

  function SetExit(r: Record, code: int): Record {
    if !r.exited then r.(exited := true, exitCode := code, stamped := true) else r
  }

  function SetErr(r: Record, f: Fault): Record {
    if !r.exited && r.err.None? then r.(err := Some(f), stamped := true) else r
  }

  predicate Settled(r: Record) { r.exited || r.err.Some? }

  function AcceptKill(r: Record): Record {
    if Settled(r) then r else r.(killed := true)
  }

  function FinishRecord(r: Record): Record {
    r.(stamped := true, err := if Settled(r) then r.err else Some(EndedEarly))
  }

  function CancelCtx(ctx: Option<CtxErr>, why: CtxErr): Option<CtxErr> {
    if ctx.None? then Some(why) else ctx
  }

  // ---- The receive loop (exec.go:688-764, 812-840) -----------------------

  /** What the environment decides at a receiver's step. */
  datatype Env =
    | GotChunk(chunk: Chunk)
    | GotExit(code: int)
    | GotOther
    | RecvFailed(cause: RecvErr)
    | Wrote(accepted: nat, failed: Option<int>)
    | PreferSend
    | PreferDone

  predicate HasWriter(cfg: Config, stream: Stream) {
    match stream case Stdout => cfg.hasStdout case Stderr => cfg.hasStderr
  }

  function Offer(sink: Sink, data: seq<Byte>, accepted: nat): Sink {
    if accepted >= |data| then sink.(taken := sink.taken + data)
    else Sink(sink.taken + data[..accepted], sink.missed + (|data| - accepted))
  }

  function OfferStream(sinks: Sinks, chunk: Chunk, accepted: nat): Sinks {
    match chunk.stream
    case Stdout => sinks.(stdout := Offer(sinks.stdout, chunk.data, accepted))
    case Stderr => sinks.(stderr := Offer(sinks.stderr, chunk.data, accepted))
  }

  function CaptureChunk(bufs: Bufs, chunk: Chunk): Bufs {
    match chunk.stream
    case Stdout => bufs.(stdout := C.Put(bufs.stdout, chunk.data), combined := C.Put(bufs.combined, chunk.data))
    case Stderr => bufs.(stderr := C.Put(bufs.stderr, chunk.data), combined := C.Put(bufs.combined, chunk.data))
  }

  predicate HasRoom(s: State) { |s.out.buffered| < s.cfg.bufferSize }

  /** Someone is blocked receiving from an empty output channel. */
  predicate Rendezvous(s: State) {
    s.out.buffered == [] && (s.out.wanted || Draining in s.waiters)
  }

  /** The error of a stream that ended, once the killed flag and the context were consulted. */
  function Normalize(ctx: Option<CtxErr>, cause: RecvErr): Fault {
    if cause.Eof? || ctx.Some? || cause.CanceledStatus? then EndedEarly else StreamFailed(cause)
  }

  function ReceiverStep(s: State, env: Env): State {
    match s.recv
    case Receiving => (
      match env
      case GotChunk(c) =>
        s.(received := s.received + [c], recv := if c.data == [] then Receiving else Writing(c))
      case GotExit(code) => s.(recv := RecordingExit(code))
      case RecvFailed(cause) => s.(recv := CheckingExited(cause))
      case _ => s)
    case Writing(c) =>
      if !HasWriter(s.cfg, c.stream) then s.(recv := WritingCombined(c)) else (
      match env
      case Wrote(n, None) => s.(recv := WritingCombined(c), sinks := OfferStream(s.sinks, c, n))
      case Wrote(n, Some(code)) =>
        s.(recv := RecordingErr(WriterFailed(code)), sinks := OfferStream(s.sinks, c, n))
      case _ => s)
    case WritingCombined(c) =>
      if !s.cfg.hasCombined then s.(recv := Capturing(c)) else (
      match env
      case Wrote(n, None) =>
        s.(recv := Capturing(c), sinks := s.sinks.(combined := Offer(s.sinks.combined, c.data, n)))
      case Wrote(n, Some(code)) =>
        s.(recv := RecordingErr(WriterFailed(code)),
           sinks := s.sinks.(combined := Offer(s.sinks.combined, c.data, n)))
      case _ => s)
    case Capturing(c) =>
      s.(captured := s.captured + [c],
         bufs := if s.cfg.capture.Some? then CaptureChunk(s.bufs, c) else s.bufs,
         recv := if s.cfg.streaming then Publishing(c) else Receiving)
    case Publishing(c) => (
      match env
      case PreferSend =>
        if HasRoom(s) then s.(recv := Receiving, out := s.out.(buffered := s.out.buffered + [c]))
        else if Rendezvous(s) then s.(recv := Receiving, out := s.out.(consumed := s.out.consumed + [c]))
        else s
      case PreferDone =>
        if s.ctx.Some? then s.(recv := RecordingErr(ContextEnded(s.ctx.value))) else s
      case _ => s)
    case CheckingExited(cause) =>
      s.(recv := if s.record.exited then ClosingOutput else CheckingKilled(cause))
    case CheckingKilled(cause) =>
      s.(recv := if s.record.killed then RecordingExit(-1) else CheckingCtx(cause))
    case CheckingCtx(cause) =>
      s.(recv := if s.ctx.Some? then RecordingErr(ContextEnded(s.ctx.value)) else Normalizing(cause))
    case Normalizing(cause) => s.(recv := RecordingErr(Normalize(s.ctx, cause)))
    case RecordingExit(code) => s.(record := SetExit(s.record, code), recv := ClosingOutput)
    case RecordingErr(fault) => s.(record := SetErr(s.record, fault), recv := ClosingOutput)
    case ClosingOutput => s.(out := s.out.(closed := true), recv := Finishing)
    case Finishing => s.(record := FinishRecord(s.record), recv := ClosingDone)
    case ClosingDone => s.(done := true, recv := Releasing)
    case Releasing => s.(ctx := CancelCtx(s.ctx, Canceled), recv := Ended)
    case Ended => s
  }

  // ---- Wait and Output (exec.go:556-564, 633-664) ------------------------

  function OutcomeOf(s: State): Outcome {
    match s.record.err
    case Some(f) => Failed(f)
    case None =>
      Finished(s.record.exitCode, s.record.killed,
        if s.cfg.capture.None? then None
        else Some(Captured(s.bufs.stdout.content, s.bufs.stderr.content, s.bufs.combined.content,
                           s.bufs.stdout.truncated || s.bufs.stderr.truncated || s.bufs.combined.truncated)))
  }

  function Consume(o: Output): Output {
    if o.buffered == [] then o
    else o.(consumed := o.consumed + [o.buffered[0]], buffered := o.buffered[1..])
  }

  function WaiterStep(s: State, i: nat): State {
    if i >= |s.waiters| then s else
    match s.waiters[i]
    case Entering =>
      s.(waiters := s.waiters[i := if s.cfg.streaming && !s.out.wanted then Draining else Awaiting])
    case Draining =>
      if s.out.buffered != [] then s.(out := Consume(s.out))
      else if s.out.closed then s.(waiters := s.waiters[i := Awaiting])
      else s
    case Awaiting => if s.done then s.(waiters := s.waiters[i := Returned(OutcomeOf(s))]) else s
    case Returned(_) => s
  }

  // ---- The request side (exec.go:570-627, 766-788) -----------------------

  const READ_SIZE := 32 * 1024

  /** What the environment decides at a step of the stdin loop. */
  datatype StdinEnv = ReadReturns(n: nat, end: ReadEnd) | SendReturns(ok: bool)

  function Min(a: nat, b: nat): nat { if a <= b then a else b }

  function Remaining(s: State): nat {
    if s.cfg.source.None? || s.req.read > |s.cfg.source.value| then 0
    else |s.cfg.source.value| - s.req.read
  }

  function Send(req: Requests, m: Request): Requests {
    req.(sent := req.sent + [m])
  }

  function ArmTimer(req: Requests): Requests {
    if req.timer.Idle? then req.(timer := Armed) else req
  }

  function StdinStep(s: State, env: StdinEnv): State {
    match s.req.stdin
    case Reading =>
      if !env.ReadReturns? then s else
      var n := Min(env.n, Min(READ_SIZE, Remaining(s)));
      // A reader reports the end of its source only once all of it was read.
      if env.end.AtEof? && n != Remaining(s) then s
      else if n == 0 then s.(req := s.req.(stdin := Ending(env.end)))
      else s.(req := s.req.(stdin := Checking(s.cfg.source.value[s.req.read..s.req.read + n], env.end),
                            read := s.req.read + n))
    case Checking(data, end) => s.(req := s.req.(stdin := if s.done then Stopped else Sending(data, end)))
    case Sending(data, end) =>
      if !env.SendReturns? then s
      else if env.ok then s.(req := Send(s.req, WriteData(data)).(stdin := Ending(end)))
      else s.(req := s.req.(stdin := Stopped))
    case Ending(end) =>
      s.(req := s.req.(stdin :=
        match end
        case More => if s.done then Stopped else Reading
        case AtEof => if s.cfg.terminateOnEof then Killing else Stopped
        case ReadFailed => Stopped))
    case Killing =>
      if Settled(s.record) then s.(req := s.req.(stdin := Stopped))
      else s.(record := AcceptKill(s.record), req := s.req.(stdin := SendingKill))
    case SendingKill =>
      if !env.SendReturns? then s
      else if env.ok then s.(req := Send(s.req, Kill).(stdin := ArmingKill))
      else s.(req := s.req.(stdin := Stopped))
    case ArmingKill => s.(req := ArmTimer(s.req).(stdin := Stopped))
    case Stopped => s
  }

  function RemoveAt<T>(xs: seq<T>, i: nat): seq<T>
    requires i < |xs|
  {
    xs[..i] + xs[i + 1..]
  }

  // ---- Actions and runs --------------------------------------------------

  datatype Action =
    | ReceiverTurn(env: Env)
    | StdinTurn(stdinEnv: StdinEnv)
    | Cancel(why: CtxErr)                // Close, the caller's context or the timeout
    | TimerFires
    | TimerStops
    | KillEnters
    | KillSends(ok: bool)
    | KillArms
    | WriteEnters(data: seq<Byte>)
    | WriteSends(index: nat, ok: bool)
    | TakeOutput
    | ConsumeOutput
    | WaitEnters
    | WaiterTurn(waiter: nat)

  function Step(s: State, a: Action): State {
    match a
    case ReceiverTurn(env) => ReceiverStep(s, env)
    case StdinTurn(env) => StdinStep(s, env)
    case Cancel(why) => s.(ctx := CancelCtx(s.ctx, why))
    case TimerFires =>
      if s.req.timer.Armed? then s.(ctx := CancelCtx(s.ctx, Canceled), req := s.req.(timer := Over)) else s
    case TimerStops => if s.done && s.req.timer.Armed? then s.(req := s.req.(timer := Over)) else s
    // Only a streaming session is handed to a caller who can kill or write to it.
    case KillEnters =>
      if !s.cfg.streaming || Settled(s.record) then s
      else s.(record := AcceptKill(s.record), req := s.req.(killsToSend := s.req.killsToSend + 1))
    case KillSends(ok) =>
      if s.req.killsToSend == 0 then s
      else if ok then s.(req := Send(s.req, Kill).(killsToSend := s.req.killsToSend - 1,
                                                   killsToArm := s.req.killsToArm + 1))
      else s.(req := s.req.(killsToSend := s.req.killsToSend - 1))
    case KillArms =>
      if s.req.killsToArm == 0 then s
      else s.(req := ArmTimer(s.req).(killsToArm := s.req.killsToArm - 1))
    case WriteEnters(data) =>
      if !s.cfg.streaming || data == [] || s.done then s
      else s.(req := s.req.(writes := s.req.writes + [data]))
    case WriteSends(i, ok) =>
      if i >= |s.req.writes| then s
      else
        var req := s.req.(writes := RemoveAt(s.req.writes, i));
        s.(req := if ok then Send(req, WriteData(s.req.writes[i])) else req)
    case TakeOutput => if s.cfg.streaming then s.(out := s.out.(wanted := true)) else s
    case ConsumeOutput => if s.out.wanted then s.(out := Consume(s.out)) else s
    case WaitEnters => s.(waiters := s.waiters + [Entering])
    case WaiterTurn(i) => WaiterStep(s, i)
  }

  /** startExec: the single Request has been sent and the loops are started. */
  function Init(cfg: Config): State {
    var b := C.Empty(if cfg.capture.Some? then cfg.capture.value else 0);
    var k := Sink([], 0);
    State(cfg, Record(false, false, -1, None, false), None, Receiving, [], [], Bufs(b, b, b), Sinks(k, k, k),
      Output([], [], false, false), false, [],
      Requests([Start], if cfg.source.Some? then Reading else Stopped, 0, [], 0, 0, Idle))
  }

  function Run(s: State, actions: seq<Action>): State
    decreases |actions|
  {
    if actions == [] then s else Run(Step(s, actions[0]), actions[1..])
  }

  lemma {:induction false} RunAppend(s: State, a: seq<Action>, b: seq<Action>)
    ensures Run(s, a + b) == Run(Run(s, a), b)
    decreases |a|
  {
    if a == [] {
      assert a + b == b;
    } else {
      assert (a + b)[1..] == a[1..] + b;
      RunAppend(Step(s, a[0]), a[1..], b);
    }
  }
}
