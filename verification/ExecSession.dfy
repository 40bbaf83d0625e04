/**
 The receive loop in the form of the source: an object whose methods update its
 fields, with every other thread free to act before each atomic step. The ghost
 trace records the actions taken, and validity says that the fields are what the
 protocol's run of that trace gives; so all theorems about runs apply to the object.
 */
module ExecSession {
  import opened Prelude
  import opened ExecProtocol
  import opened ExecSafety
  import opened ExecOutcome
  import opened ExecProgress
  import C = Capture

  predicate NoReceiver(actions: seq<Action>) {
    forall a :: a in actions ==> !a.ReceiverTurn?
  }

  function DropReceiver(actions: seq<Action>): (r: seq<Action>)
    ensures NoReceiver(r)
  {
    if actions == [] then []
    else (if actions[0].ReceiverTurn? then [] else [actions[0]]) + DropReceiver(actions[1..])
  }

  /** Whatever the other threads do, the receive loop's own data stays put. */
  lemma {:induction false} RunOthersFrame(s: State, actions: seq<Action>)
    requires NoReceiver(actions)
    ensures var t := Run(s, actions);
            && t.cfg == s.cfg && t.recv == s.recv && t.received == s.received && t.captured == s.captured
            && t.bufs == s.bufs && t.sinks == s.sinks && t.done == s.done && t.out.closed == s.out.closed
            && t.record == s.record.(killed := t.record.killed)
    decreases |actions|
  {
    if actions != [] {
      var t := Step(s, actions[0]);
      OthersFrame(s, actions[0]);
      StepKeepsCfg(s, actions[0]);
      RunOthersFrame(t, actions[1..]);
    }
  }

  lemma {:induction false} RunOne(s: State, a: Action)
    ensures Run(s, [a]) == Step(s, a)
  {
    assert Run(Step(s, a), []) == Step(s, a);
  }

  function Fallback(at: Receiver): Env {
    match at
    case Receiving => RecvFailed(Eof)
    case Writing(_) => Wrote(0, None)
    case WritingCombined(_) => Wrote(0, None)
    case _ => PreferDone
  }

  /** Cancelling the context lets every pending call be answered. */
  lemma {:induction false} CancelAnswers(s: State)
    requires !s.recv.Ended?
    ensures Answers(Run(s, [Cancel(Canceled)]), Fallback(s.recv))
  {
    RunOne(s, Cancel(Canceled));
  }

  /** One trace goes on where another ended. */
  predicate Extends(before: seq<Action>, after: seq<Action>) {
    |before| <= |after| && Same(after[..|before|], before)
  }

  lemma {:induction false} Appending(trace: seq<Action>, more: seq<Action>)
    ensures Extends(trace, trace + more)
  {
    assert (trace + more)[..|trace|] == trace;
  }

  lemma {:induction false} ExtendsTransitive(a: seq<Action>, b: seq<Action>, c: seq<Action>)
    requires Extends(a, b) && Extends(b, c)
    ensures Extends(a, c)
  {
    assert c[..|b|][..|a|] == c[..|a|];
  }

  lemma {:induction false} ExtendsChains()
    ensures forall a, b, c {:trigger Extends(a, b), Extends(b, c)} :: Extends(a, b) && Extends(b, c) ==> Extends(a, c)
  {
    forall a, b, c | Extends(a, b) && Extends(b, c) ensures Extends(a, c) {
      ExtendsTransitive(a, b, c);
    }
  }

  /** How many of the first n actions are the receive loop's own. */
  function LoopStepsIn(actions: seq<Action>, n: nat): nat
    requires n <= |actions|
  {
    if n == 0 then 0 else LoopStepsIn(actions, n - 1) + (if actions[n - 1].ReceiverTurn? then 1 else 0)
  }

  function LoopSteps(actions: seq<Action>): nat {
    LoopStepsIn(actions, |actions|)
  }

  lemma {:induction false} LoopStepsOfPrefix(a: seq<Action>, b: seq<Action>, n: nat)
    requires n <= |a|
    ensures LoopStepsIn(a + b, n) == LoopStepsIn(a, n)
  {
    if n > 0 {
      LoopStepsOfPrefix(a, b, n - 1);
    }
  }

  lemma {:induction false} LoopStepsSnoc(actions: seq<Action>, a: Action)
    ensures LoopSteps(actions + [a]) == LoopSteps(actions) + (if a.ReceiverTurn? then 1 else 0)
  {
    LoopStepsOfPrefix(actions, [a], |actions|);
  }

  lemma {:induction false} LoopStepsOfOthers(actions: seq<Action>, others: seq<Action>, n: nat)
    requires NoReceiver(others) && n <= |others|
    ensures LoopStepsIn(actions + others, |actions| + n) == LoopSteps(actions)
  {
    if n == 0 {
      LoopStepsOfPrefix(actions, others, |actions|);
    } else {
      LoopStepsOfOthers(actions, others, n - 1);
      assert (actions + others)[|actions| + n - 1] == others[n - 1];
    }
  }

  lemma {:induction false} TraceGrows(s: State, trace: seq<Action>, others: seq<Action>)
    requires NoReceiver(others)
    ensures Extends(trace, trace + others) && LoopSteps(trace + others) == LoopSteps(trace)
    ensures Run(s, trace + others) == Run(Run(s, trace), others)
  {
    RunAppend(s, trace, others);
    Appending(trace, others);
    LoopStepsOfOthers(trace, others, |others|);
  }

  /** A finished loop has closed everything, and nothing that comes later changes its outcome. */
  lemma {:induction false} OutcomeStays(cfg: Config, trace: seq<Action>)
    requires Run(Init(cfg), trace).done
    ensures var s := Run(Init(cfg), trace);
            && s.out.closed && (s.record.exited <==> s.record.err == None)
            && forall later :: OutcomeOf(Run(Init(cfg), trace + later)) == OutcomeOf(s)
  {
    OutcomeIsFinal(cfg, trace, []);
    forall later ensures OutcomeOf(Run(Init(cfg), trace + later)) == OutcomeOf(Run(Init(cfg), trace)) {
      OutcomeIsFinal(cfg, trace, later);
    }
  }

  /** Only what the other threads may change is different. */
  predicate OthersOnly(s: State, t: State) {
    && t == s.(record := s.record.(killed := t.record.killed), ctx := t.ctx, out := t.out, waiters := t.waiters,
               req := t.req)
    && t.out.closed == s.out.closed
  }

  lemma {:induction false} OthersRun(cfg: Config, trace: seq<Action>, s: State, others: seq<Action>)
    requires NoReceiver(others) && s == Run(Init(cfg), trace)
    ensures OthersOnly(s, Run(s, others)) && Run(s, others) == Run(Init(cfg), trace + others)
    ensures Extends(trace, trace + others) && LoopSteps(trace + others) == LoopSteps(trace)
  {
    RunOthersFrame(s, others);
    TraceGrows(Init(cfg), trace, others);
  }

  /** The other threads run on until the loop's pending call is answered; t is the state then. */
  method Schedule(s: State, ghost cfg: Config, ghost trace: seq<Action>)
    returns (t: State, ghost longer: seq<Action>, env: Env)
    requires !s.recv.Ended? && s == Run(Init(cfg), trace)
    ensures OthersOnly(s, t) && Answers(t, env)
    ensures t == Run(Init(cfg), longer) && Extends(trace, longer) && LoopSteps(longer) == LoopSteps(trace)
  {
    var others: seq<Action> := *;
    env := *;
    others := DropReceiver(others);
    if !Answers(Run(s, others), env) {
      others := [Cancel(Canceled)];
      env := Fallback(s.recv);
      CancelAnswers(s);
    }
    OthersRun(cfg, trace, s, others);
    t := Run(s, others);
    longer := trace + others;
  }

  /** The output once a chunk has gone into the channel, or straight to a receiver. */
  function Sent(out: Output, chunk: Chunk, bufferSize: nat): Output {
    if |out.buffered| < bufferSize then out.(buffered := out.buffered + [chunk])
    else out.(consumed := out.consumed + [chunk])
  }

  lemma {:induction false} PublishStep(s: State, chunk: Chunk, env: Env)
    requires s.recv == Publishing(chunk) && Answers(s, env)
    ensures ReceiverStep(s, env) ==
      if env.PreferSend? then s.(recv := Receiving, out := Sent(s.out, chunk, s.cfg.bufferSize))
      else s.(recv := RecordingErr(ContextEnded(s.ctx.value)))
    ensures !env.PreferSend? ==> s.ctx.Some?
  {
  }

  lemma {:induction false} RecordingErrStep(s: State, fault: Fault, env: Env)
    requires s.recv == RecordingErr(fault)
    ensures var settled := Settled(s.record);
            ReceiverStep(s, env) ==
            s.(record := s.record.(err := if settled then s.record.err else Some(fault),
                                   stamped := s.record.stamped || !settled),
               recv := ClosingOutput)
  {
  }

  lemma {:induction false} FinishingStep(s: State, env: Env)
    requires s.recv == Finishing
    ensures ReceiverStep(s, env) ==
            s.(record := s.record.(err := if Settled(s.record) then s.record.err else Some(EndedEarly), stamped := true),
               recv := ClosingDone)
  {
  }

  lemma {:induction false} RecordingExitStep(s: State, code: int, env: Env)
    requires s.recv == RecordingExit(code)
    ensures ReceiverStep(s, env) ==
            s.(record := s.record.(exited := true, exitCode := if s.record.exited then s.record.exitCode else code,
                                   stamped := s.record.stamped || !s.record.exited),
               recv := ClosingOutput)
  {
  }

  class Session {
    const cfg: Config
    const stdoutBuf: C.CaptureBuffer
    const stderrBuf: C.CaptureBuffer
    const combinedBuf: C.CaptureBuffer

    var killed: bool
    var exited: bool
    var exitCode: int
    var err: Option<Fault>
    var stamped: bool

    var ctx: Option<CtxErr>
    var out: Output
    var done: bool
    var waiters: seq<Waiter>
    var req: Requests

    var at: Receiver
    var received: seq<Chunk>
    var captured: seq<Chunk>
    var sinks: Sinks

    ghost var trace: seq<Action>

    function Shared(): Record
      reads this
    {
      Record(killed, exited, exitCode, err, stamped)
    }

    /** What the capture buffers hold. */
    function Contents(): Bufs
      reads stdoutBuf, stderrBuf, combinedBuf
    {
      Bufs(stdoutBuf.Value(), stderrBuf.Value(), combinedBuf.Value())
    }

    function Abs(): State
      reads this, stdoutBuf, stderrBuf, combinedBuf
    {
      State(cfg, Shared(), ctx, at, received, captured,
        Contents(), sinks, out, done, waiters, req)
    }

    ghost predicate Valid()
      reads this, stdoutBuf, stderrBuf, combinedBuf
    {
      && stdoutBuf != stderrBuf && stdoutBuf != combinedBuf && stderrBuf != combinedBuf
      && Abs() == Run(Init(cfg), trace)
    }

    constructor (cfg: Config)
      ensures Valid() && this.cfg == cfg && at == Receiving && trace == []
      ensures fresh(stdoutBuf) && fresh(stderrBuf) && fresh(combinedBuf)
    {
      this.cfg := cfg;
      var limit := if cfg.capture.Some? then cfg.capture.value else 0;
      stdoutBuf := new C.CaptureBuffer(limit);
      stderrBuf := new C.CaptureBuffer(limit);
      combinedBuf := new C.CaptureBuffer(limit);
      killed, exited, exitCode, err, stamped := false, false, -1, None, false;
      ctx, out, done, waiters := None, Output([], [], false, false), false, [];
      req := Requests([Start], if cfg.source.Some? then Reading else Stopped, 0, [], 0, 0, Idle);
      at, received, captured := Receiving, [], [];
      sinks := Sinks(Sink([], 0), Sink([], 0), Sink([], 0));
      trace := [];
    }

    /** The other threads run for a while, until the loop's pending call is answered. */
    method Await() returns (env: Env)
      requires Valid() && !at.Ended?
      modifies this
      ensures Valid() && Extends(old(trace), trace) && LoopSteps(trace) == LoopSteps(old(trace)) && at == old(at) && Answers(Abs(), env)
      ensures received == old(received) && done == old(done) && out.closed == old(out.closed)
      ensures exited == old(exited) && exitCode == old(exitCode) && err == old(err) && stamped == old(stamped)
      ensures sinks == old(sinks) && captured == old(captured)
    {
      var t: State;
      ghost var longer;
      t, longer, env := Schedule(Abs(), cfg, trace);
      killed, ctx, out, waiters, req := t.record.killed, t.ctx, t.out, t.waiters, t.req;
      trace := longer;
      assert Abs() == t;
    }

    /** Notes that the loop took one step, which the caller has already carried out. */
    ghost method Took(before: State, env: Env)
      requires stdoutBuf != stderrBuf && stdoutBuf != combinedBuf && stderrBuf != combinedBuf
      requires before == Run(Init(cfg), trace) && Abs() == ReceiverStep(before, env)
      modifies this`trace
      ensures Valid() && Extends(old(trace), trace) && LoopSteps(trace) == LoopSteps(old(trace)) + 1
    {
      LoopStepsSnoc(trace, ReceiverTurn(env));
      Appending(trace, [ReceiverTurn(env)]);
      RunAppend(Init(cfg), trace, [ReceiverTurn(env)]);
      RunOne(before, ReceiverTurn(env));
      trace := trace + [ReceiverTurn(env)];
    }

    // ---- The critical sections --------------------------------------------

    method SetExit(code: int)
      requires Valid() && at == RecordingExit(code)
      modifies this
      ensures Valid() && Extends(old(trace), trace) && LoopSteps(trace) == LoopSteps(old(trace)) + 1 && at == ClosingOutput
      ensures exited && exitCode == (if old(exited) then old(exitCode) else code) && err == old(err)
      ensures stamped == old(stamped || !exited)
      ensures received == old(received) && captured == old(captured) && sinks == old(sinks) && done == old(done)
    {
      ExtendsChains();
      var env := Await();
      ghost var before := Abs();
      RecordingExitStep(before, code, env);
      if !exited {
        exited := true;
        exitCode := code;
        stamped := true;
      }
      at := ClosingOutput;
      Took(before, env);
    }

    method SetErr(fault: Fault)
      requires Valid() && at == RecordingErr(fault)
      modifies this
      ensures Valid() && Extends(old(trace), trace) && LoopSteps(trace) == LoopSteps(old(trace)) + 1 && at == ClosingOutput
      ensures exited == old(exited) && exitCode == old(exitCode)
      ensures err == (if old(exited || err.Some?) then old(err) else Some(fault))
      ensures stamped == old(stamped || !(exited || err.Some?))
      ensures received == old(received) && captured == old(captured) && sinks == old(sinks) && done == old(done)
    {
      ExtendsChains();
      var env := Await();
      ghost var before := Abs();
      RecordingErrStep(before, fault, env);
      if !exited && err == None {
        err := Some(fault);
        stamped := true;
      }
      at := ClosingOutput;
      Took(before, env);
    }

    /** finish's locked part. */
    method FinishRecord()
      requires Valid() && at == Finishing
      modifies this
      ensures Valid() && Extends(old(trace), trace) && at == ClosingDone
      ensures stamped && exited == old(exited) && exitCode == old(exitCode)
           && err == (if old(exited) || old(err).Some? then old(err) else Some(EndedEarly))
      ensures received == old(received) && captured == old(captured) && sinks == old(sinks) && done == old(done)
    {
      ExtendsChains();
      var env := Await();
      ghost var before := Abs();
      FinishingStep(before, env);
      stamped := true;
      if !exited && err == None {
        err := Some(EndedEarly);
      }
      at := ClosingDone;
      Took(before, env);
    }

    method CloseDone()
      requires Valid() && at == ClosingDone
      modifies this
      ensures Valid() && Extends(old(trace), trace) && at == Releasing && done
      ensures exited == old(exited) && exitCode == old(exitCode) && err == old(err) && stamped == old(stamped)
    {
      ExtendsChains();
      var env := Await();
      ghost var before := Abs();
      done := true;
      at := Releasing;
      Took(before, env);
    }

    method CloseOutput()
      requires Valid() && at == ClosingOutput
      modifies this
      ensures Valid() && Extends(old(trace), trace) && at == Finishing
      ensures exited == old(exited) && exitCode == old(exitCode) && err == old(err) && stamped == old(stamped)
    {
      ExtendsChains();
      var env := Await();
      ghost var before := Abs();
      out := out.(closed := true);
      at := Finishing;
      Took(before, env);
    }

    method Release()
      requires Valid() && at == Releasing
      modifies this
      ensures Valid() && Extends(old(trace), trace) && at == Ended && done == old(done)
      ensures exited == old(exited) && exitCode == old(exitCode) && err == old(err) && stamped == old(stamped)
    {
      ExtendsChains();
      var env := Await();
      ghost var before := Abs();
      ctx := CancelCtx(ctx, Canceled);
      at := Ended;
      Took(before, env);
    }

    // ---- The atomic loads of setStreamErr ---------------------------------

    method LoadExited(cause: RecvErr) returns (r: bool)
      requires Valid() && at == CheckingExited(cause)
      modifies this
      ensures Valid() && Extends(old(trace), trace) && at == (if r then ClosingOutput else CheckingKilled(cause))
      ensures r == exited
      ensures exited == old(exited) && err == old(err)
    {
      ExtendsChains();
      var env := Await();
      ghost var before := Abs();
      r := exited;
      at := if r then ClosingOutput else CheckingKilled(cause);
      Took(before, env);
    }

    method LoadKilled(cause: RecvErr) returns (r: bool)
      requires Valid() && at == CheckingKilled(cause)
      modifies this
      ensures Valid() && Extends(old(trace), trace) && at == (if r then RecordingExit(-1) else CheckingCtx(cause))
      ensures r == killed
      ensures exited == old(exited) && err == old(err)
    {
      ExtendsChains();
      var env := Await();
      ghost var before := Abs();
      r := killed;
      at := if r then RecordingExit(-1) else CheckingCtx(cause);
      Took(before, env);
    }

    method LoadCtx(cause: RecvErr) returns (r: Option<CtxErr>)
      requires Valid() && at == CheckingCtx(cause)
      modifies this
      ensures Valid() && Extends(old(trace), trace)
      ensures r == ctx && at == (if r.Some? then RecordingErr(ContextEnded(r.value)) else Normalizing(cause))
      ensures exited == old(exited) && err == old(err)
    {
      ExtendsChains();
      var env := Await();
      ghost var before := Abs();
      r := ctx;
      at := if r.Some? then RecordingErr(ContextEnded(r.value)) else Normalizing(cause);
      Took(before, env);
    }

    method NormalizeErr(cause: RecvErr) returns (fault: Fault)
      requires Valid() && at == Normalizing(cause)
      modifies this
      ensures Valid() && Extends(old(trace), trace) && at == RecordingErr(fault)
      ensures fault == (if ctx.None? && cause.Failure? then StreamFailed(cause) else EndedEarly)
      ensures exited == old(exited) && err == old(err)
    {
      ExtendsChains();
      var env := Await();
      ghost var before := Abs();
      fault := Normalize(ctx, cause);
      at := RecordingErr(fault);
      Took(before, env);
    }

    method SetStreamErr(cause: RecvErr)
      requires Valid() && at == CheckingExited(cause)
      modifies this
      ensures Valid() && Extends(old(trace), trace) && at == ClosingOutput
      ensures old(!exited && err.None?) ==>
        if exited then exitCode == -1 && err.None?
        else err.Some? && (err.value.ContextEnded? || err.value == EndedEarly
                           || (cause.Failure? && err.value == StreamFailed(cause)))
    {
      ExtendsChains();
      var wasExited := LoadExited(cause);
      if wasExited {
        return;
      }
      var wasKilled := LoadKilled(cause);
      if wasKilled {
        SetExit(-1);
        return;
      }
      var ctxErr := LoadCtx(cause);
      if ctxErr.Some? {
        SetErr(ContextEnded(ctxErr.value));
        return;
      }
      var fault := NormalizeErr(cause);
      SetErr(fault);
    }

    // ---- deliver ----------------------------------------------------------

    /** Offers the chunk to its stream's writer, if there is one. */
    method WriteStream(chunk: Chunk) returns (failed: Option<int>)
      requires Valid() && at == Writing(chunk)
      modifies this
      ensures Valid() && Extends(old(trace), trace)
      ensures at == (if failed.Some? then RecordingErr(WriterFailed(failed.value)) else WritingCombined(chunk))
      ensures received == old(received) && captured == old(captured)
    {
      ExtendsChains();
      var env := Await();
      ghost var before := Abs();
      failed := None;
      if HasWriter(cfg, chunk.stream) {
        sinks := OfferStream(sinks, chunk, env.accepted);
        failed := env.failed;
      }
      at := if failed.Some? then RecordingErr(WriterFailed(failed.value)) else WritingCombined(chunk);
      Took(before, env);
    }

    method WriteCombined(chunk: Chunk) returns (failed: Option<int>)
      requires Valid() && at == WritingCombined(chunk)
      modifies this
      ensures Valid() && Extends(old(trace), trace)
      ensures at == (if failed.Some? then RecordingErr(WriterFailed(failed.value)) else Capturing(chunk))
      ensures received == old(received) && captured == old(captured)
    {
      ExtendsChains();
      var env := Await();
      ghost var before := Abs();
      failed := None;
      if cfg.hasCombined {
        sinks := sinks.(combined := Offer(sinks.combined, chunk.data, env.accepted));
        failed := env.failed;
      }
      at := if failed.Some? then RecordingErr(WriterFailed(failed.value)) else Capturing(chunk);
      Took(before, env);
    }

    method PutChunk(chunk: Chunk)
      requires stdoutBuf != stderrBuf && stdoutBuf != combinedBuf && stderrBuf != combinedBuf
      modifies stdoutBuf, stderrBuf, combinedBuf
      ensures Contents() == CaptureChunk(old(Contents()), chunk)
    {
      if chunk.stream.Stdout? {
        stdoutBuf.Write(chunk.data);
      } else {
        stderrBuf.Write(chunk.data);
      }
      combinedBuf.Write(chunk.data);
    }

    method CaptureData(chunk: Chunk)
      requires Valid() && at == Capturing(chunk)
      modifies this, stdoutBuf, stderrBuf, combinedBuf
      ensures Valid() && Extends(old(trace), trace) && LoopSteps(trace) == LoopSteps(old(trace)) + 1
      ensures at == (if cfg.streaming then Publishing(chunk) else Receiving)
      ensures captured == old(captured) + [chunk] && received == old(received) && sinks == old(sinks)
      ensures exited == old(exited) && exitCode == old(exitCode) && err == old(err) && stamped == old(stamped)
      ensures Contents() == (if cfg.capture.Some? then CaptureChunk(old(Contents()), chunk) else old(Contents()))
    {
      ExtendsChains();
      var env := Await();
      ghost var before := Abs();
      if cfg.capture.Some? {
        PutChunk(chunk);
      }
      captured := captured + [chunk];
      at := if cfg.streaming then Publishing(chunk) else Receiving;
      Took(before, env);
    }

    /** The select between the output channel and the context's end. */
    method Publish(chunk: Chunk) returns (ended: Option<CtxErr>)
      requires Valid() && at == Publishing(chunk)
      modifies this
      ensures Valid() && Extends(old(trace), trace) && LoopSteps(trace) == LoopSteps(old(trace)) + 1
      ensures at == (if ended.Some? then RecordingErr(ContextEnded(ended.value)) else Receiving)
      ensures received == old(received) && captured == old(captured)
    {
      ExtendsChains();
      var env := Await();
      ghost var before := Abs();
      PublishStep(before, chunk, env);
      if env.PreferSend? {
        out := Sent(out, chunk, cfg.bufferSize);
        ended := None;
        at := Receiving;
      } else {
        ended := ctx;
        at := RecordingErr(ContextEnded(ctx.value));
      }
      Took(before, env);
    }

    method Deliver(chunk: Chunk) returns (ok: bool)
      requires Valid() && at == Writing(chunk)
      modifies this, stdoutBuf, stderrBuf, combinedBuf
      ensures Valid() && Extends(old(trace), trace)
      ensures at == (if ok then Receiving else ClosingOutput)
      ensures received == old(received) && (ok ==> captured == old(captured) + [chunk])
    {
      ExtendsChains();
      var failed := WriteStream(chunk);
      if failed.Some? {
        SetErr(WriterFailed(failed.value));
        return false;
      }
      failed := WriteCombined(chunk);
      if failed.Some? {
        SetErr(WriterFailed(failed.value));
        return false;
      }
      CaptureData(chunk);
      if !cfg.streaming {
        return true;
      }
      var ended := Publish(chunk);
      if ended.Some? {
        SetErr(ContextEnded(ended.value));
        return false;
      }
      ok := true;
    }

    /** One Recv: a message or an error, taken from the environment. */
    method Recv(message: Option<Env>) returns (env: Env)
      requires Valid() && at == Receiving
      requires message.Some? ==> !message.value.RecvFailed?
      modifies this
      ensures Valid() && Extends(old(trace), trace)
      ensures env.GotChunk? ==> at == (if env.chunk.data == [] then Receiving else Writing(env.chunk))
      ensures env.GotExit? ==> at == RecordingExit(env.code)
      ensures env.RecvFailed? ==> at == CheckingExited(env.cause)
      ensures !env.GotChunk? && !env.GotExit? && !env.RecvFailed? ==> at == Receiving
      ensures message.None? ==> env.RecvFailed?
    {
      ExtendsChains();
      env := Await();
      ghost var before := Abs();
      if message.Some? {
        env := message.value;
      }
      match env {
        case GotChunk(c) =>
          received := received + [c];
          at := if c.data == [] then Receiving else Writing(c);
        case GotExit(code) => at := RecordingExit(code);
        case RecvFailed(cause) => at := CheckingExited(cause);
        case _ =>
      }
      Took(before, env);
    }

    /** receiveLoop's deferred calls. */
    method Deferred()
      requires Valid() && at == ClosingOutput
      modifies this
      ensures Valid() && Extends(old(trace), trace) && at == Ended
      ensures done && out.closed && (exited <==> err == None)
      ensures forall later :: OutcomeOf(Run(Init(cfg), trace + later)) == OutcomeOf(Abs())
    {
      ExtendsChains();
      CloseOutput();
      FinishRecord();
      CloseDone();
      Release();
      OutcomeStays(cfg, trace);
    }

    /**
     receiveLoop, fed with the messages that Recv hands out before it fails. It
     always ends, with done closed, the output closed and exactly one outcome
     recorded, which no later run of the other threads changes.
     */
    method ReceiveLoop(messages: seq<Env>)
      requires Valid() && at == Receiving
      requires forall m :: m in messages ==> !m.RecvFailed?
      modifies this, stdoutBuf, stderrBuf, combinedBuf
      ensures Valid() && Extends(old(trace), trace) && at == Ended
      ensures done && out.closed && (exited <==> err == None)
      ensures forall later :: OutcomeOf(Run(Init(cfg), trace + later)) == OutcomeOf(Abs())
    {
      ExtendsChains();
      var i := 0;
      var running := true;
      assert trace[..|trace|] == trace;
      while running
        invariant Valid() && Extends(old(trace), trace)
        invariant 0 <= i <= |messages|
        invariant at == (if running then Receiving else ClosingOutput)
        decreases if running then 1 else 0, |messages| - i
      {
        var env := Recv(if i < |messages| then Some(messages[i]) else None);
        if i < |messages| {
          i := i + 1;
        }
        match env {
          case GotChunk(c) =>
            if c.data != [] {
              running := Deliver(c);
            }
          case GotExit(code) =>
            SetExit(code);
            running := false;
          case RecvFailed(cause) =>
            SetStreamErr(cause);
            running := false;
          case _ =>
        }
      }

      Deferred();
    }
  }
}
