/**
 What each call of an exec session achieves: an accepted Kill, a failed Recv, a
 Write, a Wait and a reader of the output, over every run around it.
 */
module ExecEffects {
  import opened Prelude
  import opened ExecProtocol
  import opened ExecSafety
  import opened ExecOutcome
  import opened ExecProgress
  import ExecWriters

  // ---- The loop only moves on --------------------------------------------

  lemma {:induction false} LateStaysLate(s: State, a: Action)
    ensures !Early(s.recv) ==> !Early(Step(s, a).recv)
  {
    if !a.ReceiverTurn? {
      OthersFrame(s, a);
    }
  }

  lemma {:induction false} EarlyBefore(s: State, actions: seq<Action>)
    ensures Early(Run(s, actions).recv) ==> Early(s.recv)
    decreases |actions|
  {
    if actions != [] {
      LateStaysLate(s, actions[0]);
      EarlyBefore(Step(s, actions[0]), actions[1..]);
    }
  }

  /** Once the context has ended it stays so, for the same reason. */
  lemma {:induction false} CtxStays(s: State, a: Action)
    ensures s.ctx.Some? ==> Step(s, a).ctx == s.ctx
  {
  }

  lemma {:induction false} ContextIsFinal(s: State, actions: seq<Action>)
    ensures s.ctx.Some? ==> Run(s, actions).ctx == s.ctx
    decreases |actions|
  {
    if actions != [] {
      CtxStays(s, actions[0]);
      ContextIsFinal(Step(s, actions[0]), actions[1..]);
    }
  }

  // ---- Kill --------------------------------------------------------------

  /** A Kill that is let in: by a caller, or by the stdin loop at the end of its source. */
  predicate Kills(s: State, a: Action) {
    Early(s.recv) && ((a.KillEnters? && s.cfg.streaming) || (a.StdinTurn? && s.req.stdin.Killing?))
  }

  predicate EverKilled(s: State, actions: seq<Action>)
    decreases |actions|
  {
    actions != [] && (Kills(s, actions[0]) || EverKilled(Step(s, actions[0]), actions[1..]))
  }

  lemma {:induction false} ReceiverNeverKills(s: State, env: Env)
    ensures ReceiverStep(s, env).record.killed == s.record.killed
  {
  }

  lemma {:induction false} KilledStep(s: State, a: Action)
    requires OutcomeInv(s)
    ensures Step(s, a).record.killed <==> s.record.killed || Kills(s, a)
  {
    if a.ReceiverTurn? {
      ReceiverNeverKills(s, a.env);
    }
  }

  lemma {:induction false} KilledIff(s: State, actions: seq<Action>)
    requires Inv(s)
    ensures Run(s, actions).record.killed <==> s.record.killed || EverKilled(s, actions)
    decreases |actions|
  {
    if actions != [] {
      KilledStep(s, actions[0]);
      InvPreserved(s, actions[0]);
      KilledIff(Step(s, actions[0]), actions[1..]);
    }
  }

  /**
   What Wait reports of a finished command: Killed is set exactly if a Kill was let
   in before the loop recorded the exit, and the output exactly if it is captured.
   */
  lemma {:induction false} KilledIsReportedIff(cfg: Config, actions: seq<Action>)
    ensures var s := Run(Init(cfg), actions);
            OutcomeOf(s).Finished? ==>
              && (OutcomeOf(s).killed <==> EverKilled(Init(cfg), actions))
              && (OutcomeOf(s).captured.Some? <==> cfg.capture.Some?)
  {
    InitInv(cfg);
    KilledIff(Init(cfg), actions);
    RunKeepsCfg(Init(cfg), actions);
  }

  lemma {:induction false} EverKilledLater(s: State, a: seq<Action>, b: seq<Action>)
    ensures EverKilled(s, a + b) <==> EverKilled(s, a) || EverKilled(Run(s, a), b)
    decreases |a|
  {
    if a == [] {
      assert a + b == b;
    } else {
      assert (a + b)[1..] == a[1..] + b;
      EverKilledLater(Step(s, a[0]), a[1..], b);
    }
  }

  /** A Kill that is let in is taken into account when Recv fails later, whoever acts in between. */
  lemma {:induction false} KillDecides(cfg: Config, before: seq<Action>, kill: Action, meanwhile: seq<Action>,
                                       cause: RecvErr, after: seq<Action>)
    requires (kill.KillEnters? && cfg.streaming) || (kill.StdinTurn? && Run(Init(cfg), before).req.stdin.Killing?)
    requires Run(Init(cfg), before + [kill] + meanwhile).recv.Receiving?
    ensures var t := Run(Init(cfg), before + [kill] + meanwhile + [ReceiverTurn(RecvFailed(cause))] + after);
            t.done ==> OutcomeOf(t).Finished? && OutcomeOf(t).exitCode == -1 && OutcomeOf(t).killed
  {
    var i := Init(cfg);
    var s := Run(i, before);
    InitInv(cfg);
    RunInv(i, before);
    assert before + [kill] + meanwhile == before + ([kill] + meanwhile);
    RunAppend(i, before, [kill] + meanwhile);
    EarlyBefore(s, [kill] + meanwhile);
    assert ([kill] + meanwhile)[0] == kill;
    assert EverKilled(s, [kill] + meanwhile);
    KilledIff(s, [kill] + meanwhile);
    KillBeforeTheError(cfg, before + [kill] + meanwhile, cause, after);
  }

  /** A timer that is over has fired, or the session was done by then. */
  predicate TimerInv(s: State) {
    s.req.timer.Over? ==> s.ctx.Some? || s.done
  }

  lemma {:induction false} ReceiverKeepsTimer(s: State, env: Env)
    ensures var t := ReceiverStep(s, env); t.req == s.req && (s.ctx.Some? ==> t.ctx.Some?) && (s.done ==> t.done)
  {
  }

  lemma {:induction false} TimerStep(s: State, a: Action)
    requires TimerInv(s)
    ensures TimerInv(Step(s, a)) && (!s.req.timer.Idle? ==> !Step(s, a).req.timer.Idle?)
  {
    if a.ReceiverTurn? {
      ReceiverKeepsTimer(s, a.env);
    }
  }

  lemma {:induction false} RunTimer(s: State, actions: seq<Action>)
    requires TimerInv(s)
    ensures TimerInv(Run(s, actions)) && (!s.req.timer.Idle? ==> !Run(s, actions).req.timer.Idle?)
    decreases |actions|
  {
    if actions != [] {
      TimerStep(s, actions[0]);
      RunTimer(Step(s, actions[0]), actions[1..]);
    }
  }

  const KILL_CALL: seq<Action> := [KillEnters, KillSends(true), KillArms]

  lemma {:induction false} RunThree(s: State, a: Action, b: Action, c: Action)
    ensures Run(s, [a, b, c]) == Step(Step(Step(s, a), b), c)
  {
    assert [a, b, c][1..] == [b, c] && [b, c][1..] == [c];
    assert Run(Step(Step(s, a), b), [c]) == Run(Step(Step(Step(s, a), b), c), []);
    assert Run(Step(s, a), [b, c]) == Run(Step(Step(s, a), b), [c]);
  }

  /**
   A Kill of a running command whose message goes out has sent that message and
   armed the grace timer: by the time the timer fires, whatever happens meanwhile,
   the context has ended or the session is done. A Kill of a command with an
   outcome does nothing.
   */
  lemma {:induction false} KillArmsTheTimer(cfg: Config, before: seq<Action>, meanwhile: seq<Action>)
    requires cfg.streaming
    ensures var s := Run(Init(cfg), before);
            && (Early(s.recv) ==>
                  && Run(s, KILL_CALL).req.sent == s.req.sent + [Kill]
                  && (var t := Run(s, KILL_CALL + meanwhile + [TimerFires]); t.ctx.Some? || t.done))
            && (!Early(s.recv) ==> Step(s, KillEnters) == s)
  {
    var s := Run(Init(cfg), before);
    InitInv(cfg);
    RunInv(Init(cfg), before);
    RunTimer(Init(cfg), before);
    RunThree(s, KillEnters, KillSends(true), KillArms);
    if Early(s.recv) {
      var u := Run(s, KILL_CALL);
      RunTimer(s, KILL_CALL);
      RunTimer(u, meanwhile);
      RunAppend(s, KILL_CALL, meanwhile);
      RunAppend(s, KILL_CALL + meanwhile, [TimerFires]);
      var v := Run(u, meanwhile);
      assert Run(v, [TimerFires]) == Run(Step(v, TimerFires), []);
    }
  }

  /** When the loop has ended, the context has: nothing of the session is left behind. */
  lemma {:induction false} EndReleasesTheContext(s: State, actions: seq<Action>)
    requires s.recv.Ended? ==> s.ctx.Some?
    ensures Run(s, actions).recv.Ended? ==> Run(s, actions).ctx.Some?
    decreases |actions|
  {
    if actions != [] {
      var a := actions[0];
      CtxStays(s, a);
      if !a.ReceiverTurn? {
        OthersFrame(s, a);
      }
      EndReleasesTheContext(Step(s, a), actions[1..]);
    }
  }

  // ---- A failed Recv -----------------------------------------------------

  /** What a failed stream is reported as, if no Kill was let in: the context's own error comes first. */
  function FaultOf(ctx: Option<CtxErr>, cause: RecvErr): Fault {
    if ctx.Some? then ContextEnded(ctx.value)
    else match cause
         case Failure(_) => StreamFailed(cause)
         case Eof => EndedEarly
         case CanceledStatus => EndedEarly
  }

  /** The last step of the classification: a failure of the stream is reported as such, unless the context has ended. */
  lemma {:induction false} UnclassifiedFailure(cfg: Config, before: seq<Action>, env: Env, after: seq<Action>)
    requires Run(Init(cfg), before).recv.Normalizing?
    ensures var s := Run(Init(cfg), before);
            var t := Run(Init(cfg), before + [ReceiverTurn(env)] + after);
            t.done ==> OutcomeOf(t) == Failed(if s.ctx.None? && s.recv.cause.Failure? then StreamFailed(s.recv.cause)
                                              else EndedEarly)
  {
    InitInv(cfg);
    RunInv(Init(cfg), before);
    OneMoreStep(cfg, before, ReceiverTurn(env));
    RecordingDecides(cfg, before + [ReceiverTurn(env)], after);
  }

  /** The step before: an ended context is reported with its own error. */
  lemma {:induction false} EndedContextIsReported(cfg: Config, before: seq<Action>, env: Env, after: seq<Action>)
    requires Run(Init(cfg), before).recv.CheckingCtx? && Run(Init(cfg), before).ctx.Some?
    ensures var s := Run(Init(cfg), before);
            var t := Run(Init(cfg), before + [ReceiverTurn(env)] + after);
            t.done ==> OutcomeOf(t) == Failed(ContextEnded(s.ctx.value))
  {
    InitInv(cfg);
    RunInv(Init(cfg), before);
    OneMoreStep(cfg, before, ReceiverTurn(env));
    RecordingDecides(cfg, before + [ReceiverTurn(env)], after);
  }

  /** The failed Recv and the loop's turns up to the recording. */
  function FailingTurns(cause: RecvErr): seq<Action> {
    [ReceiverTurn(RecvFailed(cause)), ReceiverTurn(GotOther), ReceiverTurn(GotOther), ReceiverTurn(GotOther),
     ReceiverTurn(GotOther)]
  }

  lemma {:induction false} FailingTurnsRecord(s: State, cause: RecvErr)
    requires OutcomeInv(s) && s.recv.Receiving? && !s.record.killed
    ensures var t := Run(s, FailingTurns(cause));
            if s.ctx.None? then t.recv == RecordingErr(FaultOf(s.ctx, cause))
            else !Early(t.recv) && t.record.err == Some(FaultOf(s.ctx, cause))
  {
    var go := ReceiverTurn(GotOther);
    var s1 := Step(s, ReceiverTurn(RecvFailed(cause)));
    assert FailingTurns(cause)[1..] == [go, go, go, go];
    ExecWriters.RunFour(s1, go, go, go, go);
    assert s1 == s.(recv := CheckingExited(cause));
    var s2 := Step(s1, go);
    assert s2 == s.(recv := CheckingKilled(cause));
    var s3 := Step(s2, go);
    assert s3 == s.(recv := CheckingCtx(cause));
  }

  lemma {:induction false} RecordedStays(cfg: Config, before: seq<Action>, after: seq<Action>, fault: Fault)
    requires EndsSo(Run(Init(cfg), before), WithFault(fault))
    ensures var t := Run(Init(cfg), before + after); t.done ==> OutcomeOf(t) == Failed(fault)
  {
    InitInv(cfg);
    RunInv(Init(cfg), before);
    RunAppend(Init(cfg), before, after);
    RunEndsSo(Run(Init(cfg), before), after, WithFault(fault));
  }

  /**
   A Recv that fails in a session without a Kill, the loop classifying it before
   anyone else acts: the context's error if it had ended, otherwise the failure
   of the stream, otherwise that the stream ended too early.
   */
  lemma {:induction false} FailedRecvIsReported(cfg: Config, before: seq<Action>, cause: RecvErr, after: seq<Action>)
    requires Run(Init(cfg), before).recv.Receiving? && !EverKilled(Init(cfg), before)
    ensures var s := Run(Init(cfg), before);
            var t := Run(Init(cfg), before + FailingTurns(cause) + after);
            t.done ==> OutcomeOf(t) == Failed(FaultOf(s.ctx, cause))
  {
    var i := Init(cfg);
    var s := Run(i, before);
    InitInv(cfg);
    RunInv(i, before);
    KilledIff(i, before);
    RunAppend(i, before, FailingTurns(cause));
    FailingTurnsRecord(s, cause);
    RecordedStays(cfg, before + FailingTurns(cause), after, FaultOf(s.ctx, cause));
  }

  // ---- Write -------------------------------------------------------------

  lemma {:induction false} RunTwo(s: State, a: Action, b: Action)
    ensures Run(s, [a, b]) == Step(Step(s, a), b)
  {
    assert [a, b][1..] == [b];
    assert Run(Step(s, a), [b]) == Run(Step(Step(s, a), b), []);
  }

  /** A Write whose send succeeds has sent exactly its data, in one message; after the end it sends nothing. */
  lemma {:induction false} WriteSendsItsData(cfg: Config, before: seq<Action>, data: seq<Byte>)
    requires cfg.streaming
    ensures var s := Run(Init(cfg), before);
            && (!s.done && data != [] ==>
                  var t := Run(s, [WriteEnters(data), WriteSends(|s.req.writes|, true)]);
                  t.req.sent == s.req.sent + [WriteData(data)] && t.req.writes == s.req.writes)
            && (s.done || data == [] ==> Step(s, WriteEnters(data)) == s)
  {
    var s := Run(Init(cfg), before);
    RunKeepsCfg(Init(cfg), before);
    if !s.done && data != [] {
      RunTwo(s, WriteEnters(data), WriteSends(|s.req.writes|, true));
      assert RemoveAt(s.req.writes + [data], |s.req.writes|) == s.req.writes;
    }
  }

  // ---- Output ------------------------------------------------------------

  /** A chunk goes into the channel at once as long as fewer than bufferSize wait there. */
  lemma {:induction false} FreeBufferTakesTheChunk(cfg: Config, before: seq<Action>)
    ensures var s := Run(Init(cfg), before);
            s.recv.Publishing? && |s.out.buffered| < cfg.bufferSize ==>
              var t := Step(s, ReceiverTurn(PreferSend));
              t.recv == Receiving && Published(t) == Published(s) + [s.recv.chunk]
  {
    var s := Run(Init(cfg), before);
    RunKeepsCfg(Init(cfg), before);
    if s.recv.Publishing? {
      assert s.out.consumed + (s.out.buffered + [s.recv.chunk]) == Published(s) + [s.recv.chunk];
    }
  }

  function Repeat(a: Action, n: nat): seq<Action> {
    if n == 0 then [] else [a] + Repeat(a, n - 1)
  }

  lemma {:induction false} ReaderDrains(s: State, n: nat)
    requires s.out.wanted && n == |s.out.buffered|
    ensures Run(s, Repeat(ConsumeOutput, n)).out == s.out.(consumed := Published(s), buffered := [])
    ensures Run(s, Repeat(ConsumeOutput, n)).record == s.record
    decreases n
  {
    if n == 0 {
      assert s.out.consumed + [] == s.out.consumed;
    } else {
      var t := Step(s, ConsumeOutput);
      assert Repeat(ConsumeOutput, n)[1..] == Repeat(ConsumeOutput, n - 1);
      ConsumeKeepsPublished(s.out);
      ReaderDrains(t, n - 1);
    }
  }

  /** A reader of a successful streaming session ends up with every non-empty chunk, in order. */
  lemma {:induction false} ReaderGetsEverything(cfg: Config, actions: seq<Action>)
    requires cfg.streaming
    ensures var s := Run(Init(cfg), actions);
            s.done && OutcomeOf(s).Finished? ==>
              var t := Run(s, [TakeOutput] + Repeat(ConsumeOutput, |s.out.buffered|));
              t.out.consumed == NonEmpty(s.received) && t.out.buffered == [] && t.out.closed
  {
    var s := Run(Init(cfg), actions);
    RunKeepsCfg(Init(cfg), actions);
    OutcomeIsFinal(cfg, actions, []);
    FanOutKeepsOrder(cfg, actions);
    if s.done && OutcomeOf(s).Finished? {
      var t := Step(s, TakeOutput);
      var more := Repeat(ConsumeOutput, |s.out.buffered|);
      assert ([TakeOutput] + more)[1..] == more;
      ReaderDrains(t, |t.out.buffered|);
    }
  }

  lemma {:induction false} WaiterDrains(s: State, i: nat, n: nat)
    requires i < |s.waiters| && s.waiters[i].Draining? && n == |s.out.buffered|
    ensures var t := Run(s, Repeat(WaiterTurn(i), n));
            t.waiters == s.waiters && t.out.buffered == [] && t.recv == s.recv && t.cfg == s.cfg && t.ctx == s.ctx
    decreases n
  {
    if n > 0 {
      var t := Step(s, WaiterTurn(i));
      assert Repeat(WaiterTurn(i), n)[1..] == Repeat(WaiterTurn(i), n - 1);
      WaiterDrains(t, i, n - 1);
    }
  }

  /**
   Wait drains an output that nobody has taken: however full the channel, after a
   bounded number of the Wait call's own turns the loop can publish its chunk,
   without any end of the context.
   */
  lemma {:induction false} WaitUnblocksTheLoop(cfg: Config, before: seq<Action>, i: nat)
    requires cfg.streaming
    ensures var s := Run(Init(cfg), before);
            s.recv.Publishing? && !s.out.wanted && i < |s.waiters| && s.waiters[i].Entering? ==>
              var t := Run(s, [WaiterTurn(i)] + Repeat(WaiterTurn(i), |s.out.buffered|));
              Step(t, ReceiverTurn(PreferSend)).recv == Receiving
  {
    var s := Run(Init(cfg), before);
    RunKeepsCfg(Init(cfg), before);
    if s.recv.Publishing? && !s.out.wanted && i < |s.waiters| && s.waiters[i].Entering? {
      var u := Step(s, WaiterTurn(i));
      var more := Repeat(WaiterTurn(i), |s.out.buffered|);
      assert ([WaiterTurn(i)] + more)[1..] == more;
      WaiterDrains(u, i, |u.out.buffered|);
      assert u.waiters[i] == Draining;
    }
  }
}
