/**
 Progress: once its context has ended, a session finishes within a bounded number
 of the receive loop's own steps, whatever the other threads do and even when
 nobody reads a full output channel; every Wait caller then returns.
 */
module ExecProgress {
  import opened Prelude
  import opened ExecProtocol
  import opened ExecSafety

  /** How many steps the receive loop has left, at most, once no chunk arrives any more. */
  function Rank(r: Receiver): nat {
    match r
    case Writing(_) => 14
    case WritingCombined(_) => 13
    case Capturing(_) => 12
    case Publishing(_) => 11
    case Receiving => 10
    case CheckingExited(_) => 9
    case CheckingKilled(_) => 8
    case CheckingCtx(_) => 7
    case Normalizing(_) => 6
    case RecordingExit(_) => 5
    case RecordingErr(_) => 5
    case ClosingOutput => 4
    case Finishing => 3
    case ClosingDone => 2
    case Releasing => 1
    case Ended => 0
  }

  /** The bound: from the highest rank down to the step after done is closed. */
  const STEPS_TO_DONE: nat := 13

  /**
   The environment answers the receive loop's pending call: Recv fails, a writer
   returns, and the select takes a case that is ready.
   */
  predicate Answers(s: State, env: Env) {
    match s.recv
    case Receiving => env.RecvFailed?
    case Writing(c) => HasWriter(s.cfg, c.stream) ==> env.Wrote?
    case WritingCombined(_) => s.cfg.hasCombined ==> env.Wrote?
    case Publishing(_) => (env.PreferSend? && (HasRoom(s) || Rendezvous(s))) || (env.PreferDone? && s.ctx.Some?)
    case Ended => false
    case _ => true
  }

  /** The answered receiver turns of a run. */
  function Turns(s: State, actions: seq<Action>): nat
    decreases |actions|
  {
    if actions == [] then 0
    else
      (if actions[0].ReceiverTurn? && Answers(s, actions[0].env) then 1 else 0)
      + Turns(Step(s, actions[0]), actions[1..])
  }

  predicate HandsOutChunk(s: State, a: Action) {
    s.recv.Receiving? && a.ReceiverTurn? && a.env.GotChunk?
  }

  /** The chunks that Recv hands out during the run. */
  function ChunksIn(s: State, actions: seq<Action>): nat
    decreases |actions|
  {
    if actions == [] then 0
    else (if HandsOutChunk(s, actions[0]) then 1 else 0) + ChunksIn(Step(s, actions[0]), actions[1..])
  }

  /** The steps from a chunk in hand to the next Recv. */
  const STEPS_PER_CHUNK: nat := 4

  lemma {:induction false} ReceiverTurnAdvances(s: State, env: Env)
    ensures Answers(s, env) ==> Rank(ReceiverStep(s, env).recv) < Rank(s.recv)
    ensures Rank(ReceiverStep(s, env).recv)
         <= Rank(s.recv) + (if HandsOutChunk(s, ReceiverTurn(env)) then STEPS_PER_CHUNK else 0)
  {
  }

  lemma {:induction false} RankCountsTurns(s: State, actions: seq<Action>)
    ensures Rank(Run(s, actions).recv) + Turns(s, actions) <= Rank(s.recv) + STEPS_PER_CHUNK * ChunksIn(s, actions)
    decreases |actions|
  {
    if actions != [] {
      var a := actions[0];
      var t := Step(s, a);
      if a.ReceiverTurn? {
        ReceiverTurnAdvances(s, a.env);
      } else {
        OthersFrame(s, a);
      }
      RankCountsTurns(t, actions[1..]);
    }
  }

  /** In every reachable state whose context has ended, some answer lets the loop move on. */
  lemma {:induction false} ReceiverNeverBlocks(cfg: Config, before: seq<Action>)
    ensures var s := Run(Init(cfg), before);
            s.ctx.Some? && !s.done ==>
              exists env :: Answers(s, env) && (env.RecvFailed? || env.Wrote? || env.PreferDone?)
                            && Rank(ReceiverStep(s, env).recv) < Rank(s.recv)
  {
    var s := Run(Init(cfg), before);
    InitInv(cfg);
    RunInv(Init(cfg), before);
    if s.ctx.Some? && !s.done {
      var env :=
        match s.recv
        case Writing(_) => Wrote(0, None)
        case WritingCombined(_) => Wrote(0, None)
        case Publishing(_) => PreferDone
        case _ => RecvFailed(Eof);
      assert Answers(s, env);
      ReceiverTurnAdvances(s, env);
    }
  }

  /** A loop of so low a rank has closed everything. */
  lemma {:induction false} LowRankIsDone(s: State)
    requires OutcomeInv(s) && Rank(s.recv) <= 1
    ensures s.done && s.out.closed && (s.record.exited <==> s.record.err.None?)
  {
  }

  lemma {:induction false} EndsAfterTurns(s: State, after: seq<Action>)
    requires Inv(s) && Turns(s, after) >= STEPS_TO_DONE + STEPS_PER_CHUNK * ChunksIn(s, after)
    ensures var t := Run(s, after);
            t.done && t.out.closed && (t.record.exited <==> t.record.err.None?)
  {
    RankCountsTurns(s, after);
    RunInv(s, after);
    LowRankIsDone(Run(s, after));
  }

  /**
   Whatever happened before, and whatever the other threads do meanwhile: after
   STEPS_TO_DONE answered turns of the receive loop, and STEPS_PER_CHUNK more for
   each chunk that Recv still hands out, the output is closed, done is closed and
   exactly one outcome is recorded. That the turns are answered is what the end of
   the context brings about (ReceiverNeverBlocks).
   */
  lemma {:induction false} CancelledSessionEnds(cfg: Config, before: seq<Action>, after: seq<Action>)
    requires Turns(Run(Init(cfg), before), after)
          >= STEPS_TO_DONE + STEPS_PER_CHUNK * ChunksIn(Run(Init(cfg), before), after)
    ensures var t := Run(Init(cfg), before + after);
            t.done && t.out.closed && (t.record.exited <==> t.record.err.None?)
  {
    InitInv(cfg);
    RunInv(Init(cfg), before);
    RunAppend(Init(cfg), before, after);
    EndsAfterTurns(Run(Init(cfg), before), after);
  }

  // ---- Wait callers ------------------------------------------------------

  /** How many turns a Wait caller still needs once done is closed. */
  function WaiterRank(s: State, i: nat): nat
    requires i < |s.waiters|
  {
    match s.waiters[i]
    case Entering => |s.out.buffered| + 3
    case Draining => |s.out.buffered| + 2
    case Awaiting => 1
    case Returned(_) => 0
  }

  function WaiterTurns(actions: seq<Action>, i: nat): nat {
    if actions == [] then 0
    else (if actions[0] == WaiterTurn(i) then 1 else 0) + WaiterTurns(actions[1..], i)
  }

  lemma {:induction false} WaiterTurnAdvances(s: State, j: nat, i: nat)
    requires Inv(s) && s.done && i < |s.waiters|
    ensures i < |WaiterStep(s, j).waiters|
    ensures WaiterRank(WaiterStep(s, j), i) <= WaiterRank(s, i)
    ensures j == i && WaiterRank(s, i) > 0 ==> WaiterRank(WaiterStep(s, j), i) < WaiterRank(s, i)
  {
    ConsumeKeepsPublished(s.out);
  }

  /** The other threads leave a Wait caller where it is, and the buffer no fuller. */
  lemma {:induction false} WaiterUntouched(s: State, a: Action, i: nat)
    requires Inv(s) && s.done && i < |s.waiters| && !a.WaiterTurn?
    ensures var t := Step(s, a);
            i < |t.waiters| && t.waiters[i] == s.waiters[i] && |t.out.buffered| <= |s.out.buffered|
  {
    if !a.ReceiverTurn? {
      OthersConsume(s, a);
    }
  }

  lemma {:induction false} WaiterAdvances(s: State, a: Action, i: nat)
    requires Inv(s) && s.done && i < |s.waiters|
    ensures i < |Step(s, a).waiters|
    ensures WaiterRank(Step(s, a), i) <= WaiterRank(s, i)
    ensures a == WaiterTurn(i) && WaiterRank(s, i) > 0 ==> WaiterRank(Step(s, a), i) < WaiterRank(s, i)
  {
    if a.WaiterTurn? {
      WaiterTurnAdvances(s, a.waiter, i);
    } else {
      WaiterUntouched(s, a, i);
    }
  }

  lemma {:induction false} WaiterRankCountsTurns(s: State, actions: seq<Action>, i: nat)
    requires Inv(s) && s.done && i < |s.waiters|
    ensures i < |Run(s, actions).waiters|
    ensures WaiterRank(Run(s, actions), i) + WaiterTurns(actions, i) <= WaiterRank(s, i)
            || WaiterRank(Run(s, actions), i) == 0
    decreases |actions|
  {
    if actions != [] {
      var t := Step(s, actions[0]);
      WaiterAdvances(s, actions[0], i);
      InvPreserved(s, actions[0]);
      DoneIsFrozen(s, actions[0]);
      WaiterRankCountsTurns(t, actions[1..], i);
    }
  }

  /** A Wait caller returns within a bounded number of its own turns after done is closed. */
  lemma {:induction false} WaitersReturn(cfg: Config, before: seq<Action>, after: seq<Action>, i: nat)
    ensures var s := Run(Init(cfg), before);
            var t := Run(Init(cfg), before + after);
            s.done && i < |s.waiters| && WaiterTurns(after, i) >= cfg.bufferSize + 3 ==>
              i < |t.waiters| && t.waiters[i] == Returned(OutcomeOf(t))
  {
    var s := Run(Init(cfg), before);
    InitInv(cfg);
    RunInv(Init(cfg), before);
    RunAppend(Init(cfg), before, after);
    RunInv(Init(cfg), before + after);
    if s.done && i < |s.waiters| && WaiterTurns(after, i) >= cfg.bufferSize + 3 {
      WaiterRankCountsTurns(s, after, i);
    }
  }
}
