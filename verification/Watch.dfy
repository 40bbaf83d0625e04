/**
 WaitFor of cordium-go/watch.go as a small distributed protocol: the Cluster
 records versions of a Workspace, a watch stream delivers the versions recorded
 after it started, and the waiter opens a stream, reads once, then consumes,
 ticks and reconnects with backoff. A run is any sequence of actions; an action
 that is not possible leaves the state as it is.

 A read is served atomically at some moment between its call and its return, so
 it returns a version at least as new as the latest one at the call. A stream
 starts on the Cluster's side some time after the open call, possibly after it
 returned.
 */
module Watch {
  import opened Prelude

  // ---- Data --------------------------------------------------------------

  datatype WsState =
    | InitRequest | Initializing | PullingImage | BuildingImage | StartingRuntime
    | Preparing | Running | StoppingRequest | Stopping | Stopped

  /** run is the current or latest run, with the failure it reports, if any. */
  datatype Workspace = Workspace(state: WsState, run: Option<Option<int>>, failure: Option<int>)

  datatype CtxErr = Canceled | DeadlineExceeded

  datatype WaitErr =
    | CtxEnded(why: CtxErr)
    | WorkspaceDeleted
    | ReadRefused(code: int)
    | WorkspaceStopped
    | RunFailed(failure: int)
    | CondFailed(code: int)
    | WatchRetry

  /** What a condition says of a version: the wait is over, goes on, or is aborted. */
  datatype Verdict = Verdict(done: bool, err: Option<WaitErr>)

  type Condition = Workspace -> Verdict

  predicate Decides(v: Verdict) { v.done || v.err.Some? }

  // ---- The conditions of the SDK (watch.go:52-117, 292-300) --------------

  function RunFailure(ws: Workspace): Option<int> {
    match ws.run case Some(failure) => failure case None => ws.failure
  }

  function StoppedError(ws: Workspace): WaitErr {
    match RunFailure(ws) case Some(f) => RunFailed(f) case None => WorkspaceStopped
  }

  function UntilRunning(ws: Workspace): Verdict {
    match ws.state
    case Running => Verdict(true, None)
    case Stopped => Verdict(false, Some(StoppedError(ws)))
    case _ => Verdict(false, None)
  }

  function UntilReady(ws: Workspace): Verdict {
    match ws.state
    case Preparing => Verdict(true, None)
    case Running => Verdict(true, None)
    case Stopped => Verdict(false, Some(StoppedError(ws)))
    case _ => Verdict(false, None)
  }

  function UntilStopped(ws: Workspace): Verdict {
    if ws.state != Stopped then Verdict(false, None)
    else match RunFailure(ws) case Some(f) => Verdict(false, Some(RunFailed(f))) case None => Verdict(true, None)
  }

  function ForState(states: seq<WsState>): Condition {
    (ws: Workspace) => Verdict(ws.state in states, None)
  }

  // ---- Backoff (watch.go:507-529) ----------------------------------------

  const FIRST_PAUSE: nat := 250
  const PAUSE_CAP: nat := 5000

  function NextPause(ms: nat): nat {
    if ms < PAUSE_CAP then 2 * ms else ms
  }

  function PauseAfter(sleeps: nat): nat {
    if sleeps == 0 then FIRST_PAUSE else NextPause(PauseAfter(sleeps - 1))
  }

  function Pow2(n: nat): nat { if n == 0 then 1 else 2 * Pow2(n - 1) }

  /** The pause doubles from 250 ms and settles at 8 s, above the 5 s it is compared with. */
  lemma {:induction false} PausesSettle(n: nat)
    ensures PauseAfter(n) == if n < 5 then 250 * Pow2(n) else 8000
  {
    if n != 0 {
      PausesSettle(n - 1);
      if n <= 5 {
        assert n == 1 || n == 2 || n == 3 || n == 4 || n == 5;
        assert Pow2(0) == 1 && Pow2(1) == 2 && Pow2(2) == 4 && Pow2(3) == 8 && Pow2(4) == 16;
      }
    }
  }

  // ---- The protocol ------------------------------------------------------

  /** The watch stream of a connection: from is its first version once it has started. */
  datatype Stream = NotOpen | Opened | Live(from: nat, cursor: nat)

  datatype Phase =
    | Opening
    | ReadingFirst(since: nat)
    | AfterOpenFailure
    | Consuming
    | Ticking(since: nat)
    | Retrying
    | Deciding(result: Option<WaitErr>)
    | Sleeping
    | Returned(result: Option<WaitErr>)

  datatype Wait = Wait(
    cond: Condition,
    history: seq<Workspace>,
    deleted: bool,
    ctx: Option<CtxErr>,
    phase: Phase,
    stream: Stream,
    stored: Option<nat>,      // the last version stored in the handle
    handed: set<nat>,         // the versions handed to the condition in this connection
    synced: bool,             // a read issued after the stream started has succeeded
    covers: bool,             // the pending read was issued after the stream started
    refusal: Option<int>,     // the last permanent failure of a read
    sleeps: nat)

  /** What the environment decides at one of the waiter's steps. */
  datatype Env =
    | OpenReturns(ok: bool)
    | ReadReturns(version: nat)
    | ReadNotFound
    | ReadTransient
    | ReadPermanent(code: int)
    | SeesCtx
    | TickFires
    | EventArrives
    | UnknownArrives
    | StreamBreaks
    | Wakes

  function Latest(s: Wait): nat { if |s.history| == 0 then 0 else |s.history| - 1 }

  /** Stores a version in the handle and asks the condition; otherwise the wait goes on. */
  function Hand(s: Wait, version: nat, onward: Phase): Wait
    requires version < |s.history|
  {
    var v := s.cond(s.history[version]);
    s.(stored := Some(version), handed := s.handed + {version},
       phase := if !Decides(v) then onward
                else if s.phase.ReadingFirst? then Returned(v.err) else Deciding(v.err))
  }

  /** reconcile: the result of a read, either the first one or a tick's. */
  function ReadStep(s: Wait, env: Env, since: nat, onward: Phase): Wait {
    var fail := (e: WaitErr) => s.(phase := if s.phase.ReadingFirst? then Returned(Some(e)) else Deciding(Some(e)));
    match env
    case ReadReturns(v) =>
      if since <= v < |s.history| then Hand(s, v, onward).(synced := s.synced || s.covers) else s
    case ReadNotFound => if s.deleted then fail(WorkspaceDeleted) else s
    case ReadTransient => if s.ctx.Some? then fail(CtxEnded(s.ctx.value)) else s.(phase := onward)
    case ReadPermanent(code) =>
      fail(if s.ctx.Some? then CtxEnded(s.ctx.value) else ReadRefused(code)).(refusal := Some(code))
    case _ => s
  }

  /** consumeWatch: one round of its select. */
  function ConsumeStep(s: Wait, env: Env): Wait {
    match env
    case SeesCtx => if s.ctx.Some? then s.(phase := Deciding(Some(CtxEnded(s.ctx.value)))) else s
    case TickFires => s.(phase := Ticking(Latest(s)), covers := s.stream.Live?)
    case EventArrives =>
      if !s.stream.Live? then s
      else if s.stream.cursor < |s.history| then
        Hand(s, s.stream.cursor, Consuming).(stream := s.stream.(cursor := s.stream.cursor + 1))
      else if s.deleted then s.(phase := Deciding(Some(WorkspaceDeleted)))
      else s
    case UnknownArrives => s
    case StreamBreaks => s.(phase := Retrying)
    case _ => s
  }

  function WaiterStep(s: Wait, env: Env): Wait {
    match s.phase
    case Opening =>
      if s.ctx.Some? then s.(phase := Returned(Some(CtxEnded(s.ctx.value))))
      else if !env.OpenReturns? then s
      else s.(phase := ReadingFirst(Latest(s)), stream := if !env.ok then NotOpen
                                                          else if s.stream.Live? then s.stream else Opened,
              covers := env.ok && s.stream.Live?, synced := false, handed := {})
    case ReadingFirst(since) =>
      ReadStep(s, env, since, if s.stream.NotOpen? then AfterOpenFailure else Consuming)
    case AfterOpenFailure =>
      s.(phase := if s.ctx.Some? then Returned(Some(CtxEnded(s.ctx.value))) else Sleeping)
    case Consuming => ConsumeStep(s, env)
    case Ticking(since) => ReadStep(s, env, since, Consuming)
    case Retrying => s.(phase := Deciding(Some(if s.ctx.Some? then CtxEnded(s.ctx.value) else WatchRetry)))
    case Deciding(result) =>
      if result != Some(WatchRetry) then s.(phase := Returned(result))
      else s.(phase := if s.ctx.Some? then Returned(Some(CtxEnded(s.ctx.value))) else Sleeping)
    case Sleeping =>
      if s.ctx.Some? && env.SeesCtx? then s.(phase := Returned(Some(CtxEnded(s.ctx.value))))
      else if env.Wakes? then s.(phase := Opening, stream := NotOpen, sleeps := s.sleeps + 1)
      else s
    case Returned(_) => s
  }

  datatype Action =
    | Turn(env: Env)
    | Update(ws: Workspace)
    | Delete
    | StreamStarts
    | EndCtx(why: CtxErr)

  function Step(s: Wait, a: Action): Wait {
    match a
    case Turn(env) => WaiterStep(s, env)
    case Update(ws) => if s.deleted then s else s.(history := s.history + [ws])
    case Delete => s.(deleted := true)
    case StreamStarts =>
      // The Cluster may serve the open call before or after it returns to the waiter.
      if s.stream.Opened? || (s.phase.Opening? && s.stream.NotOpen?)
      then s.(stream := Live(|s.history|, |s.history|)) else s
    case EndCtx(why) => if s.ctx.None? then s.(ctx := Some(why)) else s
  }

  function Init(cond: Condition, first: Workspace, ctx: Option<CtxErr>): Wait {
    Wait(cond, [first], false, ctx, Opening, NotOpen, None, {}, false, false, None, 0)
  }

  function Run(s: Wait, actions: seq<Action>): Wait
    decreases |actions|
  {
    if actions == [] then s else Run(Step(s, actions[0]), actions[1..])
  }

  lemma {:induction false} RunAppend(s: Wait, a: seq<Action>, b: seq<Action>)
    ensures Run(s, a + b) == Run(Run(s, a), b)
    decreases |a|
  {
    if a == [] {
      assert a + b == b;
    } else {
      assert (a + b)[1..] == a[1..] + b;
      RunAppend(Step(s, a[0]), a[1..], b);
    }
  }

  // ---- Soundness: what a wait may end with --------------------------------

  /** The condition said so of the version that the handle now holds. */
  predicate Verdicted(s: Wait, result: Option<WaitErr>) {
    && s.stored.Some? && s.stored.value < |s.history|
    && Decides(s.cond(s.history[s.stored.value]))
    && s.cond(s.history[s.stored.value]).err == result
  }

  /** A result that the wait may end with, given what the Cluster and the context did. */
  predicate Justified(s: Wait, result: Option<WaitErr>) {
    Verdicted(s, result) ||
    match result
    case Some(CtxEnded(why)) => s.ctx == Some(why)
    case Some(WorkspaceDeleted) => s.deleted
    case Some(ReadRefused(code)) => s.refusal == Some(code)
    case _ => false
  }

  predicate SoundInv(s: Wait) {
    && |s.history| > 0
    && (s.stored.Some? ==> s.stored.value < |s.history|)
    && (s.phase.Returned? ==> Justified(s, s.phase.result))
    && (s.phase.Deciding? ==> s.phase.result == Some(WatchRetry) || Justified(s, s.phase.result))
  }

  lemma {:induction false} ClusterKeepsJustified(s: Wait, a: Action, result: Option<WaitErr>)
    requires !a.Turn? && Justified(s, result)
    ensures Justified(Step(s, a), result)
  {
  }

  lemma {:induction false} SoundKeptByHand(s: Wait, version: nat, onward: Phase)
    requires SoundInv(s) && version < |s.history| && !onward.Returned? && !onward.Deciding?
    ensures SoundInv(Hand(s, version, onward))
  {
  }

  lemma {:induction false} SoundKeptByRead(s: Wait, env: Env, since: nat, onward: Phase)
    requires SoundInv(s) && !onward.Returned? && !onward.Deciding?
    ensures SoundInv(ReadStep(s, env, since, onward))
  {
    if env.ReadReturns? && since <= env.version < |s.history| {
      SoundKeptByHand(s, env.version, onward);
    }
  }

  lemma {:induction false} SoundKeptByConsume(s: Wait, env: Env)
    requires SoundInv(s) && s.phase.Consuming?
    ensures SoundInv(ConsumeStep(s, env))
  {
    if env.EventArrives? && s.stream.Live? && s.stream.cursor < |s.history| {
      SoundKeptByHand(s, s.stream.cursor, Consuming);
    }
  }

  lemma {:induction false} SoundKeptByDecision(s: Wait, env: Env)
    requires SoundInv(s) && (s.phase.Deciding? || s.phase.Retrying? || s.phase.Returned?)
    ensures SoundInv(WaiterStep(s, env))
  {
  }

  lemma {:induction false} SoundKeptByTurn(s: Wait, env: Env)
    requires SoundInv(s) && (s.phase.Opening? || s.phase.AfterOpenFailure? || s.phase.Sleeping?)
    ensures SoundInv(WaiterStep(s, env))
  {
  }

  lemma {:induction false} WaiterKeepsCond(s: Wait, env: Env)
    ensures WaiterStep(s, env).cond == s.cond
  {
  }

  lemma {:induction false} StepKeepsCond(s: Wait, a: Action)
    ensures Step(s, a).cond == s.cond
  {
    if a.Turn? {
      WaiterKeepsCond(s, a.env);
    }
  }

  lemma {:induction false} SoundPreserved(s: Wait, a: Action)
    requires SoundInv(s)
    ensures SoundInv(Step(s, a))
  {
    if !a.Turn? {
      if (s.phase.Returned? || s.phase.Deciding?) && Justified(s, s.phase.result) {
        ClusterKeepsJustified(s, a, s.phase.result);
      }
    } else if s.phase.ReadingFirst? {
      SoundKeptByRead(s, a.env, s.phase.since, if s.stream.NotOpen? then AfterOpenFailure else Consuming);
    } else if s.phase.Ticking? {
      SoundKeptByRead(s, a.env, s.phase.since, Consuming);
    } else if s.phase.Consuming? {
      SoundKeptByConsume(s, a.env);
    } else if s.phase.Deciding? || s.phase.Retrying? || s.phase.Returned? {
      SoundKeptByDecision(s, a.env);
    } else {
      SoundKeptByTurn(s, a.env);
    }
  }

  lemma {:induction false} RunSound(s: Wait, actions: seq<Action>)
    requires SoundInv(s)
    ensures SoundInv(Run(s, actions)) && Run(s, actions).cond == s.cond
    decreases |actions|
  {
    if actions != [] {
      var t := Step(s, actions[0]);
      SoundPreserved(s, actions[0]);
      StepKeepsCond(s, actions[0]);
      RunSound(t, actions[1..]);
    }
  }

  /**
   Over every run: nil only when the condition held of a version that the Cluster
   recorded and that is the last one stored in the handle; every error is the
   context's, a deletion, a permanently refused read or the condition's own.
   Transient failures and broken streams alone therefore never end the wait, and
   the retry marker never reaches the caller of a condition that cannot name it.
   */
  lemma {:induction false} WaitForIsSound(cond: Condition, first: Workspace, ctx: Option<CtxErr>, actions: seq<Action>)
    requires forall ws :: cond(ws).err != Some(WatchRetry)
    ensures var s := Run(Init(cond, first, ctx), actions);
            s.phase.Returned? ==>
              && Justified(s, s.phase.result) && s.phase.result != Some(WatchRetry)
              && (s.phase.result.None? ==>
                    && s.stored.Some? && s.stored.value < |s.history|
                    && cond(s.history[s.stored.value]) == Verdict(true, None))
  {
    RunSound(Init(cond, first, ctx), actions);
  }

  /** The handle holds a recorded version that the predicate is true of. */
  predicate StoredIs(s: Wait, p: Workspace -> bool) {
    s.stored.Some? && s.stored.value < |s.history| && p(s.history[s.stored.value])
  }

  /** What WaitUntilRunning's nil and its errors mean, of the version in the handle. */
  lemma {:induction false} WaitUntilRunningMeansRunning(first: Workspace, ctx: Option<CtxErr>, actions: seq<Action>)
    ensures var s := Run(Init(UntilRunning, first, ctx), actions);
            s.phase.Returned? ==>
              && (s.phase.result.None? ==> StoredIs(s, (ws: Workspace) => ws.state == Running))
              && (s.phase.result == Some(WorkspaceStopped) ==>
                    StoredIs(s, (ws: Workspace) => ws.state == Stopped && RunFailure(ws).None?))
              && (forall f :: s.phase.result == Some(RunFailed(f)) ==>
                    StoredIs(s, (ws: Workspace) => ws.state == Stopped && RunFailure(ws) == Some(f)))
              && (s.phase.result == Some(WorkspaceDeleted) ==> s.deleted)
  {
    WaitForIsSound(UntilRunning, first, ctx, actions);
    RunSound(Init(UntilRunning, first, ctx), actions);
  }

  /** What nil means from the other waits: the last stored version is in one of the states waited for. */
  lemma {:induction false} OtherWaitsMeanTheirStates(states: seq<WsState>, first: Workspace, ctx: Option<CtxErr>,
                                                     actions: seq<Action>)
    ensures var s := Run(Init(UntilReady, first, ctx), actions);
            s.phase == Returned(None) ==>
              s.stored.Some? && s.stored.value < |s.history| && s.history[s.stored.value].state in {Preparing, Running}
    ensures var s := Run(Init(UntilStopped, first, ctx), actions);
            s.phase == Returned(None) ==>
              && s.stored.Some? && s.stored.value < |s.history|
              && s.history[s.stored.value].state == Stopped && RunFailure(s.history[s.stored.value]).None?
    ensures var s := Run(Init(ForState(states), first, ctx), actions);
            s.phase == Returned(None) ==>
              s.stored.Some? && s.stored.value < |s.history| && s.history[s.stored.value].state in states
  {
    WaitForIsSound(UntilReady, first, ctx, actions);
    RunSound(Init(UntilReady, first, ctx), actions);
    WaitForIsSound(UntilStopped, first, ctx, actions);
    RunSound(Init(UntilStopped, first, ctx), actions);
    WaitForIsSound(ForState(states), first, ctx, actions);
    RunSound(Init(ForState(states), first, ctx), actions);
  }

  // ---- No version is skipped ---------------------------------------------

  /** In a connection: opened, and not decided or given up yet. */
  predicate Connected(p: Phase) {
    p.ReadingFirst? || p.Consuming? || p.Ticking? || p.Retrying?
  }

  predicate StreamInv(s: Wait) {
    && |s.history| > 0
    && (s.stream.Live? ==>
        && 1 <= s.stream.from <= s.stream.cursor <= |s.history|
        && (s.phase.Opening? ==> s.stream.from == s.stream.cursor)
        && (Connected(s.phase) ==> forall k :: s.stream.from <= k < s.stream.cursor ==> k in s.handed))
    && (Connected(s.phase) ==> forall k :: k in s.handed ==> k < |s.history| && !Decides(s.cond(s.history[k])))
    && (s.covers && s.phase.ReadingFirst? ==> s.stream.Live? && s.phase.since + 1 >= s.stream.from)
    && (s.covers && s.phase.Ticking? ==> s.stream.Live? && s.phase.since + 1 >= s.stream.from)
    && (s.synced && Connected(s.phase) ==>
        s.stream.Live? && exists v :: v in s.handed && v + 1 >= s.stream.from)
  }

  lemma {:induction false} StreamKeptByCluster(s: Wait, a: Action)
    requires StreamInv(s) && !a.Turn?
    ensures StreamInv(Step(s, a))
  {
    var t := Step(s, a);
    if a.Update? {
      assert forall k :: 0 <= k < |s.history| ==> t.history[k] == s.history[k];
    }
    if a.StreamStarts? && t.stream != s.stream {
      assert s.stream.Opened? || s.phase.Opening?;
    }
  }

  lemma {:induction false} StreamKeptByVersion(s: Wait, version: nat, since: nat, onward: Phase)
    requires StreamInv(s) && (s.phase.ReadingFirst? || s.phase.Ticking?) && s.phase.since == since
    requires onward == Consuming || onward == AfterOpenFailure
    requires since <= version < |s.history|
    ensures StreamInv(ReadStep(s, ReadReturns(version), since, onward))
  {
    var t := ReadStep(s, ReadReturns(version), since, onward);
    assert version in t.handed;
    assert t.handed == s.handed + {version};
    if t.synced && !s.synced {
      assert version + 1 >= t.stream.from;
    }
  }

  lemma {:induction false} StreamKeptByRead(s: Wait, env: Env, since: nat, onward: Phase)
    requires StreamInv(s) && (s.phase.ReadingFirst? || s.phase.Ticking?) && s.phase.since == since
    requires onward == Consuming || onward == AfterOpenFailure
    ensures StreamInv(ReadStep(s, env, since, onward))
  {
    if env.ReadReturns? && since <= env.version < |s.history| {
      StreamKeptByVersion(s, env.version, since, onward);
    }
  }

  lemma {:induction false} StreamKeptByEvent(s: Wait)
    requires StreamInv(s) && s.phase.Consuming?
    ensures StreamInv(WaiterStep(s, EventArrives))
  {
    var t := WaiterStep(s, EventArrives);
    if s.stream.Live? && s.stream.cursor < |s.history| {
      assert t.handed == s.handed + {s.stream.cursor};
      if s.synced {
        var v :| v in s.handed && v + 1 >= s.stream.from;
        assert v in t.handed;
      }
    }
  }

  lemma {:induction false} StreamKeptElsewhere(s: Wait, env: Env)
    requires StreamInv(s)
    requires !s.phase.ReadingFirst? && !s.phase.Ticking? && !(s.phase.Consuming? && env.EventArrives?)
    ensures StreamInv(WaiterStep(s, env))
  {
  }

  lemma {:induction false} StreamPreserved(s: Wait, a: Action)
    requires StreamInv(s)
    ensures StreamInv(Step(s, a))
  {
    if !a.Turn? {
      StreamKeptByCluster(s, a);
    } else if s.phase.ReadingFirst? || s.phase.Ticking? {
      StreamKeptByRead(s, a.env, s.phase.since,
                       if s.phase.ReadingFirst? && s.stream.NotOpen? then AfterOpenFailure else Consuming);
    } else if s.phase.Consuming? && a.env.EventArrives? {
      StreamKeptByEvent(s);
    } else {
      StreamKeptElsewhere(s, a.env);
    }
  }

  lemma {:induction false} RunStream(s: Wait, actions: seq<Action>)
    requires StreamInv(s)
    ensures StreamInv(Run(s, actions))
    decreases |actions|
  {
    if actions != [] {
      var t := Step(s, actions[0]);
      StreamPreserved(s, actions[0]);
      RunStream(t, actions[1..]);
    }
  }

  /**
   In every reachable state with a started stream: each version recorded since the
   stream started was handed to the condition or is still pending on the stream.
   Once a read issued after that start has succeeded, a version at least as new as
   the starting point was handed over too, so nothing before it can be missed; and
   if nothing is pending, the Cluster's latest version was, and did not decide.
   */
  lemma {:induction false} NoVersionIsSkipped(cond: Condition, first: Workspace, ctx: Option<CtxErr>,
                                              actions: seq<Action>)
    ensures var s := Run(Init(cond, first, ctx), actions);
            Connected(s.phase) && s.stream.Live? ==>
              && (forall k :: s.stream.from <= k < |s.history| ==> k in s.handed || k >= s.stream.cursor)
              && (s.synced ==> exists v :: v in s.handed && s.stream.from <= v + 1 && v < |s.history|)
              && (s.synced && s.stream.cursor == |s.history| ==>
                    Latest(s) in s.handed && !Decides(s.cond(s.history[Latest(s)])))
  {
    var s := Run(Init(cond, first, ctx), actions);
    RunStream(Init(cond, first, ctx), actions);
  }

  /** Nothing but the Cluster and the context act. */
  predicate Outside(actions: seq<Action>) {
    forall a :: a in actions ==> !a.Turn?
  }

  lemma {:induction false} OutsideFrame(s: Wait, actions: seq<Action>)
    requires Outside(actions)
    ensures var t := Run(s, actions);
            t == s.(history := t.history, deleted := t.deleted, ctx := t.ctx, stream := t.stream)
    ensures s.ctx.Some? ==> Run(s, actions).ctx == s.ctx
    ensures s.stream.Live? || (s.stream.NotOpen? && !s.phase.Opening?) ==> Run(s, actions).stream == s.stream
    ensures s.history <= Run(s, actions).history
    decreases |actions|
  {
    if actions != [] {
      var t := Step(s, actions[0]);
      assert s.history <= t.history;
      OutsideFrame(t, actions[1..]);
    }
  }

  /** A version at least as new as the one that the stream started after was handed over. */
  predicate Covered(s: Wait) {
    s.stream.Live? && exists v :: v in s.handed && v + 1 >= s.stream.from
  }

  /** The guarantee of a connection: nothing from the stream's start on is lost, and what came before is covered. */
  ghost predicate Guaranteed(s: Wait) {
    && Covered(s)
    && forall k :: s.stream.from <= k < |s.history| ==> k in s.handed || k >= s.stream.cursor
  }

  /** A turn of the waiter, and then the Cluster and the context. */
  lemma {:induction false} TurnThenOutside(i: Wait, before: seq<Action>, env: Env, meanwhile: seq<Action>)
    requires Outside(meanwhile)
    ensures var u := WaiterStep(Run(i, before), env);
            Run(i, before + ([Turn(env)] + meanwhile)) == Run(u, meanwhile)
  {
    var s := Run(i, before);
    var u := WaiterStep(s, env);
    RunAppend(i, before, [Turn(env)] + meanwhile);
    RunAppend(s, [Turn(env)], meanwhile);
    assert Run(s, [Turn(env)]) == Run(Step(s, Turn(env)), []) == u;
  }

  lemma {:induction false} CoveringReadGuarantees(s: Wait, version: nat)
    requires StreamInv(s) && (s.phase.ReadingFirst? || s.phase.Ticking?) && s.stream.Live?
    requires s.phase.since <= version < |s.history| && version + 1 >= s.stream.from
    ensures Guaranteed(WaiterStep(s, ReadReturns(version)))
  {
    var t := WaiterStep(s, ReadReturns(version));
    assert t.handed == s.handed + {version} && version in t.handed && t.stream == s.stream && t.history == s.history;
  }

  /**
   A transiently failed first read, or one served before the stream had started,
   is made up for by the next tick whose read succeeds: in every reachable
   connection with a started stream the guarantee holds from then on.
   */
  lemma {:induction false} TickSyncs(cond: Condition, first: Workspace, ctx: Option<CtxErr>, before: seq<Action>,
                                     meanwhile: seq<Action>, version: nat)
    requires Outside(meanwhile)
    ensures var s := Run(Init(cond, first, ctx), before);
            var t := Run(Init(cond, first, ctx), before + ([Turn(TickFires)] + meanwhile));
            s.phase.Consuming? && s.stream.Live? ==>
              && t.phase == Ticking(Latest(s))
              && (Latest(s) <= version < |t.history| ==> Guaranteed(WaiterStep(t, ReadReturns(version))))
  {
    var i := Init(cond, first, ctx);
    var s := Run(i, before);
    var t := Run(i, before + ([Turn(TickFires)] + meanwhile));
    RunStream(i, before);
    RunStream(i, before + ([Turn(TickFires)] + meanwhile));
    TurnThenOutside(i, before, TickFires, meanwhile);
    OutsideFrame(WaiterStep(s, TickFires), meanwhile);
    if s.phase.Consuming? && s.stream.Live? && Latest(s) <= version < |t.history| {
      CoveringReadGuarantees(t, version);
    }
  }

  /** The first read gives the guarantee whenever the stream started before it was issued. */
  lemma {:induction false} FirstReadSyncs(cond: Condition, first: Workspace, ctx: Option<CtxErr>, before: seq<Action>,
                                          meanwhile: seq<Action>, version: nat)
    requires Outside(meanwhile)
    ensures var s := Run(Init(cond, first, ctx), before);
            var t := Run(Init(cond, first, ctx), before + ([Turn(OpenReturns(true))] + meanwhile));
            s.phase.Opening? && s.stream.Live? && s.ctx.None? ==>
              && t.phase == ReadingFirst(Latest(s))
              && (Latest(s) <= version < |t.history| ==> Guaranteed(WaiterStep(t, ReadReturns(version))))
  {
    var i := Init(cond, first, ctx);
    var s := Run(i, before);
    var t := Run(i, before + ([Turn(OpenReturns(true))] + meanwhile));
    RunStream(i, before);
    RunStream(i, before + ([Turn(OpenReturns(true))] + meanwhile));
    TurnThenOutside(i, before, OpenReturns(true), meanwhile);
    OutsideFrame(WaiterStep(s, OpenReturns(true)), meanwhile);
    if s.phase.Opening? && s.stream.Live? && s.ctx.None? && Latest(s) <= version < |t.history| {
      CoveringReadGuarantees(t, version);
    }
  }

  // ---- A stream that starts late -----------------------------------------

  /** Nothing is handed over before the first read returns, and no read is older than the handle. */
  predicate ReadInv(s: Wait) {
    && |s.history| > 0
    && (s.stored.Some? ==> s.stored.value < |s.history|)
    && (s.phase.ReadingFirst? ==> s.handed == {})
    && (s.phase.ReadingFirst? || s.phase.Ticking? ==>
          s.phase.since < |s.history| && (s.stored.Some? ==> s.stored.value <= s.phase.since))
  }

  lemma {:induction false} ReadInvKeptByRead(s: Wait, env: Env, since: nat, onward: Phase)
    requires ReadInv(s) && (s.phase.ReadingFirst? || s.phase.Ticking?) && s.phase.since == since
    requires onward == Consuming || onward == AfterOpenFailure
    ensures ReadInv(ReadStep(s, env, since, onward))
  {
  }

  lemma {:induction false} ReadInvKeptByConsume(s: Wait, env: Env)
    requires ReadInv(s) && s.phase.Consuming?
    ensures ReadInv(ConsumeStep(s, env))
  {
  }

  lemma {:induction false} ReadInvKeptByTurn(s: Wait, env: Env)
    requires ReadInv(s) && !s.phase.ReadingFirst? && !s.phase.Ticking? && !s.phase.Consuming?
    ensures ReadInv(WaiterStep(s, env))
  {
  }

  lemma {:induction false} ReadInvKept(s: Wait, a: Action)
    requires ReadInv(s)
    ensures ReadInv(Step(s, a))
  {
    if !a.Turn? {
    } else if s.phase.ReadingFirst? {
      ReadInvKeptByRead(s, a.env, s.phase.since, if s.stream.NotOpen? then AfterOpenFailure else Consuming);
    } else if s.phase.Ticking? {
      ReadInvKeptByRead(s, a.env, s.phase.since, Consuming);
    } else if s.phase.Consuming? {
      ReadInvKeptByConsume(s, a.env);
    } else {
      ReadInvKeptByTurn(s, a.env);
    }
  }

  lemma {:induction false} RunReadInv(s: Wait, actions: seq<Action>)
    requires ReadInv(s)
    ensures ReadInv(Run(s, actions))
    decreases |actions|
  {
    if actions != [] {
      ReadInvKept(s, actions[0]);
      RunReadInv(Step(s, actions[0]), actions[1..]);
    }
  }

  /** Every answer that the Cluster may give to the pending first read leads to the guarantee. */
  ghost predicate FirstReadSuffices(s: Wait)
    requires s.phase.ReadingFirst?
  {
    forall v {:trigger ReadReturns(v)} ::
      s.phase.since <= v < |s.history| ==> Guaranteed(WaiterStep(s, ReadReturns(v)))
  }

  lemma {:induction false} OneVersionHanded(s: Wait, version: nat)
    requires s.phase.ReadingFirst? && s.handed == {} && s.phase.since <= version < |s.history|
    ensures WaiterStep(s, ReadReturns(version)).handed == {version}
    ensures WaiterStep(s, ReadReturns(version)).stream == s.stream
  {
    assert {} + {version} == {version};
  }

  /**
   The first read of a connection whose stream has started meets the guarantee,
   whatever it returns, exactly if nothing was recorded between the issue of the
   read and the start of the stream.
   */
  lemma {:induction false} FirstReadSufficesIff(cond: Condition, first: Workspace, ctx: Option<CtxErr>,
                                                actions: seq<Action>)
    ensures var s := Run(Init(cond, first, ctx), actions);
            s.phase.ReadingFirst? && s.stream.Live? ==>
              (FirstReadSuffices(s) <==> s.phase.since + 1 >= s.stream.from)
  {
    var i := Init(cond, first, ctx);
    var s := Run(i, actions);
    RunStream(i, actions);
    RunReadInv(i, actions);
    if s.phase.ReadingFirst? && s.stream.Live? {
      if s.phase.since + 1 >= s.stream.from {
        forall v {:trigger ReadReturns(v)} | s.phase.since <= v < |s.history|
          ensures Guaranteed(WaiterStep(s, ReadReturns(v))) {
          CoveringReadGuarantees(s, v);
        }
      }
      var least := s.phase.since;
      OneVersionHanded(s, least);
      assert FirstReadSuffices(s) ==> Guaranteed(WaiterStep(s, ReadReturns(least)));
    }
  }

  /**
   If the stream starts only after the first read was served, that read meets the
   guarantee exactly if it returned the newest version that was recorded when the
   stream started; versions recorded in between are neither handed over nor pending.
   */
  lemma {:induction false} LateStartIsCoveredIff(cond: Condition, first: Workspace, ctx: Option<CtxErr>,
                                                 before: seq<Action>, version: nat, meanwhile: seq<Action>)
    requires Outside(meanwhile)
    ensures var s := Run(Init(cond, first, ctx), before);
            var t := Run(Init(cond, first, ctx), before + ([Turn(ReadReturns(version))] + meanwhile));
            s.phase.ReadingFirst? && s.stream.Opened? && s.phase.since <= version < |s.history| && t.stream.Live? ==>
              && version + 1 <= t.stream.from && t.handed == {version}
              && (Guaranteed(t) <==> version + 1 == t.stream.from)
  {
    var i := Init(cond, first, ctx);
    var s := Run(i, before);
    RunReadInv(i, before);
    TurnThenOutside(i, before, ReadReturns(version), meanwhile);
    if s.phase.ReadingFirst? && s.stream.Opened? && s.phase.since <= version < |s.history| {
      OneVersionHanded(s, version);
      var u := WaiterStep(s, ReadReturns(version));
      OutsideFrame(u, meanwhile);
      StartsAtTheEnd(u, meanwhile);
      var t := Run(u, meanwhile);
      if t.stream.Live? {
        assert version in t.handed;
      }
    }
  }

  /** A stream that has not started yet starts behind everything that is recorded. */
  lemma {:induction false} StartsAtTheEnd(s: Wait, actions: seq<Action>)
    requires Outside(actions) && !s.stream.Live?
    ensures var t := Run(s, actions);
            t.stream.Live? ==> |s.history| <= t.stream.from == t.stream.cursor
    decreases |actions|
  {
    if actions != [] {
      var t := Step(s, actions[0]);
      if t.stream.Live? {
        OutsideFrame(t, actions[1..]);
      } else {
        StartsAtTheEnd(t, actions[1..]);
      }
    }
  }

  /**
   The order of the start and the read matters: when the Cluster starts the stream
   only after it served the first read, a version recorded in between is neither
   handed over nor pending, even if it satisfies the condition.
   */
  lemma {:induction false} LateStreamStartMissesAVersion(initializing: Workspace, running: Workspace)
    requires initializing.state == Initializing && running.state == Running
    ensures var s := Run(Init(UntilRunning, initializing, None),
                         [Turn(OpenReturns(true)), Turn(ReadReturns(0)), Update(running), StreamStarts]);
            && s.phase.Consuming? && s.stream == Live(2, 2) && s.history == [initializing, running]
            && 1 !in s.handed && !s.synced && UntilRunning(s.history[1]) == Verdict(true, None)
  {
    var s0 := Init(UntilRunning, initializing, None);
    var s1 := Step(s0, Turn(OpenReturns(true)));
    var s2 := Step(s1, Turn(ReadReturns(0)));
    var s3 := Step(s2, Update(running));
    var s4 := Step(s3, StreamStarts);
    var acts := [Turn(OpenReturns(true)), Turn(ReadReturns(0)), Update(running), StreamStarts];
    assert acts[1..] == [Turn(ReadReturns(0)), Update(running), StreamStarts];
    assert acts[1..][1..] == [Update(running), StreamStarts];
    assert acts[1..][1..][1..] == [StreamStarts];
    assert Run(s3, [StreamStarts]) == Run(s4, []) == s4;
    assert Run(s2, [Update(running), StreamStarts]) == Run(s3, [StreamStarts]);
    assert Run(s1, acts[1..]) == Run(s2, acts[1..][1..]);
  }

  // ---- A quiet Cluster ends the wait -------------------------------------

  predicate LatestDecides(s: Wait) {
    |s.history| > 0 && Decides(s.cond(s.history[Latest(s)]))
  }

  function Events(n: nat): seq<Action> {
    seq(n, i requires 0 <= i < n => Turn(EventArrives))
  }

  /** The condition has ended the wait, on the version that the handle holds. */
  predicate CondDecided(s: Wait) {
    && (s.phase.Deciding? || s.phase.Returned?)
    && Verdicted(s, s.phase.result) && s.phase.result != Some(WatchRetry)
  }

  lemma {:induction false} DrainedOrDecided(s: Wait, n: nat)
    requires StreamInv(s) && s.phase.Consuming? && Covered(s)
    requires n == |s.history| - s.stream.cursor
    requires forall ws :: s.cond(ws).err != Some(WatchRetry)
    ensures var t := Run(s, Events(n));
            && t.cond == s.cond && t.history == s.history && StreamInv(t)
            && (CondDecided(t)
                || (t.phase.Consuming? && Covered(t) && t.stream.cursor == |t.history|))
    decreases n
  {
    if n > 0 {
      var t := Step(s, Turn(EventArrives));
      StreamPreserved(s, Turn(EventArrives));
      assert Events(n)[1..] == Events(n - 1);
      if t.phase.Consuming? {
        var v :| v in s.handed && v + 1 >= s.stream.from;
        assert v in t.handed;
        DrainedOrDecided(t, n - 1);
      } else {
        assert t.stored == Some(s.stream.cursor);
        DecidedStaysDecided(t, n - 1);
        RunStream(t, Events(n - 1));
      }
    }
  }

  lemma {:induction false} DecidedStaysDecided(s: Wait, n: nat)
    requires CondDecided(s)
    ensures var t := Run(s, Events(n));
            CondDecided(t) && t.cond == s.cond && t.history == s.history
    decreases n
  {
    if n > 0 {
      var t := Step(s, Turn(EventArrives));
      assert Events(n)[1..] == Events(n - 1);
      DecidedStaysDecided(t, n - 1);
    }
  }

  lemma {:induction false} SyncedWaitEnds(s: Wait, n: nat)
    requires StreamInv(s) && s.phase.Consuming? && Covered(s) && LatestDecides(s)
    requires n == |s.history| - s.stream.cursor
    requires forall ws :: s.cond(ws).err != Some(WatchRetry)
    ensures var t := Run(s, Events(n) + [Turn(EventArrives)]);
            t.phase.Returned? && CondDecided(t)
  {
    var u := Run(s, Events(n));
    DrainedOrDecided(s, n);
    RunAppend(s, Events(n), [Turn(EventArrives)]);
    assert CondDecided(u);
    assert Run(u, [Turn(EventArrives)]) == Run(Step(u, Turn(EventArrives)), []);
  }

  /**
   If the Cluster stays as it is, the stream holds and the latest version decides,
   then a wait with the guarantee returns the condition's own verdict on the version in the
   handle, one turn after it has received what is pending at the latest.
   */
  lemma {:induction false} QuietClusterEndsTheWait(cond: Condition, first: Workspace, ctx: Option<CtxErr>,
                                                   before: seq<Action>)
    requires forall ws :: cond(ws).err != Some(WatchRetry)
    ensures var s := Run(Init(cond, first, ctx), before);
            s.phase.Consuming? && Guaranteed(s) && s.stream.cursor <= |s.history| && LatestDecides(s) ==>
              var t := Run(Init(cond, first, ctx), before + (Events(|s.history| - s.stream.cursor) + [Turn(EventArrives)]));
              && t.phase.Returned? && Verdicted(t, t.phase.result) && t.phase.result != Some(WatchRetry)
  {
    var i := Init(cond, first, ctx);
    var s := Run(i, before);
    RunSound(i, before);
    RunStream(i, before);
    if s.phase.Consuming? && Covered(s) && LatestDecides(s) {
      var n := |s.history| - s.stream.cursor;
      RunAppend(i, before, Events(n) + [Turn(EventArrives)]);
      SyncedWaitEnds(s, n);
    }
  }

  // ---- The handle may go back --------------------------------------------

  predicate MovesBack(s: Wait, t: Wait) {
    s.stored.Some? && t.stored.Some? && t.stored.value < s.stored.value
  }

  /** An event is pending that is older than what the handle holds. */
  predicate StaleEvent(s: Wait) {
    s.phase.Consuming? && s.stream.Live? && s.stored.Some? && s.stream.cursor < s.stored.value
  }

  /** In every reachable state a step takes the handle back exactly if it delivers such an event; no read ever does. */
  lemma {:induction false} HandleMovesBackIff(cond: Condition, first: Workspace, ctx: Option<CtxErr>,
                                              actions: seq<Action>, a: Action)
    ensures var s := Run(Init(cond, first, ctx), actions);
            MovesBack(s, Step(s, a)) <==> a == Turn(EventArrives) && StaleEvent(s)
  {
    var s := Run(Init(cond, first, ctx), actions);
    RunReadInv(Init(cond, first, ctx), actions);
    HighKept(s, Held(s), a);
  }

  /** The version in the handle, or -1 before the first one. */
  function Held(s: Wait): int {
    if s.stored.Some? then s.stored.value else -1
  }

  /** The newest version that the handle has held in the course of a run. */
  function Highest(s: Wait, actions: seq<Action>): (h: int)
    ensures h >= Held(Run(s, actions))
  {
    if actions == [] then Held(s)
    else
      var h := Highest(s, actions[..|actions| - 1]);
      if h >= Held(Run(s, actions)) then h else Held(Run(s, actions))
  }

  /** No version is newer than those recorded, and no pending read is older than the newest that was held. */
  predicate HighInv(s: Wait, high: int) {
    && ReadInv(s) && Held(s) <= high < |s.history|
    && (s.phase.ReadingFirst? || s.phase.Ticking? ==> high <= s.phase.since)
  }

  function Higher(high: int, s: Wait): int {
    if high >= Held(s) then high else Held(s)
  }

  /** The event that arrives is older than a version that the handle has held. */
  predicate DeliversOld(s: Wait, high: int, a: Action) {
    a == Turn(EventArrives) && s.phase.Consuming? && s.stream.Live? && s.stream.cursor < |s.history|
    && s.stream.cursor < high
  }

  lemma {:induction false} HighKeptByRead(s: Wait, high: int, env: Env, since: nat, onward: Phase)
    requires HighInv(s, high) && (s.phase.ReadingFirst? || s.phase.Ticking?) && s.phase.since == since
    requires onward == Consuming || onward == AfterOpenFailure
    ensures var t := ReadStep(s, env, since, onward);
            HighInv(t, Higher(high, t)) && (t.stored == s.stored || Held(t) >= high)
  {
    ReadInvKeptByRead(s, env, since, onward);
  }

  lemma {:induction false} HighKeptByConsume(s: Wait, high: int, env: Env)
    requires HighInv(s, high) && s.phase.Consuming?
    ensures var t := ConsumeStep(s, env);
            && HighInv(t, Higher(high, t))
            && (DeliversOld(s, high, Turn(env)) ==> t.stored == Some(s.stream.cursor))
            && (!DeliversOld(s, high, Turn(env)) ==> t.stored == s.stored || Held(t) >= high)
  {
    ReadInvKeptByConsume(s, env);
  }

  lemma {:induction false} HighKeptElsewhere(s: Wait, high: int, a: Action)
    requires HighInv(s, high)
    requires a.Turn? ==> !s.phase.ReadingFirst? && !s.phase.Ticking? && !s.phase.Consuming?
    ensures HighInv(Step(s, a), high) && Step(s, a).stored == s.stored
  {
    ReadInvKept(s, a);
  }

  /** A step leaves the handle alone, or stores a version as new as any before, or delivers an old one. */
  lemma {:induction false} HighKept(s: Wait, high: int, a: Action)
    requires HighInv(s, high)
    ensures var t := Step(s, a);
            && HighInv(t, Higher(high, t))
            && (DeliversOld(s, high, a) ==> t.stored == Some(s.stream.cursor))
            && (!DeliversOld(s, high, a) ==> t.stored == s.stored || Held(t) >= high)
  {
    if a.Turn? && s.phase.ReadingFirst? {
      HighKeptByRead(s, high, a.env, s.phase.since, if s.stream.NotOpen? then AfterOpenFailure else Consuming);
    } else if a.Turn? && s.phase.Ticking? {
      HighKeptByRead(s, high, a.env, s.phase.since, Consuming);
    } else if a.Turn? && s.phase.Consuming? {
      HighKeptByConsume(s, high, a.env);
    } else {
      HighKeptElsewhere(s, high, a);
    }
  }

  lemma {:induction false} RunSnoc(s: Wait, front: seq<Action>, a: Action)
    ensures Run(s, front + [a]) == Step(Run(s, front), a)
    ensures Highest(s, front + [a]) == Higher(Highest(s, front), Run(s, front + [a]))
  {
    RunAppend(s, front, [a]);
    assert Run(Run(s, front), [a]) == Run(Step(Run(s, front), a), []);
    assert (front + [a])[..|front|] == front;
  }

  lemma {:induction false} RunHigh(i: Wait, actions: seq<Action>)
    requires HighInv(i, Held(i))
    ensures HighInv(Run(i, actions), Highest(i, actions))
  {
    if actions != [] {
      var front, a := actions[..|actions| - 1], actions[|actions| - 1];
      assert actions == front + [a];
      RunHigh(i, front);
      RunSnoc(i, front, a);
      HighKept(Run(i, front), Highest(i, front), a);
    }
  }

  /** Action number n delivers an old event, and the handle holds its version ever after. */
  ghost predicate LeftBehindAt(i: Wait, actions: seq<Action>, n: nat)
    requires n < |actions|
  {
    var s := Run(i, actions[..n]);
    && DeliversOld(s, Highest(i, actions[..n]), actions[n])
    && forall m {:trigger actions[..m]} :: n < m <= |actions| ==> Run(i, actions[..m]).stored == Some(s.stream.cursor)
  }

  ghost predicate LeftBehind(i: Wait, actions: seq<Action>) {
    exists n: nat :: n < |actions| && LeftBehindAt(i, actions, n)
  }

  lemma {:induction false} HighestGrows(i: Wait, actions: seq<Action>, n: nat)
    requires n <= |actions|
    ensures Highest(i, actions[..n]) <= Highest(i, actions)
    decreases |actions|
  {
    if n < |actions| {
      var front := actions[..|actions| - 1];
      HighestGrows(i, front, n);
      assert front[..n] == actions[..n];
    } else {
      assert actions[..n] == actions;
    }
  }

  lemma {:induction false} LeftBehindIsOld(i: Wait, actions: seq<Action>, n: nat)
    requires n < |actions| && LeftBehindAt(i, actions, n)
    ensures Held(Run(i, actions)) < Highest(i, actions)
  {
    HighestGrows(i, actions, n);
    assert actions[..|actions|] == actions;
  }

  lemma {:induction false} StaysBehind(i: Wait, front: seq<Action>, a: Action, n: nat)
    requires n < |front| && LeftBehindAt(i, front, n)
    requires Run(i, front + [a]).stored == Run(i, front).stored
    ensures LeftBehindAt(i, front + [a], n)
  {
    var actions := front + [a];
    assert actions[..n] == front[..n] && front[..|front|] == front && actions[..|actions|] == actions;
    forall m {:trigger actions[..m]} | n < m <= |actions|
      ensures Run(i, actions[..m]).stored == Some(Run(i, front[..n]).stream.cursor) {
      if m <= |front| {
        assert actions[..m] == front[..m];
      }
    }
  }

  lemma {:induction false} FallsBehind(i: Wait, front: seq<Action>, a: Action)
    requires DeliversOld(Run(i, front), Highest(i, front), a)
    requires Run(i, front + [a]).stored == Some(Run(i, front).stream.cursor)
    ensures LeftBehindAt(i, front + [a], |front|)
  {
    var actions := front + [a];
    assert actions[..|front|] == front && actions[..|actions|] == actions;
  }

  lemma {:induction false} OldIsLeftBehind(i: Wait, actions: seq<Action>)
    requires HighInv(i, Held(i)) && Held(Run(i, actions)) < Highest(i, actions)
    ensures LeftBehind(i, actions)
  {
    if actions != [] {
      var front, a := actions[..|actions| - 1], actions[|actions| - 1];
      assert actions == front + [a];
      RunHigh(i, front);
      RunSnoc(i, front, a);
      HighKept(Run(i, front), Highest(i, front), a);
      if DeliversOld(Run(i, front), Highest(i, front), a) {
        FallsBehind(i, front, a);
      } else {
        OldIsLeftBehind(i, front);
        var n: nat :| n < |front| && LeftBehindAt(i, front, n);
        StaysBehind(i, front, a, n);
      }
    }
  }

  /**
   Over all runs: the handle, and with it the wait that has returned, ends on a
   version older than one it has held if and only if at some point the stream
   delivered an event older than the newest version held by then, and nothing was
   stored after it.
   */
  lemma {:induction false} WaitEndsBehindIff(cond: Condition, first: Workspace, ctx: Option<CtxErr>,
                                             actions: seq<Action>)
    ensures var i := Init(cond, first, ctx);
            Held(Run(i, actions)) < Highest(i, actions) <==> LeftBehind(i, actions)
  {
    var i := Init(cond, first, ctx);
    if Held(Run(i, actions)) < Highest(i, actions) {
      OldIsLeftBehind(i, actions);
    }
    if LeftBehind(i, actions) {
      var n: nat :| n < |actions| && LeftBehindAt(i, actions, n);
      LeftBehindIsOld(i, actions, n);
    }
  }

  /**
   A wait for a running Workspace that ends well on a version that is no longer
   the latest one it has seen: the first read stored the stopping one after it.
   */
  lemma {:induction false} WaitMayEndOnAnOldVersion(init: Workspace, running: Workspace, stopping: Workspace)
    requires init.state == Initializing && running.state == Running && stopping.state == Stopping
    ensures var acts := [StreamStarts, Turn(OpenReturns(true)), Update(running), Update(stopping)];
            var s := WaiterStep(Run(Init(UntilRunning, init, None), acts), ReadReturns(2));
            var t := Run(s, Events(2));
            && s.stored == Some(2) && StaleEvent(s)
            && t.phase == Returned(None) && t.stored == Some(1) && t.history == [init, running, stopping]
  {
    var i := Init(UntilRunning, init, None);
    var acts := [StreamStarts, Turn(OpenReturns(true)), Update(running), Update(stopping)];
    RunFour(i, acts[0], acts[1], acts[2], acts[3]);
    assert [init] + [running] + [stopping] == [init, running, stopping];
    var s := WaiterStep(Run(i, acts), ReadReturns(2));
    var t := Step(s, Turn(EventArrives));
    assert Events(2)[1..] == Events(1) && Events(1)[1..] == Events(0);
    assert Run(s, Events(2)) == Run(t, Events(1)) == Run(Step(t, Turn(EventArrives)), Events(0));
  }

  lemma {:induction false} RunFour(s: Wait, a: Action, b: Action, c: Action, d: Action)
    ensures Run(s, [a, b, c, d]) == Step(Step(Step(Step(s, a), b), c), d)
  {
    assert [a, b, c, d][1..] == [b, c, d] && [b, c, d][1..] == [c, d] && [c, d][1..] == [d];
    assert Run(Step(Step(Step(s, a), b), c), [d]) == Step(Step(Step(Step(s, a), b), c), d);
    assert Run(Step(Step(s, a), b), [c, d]) == Run(Step(Step(Step(s, a), b), c), [d]);
  }
}
