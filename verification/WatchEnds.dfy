/**
 What ends a wait and what does not, in every reachable state: an answer that
 decides it leads to its result within two turns of the waiter, and a failure that
 passes leads on to the next event, tick or connection.
 */
module WatchEnds {
  import opened Prelude
  import opened Watch

  predicate ReadPending(s: Wait) {
    s.phase.ReadingFirst? || s.phase.Ticking?
  }

  /** The waiter returns this after the answer and one more turn, whatever that turn's answer is. */
  ghost predicate EndsWith(s: Wait, answer: Env, result: Option<WaitErr>) {
    forall env :: WaiterStep(WaiterStep(s, answer), env).phase == Returned(result)
  }

  /** The marker of a dropped stream is not a result of the wait. */
  lemma {:induction false} DecidedEnds(s: Wait, answer: Env, result: Option<WaitErr>)
    requires WaiterStep(s, answer).phase == Returned(result)
             || (WaiterStep(s, answer).phase == Deciding(result) && result != Some(WatchRetry))
    ensures EndsWith(s, answer, result)
  {
  }

  // ---- Deletion, refusal and the context ---------------------------------

  /** A deletion that a read or the stream reports ends the wait with that error, although the context lives on. */
  lemma {:induction false} DeletionEndsTheWait(cond: Condition, first: Workspace, ctx: Option<CtxErr>,
                                               actions: seq<Action>)
    ensures var s := Run(Init(cond, first, ctx), actions);
            s.deleted ==>
              && (ReadPending(s) ==> EndsWith(s, ReadNotFound, Some(WorkspaceDeleted)))
              && (s.phase.Consuming? && s.stream.Live? && s.stream.cursor == |s.history| ==>
                    EndsWith(s, EventArrives, Some(WorkspaceDeleted)))
  {
    var s := Run(Init(cond, first, ctx), actions);
    if s.deleted && ReadPending(s) {
      DecidedEnds(s, ReadNotFound, Some(WorkspaceDeleted));
    }
    if s.deleted && s.phase.Consuming? && s.stream.Live? && s.stream.cursor == |s.history| {
      DecidedEnds(s, EventArrives, Some(WorkspaceDeleted));
    }
  }

  /** A read that fails for good ends the wait with that failure, or with the context's error if it has ended. */
  lemma {:induction false} RefusedReadEndsTheWait(cond: Condition, first: Workspace, ctx: Option<CtxErr>,
                                                  actions: seq<Action>, code: int)
    ensures var s := Run(Init(cond, first, ctx), actions);
            ReadPending(s) ==>
              EndsWith(s, ReadPermanent(code), Some(match s.ctx case Some(why) => CtxEnded(why) case None => ReadRefused(code)))
  {
    var s := Run(Init(cond, first, ctx), actions);
    if ReadPending(s) {
      DecidedEnds(s, ReadPermanent(code), Some(match s.ctx case Some(why) => CtxEnded(why) case None => ReadRefused(code)));
    }
  }

  /** The answer that an ended context brings about wherever the waiter is. */
  function CtxAnswer(p: Phase): Env {
    if p.ReadingFirst? || p.Ticking? then ReadTransient else SeesCtx
  }

  /** An ended context ends the wait with its error, wherever the waiter is, unless it has a result already. */
  lemma {:induction false} EndedContextEndsTheWait(cond: Condition, first: Workspace, ctx: Option<CtxErr>,
                                                   actions: seq<Action>)
    ensures var s := Run(Init(cond, first, ctx), actions);
            s.ctx.Some? && !s.phase.Returned? && (s.phase.Deciding? ==> s.phase.result == Some(WatchRetry)) ==>
              EndsWith(s, CtxAnswer(s.phase), Some(CtxEnded(s.ctx.value)))
  {
    var s := Run(Init(cond, first, ctx), actions);
    if s.ctx.Some? && !s.phase.Returned? && (s.phase.Deciding? ==> s.phase.result == Some(WatchRetry)) {
      DecidedEnds(s, CtxAnswer(s.phase), Some(CtxEnded(s.ctx.value)));
    }
  }

  // ---- The condition -----------------------------------------------------

  /** The version that an answer brings. */
  predicate Brings(s: Wait, answer: Env, version: nat) {
    && version < |s.history|
    && ((ReadPending(s) && answer == ReadReturns(version) && s.phase.since <= version)
        || (s.phase.Consuming? && s.stream.Live? && answer == EventArrives && s.stream.cursor == version))
  }

  /**
   A version that is brought is stored in the handle; if the condition decides on it
   the wait ends with its verdict, and otherwise it goes on to the next event.
   */
  lemma {:induction false} VersionIsJudged(cond: Condition, first: Workspace, ctx: Option<CtxErr>, actions: seq<Action>,
                                           answer: Env, version: nat)
    requires forall ws :: cond(ws).err != Some(WatchRetry)
    ensures var s := Run(Init(cond, first, ctx), actions);
            Brings(s, answer, version) ==>
              && WaiterStep(s, answer).stored == Some(version)
              && (if cond(s.history[version]).done || cond(s.history[version]).err.Some?
                  then EndsWith(s, answer, cond(s.history[version]).err)
                  else WaiterStep(s, answer).phase ==
                         if s.phase.ReadingFirst? && s.stream.NotOpen? then AfterOpenFailure else Consuming)
  {
    var s := Run(Init(cond, first, ctx), actions);
    RunSound(Init(cond, first, ctx), actions);
    if Brings(s, answer, version) {
      var v := cond(s.history[version]);
      if v.done || v.err.Some? {
        DecidedEnds(s, answer, v.err);
      }
    }
  }

  /** The version brings the wait to an end with this result. */
  ghost predicate Judged(s: Wait, answer: Env, version: nat, result: Option<WaitErr>) {
    EndsWith(s, answer, result) && WaiterStep(s, answer).stored == Some(version)
  }

  /** The wait goes on after the answer. */
  predicate GoesOn(s: Wait, answer: Env) {
    var t := WaiterStep(s, answer);
    t.phase.Consuming? || t.phase.AfterOpenFailure?
  }

  /** The failure that a version reports: its run's if there is a run, otherwise its own. */
  predicate Fails(ws: Workspace, failure: int) {
    if ws.run.Some? then ws.run.value == Some(failure) else ws.failure == Some(failure)
  }

  predicate FailsNot(ws: Workspace) {
    if ws.run.Some? then ws.run.value.None? else ws.failure.None?
  }

  /** The error of a wait that is overtaken by the Workspace's stop. */
  ghost predicate StopsWith(s: Wait, answer: Env, version: nat, ws: Workspace) {
    && (FailsNot(ws) ==> Judged(s, answer, version, Some(WorkspaceStopped)))
    && (forall f :: Fails(ws, f) ==> Judged(s, answer, version, Some(RunFailed(f))))
  }

  /** WaitUntilRunning, by the state of the version that is brought. */
  lemma {:induction false} StateDecidesRunning(first: Workspace, ctx: Option<CtxErr>, actions: seq<Action>,
                                               answer: Env, version: nat)
    ensures var s := Run(Init(UntilRunning, first, ctx), actions);
            Brings(s, answer, version) ==>
              match s.history[version].state
              case Running => Judged(s, answer, version, None)
              case Stopped => StopsWith(s, answer, version, s.history[version])
              case _ => GoesOn(s, answer)
  {
    VersionIsJudged(UntilRunning, first, ctx, actions, answer, version);
  }

  /** WaitUntilReady, by the state of the version that is brought. */
  lemma {:induction false} StateDecidesReady(first: Workspace, ctx: Option<CtxErr>, actions: seq<Action>,
                                             answer: Env, version: nat)
    ensures var s := Run(Init(UntilReady, first, ctx), actions);
            Brings(s, answer, version) ==>
              match s.history[version].state
              case Running => Judged(s, answer, version, None)
              case Preparing => Judged(s, answer, version, None)
              case Stopped => StopsWith(s, answer, version, s.history[version])
              case _ => GoesOn(s, answer)
  {
    VersionIsJudged(UntilReady, first, ctx, actions, answer, version);
  }

  /** WaitUntilStopped and WaitForState, by the state of the version that is brought. */
  lemma {:induction false} StateDecidesTheEnd(first: Workspace, ctx: Option<CtxErr>, actions: seq<Action>,
                                              states: seq<WsState>, answer: Env, version: nat)
    ensures var s := Run(Init(UntilStopped, first, ctx), actions);
            Brings(s, answer, version) ==>
              var ws := s.history[version];
              if ws.state != Stopped then GoesOn(s, answer)
              else && (FailsNot(ws) ==> Judged(s, answer, version, None))
                   && (forall f :: Fails(ws, f) ==> Judged(s, answer, version, Some(RunFailed(f))))
    ensures var s := Run(Init(ForState(states), first, ctx), actions);
            Brings(s, answer, version) ==>
              if s.history[version].state in states then Judged(s, answer, version, None) else GoesOn(s, answer)
  {
    VersionIsJudged(UntilStopped, first, ctx, actions, answer, version);
    VersionIsJudged(ForState(states), first, ctx, actions, answer, version);
  }

  // ---- What passes -------------------------------------------------------

  /** The turns that take a waiter from a broken stream or a failed open call to the next open call. */
  lemma {:induction false} ReopensAfter(s: Wait, x: Env, y: Env)
    requires s.ctx.None? && (s.phase.Retrying? || s.phase.AfterOpenFailure?)
    ensures var t := if s.phase.Retrying? then WaiterStep(WaiterStep(s, x), y) else WaiterStep(s, x);
            var u := WaiterStep(t, Wakes);
            t.phase == Sleeping && u.phase == Opening && u.sleeps == s.sleeps + 1 && u.stored == s.stored
  {
  }

  /**
   With a live context a transient failure of a read only skips that read, a broken
   stream and a failed open call only lead to a pause and the next connection, and
   an unknown event changes nothing.
   */
  lemma {:induction false} FailuresPass(cond: Condition, first: Workspace, ctx: Option<CtxErr>, actions: seq<Action>,
                                        x: Env, y: Env)
    ensures var s := Run(Init(cond, first, ctx), actions);
            s.ctx.None? ==>
              && (ReadPending(s) ==> GoesOn(s, ReadTransient))
              && (s.phase.Consuming? ==>
                    && WaiterStep(s, UnknownArrives) == s
                    && (var t := WaiterStep(WaiterStep(WaiterStep(WaiterStep(s, StreamBreaks), x), y), Wakes);
                        t.phase == Opening && t.sleeps == s.sleeps + 1 && t.stored == s.stored))
              && (s.phase.AfterOpenFailure? ==>
                    var t := WaiterStep(WaiterStep(s, x), Wakes);
                    t.phase == Opening && t.sleeps == s.sleeps + 1 && t.stored == s.stored)
  {
    var s := Run(Init(cond, first, ctx), actions);
    if s.ctx.None? && s.phase.Consuming? {
      ReopensAfter(WaiterStep(s, StreamBreaks), x, y);
    }
    if s.ctx.None? && s.phase.AfterOpenFailure? {
      ReopensAfter(s, x, y);
    }
  }
}
