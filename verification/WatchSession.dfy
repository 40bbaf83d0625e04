/**
 WaitFor, reconcile and consumeWatch in the form of the source: an object whose
 methods update the handle, with the Cluster and the context free to act before
 every atomic step. As for the exec session, the ghost trace ties the fields to a
 run of the protocol. `budget` bounds the steps of this execution; a wait that
 outlives it returns None.
 */
module WatchSession {
  import opened Prelude
  import opened Watch

  function DropTurns(actions: seq<Action>): (r: seq<Action>)
    ensures Outside(r)
  {
    if actions == [] then [] else (if actions[0].Turn? then [] else [actions[0]]) + DropTurns(actions[1..])
  }

  class Waiter {
    const cond: Condition
    var history: seq<Workspace>
    var deleted: bool
    var ctx: Option<CtxErr>
    var phase: Phase
    var stream: Stream
    var stored: Option<nat>
    var handed: set<nat>
    var synced: bool
    var covers: bool
    var refusal: Option<int>
    var sleeps: nat
    var pause: nat

    const first: Workspace
    const startCtx: Option<CtxErr>
    ghost var trace: seq<Action>

    function Abs(): Wait
      reads this
    {
      Wait(cond, history, deleted, ctx, phase, stream, stored, handed, synced, covers, refusal, sleeps)
    }

    ghost predicate Valid()
      reads this
    {
      Abs() == Run(Init(cond, first, startCtx), trace) && pause == PauseAfter(sleeps)
    }

    constructor (cond: Condition, first: Workspace, ctx: Option<CtxErr>)
      ensures Valid() && phase == Opening && this.cond == cond && trace == []
    {
      this.cond, this.first, this.startCtx := cond, first, ctx;
      history, deleted, this.ctx, phase, stream := [first], false, ctx, Opening, NotOpen;
      stored, handed, synced, covers, refusal, sleeps := None, {}, false, false, None, 0;
      pause, trace := FIRST_PAUSE, [];
    }

    /** The Cluster and the context act for a while; then the environment answers. */
    method Await() returns (env: Env)
      requires Valid()
      modifies this
      ensures Valid() && old(trace) <= trace && phase == old(phase) && sleeps == old(sleeps) && pause == old(pause)
      ensures history == [] ==> old(history) == []
      ensures old(stream.NotOpen? && !phase.Opening?) ==> stream.NotOpen?
    {
      var others: seq<Action> := *;
      env := *;
      others := DropTurns(others);
      var t := Run(Abs(), others);
      OutsideFrame(Abs(), others);
      WatchRunAppend(others);
      history, deleted, ctx, stream := t.history, t.deleted, t.ctx, t.stream;
      trace := trace + others;
    }

    lemma WatchRunAppend(others: seq<Action>)
      requires Valid()
      ensures Run(Init(cond, first, startCtx), trace + others) == Run(Abs(), others)
    {
      RunAppend(Init(cond, first, startCtx), trace, others);
    }

    ghost method Took(before: Wait, env: Env)
      requires before == Run(Init(cond, first, startCtx), trace) && Abs() == WaiterStep(before, env)
      requires pause == PauseAfter(sleeps)
      modifies this`trace
      ensures Valid() && old(trace) <= trace
    {
      RunAppend(Init(cond, first, startCtx), trace, [Turn(env)]);
      assert Run(before, [Turn(env)]) == Run(Step(before, Turn(env)), []);
      trace := trace + [Turn(env)];
    }

    /** Opens the stream, unless the context has ended. */
    method Open() returns (ended: Option<WaitErr>)
      requires Valid() && phase == Opening
      modifies this
      ensures Valid() && old(trace) <= trace
      ensures ended.Some? ==> phase == Returned(ended)
      ensures ended.None? ==> phase.Opening? || phase.ReadingFirst?
    {
      var env := Await();
      ghost var before := Abs();
      if ctx.Some? {
        ended := Some(CtxEnded(ctx.value));
        phase := Returned(ended);
      } else {
        ended := None;
        if env.OpenReturns? {
          phase := ReadingFirst(Latest(Abs()));
          covers := env.ok && stream.Live?;
          stream := if !env.ok then NotOpen else if stream.Live? then stream else Opened;
          synced, handed := false, {};
        }
      }
      Took(before, env);
    }

    /** w.set and the condition's verdict. */
    method HandOver(version: nat)
      requires version < |history|
      modifies this`stored, this`handed, this`phase
      ensures Abs() == Hand(old(Abs()), version, if old(phase.ReadingFirst? && stream.NotOpen?) then AfterOpenFailure else Consuming)
    {
      var onward := if phase.ReadingFirst? && stream.NotOpen? then AfterOpenFailure else Consuming;
      stored := Some(version);
      handed := handed + {version};
      var v := cond(history[version]);
      if v.done || v.err.Some? {
        phase := if phase.ReadingFirst? then Returned(v.err) else Deciding(v.err);
      } else {
        phase := onward;
      }
    }

    /** reconcile, for the first read and for a tick's. */
    method Reconcile() returns (ghost answer: Env)
      requires Valid() && (phase.ReadingFirst? || phase.Ticking?)
      modifies this
      ensures Valid() && old(trace) <= trace
      ensures old(phase.ReadingFirst?) ==>
                phase == old(phase) || phase.AfterOpenFailure? || phase.Consuming? || phase.Returned?
      ensures old(phase.Ticking?) ==> phase == old(phase) || phase.Consuming? || phase.Deciding?
      ensures answer.ReadNotFound? && deleted ==>
        phase == if old(phase.ReadingFirst?) then Returned(Some(WorkspaceDeleted)) else Deciding(Some(WorkspaceDeleted))
      ensures answer.ReadReturns? && old(phase.since) <= answer.version < |history| ==> stored == Some(answer.version)
      ensures answer.ReadTransient? && ctx.None? ==> phase.Consuming? || phase.AfterOpenFailure?
    {
      var env := Await();
      ghost var before := Abs();
      ghost var onward := if phase.ReadingFirst? && stream.NotOpen? then AfterOpenFailure else Consuming;
      if env.ReadReturns? {
        ReadSucceeds(env.version);
      } else {
        ReadFails(env);
      }
      assert Abs() == ReadStep(before, env, before.phase.since, onward);
      answer := env;
      Took(before, env);
    }

    /** The version that a read has returned, if it is one that the read may return. */
    method ReadSucceeds(version: nat)
      requires phase.ReadingFirst? || phase.Ticking?
      modifies this`stored, this`handed, this`phase, this`synced
      ensures Abs() == ReadStep(old(Abs()), ReadReturns(version), old(phase.since),
        if old(phase.ReadingFirst? && stream.NotOpen?) then AfterOpenFailure else Consuming)
    {
      if phase.since <= version < |history| {
        HandOver(version);
        synced := synced || covers;
      }
    }

    /** The error branches of reconcile. */
    method ReadFails(env: Env)
      requires phase.ReadingFirst? || phase.Ticking?
      requires !env.ReadReturns?
      modifies this`phase, this`refusal
      ensures Abs() == ReadStep(old(Abs()), env, old(phase.since),
        if old(phase.ReadingFirst? && stream.NotOpen?) then AfterOpenFailure else Consuming)
    {
      var initial := phase.ReadingFirst?;
      if env.ReadNotFound? {
        if deleted {
          phase := if initial then Returned(Some(WorkspaceDeleted)) else Deciding(Some(WorkspaceDeleted));
        }
      } else if env.ReadTransient? || env.ReadPermanent? {
        if env.ReadPermanent? {
          refusal := Some(env.code);
        }
        if ctx.Some? || env.ReadPermanent? {
          var e := if ctx.Some? then CtxEnded(ctx.value) else ReadRefused(env.code);
          phase := if initial then Returned(Some(e)) else Deciding(Some(e));
        } else {
          phase := if initial && stream.NotOpen? then AfterOpenFailure else Consuming;
        }
      }
    }

    /** The next event of the stream: a version or the deletion. */
    method TakeEvent()
      requires phase == Consuming
      modifies this`stored, this`handed, this`phase, this`stream
      ensures Abs() == ConsumeStep(old(Abs()), EventArrives)
    {
      if stream.Live? {
        if stream.cursor < |history| {
          HandOver(stream.cursor);
          stream := stream.(cursor := stream.cursor + 1);
        } else if deleted {
          phase := Deciding(Some(WorkspaceDeleted));
        }
      }
    }

    /** One pass of consumeWatch's select. */
    method Select()
      requires Valid() && phase == Consuming
      modifies this
      ensures Valid() && old(trace) <= trace
      ensures phase.Consuming? || phase.Ticking? || phase.Retrying? || phase.Deciding?
    {
      var env := Await();
      ghost var before := Abs();
      match env {
        case SeesCtx =>
          if ctx.Some? {
            phase := Deciding(Some(CtxEnded(ctx.value)));
          }
        case TickFires =>
          phase := Ticking(Latest(Abs()));
          covers := stream.Live?;
        case EventArrives =>
          TakeEvent();
        case StreamBreaks => phase := Retrying;
        case _ =>
      }
      assert Abs() == ConsumeStep(before, env);
      Took(before, env);
    }

    /** The end of consumeWatch on a broken stream. */
    method Retry()
      requires Valid() && phase == Retrying
      modifies this
      ensures Valid() && old(trace) <= trace && phase.Deciding?
    {
      var env := Await();
      ghost var before := Abs();
      phase := Deciding(Some(if ctx.Some? then CtxEnded(ctx.value) else WatchRetry));
      Took(before, env);
    }

    /** WaitFor's switch over what consumeWatch returned. */
    method Decide()
      requires Valid() && phase.Deciding?
      modifies this
      ensures Valid() && old(trace) <= trace && (phase.Returned? || phase.Sleeping?)
    {
      var env := Await();
      ghost var before := Abs();
      if phase.result != Some(WatchRetry) {
        phase := Returned(phase.result);
      } else if ctx.Some? {
        phase := Returned(Some(CtxEnded(ctx.value)));
      } else {
        phase := Sleeping;
      }
      Took(before, env);
    }

    method OpenFailed()
      requires Valid() && phase == AfterOpenFailure
      modifies this
      ensures Valid() && old(trace) <= trace && (phase.Returned? || phase.Sleeping?)
    {
      var env := Await();
      ghost var before := Abs();
      phase := if ctx.Some? then Returned(Some(CtxEnded(ctx.value))) else Sleeping;
      Took(before, env);
    }

    /** backoff.sleep: the pause is doubled before it is slept. */
    method Sleep()
      requires Valid() && phase == Sleeping
      modifies this
      ensures Valid() && old(trace) <= trace && (phase.Returned? || phase.Sleeping? || phase.Opening?)
    {
      var env := Await();
      ghost var before := Abs();
      if ctx.Some? && env.SeesCtx? {
        phase := Returned(Some(CtxEnded(ctx.value)));
      } else if env.Wakes? {
        if pause < PAUSE_CAP {
          pause := pause * 2;
        }
        phase := Opening;
        stream := NotOpen;
        sleeps := sleeps + 1;
      }
      Took(before, env);
    }

    /**
     WaitFor. When it returns, the result is justified by what the Cluster and the
     context did; nil means that the condition holds of the version in the handle.
     */
    method WaitFor(budget: nat) returns (result: Option<Option<WaitErr>>)
      requires Valid() && phase == Opening && trace == []
      requires forall ws :: cond(ws).err != Some(WatchRetry)
      modifies this
      ensures Valid()
      ensures result.Some? ==>
        && phase == Returned(result.value)
        && Justified(Abs(), result.value) && result.value != Some(WatchRetry)
        && (result.value.None? ==>
              stored.Some? && stored.value < |history| && cond(history[stored.value]) == Verdict(true, None))
    {
      var left := budget;
      while left > 0 && !phase.Returned?
        invariant Valid()
      {
        left := left - 1;
        match phase {
          case Opening => var _ := Open();
          case ReadingFirst(_) => ghost var _ := Reconcile();
          case AfterOpenFailure => OpenFailed();
          case Consuming => Select();
          case Ticking(_) => ghost var _ := Reconcile();
          case Retrying => Retry();
          case Deciding(_) => Decide();
          case Sleeping => Sleep();
          case Returned(_) =>
        }
      }
      result := None;
      if phase.Returned? {
        result := Some(phase.result);
        WaitForIsSound(cond, first, startCtx, trace);
      }
    }
  }
}
