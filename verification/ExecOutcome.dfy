/** Theorems over whole runs of an exec session: one outcome, its cause, its data. */
module ExecOutcome {
  import opened Prelude
  import opened ExecProtocol
  import opened ExecSafety
  import C = Capture

  // ---- One outcome, for everyone, for ever --------------------------------

  lemma {:induction false} RunFrozen(s: State, actions: seq<Action>)
    requires Inv(s) && s.done
    ensures var t := Run(s, actions);
            && t.done && t.record == s.record && t.bufs == s.bufs && t.sinks == s.sinks
            && t.received == s.received && t.captured == s.captured && OutcomeOf(t) == OutcomeOf(s)
    decreases |actions|
  {
    if actions != [] {
      var u := Step(s, actions[0]);
      InvPreserved(s, actions[0]);
      DoneIsFrozen(s, actions[0]);
      RunFrozen(u, actions[1..]);
    }
  }

  /**
   In every interleaving: once done is closed exactly one of `exited` and `err`
   holds, the output is closed, and whatever runs afterwards leaves the record,
   the captures and hence Wait's result as they are.
   */
  lemma {:induction false} OutcomeIsFinal(cfg: Config, before: seq<Action>, after: seq<Action>)
    ensures var s := Run(Init(cfg), before);
            var t := Run(Init(cfg), before + after);
            s.done ==>
              && (s.record.exited <==> s.record.err.None?)
              && s.out.closed
              && t.done && t.record == s.record && t.bufs == s.bufs && OutcomeOf(t) == OutcomeOf(s)
  {
    var s := Run(Init(cfg), before);
    InitInv(cfg);
    RunInv(Init(cfg), before);
    RunAppend(Init(cfg), before, after);
    if s.done {
      RunFrozen(s, after);
    }
  }

  /** Every Wait call that returned, early or late, got the same result. */
  lemma {:induction false} WaitersAgree(cfg: Config, actions: seq<Action>, i: nat, j: nat)
    ensures var s := Run(Init(cfg), actions);
            i < |s.waiters| && j < |s.waiters| && s.waiters[i].Returned? && s.waiters[j].Returned? ==>
              s.done && s.waiters[i].outcome == s.waiters[j].outcome == OutcomeOf(s)
  {
    InitInv(cfg);
    RunInv(Init(cfg), actions);
  }

  // ---- Killing -----------------------------------------------------------

  /** The loop ended on a Recv error and an accepted Kill decides how that is reported. */
  predicate KilledEnding(s: State) {
    && s.record.killed
    && (s.recv.CheckingExited? || s.recv.CheckingKilled? || s.recv == RecordingExit(-1)
        || (!Early(s.recv) && s.record.err.None? && s.record.exitCode == -1))
  }

  /** The killed flag was found unset: whatever Kill does now comes too late. */
  predicate UnkilledEnding(s: State) {
    s.recv.CheckingCtx? || s.recv.Normalizing? || s.recv.RecordingErr? || (!Early(s.recv) && s.record.err.Some?)
  }

  lemma {:induction false} EndingsPreserved(s: State, a: Action)
    requires OutcomeInv(s)
    ensures KilledEnding(s) ==> KilledEnding(Step(s, a))
    ensures UnkilledEnding(s) ==> UnkilledEnding(Step(s, a))
  {
    if !a.ReceiverTurn? {
      OthersFrame(s, a);
    }
  }

  lemma {:induction false} RunEndings(s: State, actions: seq<Action>)
    requires Inv(s)
    ensures KilledEnding(s) ==> KilledEnding(Run(s, actions))
    ensures UnkilledEnding(s) ==> UnkilledEnding(Run(s, actions))
    decreases |actions|
  {
    if actions != [] {
      var u := Step(s, actions[0]);
      InvPreserved(s, actions[0]);
      EndingsPreserved(s, actions[0]);
      RunEndings(u, actions[1..]);
    }
  }

  /**
   A loop that a Recv error ended, before the error is classified: what the run
   up to here and everything after it may be anything. If a Kill was accepted by
   the time the killed flag is read, the session ends with exit code -1 and
   Killed, even when the grace timer cancelled the context; otherwise it ends
   with an error and never with an exit code.
   */
  lemma {:induction false} KillDecidesTheOutcome(cfg: Config, before: seq<Action>, env: Env, after: seq<Action>)
    requires Run(Init(cfg), before).recv.CheckingKilled?
    ensures var s := Run(Init(cfg), before);
            var t := Run(Init(cfg), before + [ReceiverTurn(env)] + after);
            && (t.done && s.record.killed ==>
                OutcomeOf(t).Finished? && OutcomeOf(t).exitCode == -1 && OutcomeOf(t).killed)
            && (t.done && !s.record.killed ==> OutcomeOf(t).Failed?)
  {
    var s := Run(Init(cfg), before);
    InitInv(cfg);
    RunInv(Init(cfg), before);
    RunAppend(Init(cfg), before, [ReceiverTurn(env)]);
    RunAppend(Init(cfg), before + [ReceiverTurn(env)], after);
    var u := Step(s, ReceiverTurn(env));
    assert Run(s, [ReceiverTurn(env)]) == u;
    InvPreserved(s, ReceiverTurn(env));
    EndingsPreserved(s, ReceiverTurn(env));
    RunEndings(u, after);
    RunInv(u, after);
  }

  /** Accepting a Kill any time before Recv fails is early enough. */
  lemma {:induction false} KillBeforeTheError(cfg: Config, before: seq<Action>, cause: RecvErr, after: seq<Action>)
    requires Run(Init(cfg), before).recv.Receiving? && Run(Init(cfg), before).record.killed
    ensures var t := Run(Init(cfg), before + [ReceiverTurn(RecvFailed(cause))] + after);
            t.done ==> OutcomeOf(t).Finished? && OutcomeOf(t).exitCode == -1 && OutcomeOf(t).killed
  {
    var s := Run(Init(cfg), before);
    var a := ReceiverTurn(RecvFailed(cause));
    InitInv(cfg);
    RunInv(Init(cfg), before);
    RunAppend(Init(cfg), before, [a]);
    RunAppend(Init(cfg), before + [a], after);
    var u := Step(s, a);
    assert Run(s, [a]) == u;
    InvPreserved(s, a);
    RunEndings(u, after);
    RunInv(u, after);
  }

  // ---- Reported exits and faults -----------------------------------------

  /** How a loop ends that has come to record something: with an exit code, or with a fault. */
  datatype Ending = WithExit(code: int) | WithFault(fault: Fault)

  predicate EndsSo(s: State, ending: Ending) {
    match ending
    case WithExit(code) =>
      s.recv == RecordingExit(code) || (!Early(s.recv) && s.record.err.None? && s.record.exitCode == code)
    case WithFault(fault) =>
      s.recv == RecordingErr(fault) || (!Early(s.recv) && s.record.err == Some(fault))
  }

  lemma {:induction false} EndingKept(s: State, a: Action, ending: Ending)
    requires OutcomeInv(s) && EndsSo(s, ending)
    ensures EndsSo(Step(s, a), ending)
  {
    if !a.ReceiverTurn? {
      OthersFrame(s, a);
    }
  }

  lemma {:induction false} RunEndsSo(s: State, actions: seq<Action>, ending: Ending)
    requires Inv(s) && EndsSo(s, ending)
    ensures EndsSo(Run(s, actions), ending) && Inv(Run(s, actions))
    decreases |actions|
  {
    if actions != [] {
      InvPreserved(s, actions[0]);
      EndingKept(s, actions[0], ending);
      RunEndsSo(Step(s, actions[0]), actions[1..], ending);
    }
  }

  /**
   A loop that has come to record an exit code or a fault: whatever the other
   threads do before or after, exactly that is what the session ends with.
   */
  lemma {:induction false} RecordingDecides(cfg: Config, before: seq<Action>, after: seq<Action>)
    ensures var s := Run(Init(cfg), before);
            var t := Run(Init(cfg), before + after);
            && (s.recv.RecordingExit? && t.done ==> OutcomeOf(t).Finished? && OutcomeOf(t).exitCode == s.recv.code)
            && (s.recv.RecordingErr? && t.done ==> OutcomeOf(t) == Failed(s.recv.fault))
  {
    var s := Run(Init(cfg), before);
    InitInv(cfg);
    RunInv(Init(cfg), before);
    RunAppend(Init(cfg), before, after);
    if s.recv.RecordingExit? {
      RunEndsSo(s, after, WithExit(s.recv.code));
    } else if s.recv.RecordingErr? {
      RunEndsSo(s, after, WithFault(s.recv.fault));
    }
  }

  lemma {:induction false} OneMoreStep(cfg: Config, before: seq<Action>, a: Action)
    ensures Run(Init(cfg), before + [a]) == Step(Run(Init(cfg), before), a)
  {
    var s := Run(Init(cfg), before);
    RunAppend(Init(cfg), before, [a]);
    assert Run(s, [a]) == Run(Step(s, a), []);
  }

  /**
   A loop ended by the Cluster's report of an exit always ends with exactly that
   code, whatever Kill, the timer, Close and the others do before or after.
   */
  lemma {:induction false} ReportedExitDecides(cfg: Config, before: seq<Action>, code: int, after: seq<Action>)
    requires Run(Init(cfg), before).recv.Receiving?
    ensures var t := Run(Init(cfg), before + [ReceiverTurn(GotExit(code))] + after);
            t.done ==> OutcomeOf(t).Finished? && OutcomeOf(t).exitCode == code
  {
    OneMoreStep(cfg, before, ReceiverTurn(GotExit(code)));
    RecordingDecides(cfg, before + [ReceiverTurn(GotExit(code))], after);
  }

  /** A loop ended by a writer always ends with that writer's error, and one that gave up publishing with the context's. */
  lemma {:induction false} FailedDeliveryDecides(cfg: Config, before: seq<Action>, env: Env, after: seq<Action>)
    ensures var s := Run(Init(cfg), before);
            var t := Run(Init(cfg), before + [ReceiverTurn(env)] + after);
            && (s.recv.Writing? && HasWriter(cfg, s.recv.chunk.stream) && env.Wrote? && env.failed.Some? && t.done ==>
                  OutcomeOf(t) == Failed(WriterFailed(env.failed.value)))
            && (s.recv.WritingCombined? && cfg.hasCombined && env.Wrote? && env.failed.Some? && t.done ==>
                  OutcomeOf(t) == Failed(WriterFailed(env.failed.value)))
            && (s.recv.Publishing? && env.PreferDone? && s.ctx.Some? && t.done ==>
                  OutcomeOf(t) == Failed(ContextEnded(s.ctx.value)))
  {
    InitInv(cfg);
    RunInv(Init(cfg), before);
    OneMoreStep(cfg, before, ReceiverTurn(env));
    RecordingDecides(cfg, before + [ReceiverTurn(env)], after);
  }

  // ---- Captured output ---------------------------------------------------

  lemma {:induction false} DroppingEmptiesKeepsBytes(chunks: seq<Chunk>, which: Option<Stream>)
    ensures Bytes(NonEmpty(chunks), which) == Bytes(chunks, which)
  {
    if chunks != [] {
      var n := |chunks| - 1;
      var last := chunks[n];
      DroppingEmptiesKeepsBytes(chunks[..n], which);
      assert chunks == chunks[..n] + [last];
      SnocViews(chunks[..n], last);
      BytesSnoc(chunks[..n], last, which);
      if last.data != [] {
        BytesSnoc(NonEmpty(chunks[..n]), last, which);
      } else {
        assert NonEmpty(chunks) == NonEmpty(chunks[..n]);
      }
    }
  }

  lemma {:induction false} BytesSnoc(chunks: seq<Chunk>, c: Chunk, which: Option<Stream>)
    ensures Bytes(chunks + [c], which) == Bytes(chunks, which) + (if which.None? || which.value == c.stream then c.data else [])
  {
    SnocViews(chunks, c);
    if which.None? || which.value == c.stream {
      FlattenSnoc(Payloads(chunks, which), c.data);
    } else {
      assert Payloads(chunks, which) + [] == Payloads(chunks, which);
    }
  }

  lemma {:induction false} StreamsPartitionBytes(chunks: seq<Chunk>)
    ensures |Bytes(chunks, Some(Stdout))| + |Bytes(chunks, Some(Stderr))| == |Bytes(chunks, None)|
  {
    if chunks != [] {
      var n := |chunks| - 1;
      StreamsPartitionBytes(chunks[..n]);
      assert chunks == chunks[..n] + [chunks[n]];
      BytesSnoc(chunks[..n], chunks[n], None);
      BytesSnoc(chunks[..n], chunks[n], Some(Stdout));
      BytesSnoc(chunks[..n], chunks[n], Some(Stderr));
    }
  }

  lemma {:induction false} PayloadsNonEmpty(chunks: seq<Chunk>, which: Option<Stream>)
    requires forall c :: c in chunks ==> c.data != []
    ensures forall d :: d in Payloads(chunks, which) ==> d != []
  {
    if chunks != [] {
      var n := |chunks| - 1;
      assert forall c :: c in chunks[..n] ==> c in chunks;
      assert chunks[n] in chunks;
      PayloadsNonEmpty(chunks[..n], which);
    }
  }

  /** The capture that is due for everything that was received. */
  function Due(received: seq<Chunk>, limit: nat): Captured {
    Captured(Prefix(Bytes(received, Some(Stdout)), limit),
             Prefix(Bytes(received, Some(Stderr)), limit),
             Prefix(Bytes(received, None), limit),
             |Bytes(received, None)| > limit)
  }

  lemma {:induction false} CapturesAreDue(bufs: Bufs, limit: nat, chunks: seq<Chunk>)
    requires Captures(bufs, limit, chunks)
    requires forall c :: c in chunks ==> c.data != []
    ensures Captured(bufs.stdout.content, bufs.stderr.content, bufs.combined.content,
                     bufs.stdout.truncated || bufs.stderr.truncated || bufs.combined.truncated) == Due(chunks, limit)
  {
    PayloadsNonEmpty(chunks, Some(Stdout));
    PayloadsNonEmpty(chunks, Some(Stderr));
    PayloadsNonEmpty(chunks, None);
    C.CaptureOfNonEmpty(limit, Payloads(chunks, Some(Stdout)));
    C.CaptureOfNonEmpty(limit, Payloads(chunks, Some(Stderr)));
    C.CaptureOfNonEmpty(limit, Payloads(chunks, None));
    StreamsPartitionBytes(chunks);
  }

  /**
   Every successful Wait with the capture on reports the first `limit` bytes of
   each stream and of the interleaving of all the chunks the Cluster sent, and
   Truncated exactly when their total exceeds the limit.
   */
  lemma {:induction false} SuccessfulCaptureIsExact(cfg: Config, actions: seq<Action>, i: nat)
    requires cfg.capture.Some?
    ensures var s := Run(Init(cfg), actions);
            i < |s.waiters| && s.waiters[i].Returned? && s.waiters[i].outcome.Finished? ==>
              s.waiters[i].outcome.captured == Some(Due(s.received, cfg.capture.value))
  {
    var s := Run(Init(cfg), actions);
    InitInv(cfg);
    RunInv(Init(cfg), actions);
    if i < |s.waiters| && s.waiters[i].Returned? && s.waiters[i].outcome.Finished? {
      assert s.record.exited;
      assert InHand(s.recv) == [] && s.captured + [] == s.captured;
      CapturesAreDue(s.bufs, cfg.capture.value, s.captured);
      DroppingEmptiesKeepsBytes(s.received, None);
      DroppingEmptiesKeepsBytes(s.received, Some(Stdout));
      DroppingEmptiesKeepsBytes(s.received, Some(Stderr));
    }
  }

  // ---- The output channel ------------------------------------------------

  /**
   At every moment of a streaming session the published chunks are a prefix of
   the non-empty chunks received, at most one behind the captured ones and at
   most bufferSize of them buffered; all of them are published when Wait succeeds.
   */
  lemma {:induction false} FanOutKeepsOrder(cfg: Config, actions: seq<Action>)
    requires cfg.streaming
    ensures var s := Run(Init(cfg), actions);
            && Published(s) <= NonEmpty(s.received)
            && Published(s) <= s.captured <= NonEmpty(s.received)
            && |s.captured| <= |Published(s)| + 1
            && |s.out.buffered| <= cfg.bufferSize
            && (s.done && OutcomeOf(s).Finished? ==> Published(s) == NonEmpty(s.received))
  {
    var s := Run(Init(cfg), actions);
    InitInv(cfg);
    RunInv(Init(cfg), actions);
    if s.done && OutcomeOf(s).Finished? {
      assert InHand(s.recv) == [] && s.captured + [] == s.captured;
    }
  }

  /** A plain Exec never publishes a chunk. */
  lemma {:induction false} PlainExecPublishesNothing(cfg: Config, actions: seq<Action>)
    requires !cfg.streaming
    ensures Published(Run(Init(cfg), actions)) == []
  {
    InitInv(cfg);
    RunInv(Init(cfg), actions);
  }
}
