/** What every interleaving of an exec session keeps, and the theorems about whole runs. */
module ExecSafety {
  import opened Prelude
  import opened ExecProtocol
  import C = Capture

  // ---- Views of a state --------------------------------------------------

  function NonEmpty(chunks: seq<Chunk>): seq<Chunk> {
    if chunks == [] then []
    else
      var last := chunks[|chunks| - 1];
      NonEmpty(chunks[..|chunks| - 1]) + (if last.data == [] then [] else [last])
  }

  /** The payloads of the chunks of one stream, or of both when which is None. */
  function Payloads(chunks: seq<Chunk>, which: Option<Stream>): seq<seq<Byte>> {
    if chunks == [] then []
    else
      var last := chunks[|chunks| - 1];
      Payloads(chunks[..|chunks| - 1], which) + (if which.None? || which.value == last.stream then [last.data] else [])
  }

  function Bytes(chunks: seq<Chunk>, which: Option<Stream>): seq<Byte> {
    Flatten(Payloads(chunks, which))
  }

  function Published(s: State): seq<Chunk> {
    s.out.consumed + s.out.buffered
  }

  lemma {:induction false} SnocViews(chunks: seq<Chunk>, c: Chunk)
    ensures NonEmpty(chunks + [c]) == NonEmpty(chunks) + (if c.data == [] then [] else [c])
    ensures forall w ::
      Payloads(chunks + [c], w) == Payloads(chunks, w) + (if w.None? || w.value == c.stream then [c.data] else [])
  {
    assert (chunks + [c])[..|chunks|] == chunks;
  }

  // ---- The invariants ----------------------------------------------------

  /** The receive loop has not recorded an outcome yet. */
  predicate Early(r: Receiver) {
    !(r.ClosingOutput? || r.Finishing? || r.ClosingDone? || r.Releasing? || r.Ended?)
  }

  /**
   Exactly one outcome is recorded, by the receive loop, before it closes the
   output; `done` is closed last. Both fallbacks of the code (an exit already
   recorded when the stream fails, and finish's own error) are unreachable.
   */
  predicate OutcomeInv(s: State) {
    && (Early(s.recv) ==> !s.record.exited && s.record.err.None? && !s.out.closed && !s.done)
    && (!Early(s.recv) ==> (s.record.exited <==> s.record.err.None?) && s.record.stamped)
    && (s.recv.ClosingOutput? ==> !s.out.closed && !s.done)
    && ((s.recv.Finishing? || s.recv.ClosingDone?) ==> s.out.closed && !s.done)
    && ((s.recv.Releasing? || s.recv.Ended?) ==> s.out.closed && s.done)
  }

  /** The chunk that was received but not captured yet, if any. */
  function InHand(r: Receiver): seq<Chunk> {
    if r.Writing? || r.WritingCombined? || r.Capturing? then [r.chunk] else []
  }

  /** Everything received has been captured, but for the chunk in hand or one lost to an error. */
  predicate DeliveryInv(s: State) {
    Delivers(NonEmpty(s.received), s.captured, s.recv, s.record.exited)
  }

  predicate Delivers(received: seq<Chunk>, captured: seq<Chunk>, recv: Receiver, exited: bool) {
    && (InHand(recv) != [] || (Early(recv) && !recv.RecordingErr?) || exited ==>
        received == captured + InHand(recv))
    && captured <= received
    && (InHand(recv) != [] || recv.Publishing? ==> recv.chunk.data != [])
    && (forall c :: c in captured ==> c.data != [])
  }

  predicate BufsInv(s: State) {
    s.cfg.capture.Some? ==> Captures(s.bufs, s.cfg.capture.value, s.captured)
  }

  /** The position asks for everything captured to have been published. */
  predicate AllPublished(s: State) {
    (Early(s.recv) && !s.recv.RecordingErr? && !s.recv.Publishing?) || s.record.exited
  }

  /** Publication follows the capture, at most one chunk behind it. */
  predicate FanOutInv(s: State) {
    && |s.out.buffered| <= s.cfg.bufferSize
    && (!s.cfg.streaming ==> Published(s) == [] && !s.recv.Publishing?)
    && (s.cfg.streaming ==>
        && Published(s) <= s.captured
        && |s.captured| <= |Published(s)| + 1
        && (s.recv.Publishing? ==> s.captured == Published(s) + [s.recv.chunk])
        && (AllPublished(s) ==> s.captured == Published(s)))
  }

  predicate WaitersInv(s: State) {
    forall w :: w in s.waiters && w.Returned? ==> s.done && w.outcome == OutcomeOf(s)
  }

  predicate Inv(s: State) {
    OutcomeInv(s) && DeliveryInv(s) && BufsInv(s) && FanOutInv(s) && WaitersInv(s)
  }

  // ---- Preservation ------------------------------------------------------

  lemma {:induction false} InitInv(cfg: Config)
    ensures Inv(Init(cfg))
  {
  }

  lemma {:induction false} OutcomeKeptByReceiver(s: State, env: Env)
    requires OutcomeInv(s)
    ensures OutcomeInv(ReceiverStep(s, env))
  {
  }

  lemma {:induction false} OutcomePreserved(s: State, a: Action)
    requires OutcomeInv(s)
    ensures OutcomeInv(Step(s, a))
  {
    if a.ReceiverTurn? {
      OutcomeKeptByReceiver(s, a.env);
    }
  }

  /** Only the receive loop touches what it owns; nobody else records an outcome. */
  lemma {:induction false} OthersFrame(s: State, a: Action)
    requires !a.ReceiverTurn?
    ensures var t := Step(s, a);
            && t.recv == s.recv && t.received == s.received && t.captured == s.captured && t.bufs == s.bufs
            && t.sinks == s.sinks && t.done == s.done && t.out.closed == s.out.closed
            && t.record == s.record.(killed := t.record.killed)
            && (s.record.killed || Settled(s.record) ==> t.record == s.record)
  {
  }

  lemma {:induction false} StepKeepsCfg(s: State, a: Action)
    ensures Step(s, a).cfg == s.cfg
  {
  }

  lemma {:induction false} RunKeepsCfg(s: State, actions: seq<Action>)
    ensures Run(s, actions).cfg == s.cfg
    decreases |actions|
  {
    if actions != [] {
      StepKeepsCfg(s, actions[0]);
      RunKeepsCfg(Step(s, actions[0]), actions[1..]);
    }
  }

  lemma {:induction false} DeliveryFrame(s: State, t: State)
    requires DeliveryInv(s) && t.recv == s.recv && t.received == s.received && t.captured == s.captured
    requires t.record.exited == s.record.exited
    ensures DeliveryInv(t)
  {
  }

  lemma {:induction false} DeliveryReceives(s: State, c: Chunk)
    requires OutcomeInv(s) && DeliveryInv(s) && s.recv.Receiving?
    ensures DeliveryInv(ReceiverStep(s, GotChunk(c)))
  {
    SnocViews(s.received, c);
    assert s.captured + [] == s.captured;
  }

  lemma {:induction false} DeliveryCaptures(received: seq<Chunk>, captured: seq<Chunk>, c: Chunk, next: Receiver)
    requires Delivers(received, captured, Capturing(c), false)
    requires next == Publishing(c) || next == Receiving
    ensures Delivers(received, captured + [c], next, false)
  {
    assert captured + [c] + [] == captured + [c];
  }

  /** The position after one that asks for as much leaves the delivery as it is. */
  lemma {:induction false} DeliveryMoves(received: seq<Chunk>, captured: seq<Chunk>, from: Receiver, to: Receiver,
                                         before: bool, after: bool)
    requires Delivers(received, captured, from, before)
    requires InHand(to) == InHand(from) || (InHand(to) == [] && !after && (!Early(to) || to.RecordingErr?))
    requires (Early(to) && !to.RecordingErr?) || after ==> (Early(from) && !from.RecordingErr?) || before
    requires to.Publishing? ==> to == from
    ensures Delivers(received, captured, to, after)
  {
  }

  /** Away from the capture step the loop only changes where it is. */
  lemma {:induction false} ReceiverMoves(s: State, env: Env)
    requires OutcomeInv(s) && !s.recv.Capturing? && !(s.recv.Receiving? && env.GotChunk?)
    ensures var t := ReceiverStep(s, env);
            && t.received == s.received && t.captured == s.captured
            && (InHand(t.recv) == InHand(s.recv)
                || (InHand(t.recv) == [] && !t.record.exited && (!Early(t.recv) || t.recv.RecordingErr?)))
            && ((Early(t.recv) && !t.recv.RecordingErr?) || t.record.exited ==>
                  (Early(s.recv) && !s.recv.RecordingErr?) || s.record.exited)
            && (t.recv.Publishing? ==> t.recv == s.recv)
  {
  }

  lemma {:induction false} DeliveryPreserved(s: State, a: Action)
    requires OutcomeInv(s) && DeliveryInv(s)
    ensures DeliveryInv(Step(s, a))
  {
    if !a.ReceiverTurn? {
      OthersFrame(s, a);
      DeliveryFrame(s, Step(s, a));
    } else if s.recv.Receiving? && a.env.GotChunk? {
      DeliveryReceives(s, a.env.chunk);
    } else if s.recv.Capturing? {
      DeliveryCaptures(NonEmpty(s.received), s.captured, s.recv.chunk, ReceiverStep(s, a.env).recv);
    } else {
      var t := ReceiverStep(s, a.env);
      ReceiverMoves(s, a.env);
      DeliveryMoves(NonEmpty(s.received), s.captured, s.recv, t.recv, s.record.exited, t.record.exited);
    }
  }

  lemma {:induction false} PutSnoc(b: C.Buf, chunks: seq<seq<Byte>>, data: seq<Byte>)
    ensures C.PutAll(b, chunks + [data]) == C.Put(C.PutAll(b, chunks), data)
  {
    assert (chunks + [data])[..|chunks|] == chunks;
  }

  predicate Captures(bufs: Bufs, limit: nat, captured: seq<Chunk>) {
    && bufs.stdout == C.PutAll(C.Empty(limit), Payloads(captured, Some(Stdout)))
    && bufs.stderr == C.PutAll(C.Empty(limit), Payloads(captured, Some(Stderr)))
    && bufs.combined == C.PutAll(C.Empty(limit), Payloads(captured, None))
  }

  lemma {:induction false} CapturesNext(bufs: Bufs, limit: nat, captured: seq<Chunk>, c: Chunk)
    requires Captures(bufs, limit, captured)
    ensures Captures(CaptureChunk(bufs, c), limit, captured + [c])
  {
    var e := C.Empty(limit);
    SnocViews(captured, c);
    PutSnoc(e, Payloads(captured, Some(c.stream)), c.data);
    PutSnoc(e, Payloads(captured, None), c.data);
    var other := if c.stream.Stdout? then Stderr else Stdout;
    assert Payloads(captured, Some(other)) + [] == Payloads(captured, Some(other));
  }

  lemma {:induction false} BufsPreserved(s: State, a: Action)
    requires BufsInv(s)
    ensures BufsInv(Step(s, a))
  {
    StepKeepsCfg(s, a);
    if a.ReceiverTurn? && s.recv.Capturing? {
      if s.cfg.capture.Some? {
        CapturesNext(s.bufs, s.cfg.capture.value, s.captured, s.recv.chunk);
      }
    } else {
      OtherStepsKeepBufs(s, a);
    }
  }

  lemma {:induction false} OtherStepsKeepBufs(s: State, a: Action)
    requires !(a.ReceiverTurn? && s.recv.Capturing?)
    ensures Step(s, a).bufs == s.bufs && Step(s, a).captured == s.captured
  {
  }

  lemma {:induction false} ConsumeKeepsPublished(o: Output)
    ensures var p := Consume(o); p.consumed + p.buffered == o.consumed + o.buffered && |p.buffered| <= |o.buffered|
  {
  }

  /** Threads other than the receive loop only move chunks from the buffer to the consumer. */
  lemma {:induction false} OthersConsume(s: State, a: Action)
    requires !a.ReceiverTurn?
    ensures Published(Step(s, a)) == Published(s)
    ensures |Step(s, a).out.buffered| <= |s.out.buffered|
  {
    ConsumeKeepsPublished(s.out);
  }

  lemma {:induction false} FanOutFrame(s: State, t: State)
    requires FanOutInv(s) && t.cfg == s.cfg && t.recv == s.recv && t.captured == s.captured
    requires Published(t) == Published(s) && |t.out.buffered| <= |s.out.buffered|
    requires t.record.exited == s.record.exited
    ensures FanOutInv(t)
  {
  }

  lemma {:induction false} FanOutCaptures(s: State, env: Env)
    requires OutcomeInv(s) && FanOutInv(s)
    requires s.recv.Capturing?
    ensures FanOutInv(ReceiverStep(s, env))
  {
    assert Published(ReceiverStep(s, env)) == Published(s);
  }

  lemma {:induction false} ReceiverKeepsOutput(s: State, env: Env)
    requires OutcomeInv(s) && !s.recv.Publishing? && !s.recv.Capturing?
    ensures var t := ReceiverStep(s, env);
            && t.cfg == s.cfg && t.captured == s.captured && !t.recv.Publishing?
            && t.out.consumed == s.out.consumed && t.out.buffered == s.out.buffered
            && (AllPublished(t) ==> AllPublished(s))
  {
  }

  lemma {:induction false} FanOutMoves(s: State, t: State)
    requires FanOutInv(s) && t.cfg == s.cfg && t.captured == s.captured && !t.recv.Publishing?
    requires t.out.consumed == s.out.consumed && t.out.buffered == s.out.buffered
    requires AllPublished(t) ==> AllPublished(s)
    ensures FanOutInv(t)
  {
  }

  lemma {:induction false} FanOutReceiver(s: State, env: Env)
    requires OutcomeInv(s) && FanOutInv(s)
    requires !s.recv.Publishing? && !s.recv.Capturing?
    ensures FanOutInv(ReceiverStep(s, env))
  {
    ReceiverKeepsOutput(s, env);
    FanOutMoves(s, ReceiverStep(s, env));
  }

  lemma {:induction false} FanOutPublishes(s: State, env: Env)
    requires OutcomeInv(s) && FanOutInv(s)
    requires s.recv.Publishing?
    ensures FanOutInv(ReceiverStep(s, env))
  {
    assert s.out.consumed + (s.out.buffered + [s.recv.chunk]) == Published(s) + [s.recv.chunk];
    assert s.out.buffered == [] ==> s.out.consumed + [s.recv.chunk] + s.out.buffered == Published(s) + [s.recv.chunk];
  }

  lemma {:induction false} FanOutPreserved(s: State, a: Action)
    requires OutcomeInv(s) && FanOutInv(s)
    ensures FanOutInv(Step(s, a))
  {
    if !a.ReceiverTurn? {
      StepKeepsCfg(s, a);
      OthersFrame(s, a);
      OthersConsume(s, a);
      FanOutFrame(s, Step(s, a));
    } else if s.recv.Publishing? {
      FanOutPublishes(s, a.env);
    } else if s.recv.Capturing? {
      FanOutCaptures(s, a.env);
    } else {
      FanOutReceiver(s, a.env);
    }
  }

  /** Once done is closed, nothing that Wait reports changes any more. */
  lemma {:induction false} DoneIsFrozen(s: State, a: Action)
    requires OutcomeInv(s) && s.done
    ensures var t := Step(s, a);
            t.done && t.record == s.record && t.bufs == s.bufs && t.captured == s.captured
            && t.received == s.received && t.sinks == s.sinks && OutcomeOf(t) == OutcomeOf(s)
  {
  }

  lemma {:induction false} WaitersPreserved(s: State, a: Action)
    requires OutcomeInv(s) && WaitersInv(s)
    ensures WaitersInv(Step(s, a))
  {
    if s.done {
      DoneIsFrozen(s, a);
    }
  }

  lemma {:induction false} InvPreserved(s: State, a: Action)
    requires Inv(s)
    ensures Inv(Step(s, a))
  {
    OutcomePreserved(s, a);
    DeliveryPreserved(s, a);
    BufsPreserved(s, a);
    FanOutPreserved(s, a);
    WaitersPreserved(s, a);
  }

  lemma {:induction false} RunInv(s: State, actions: seq<Action>)
    requires Inv(s)
    ensures Inv(Run(s, actions)) && Run(s, actions).cfg == s.cfg
    decreases |actions|
  {
    if actions != [] {
      var t := Step(s, actions[0]);
      InvPreserved(s, actions[0]);
      StepKeepsCfg(s, actions[0]);
      RunInv(t, actions[1..]);
    }
  }
}
