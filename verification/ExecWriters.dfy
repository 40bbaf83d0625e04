/**
 What the writers given with WithStdout, WithStderr and WithCombinedOutput end
 up with. deliver looks at a Write's error and not at its count, so a writer
 that takes less than it was offered, without an error, goes unnoticed.
 */
module ExecWriters {
  import opened Prelude
  import opened ExecProtocol
  import opened ExecSafety
  import opened ExecOutcome

  /** The loop still is, or ended, where every chunk passed all its writers. */
  predicate Undisturbed(s: State) {
    (Early(s.recv) && !s.recv.RecordingErr?) || s.record.exited
  }

  /** The chunks that passed the writer of their own stream, and the combined one. */
  function PastOwn(s: State): seq<Chunk> {
    s.captured + (if s.recv.WritingCombined? || s.recv.Capturing? then [s.recv.chunk] else [])
  }

  function PastCombined(s: State): seq<Chunk> {
    s.captured + (if s.recv.Capturing? then [s.recv.chunk] else [])
  }

  /** A sink was offered exactly these bytes: it took them, or missed some. */
  predicate Offered(sink: Sink, bytes: seq<Byte>) {
    |sink.taken| + sink.missed == |bytes| && (sink.missed == 0 ==> sink.taken == bytes)
  }

  predicate SinksInv(s: State) {
    Undisturbed(s) ==>
      && (s.cfg.hasStdout ==> Offered(s.sinks.stdout, Bytes(PastOwn(s), Some(Stdout))))
      && (s.cfg.hasStderr ==> Offered(s.sinks.stderr, Bytes(PastOwn(s), Some(Stderr))))
      && (s.cfg.hasCombined ==> Offered(s.sinks.combined, Bytes(PastCombined(s), None)))
  }

  lemma {:induction false} OfferedNext(sink: Sink, bytes: seq<Byte>, data: seq<Byte>, accepted: nat)
    requires Offered(sink, bytes)
    ensures Offered(Offer(sink, data, accepted), bytes + data)
  {
  }

  /** What the bytes of the chunks become with one more chunk at the end. */
  lemma {:induction false} BytesWith(captured: seq<Chunk>, c: Chunk, stream: Option<Stream>)
    ensures Bytes(captured + [c], stream)
         == Bytes(captured, stream) + (if stream == None || stream == Some(c.stream) then c.data else [])
    ensures Bytes(captured + [], stream) == Bytes(captured, stream)
  {
    BytesSnoc(captured, c, stream);
    assert captured + [] == captured;
    assert Bytes(captured, stream) + [] == Bytes(captured, stream);
  }

  lemma {:induction false} SinksAtWriter(s: State, env: Env)
    requires OutcomeInv(s) && SinksInv(s) && s.recv.Writing?
    ensures SinksInv(ReceiverStep(s, env))
  {
    var c := s.recv.chunk;
    BytesWith(s.captured, c, Some(Stdout));
    BytesWith(s.captured, c, Some(Stderr));
    if HasWriter(s.cfg, c.stream) && env.Wrote? {
      match c.stream
      case Stdout => OfferedNext(s.sinks.stdout, Bytes(s.captured, Some(Stdout)), c.data, env.accepted);
      case Stderr => OfferedNext(s.sinks.stderr, Bytes(s.captured, Some(Stderr)), c.data, env.accepted);
    }
  }

  lemma {:induction false} SinksAtCombined(s: State, env: Env)
    requires OutcomeInv(s) && SinksInv(s) && s.recv.WritingCombined?
    ensures SinksInv(ReceiverStep(s, env))
  {
    var c := s.recv.chunk;
    var t := ReceiverStep(s, env);
    assert s.captured + [] == s.captured;
    BytesSnoc(s.captured, c, None);
    assert t.recv.Capturing? ==> PastOwn(t) == PastOwn(s);
    if s.cfg.hasCombined && env.Wrote? {
      OfferedNext(s.sinks.combined, Bytes(s.captured, None), c.data, env.accepted);
    }
  }

  lemma {:induction false} SinksElsewhere(s: State, env: Env)
    requires OutcomeInv(s) && SinksInv(s) && !s.recv.Writing? && !s.recv.WritingCombined?
    ensures SinksInv(ReceiverStep(s, env))
  {
    var t := ReceiverStep(s, env);
    assert t.sinks == s.sinks && t.cfg == s.cfg;
    if Undisturbed(t) {
      assert Undisturbed(s);
      assert PastOwn(t) == PastOwn(s) && PastCombined(t) == PastCombined(s);
    }
  }

  lemma {:induction false} SinksPreserved(s: State, a: Action)
    requires Inv(s) && SinksInv(s)
    ensures SinksInv(Step(s, a))
  {
    if !a.ReceiverTurn? {
      OthersFrame(s, a);
      StepKeepsCfg(s, a);
      var t := Step(s, a);
      assert PastOwn(t) == PastOwn(s) && PastCombined(t) == PastCombined(s);
    } else if s.recv.Writing? {
      SinksAtWriter(s, a.env);
    } else if s.recv.WritingCombined? {
      SinksAtCombined(s, a.env);
    } else {
      SinksElsewhere(s, a.env);
    }
  }

  lemma {:induction false} RunSinks(s: State, actions: seq<Action>)
    requires Inv(s) && SinksInv(s)
    ensures SinksInv(Run(s, actions))
    decreases |actions|
  {
    if actions != [] {
      var t := Step(s, actions[0]);
      InvPreserved(s, actions[0]);
      SinksPreserved(s, actions[0]);
      RunSinks(t, actions[1..]);
    }
  }

  // ---- io.Writer's rule ---------------------------------------------------

  /** The loop is at the writer of a stream, or at the combined one (None). */
  predicate AtWriter(s: State, w: Option<Stream>) {
    match w
    case Some(stream) => s.recv.Writing? && s.recv.chunk.stream == stream && HasWriter(s.cfg, stream)
    case None => s.recv.WritingCombined? && s.cfg.hasCombined
  }

  /** The rule of io.Writer: a Write that takes less than it was offered returns an error. */
  predicate KeepsRule(s: State, a: Action, w: Option<Stream>) {
    AtWriter(s, w) && a.ReceiverTurn? && a.env.Wrote? && a.env.failed.None? ==> a.env.accepted >= |s.recv.chunk.data|
  }

  /** The writer keeps that rule at every Write of the run. */
  predicate WriterKeepsRule(s: State, actions: seq<Action>, w: Option<Stream>)
    decreases |actions|
  {
    actions != [] ==> KeepsRule(s, actions[0], w) && WriterKeepsRule(Step(s, actions[0]), actions[1..], w)
  }

  function SinkOf(s: State, w: Option<Stream>): Sink {
    match w
    case Some(Stdout) => s.sinks.stdout
    case Some(Stderr) => s.sinks.stderr
    case None => s.sinks.combined
  }

  predicate HasSink(cfg: Config, w: Option<Stream>) {
    match w case Some(stream) => HasWriter(cfg, stream) case None => cfg.hasCombined
  }

  lemma {:induction false} RuleAtReceiver(s: State, env: Env, w: Option<Stream>)
    requires OutcomeInv(s) && Undisturbed(ReceiverStep(s, env))
    ensures Undisturbed(s)
    ensures SinkOf(ReceiverStep(s, env), w).missed == 0 <==>
              SinkOf(s, w).missed == 0 && KeepsRule(s, ReceiverTurn(env), w)
  {
    if s.recv.Writing? {
      RuleAtOwnWriter(s, env, w);
    } else if s.recv.WritingCombined? {
      RuleAtCombined(s, env, w);
    } else {
      RuleElsewhere(s, env);
    }
  }

  lemma {:induction false} RuleAtOwnWriter(s: State, env: Env, w: Option<Stream>)
    requires OutcomeInv(s) && s.recv.Writing? && Undisturbed(ReceiverStep(s, env))
    ensures SinkOf(ReceiverStep(s, env), w).missed == 0 <==>
              SinkOf(s, w).missed == 0 && KeepsRule(s, ReceiverTurn(env), w)
  {
  }

  lemma {:induction false} RuleAtCombined(s: State, env: Env, w: Option<Stream>)
    requires OutcomeInv(s) && s.recv.WritingCombined? && Undisturbed(ReceiverStep(s, env))
    ensures SinkOf(ReceiverStep(s, env), w).missed == 0 <==>
              SinkOf(s, w).missed == 0 && KeepsRule(s, ReceiverTurn(env), w)
  {
  }

  lemma {:induction false} RuleElsewhere(s: State, env: Env)
    requires OutcomeInv(s) && !s.recv.Writing? && !s.recv.WritingCombined? && Undisturbed(ReceiverStep(s, env))
    ensures Undisturbed(s) && ReceiverStep(s, env).sinks == s.sinks
  {
  }

  /** One step of any thread: a writer misses nothing exactly if it keeps the rule. */
  lemma {:induction false} RuleStep(s: State, a: Action, w: Option<Stream>)
    requires Inv(s) && Undisturbed(Step(s, a))
    ensures Undisturbed(s)
    ensures SinkOf(Step(s, a), w).missed == 0 <==> SinkOf(s, w).missed == 0 && KeepsRule(s, a, w)
  {
    if a.ReceiverTurn? {
      RuleAtReceiver(s, a.env, w);
    } else {
      OthersFrame(s, a);
    }
  }

  lemma {:induction false} RuleRun(s: State, actions: seq<Action>, w: Option<Stream>)
    requires Inv(s) && Undisturbed(Run(s, actions))
    ensures Undisturbed(s)
    ensures SinkOf(Run(s, actions), w).missed == 0 <==> SinkOf(s, w).missed == 0 && WriterKeepsRule(s, actions, w)
    decreases |actions|
  {
    if actions != [] {
      InvPreserved(s, actions[0]);
      RuleRun(Step(s, actions[0]), actions[1..], w);
      RuleStep(s, actions[0], w);
    }
  }

  /** In a successful session the ledger of a sink is that of all the bytes received. */
  lemma {:induction false} FinishedSinks(s: State, w: Option<Stream>)
    requires Inv(s) && SinksInv(s) && s.done && OutcomeOf(s).Finished? && HasSink(s.cfg, w)
    ensures Undisturbed(s) && Offered(SinkOf(s, w), Bytes(s.received, w))
  {
    assert s.captured + [] == s.captured;
    DroppingEmptiesKeepsBytes(s.received, w);
  }

  /**
   A successful session handed a writer every byte the Cluster sent on its
   stream if and only if the writer kept the rule of io.Writer at every Write.
   */
  lemma {:induction false} WritersGetEverythingIff(cfg: Config, actions: seq<Action>, w: Option<Stream>)
    requires HasSink(cfg, w)
    ensures var s := Run(Init(cfg), actions);
            s.done && OutcomeOf(s).Finished? ==>
              (SinkOf(s, w).taken == Bytes(s.received, w) <==> WriterKeepsRule(Init(cfg), actions, w))
  {
    var s := Run(Init(cfg), actions);
    InitInv(cfg);
    InitSinks(cfg);
    RunInv(Init(cfg), actions);
    RunSinks(Init(cfg), actions);
    if s.done && OutcomeOf(s).Finished? {
      FinishedSinks(s, w);
      RuleRun(Init(cfg), actions, w);
    }
  }

  lemma {:induction false} InitSinks(cfg: Config)
    ensures SinksInv(Init(cfg))
  {
    assert forall w :: Bytes([], w) == [];
  }

  /** The Cluster reports an exit and the loop runs down without interference. */
  const EXIT_ZERO: seq<Action> :=
    [ReceiverTurn(GotExit(0))] + seq(4, i requires 0 <= i < 4 => ReceiverTurn(GotOther))

  /** One chunk whose writer takes `accepted` bytes of it and reports no error. */
  function WriteChunk(c: Chunk, accepted: nat): seq<Action> {
    [ReceiverTurn(GotChunk(c)), ReceiverTurn(Wrote(accepted, None)), ReceiverTurn(GotOther), ReceiverTurn(GotOther)]
  }

  lemma {:induction false} RunFour(s: State, a: Action, b: Action, c: Action, d: Action)
    ensures Run(s, [a, b, c, d]) == Step(Step(Step(Step(s, a), b), c), d)
  {
    assert [a, b, c, d][1..] == [b, c, d] && [b, c, d][1..] == [c, d] && [c, d][1..] == [d];
    assert Run(Step(Step(Step(s, a), b), c), [d]) == Step(Step(Step(Step(s, a), b), c), d);
    assert Run(Step(Step(s, a), b), [c, d]) == Run(Step(Step(Step(s, a), b), c), [d]);
  }

  lemma {:induction false} ExitZeroEnds(s: State)
    requires Inv(s) && s.recv.Receiving?
    ensures var t := Run(s, EXIT_ZERO);
            && t.done && t.sinks == s.sinks && t.received == s.received && t.cfg == s.cfg && t.bufs == s.bufs
            && t.record == s.record.(exited := true, exitCode := 0, stamped := true)
  {
    var go := ReceiverTurn(GotOther);
    assert EXIT_ZERO == [ReceiverTurn(GotExit(0))] + [go, go, go, go];
    var s1 := Step(s, ReceiverTurn(GotExit(0)));
    assert EXIT_ZERO[1..] == [go, go, go, go];
    RunFour(s1, go, go, go, go);
    var s2 := Step(s1, go);
    assert s2 == s.(record := s.record.(exited := true, exitCode := 0, stamped := true), recv := ClosingOutput);
  }

  lemma {:induction false} WriteChunkTakes(s: State, c: Chunk, accepted: nat)
    requires s.recv.Receiving? && !s.cfg.streaming && s.cfg.hasStdout && !s.cfg.hasCombined
    requires c.stream.Stdout? && c.data != []
    ensures var t := Run(s, WriteChunk(c, accepted));
            && t.recv.Receiving? && t.received == s.received + [c] && t.cfg == s.cfg && t.record == s.record
            && t.sinks.stdout == Offer(s.sinks.stdout, c.data, accepted)
  {
    var go := ReceiverTurn(GotOther);
    RunFour(s, ReceiverTurn(GotChunk(c)), ReceiverTurn(Wrote(accepted, None)), go, go);
  }

  /** A writer that takes half of a chunk and reports no error: the session still succeeds. */
  lemma {:induction false} ShortWriteGoesUnnoticed(a: Byte, b: Byte)
    ensures var cfg := Config(false, true, false, false, None, 0, None, false);
            var s := Run(Init(cfg), WriteChunk(Chunk(Stdout, [a, b]), 1) + EXIT_ZERO);
            && s.done && OutcomeOf(s) == Finished(0, false, None)
            && s.sinks.stdout.taken == [a] && s.received == [Chunk(Stdout, [a, b])]
  {
    var cfg := Config(false, true, false, false, None, 0, None, false);
    var c := Chunk(Stdout, [a, b]);
    InitInv(cfg);
    RunInv(Init(cfg), WriteChunk(c, 1));
    WriteChunkTakes(Init(cfg), c, 1);
    RunAppend(Init(cfg), WriteChunk(c, 1), EXIT_ZERO);
    ExitZeroEnds(Run(Init(cfg), WriteChunk(c, 1)));
  }
}
