/**
 The request side of a plain Exec: what the session sends, over every run. Only
 the stdin loop sends here, since nobody else holds the session.
 */
module ExecRequests {
  import opened Prelude
  import opened ExecProtocol
  import opened ExecSafety
  import opened ExecOutcome
  import opened ExecWriters

  /** The bytes of the WriteData messages, in order. */
  function Written(sent: seq<Request>): seq<Byte> {
    if sent == [] then []
    else
      var last := sent[|sent| - 1];
      Written(sent[..|sent| - 1]) + (if last.WriteData? then last.data else [])
  }

  lemma {:induction false} WrittenSnoc(sent: seq<Request>, m: Request)
    ensures Written(sent + [m]) == Written(sent) + (if m.WriteData? then m.data else [])
  {
    assert (sent + [m])[..|sent|] == sent;
  }

  function Source(s: State): seq<Byte> {
    if s.cfg.source.Some? then s.cfg.source.value else []
  }

  /** Bytes read from the source and not sent yet. */
  function Pending(p: Stdin): seq<Byte> {
    if p.Checking? || p.Sending? then p.data else []
  }

  function EndOf(p: Stdin): ReadEnd {
    if p.Checking? || p.Sending? || p.Ending? then p.end else More
  }

  predicate InKill(p: Stdin) { p.Killing? || p.SendingKill? || p.ArmingKill? }

  /** Nobody but the stdin loop writes or kills. */
  predicate AloneInv(s: State) {
    !s.cfg.streaming && s.req.writes == [] && s.req.killsToSend == 0
  }

  predicate SourceInv(s: State) {
    && (s.cfg.source.None? ==> s.req.stdin.Stopped?)
    && s.req.read <= |Source(s)|
    && (EndOf(s.req.stdin).AtEof? || InKill(s.req.stdin) ==> s.req.read == |Source(s)|)
    && (InKill(s.req.stdin) ==> s.cfg.terminateOnEof)
    && Written(s.req.sent) <= Source(s)
    && (!s.req.stdin.Stopped? ==> Written(s.req.sent) + Pending(s.req.stdin) == Source(s)[..s.req.read])
  }

  predicate SentInv(s: State) {
    && |s.req.sent| > 0 && s.req.sent[0] == Start
    && (forall k :: 1 <= k < |s.req.sent| ==> !s.req.sent[k].Start?)
    && (Kill in s.req.sent ==>
        s.cfg.terminateOnEof && Written(s.req.sent) == Source(s) && (s.req.stdin.ArmingKill? || s.req.stdin.Stopped?))
    && (forall k :: 0 <= k < |s.req.sent| - 1 ==> s.req.sent[k] != Kill)
  }

  predicate RequestInv(s: State) {
    AloneInv(s) && SourceInv(s) && SentInv(s)
  }

  lemma {:induction false} InitRequests(cfg: Config)
    requires !cfg.streaming
    ensures RequestInv(Init(cfg))
  {
    var s := Init(cfg);
    assert Written([Start]) == [];
    assert [] + Pending(s.req.stdin) == Source(s)[..0];
  }

  /** Apart from the stdin loop, nothing moves what was read or sent. */
  lemma {:induction false} OthersSendNothing(s: State, a: Action)
    requires AloneInv(s) && !a.StdinTurn?
    ensures AloneInv(Step(s, a))
    ensures var t := Step(s, a);
            t.cfg == s.cfg && t.req.sent == s.req.sent && t.req.stdin == s.req.stdin && t.req.read == s.req.read
  {
  }

  lemma {:induction false} ReadStep(s: State, env: StdinEnv)
    requires RequestInv(s) && s.req.stdin.Reading?
    ensures RequestInv(StdinStep(s, env))
  {
    var t := StdinStep(s, env);
    var p := s.req.read;
    assert Written(s.req.sent) + [] == Written(s.req.sent);
    if t.req.read > p {
      assert Source(s)[..p] + Source(s)[p..t.req.read] == Source(s)[..t.req.read];
    }
  }

  lemma {:induction false} SendDataStep(s: State, env: StdinEnv)
    requires RequestInv(s) && s.req.stdin.Sending?
    ensures RequestInv(StdinStep(s, env))
  {
    var t := StdinStep(s, env);
    if env.SendReturns? && env.ok {
      WrittenSnoc(s.req.sent, WriteData(s.req.stdin.data));
      assert Written(t.req.sent) == Source(s)[..s.req.read];
      assert Written(t.req.sent) + [] == Written(t.req.sent);
    }
  }

  lemma {:induction false} SendKillStep(s: State, env: StdinEnv)
    requires RequestInv(s) && s.req.stdin.SendingKill?
    ensures RequestInv(StdinStep(s, env))
  {
    var t := StdinStep(s, env);
    assert Written(s.req.sent) + [] == Written(s.req.sent);
    assert Source(s)[..|Source(s)|] == Source(s);
    if env.SendReturns? && env.ok {
      WrittenSnoc(s.req.sent, Kill);
      assert t.req.sent == s.req.sent + [Kill];
      assert Written(t.req.sent) == Written(s.req.sent) == Source(t);
    }
  }

  lemma {:induction false} OtherStdinStep(s: State, env: StdinEnv)
    requires RequestInv(s)
    requires !s.req.stdin.Reading? && !s.req.stdin.Sending? && !s.req.stdin.SendingKill?
    ensures RequestInv(StdinStep(s, env))
  {
    var t := StdinStep(s, env);
    assert t.req.sent == s.req.sent && t.req.read == s.req.read && t.cfg == s.cfg;
    assert Source(s)[..|Source(s)|] == Source(s);
  }

  lemma {:induction false} RequestPreserved(s: State, a: Action)
    requires RequestInv(s)
    ensures RequestInv(Step(s, a))
  {
    if !a.StdinTurn? {
      OthersSendNothing(s, a);
      RequestFrame(s, Step(s, a));
    } else if s.req.stdin.Reading? {
      ReadStep(s, a.stdinEnv);
    } else if s.req.stdin.Sending? {
      SendDataStep(s, a.stdinEnv);
    } else if s.req.stdin.SendingKill? {
      SendKillStep(s, a.stdinEnv);
    } else {
      OtherStdinStep(s, a.stdinEnv);
    }
  }

  lemma {:induction false} RequestFrame(s: State, t: State)
    requires RequestInv(s) && AloneInv(t)
    requires t.cfg == s.cfg && t.req.sent == s.req.sent && t.req.stdin == s.req.stdin && t.req.read == s.req.read
    ensures RequestInv(t)
  {
  }

  lemma {:induction false} RunRequests(s: State, actions: seq<Action>)
    requires RequestInv(s)
    ensures RequestInv(Run(s, actions))
    decreases |actions|
  {
    if actions != [] {
      var t := Step(s, actions[0]);
      RequestPreserved(s, actions[0]);
      RunRequests(t, actions[1..]);
    }
  }

  /**
   Over every run of a plain Exec: the first message is the only Request; the
   WriteData payloads are a prefix of the stdin source, however it was read; a
   Kill is sent at most once, last, only with terminate-on-EOF and only after the
   whole source was sent.
   */
  lemma {:induction false} PlainExecSends(cfg: Config, actions: seq<Action>)
    requires !cfg.streaming
    ensures var sent := Run(Init(cfg), actions).req.sent;
            var source := if cfg.source.Some? then cfg.source.value else [];
            && |sent| > 0 && sent[0] == Start && (forall k :: 1 <= k < |sent| ==> sent[k] != Start)
            && Written(sent) <= source
            && (Kill in sent ==> cfg.terminateOnEof && Written(sent) == source && sent[|sent| - 1] == Kill)
            && (forall k :: 0 <= k < |sent| - 1 ==> sent[k] != Kill)
  {
    InitRequests(cfg);
    RunRequests(Init(cfg), actions);
    RunKeepsCfg(Init(cfg), actions);
  }

  // ---- The whole source is delivered -------------------------------------

  /** The answer does not fail the stdin loop: its sends succeed, and its reads bring data or the end. */
  predicate Serves(s: State, a: Action) {
    a.StdinTurn? ==>
      && ((s.req.stdin.Sending? || s.req.stdin.SendingKill?) && a.stdinEnv.SendReturns? ==> a.stdinEnv.ok)
      && (s.req.stdin.Reading? && a.stdinEnv.ReadReturns? ==> !a.stdinEnv.end.ReadFailed?)
  }

  /** No read and no send of the stdin loop fails. */
  predicate NothingFails(s: State, actions: seq<Action>)
    decreases |actions|
  {
    actions != [] ==> Serves(s, actions[0]) && NothingFails(Step(s, actions[0]), actions[1..])
  }

  /** The loop goes on until it has sent everything; as long as the command has no outcome it does not stop before. */
  predicate Completing(s: State) {
    Early(s.recv) ==>
      match s.req.stdin
      case Reading => true
      case Checking(_, end) => !end.ReadFailed?
      case Sending(_, end) => !end.ReadFailed?
      case Ending(end) => !end.ReadFailed?
      case Killing => true
      case SendingKill => true
      case ArmingKill => Kill in s.req.sent
      case Stopped => Written(s.req.sent) == Source(s) && (s.cfg.terminateOnEof ==> Kill in s.req.sent)
  }

  lemma {:induction false} CompletingKeptByStdin(s: State, env: StdinEnv)
    requires Inv(s) && RequestInv(s) && Completing(s)
    requires Serves(s, StdinTurn(env))
    ensures Completing(StdinStep(s, env))
  {
    var t := StdinStep(s, env);
    assert t.recv == s.recv && t.cfg == s.cfg && Source(t) == Source(s);
    assert Source(s)[..|Source(s)|] == Source(s);
    assert Written(s.req.sent) + [] == Written(s.req.sent);
  }

  lemma {:induction false} CompletingKept(s: State, a: Action)
    requires Inv(s) && RequestInv(s) && Completing(s) && Serves(s, a)
    ensures Completing(Step(s, a))
  {
    if a.StdinTurn? {
      CompletingKeptByStdin(s, a.stdinEnv);
    } else {
      OthersSendNothing(s, a);
      if !a.ReceiverTurn? {
        OthersFrame(s, a);
      } else if !Early(s.recv) {
        assert !Early(ReceiverStep(s, a.env).recv);
      }
    }
  }

  lemma {:induction false} RunCompletes(s: State, actions: seq<Action>)
    requires Inv(s) && RequestInv(s) && Completing(s) && NothingFails(s, actions)
    ensures Completing(Run(s, actions)) && RequestInv(Run(s, actions))
    decreases |actions|
  {
    if actions != [] {
      var a := actions[0];
      CompletingKept(s, a);
      InvPreserved(s, a);
      RequestPreserved(s, a);
      RunCompletes(Step(s, a), actions[1..]);
    }
  }

  lemma {:induction false} CompletedMeans(s: State)
    requires RequestInv(s) && Completing(s) && s.req.stdin.Stopped? && Early(s.recv)
    ensures Written(s.req.sent) == Source(s)
    ensures s.cfg.terminateOnEof ==> s.req.sent != [] && s.req.sent[|s.req.sent| - 1] == Kill
  {
    if s.cfg.terminateOnEof {
      var k :| 0 <= k < |s.req.sent| && s.req.sent[k] == Kill;
    }
  }

  /**
   A plain Exec whose source and stream do not fail the stdin loop: if the loop stops
   before the command has an outcome, however the source was read, the whole source
   has been sent, and after it, with terminate-on-EOF, the Kill.
   */
  lemma {:induction false} WholeSourceIsSent(cfg: Config, actions: seq<Action>)
    requires !cfg.streaming && cfg.source.Some? && NothingFails(Init(cfg), actions)
    ensures var t := Run(Init(cfg), actions);
            t.req.stdin.Stopped? && Early(t.recv) ==>
              && Written(t.req.sent) == cfg.source.value
              && (cfg.terminateOnEof ==> t.req.sent != [] && t.req.sent[|t.req.sent| - 1] == Kill)
  {
    InitRequests(cfg);
    InitInv(cfg);
    RunCompletes(Init(cfg), actions);
    RunKeepsCfg(Init(cfg), actions);
    var t := Run(Init(cfg), actions);
    if t.req.stdin.Stopped? && Early(t.recv) {
      CompletedMeans(t);
    }
  }

  lemma {:induction false} ReadIsChecked(s: State, n: nat)
    requires s.req.stdin.Reading? && s.cfg.source.Some? && s.req.read + n <= |Source(s)| && 0 < n <= READ_SIZE
    ensures StdinStep(s, ReadReturns(n, More)) ==
            s.(req := s.req.(stdin := Checking(Source(s)[s.req.read..s.req.read + n], More), read := s.req.read + n))
  {
  }

  lemma {:induction false} CheckedIsSent(s: State)
    requires s.req.stdin.Checking? && !s.done
    ensures StdinStep(StdinStep(s, SendReturns(true)), SendReturns(true)) ==
            s.(req := s.req.(sent := s.req.sent + [WriteData(s.req.stdin.data)], stdin := Ending(s.req.stdin.end)))
  {
  }

  lemma {:induction false} ReadIsSentFrom(s: State, n: nat)
    requires s.req.stdin.Reading? && s.cfg.source.Some? && s.req.read + n <= |Source(s)| && 0 < n <= READ_SIZE && !s.done
    ensures var t := StdinStep(StdinStep(StdinStep(s, ReadReturns(n, More)), SendReturns(true)), SendReturns(true));
            t.req.sent == s.req.sent + [WriteData(Source(s)[s.req.read..s.req.read + n])] && t.req.stdin == Ending(More)
  {
    ReadIsChecked(s, n);
    CheckedIsSent(StdinStep(s, ReadReturns(n, More)));
  }

  lemma {:induction false} ReachesRequests(cfg: Config, actions: seq<Action>)
    requires !cfg.streaming
    ensures RequestInv(Run(Init(cfg), actions))
  {
    InitRequests(cfg);
    RunRequests(Init(cfg), actions);
  }

  /** A read hands what it got to the next send, in one piece and in the source's order. */
  lemma {:induction false} ReadIsSent(cfg: Config, before: seq<Action>, n: nat)
    requires !cfg.streaming && 0 < n <= 32 * 1024
    ensures var s := Run(Init(cfg), before);
            s.req.stdin.Reading? && s.req.read + n <= |Source(s)| && !s.done ==>
              var t := StdinStep(StdinStep(StdinStep(s, ReadReturns(n, More)), SendReturns(true)), SendReturns(true));
              t.req.sent == s.req.sent + [WriteData(Source(s)[s.req.read..s.req.read + n])] && t.req.stdin == Ending(More)
  {
    var s := Run(Init(cfg), before);
    ReachesRequests(cfg, before);
    if s.req.stdin.Reading? && s.req.read + n <= |Source(s)| && !s.done {
      ReadIsSentFrom(s, n);
    }
  }

  // ---- A failing stdin source --------------------------------------------

  const READ_FAILS: seq<Action> := [StdinTurn(ReadReturns(0, ReadFailed)), StdinTurn(SendReturns(true))]

  /**
   A source whose first read fails: the loop stops without a message and without
   touching the outcome, and the command's exit is reported as a success.
   */
  lemma {:induction false} StdinFailureIsSilent(data: seq<Byte>, terminate: bool)
    ensures var cfg := Config(false, false, false, false, None, 0, Some(data), terminate);
            var s := Run(Init(cfg), READ_FAILS + EXIT_ZERO);
            s.done && OutcomeOf(s) == Finished(0, false, None) && Written(Run(Init(cfg), READ_FAILS).req.sent) == []
  {
    var cfg := Config(false, false, false, false, None, 0, Some(data), terminate);
    var s := Init(cfg);
    var a, b := READ_FAILS[0], READ_FAILS[1];
    var s1 := Step(s, a);
    assert s1 == s.(req := s.req.(stdin := Ending(ReadFailed)));
    var s2 := Step(s1, b);
    assert s2 == s.(req := s.req.(stdin := Stopped));
    assert READ_FAILS == [a] + [b];
    RunAppend(s, [a], [b]);
    assert Run(s, READ_FAILS) == s2;
    assert Written([Start]) == [];
    InitInv(cfg);
    RunInv(s, READ_FAILS);
    RunAppend(s, READ_FAILS, EXIT_ZERO);
    ExitZeroEnds(s2);
  }

  function WithoutStdin(actions: seq<Action>): seq<Action> {
    if actions == [] then []
    else (if actions[0].StdinTurn? then [] else [actions[0]]) + WithoutStdin(actions[1..])
  }

  /** The stdin loop has been told of the end of its source and is to act on it. */
  predicate AtSourceEnd(s: State) {
    s.cfg.terminateOnEof && EndOf(s.req.stdin).AtEof?
  }

  /** The stdin loop is never told of the end of its source, if that would make it kill. */
  predicate NeverAtSourceEnd(s: State, actions: seq<Action>)
    decreases |actions|
  {
    !AtSourceEnd(s) && (actions != [] ==> NeverAtSourceEnd(Step(s, actions[0]), actions[1..]))
  }

  /** Two states that differ only in what the stdin loop read and sent. */
  predicate Alike(s: State, t: State) {
    && t == s.(req := s.req.(sent := t.req.sent, stdin := t.req.stdin, read := t.req.read))
    && !InKill(s.req.stdin) && !InKill(t.req.stdin)
  }

  lemma {:induction false} StdinTurnIsPrivate(s: State, t: State, env: StdinEnv)
    requires Alike(s, t) && !AtSourceEnd(s)
    ensures Alike(StdinStep(s, env), t)
  {
  }

  lemma {:induction false} DeliveryIgnoresRequests(s: State, req: Requests, env: Env)
    requires s.recv.Writing? || s.recv.WritingCombined? || s.recv.Capturing? || s.recv.Publishing?
    ensures ReceiverStep(s.(req := req), env) == ReceiverStep(s, env).(req := req)
  {
    var t := s.(req := req);
    if s.recv.Publishing? {
      assert HasRoom(t) == HasRoom(s) && Rendezvous(t) == Rendezvous(s);
    }
  }

  lemma {:induction false} ReceiverIgnoresRequests(s: State, req: Requests, env: Env)
    ensures ReceiverStep(s.(req := req), env) == ReceiverStep(s, env).(req := req)
  {
    if s.recv.Writing? || s.recv.WritingCombined? || s.recv.Capturing? || s.recv.Publishing? {
      DeliveryIgnoresRequests(s, req, env);
    } else if s.recv.Receiving? {
      ReceivingIgnoresRequests(s, req, env);
    } else if Classifying(s.recv) {
      ClassifyingIgnoresRequests(s, req, env);
    } else {
      EndingIgnoresRequests(s, req, env);
    }
  }

  lemma {:induction false} ReceivingIgnoresRequests(s: State, req: Requests, env: Env)
    requires s.recv.Receiving?
    ensures ReceiverStep(s.(req := req), env) == ReceiverStep(s, env).(req := req)
  {
  }

  predicate Classifying(r: Receiver) {
    r.CheckingExited? || r.CheckingKilled? || r.CheckingCtx? || r.Normalizing?
  }

  lemma {:induction false} ClassifyingIgnoresRequests(s: State, req: Requests, env: Env)
    requires Classifying(s.recv)
    ensures ReceiverStep(s.(req := req), env) == ReceiverStep(s, env).(req := req)
  {
  }

  lemma {:induction false} EndingIgnoresRequests(s: State, req: Requests, env: Env)
    requires !s.recv.Writing? && !s.recv.WritingCombined? && !s.recv.Capturing? && !s.recv.Publishing?
    requires !s.recv.Receiving? && !Classifying(s.recv)
    ensures ReceiverStep(s.(req := req), env) == ReceiverStep(s, env).(req := req)
  {
  }

  lemma {:induction false} WaiterIgnoresRequests(s: State, req: Requests, i: nat)
    ensures WaiterStep(s.(req := req), i) == WaiterStep(s, i).(req := req)
  {
    assert OutcomeOf(s.(req := req)) == OutcomeOf(s);
  }

  lemma {:induction false} OthersStayAlike(s: State, t: State, a: Action)
    requires Alike(s, t) && !a.StdinTurn?
    ensures Alike(Step(s, a), Step(t, a))
  {
    if a.ReceiverTurn? {
      ReceiverIgnoresRequests(s, t.req, a.env);
      assert ReceiverStep(s, a.env).req == s.req && ReceiverStep(s, a.env).cfg == s.cfg;
    } else if a.WaiterTurn? {
      WaiterIgnoresRequests(s, t.req, a.waiter);
      assert WaiterStep(s, a.waiter).req == s.req && WaiterStep(s, a.waiter).cfg == s.cfg;
    } else {
      CallersStayAlike(s, t, a);
    }
  }

  lemma {:induction false} CallersStayAlike(s: State, t: State, a: Action)
    requires Alike(s, t) && !a.StdinTurn? && !a.ReceiverTurn? && !a.WaiterTurn?
    ensures Alike(Step(s, a), Step(t, a))
  {
    assert t.cfg == s.cfg && t.record == s.record && t.out == s.out && t.done == s.done && t.ctx == s.ctx;
  }

  lemma {:induction false} RunsStayAlike(s: State, t: State, actions: seq<Action>)
    requires Alike(s, t) && NeverAtSourceEnd(s, actions)
    ensures Alike(Run(s, actions), Run(t, WithoutStdin(actions)))
    decreases |actions|
  {
    if actions != [] {
      var a := actions[0];
      var u := Step(s, a);
      if a.StdinTurn? {
        StdinTurnIsPrivate(s, t, a.stdinEnv);
        RunsStayAlike(u, t, actions[1..]);
        assert WithoutStdin(actions) == [] + WithoutStdin(actions[1..]) == WithoutStdin(actions[1..]);
      } else {
        OthersStayAlike(s, t, a);
        RunsStayAlike(u, Step(t, a), actions[1..]);
        assert WithoutStdin(actions)[1..] == WithoutStdin(actions[1..]);
      }
    }
  }

  /** What a caller can see of two sessions is the same. */
  predicate LookTheSame(s: State, t: State) {
    s.done == t.done && OutcomeOf(s) == OutcomeOf(t) && s.waiters == t.waiters && Published(s) == Published(t)
  }

  /**
   As long as the stdin loop is not told of the end of its source with
   terminate-on-EOF on, no read, failed or not, and no send of it shows in the
   result: striking out all its turns leaves every outcome as it is.
   */
  lemma {:induction false} StdinNeverShowsInTheOutcome(cfg: Config, actions: seq<Action>)
    requires NeverAtSourceEnd(Init(cfg), actions)
    ensures LookTheSame(Run(Init(cfg), actions), Run(Init(cfg), WithoutStdin(actions)))
  {
    RunsStayAlike(Init(cfg), Init(cfg), actions);
  }

  /** No read of the run reports the end of the source. */
  predicate NoEofRead(actions: seq<Action>) {
    forall a :: a in actions && a.StdinTurn? && a.stdinEnv.ReadReturns? ==> !a.stdinEnv.end.AtEof?
  }

  /** Two conditions on the session and on the run, each of which rules that out. */
  lemma {:induction false} NeverAtSourceEndWhen(s: State, actions: seq<Action>)
    requires !s.cfg.terminateOnEof || (NoEofRead(actions) && !EndOf(s.req.stdin).AtEof?)
    ensures NeverAtSourceEnd(s, actions)
    decreases |actions|
  {
    if actions != [] {
      var a := actions[0];
      assert a in actions;
      EndComesFromARead(s, a);
      assert forall b :: b in actions[1..] ==> b in actions;
      NeverAtSourceEndWhen(Step(s, a), actions[1..]);
    }
  }

  lemma {:induction false} EndComesFromARead(s: State, a: Action)
    ensures Step(s, a).cfg == s.cfg
    ensures EndOf(Step(s, a).req.stdin).AtEof? ==>
              EndOf(s.req.stdin).AtEof? || (a.StdinTurn? && a.stdinEnv.ReadReturns? && a.stdinEnv.end.AtEof?)
  {
    StepKeepsCfg(s, a);
    if !a.StdinTurn? {
      OthersKeepStdin(s, a);
    }
  }

  lemma {:induction false} OthersKeepStdin(s: State, a: Action)
    requires !a.StdinTurn?
    ensures Step(s, a).req.stdin == s.req.stdin
  {
    if a.ReceiverTurn? {
      ReceiverIgnoresRequests(s, s.req, a.env);
      assert s.(req := s.req) == s;
    }
  }

  /** The stdin loop will not read again. */
  predicate PastReading(p: Stdin) {
    EndOf(p) != More || InKill(p) || p.Stopped?
  }

  /** How the source ended does not change any more, and only that of a failed read is a failure. */
  lemma {:induction false} EndIsFinal(s: State, a: Action)
    requires PastReading(s.req.stdin)
    ensures var p := Step(s, a).req.stdin; PastReading(p) && (EndOf(p) == EndOf(s.req.stdin) || EndOf(p) == More)
  {
    if !a.StdinTurn? {
      OthersKeepStdin(s, a);
    }
  }

  lemma {:induction false} NoFailureLater(s: State, actions: seq<Action>)
    requires PastReading(s.req.stdin) && !EndOf(s.req.stdin).ReadFailed?
    ensures !EndOf(Run(s, actions).req.stdin).ReadFailed?
    decreases |actions|
  {
    if actions != [] {
      EndIsFinal(s, actions[0]);
      NoFailureLater(Step(s, actions[0]), actions[1..]);
    }
  }

  lemma {:induction false} NoEofLater(s: State, actions: seq<Action>)
    requires PastReading(s.req.stdin) && !EndOf(s.req.stdin).AtEof?
    ensures NeverAtSourceEnd(s, actions)
    decreases |actions|
  {
    if actions != [] {
      EndIsFinal(s, actions[0]);
      NoEofLater(Step(s, actions[0]), actions[1..]);
    }
  }

  /** A loop that reports a failed read was never told of the end of its source, and never will be. */
  lemma {:induction false} FailureExcludesEof(s: State, before: seq<Action>, after: seq<Action>)
    requires EndOf(Run(s, before).req.stdin).ReadFailed?
    ensures NeverAtSourceEnd(s, before + after)
    decreases |before|
  {
    if before == [] {
      assert before + after == after;
      NoEofLater(s, after);
    } else {
      if AtSourceEnd(s) {
        NoFailureLater(s, before);
      } else {
        assert (before + after)[1..] == before[1..] + after;
        FailureExcludesEof(Step(s, before[0]), before[1..], after);
      }
    }
  }

  /**
   In every session, whatever its options, and every run of it in which a read of
   the source fails, the result is what it would be without a stdin loop at all.
   */
  lemma {:induction false} FailedReadIsNeverReported(cfg: Config, before: seq<Action>, after: seq<Action>)
    requires EndOf(Run(Init(cfg), before).req.stdin).ReadFailed?
    ensures LookTheSame(Run(Init(cfg), before + after), Run(Init(cfg), WithoutStdin(before + after)))
  {
    FailureExcludesEof(Init(cfg), before, after);
    StdinNeverShowsInTheOutcome(cfg, before + after);
  }
}
