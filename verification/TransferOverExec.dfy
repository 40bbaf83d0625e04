/**
 An upload and the read of the same file, each over a run of the exec protocol: the
 stdin loop of the one delivers the encoded text, the writer of the other collects it.
 */
module TransferOverExec {
  import opened Prelude
  import opened Base64
  import opened Transfer
  import E = ExecProtocol
  import ExecRequests
  import ExecWriters
  import ExecSafety
  import Shell

  /** What Workspace.Exec returns from a finished session. */
  function Returns(s: E.State): Outcome {
    match E.OutcomeOf(s)
    case Failed(_) => Transfer.Failed
    case Finished(code, _, _) => Exited(code)
  }

  /** The bytes that a session has sent to its command. */
  function Sent(s: E.State): seq<Byte> {
    ExecRequests.Written(s.req.sent)
  }

  /** The standard output that a session has received from its command. */
  function Received(s: E.State): seq<Byte> {
    ExecSafety.Bytes(s.received, Some(E.Stdout))
  }

  /** A finished plain Exec fed from the pipe, and what its command did with it. */
  ghost predicate UploadRun(cfg: E.Config, s: E.State, pipe: seq<Byte>, command: string, before: Remote, after: Remote) {
    && !cfg.streaming && cfg.source == Some(pipe) && s.done
    && (Returns(s).Exited? ==> RemoteRun(ScriptOf(command), Sent(s), before, Returns(s).code, Received(s), after))
  }

  /** A finished plain Exec with a writer for its output, and what its command wrote. */
  ghost predicate ReadRun(cfg: E.Config, actions: seq<E.Action>, s: E.State, remotePath: string, before: Remote,
                          after: Remote) {
    && !cfg.streaming && cfg.hasStdout && s.done
    && ExecWriters.WriterKeepsRule(E.Init(cfg), actions, Some(E.Stdout))
    && (Returns(s).Exited? ==>
          RemoteRun(ScriptOf(Shell.DownloadCommand(remotePath)), [], before, Returns(s).code, Received(s), after))
  }

  lemma {:induction false} SentIsPrefix(cfg: E.Config, actions: seq<E.Action>, pipe: seq<Byte>)
    requires !cfg.streaming && cfg.source == Some(pipe)
    ensures Sent(E.Run(E.Init(cfg), actions)) <= pipe
  {
    ExecRequests.PlainExecSends(cfg, actions);
  }

  lemma {:induction false} CollectedIsReceived(cfg: E.Config, actions: seq<E.Action>)
    requires cfg.hasStdout && ExecWriters.WriterKeepsRule(E.Init(cfg), actions, Some(E.Stdout))
    ensures var s := E.Run(E.Init(cfg), actions);
            s.done && Returns(s).Exited? ==> s.sinks.stdout.taken == Received(s)
  {
    ExecWriters.WritersGetEverythingIff(cfg, actions, Some(E.Stdout));
  }

  /** What ReadFile makes of a text that decodes to the content. */
  lemma {:induction false} ReadsContent(remotePath: string, limit: Option<int>, text: seq<Byte>, content: seq<Byte>)
    requires remotePath != "" && CapOf(limit).Some? && Decode(text) == Some(content)
    ensures ReadResult(remotePath, limit, Exited(0), text)
         == if |content| <= CapOf(limit).value then Ok(content) else Err(CopyFailed)
  {
  }

  lemma {:induction false} FlattenOne<T>(s: seq<T>)
    ensures Flatten([s]) == s
  {
    assert [s][1..] == [];
    assert Flatten([s]) == s + Flatten<T>([]);
  }

  /**
   Whatever the other threads do in either session, however the source and the
   outputs are cut and the text is wrapped: after an upload that returned no error,
   a ReadFile whose command exits with zero returns exactly the uploaded bytes if
   they are within the cap, and an error without data if they are not.
   */
  lemma {:induction false} UploadThenReadFile(remotePath: string, dir: string, size: int, maxInt: nat,
                                              input: seq<seq<Byte>>, complete: bool,
                                              upCfg: E.Config, up: seq<E.Action>,
                                              r: Result<Done, Error>, command: string, pipe: seq<Byte>,
                                              downCfg: E.Config, down: seq<E.Action>, limit: Option<int>,
                                              before: Remote, between: Remote, after: Remote)
    requires Shell.NUL !in remotePath && Shell.NUL !in dir && Accepted(remotePath, size, maxInt)
    requires var s := E.Run(E.Init(upCfg), up);
             Uploaded(remotePath, dir, size, input, complete, Returns(s), r, command, pipe)
             && UploadRun(upCfg, s, pipe, command, before, between)
    requires r.Ok?
    requires var t := E.Run(E.Init(downCfg), down);
             ReadRun(downCfg, down, t, remotePath, between, after) && Returns(t) == Exited(0)
    requires CapOf(limit).Some?
    ensures |Flatten(input)| >= size
    ensures var t := E.Run(E.Init(downCfg), down);
            ReadResult(remotePath, limit, Returns(t), t.sinks.stdout.taken) ==
              if size <= CapOf(limit).value then Ok(Flatten(input)[..size]) else Err(CopyFailed)
  {
    var s, t := E.Run(E.Init(upCfg), up), E.Run(E.Init(downCfg), down);
    SentIsPrefix(upCfg, up, pipe);
    CollectedIsReceived(downCfg, down);
    FlattenOne(Received(t));
    UploadThenDownload(remotePath, dir, size, input, complete, Returns(s), r, command, pipe, Sent(s), before,
                       Received(s), between, [Received(t)], after);
    ReadsContent(remotePath, limit, t.sinks.stdout.taken, Flatten(input)[..size]);
  }
}
