/**
 The file transfers of cordium-go/files.go. What the rest of the world does comes
 in as arguments: the reads of the source, the outcome of the exec, the chunks of
 its output. RemoteRun says what is assumed of the shell, head and base64 inside
 of the Workspace.
 */
module Transfer {
  import opened Prelude
  import opened Base64
  import Shell

  datatype Error = InvalidArgument | ExecFailed | ShortSource(held: nat) | CommandFailed(code: int) | CopyFailed | LocalFile

  /** How Workspace.Exec came back: with an error, or with an exit code. */
  datatype Outcome = Failed | Exited(code: int)

  datatype Done = Done

  // ---- The command lines -------------------------------------------------

  /** What the remote shell is asked to do. */
  datatype Script = Write(count: nat, path: string, dir: Option<string>) | Read(path: string)

  predicate IsWrite(ts: seq<Shell.Token>) {
    && |ts| == 8 && ts[0] == Shell.Word("head") && ts[1] == Shell.Word("-c") && ts[2].Word? && IsDigits(ts[2].text)
    && ts[3] == Shell.Operator("|") && ts[4] == Shell.Word("base64") && ts[5] == Shell.Word("-d")
    && ts[6] == Shell.Operator(">") && ts[7].Word?
  }

  predicate IsRead(ts: seq<Shell.Token>) {
    |ts| == 3 && ts[0] == Shell.Word("base64") && ts[1] == Shell.Operator("<") && ts[2].Word?
  }

  predicate IsMkdir(ts: seq<Shell.Token>) {
    |ts| == 4 && ts[0] == Shell.Word("mkdir") && ts[1] == Shell.Word("-p") && ts[2].Word? && ts[3] == Shell.Operator("&&")
  }

  /** The script that a command line is, once the shell has split it into words. */
  function ScriptOf(command: string): Option<Script> {
    match Shell.Lex(command)
    case None => None
    case Some(ts) =>
      if IsRead(ts) then Some(Read(ts[2].text))
      else if IsWrite(ts) then Some(Write(Number(ts[2].text), ts[7].text, None))
      else if |ts| == 12 && IsMkdir(ts[..4]) && IsWrite(ts[4..]) then
        Some(Write(Number(ts[4..][2].text), ts[4..][7].text, Some(ts[..4][2].text)))
      else None
  }

  /** The parent directory that upload creates first; dir is path.Dir of the remote path. */
  function Parent(dir: string): Option<string> {
    if dir != "." && dir != "/" && dir != "" then Some(dir) else None
  }

  function WriteCommand(count: nat, path: string, dir: string): string {
    Shell.UploadCommand(Decimal(count), path, Parent(dir))
  }

  /**
   Whatever the paths hold, the shell reads the announced count and exactly these
   paths, and it creates the directory first unless that is the working directory
   or the root.
   */
  lemma {:induction false} WriteCommandIsScript(count: nat, path: string, dir: string)
    requires Shell.NUL !in path && Shell.NUL !in dir
    ensures ScriptOf(WriteCommand(count, path, dir))
         == Some(Write(count, path, if dir == "." || dir == "/" || dir == "" then None else Some(dir)))
  {
    var d, parent := Decimal(count), Parent(dir);
    Shell.PlainIsBare(d);
    Shell.UploadCommandReads(d, path, parent);
    DecimalReads(count);
    var ts := Shell.UploadTokens(d, path, parent);
    if parent.Some? {
      assert ts[..4] == [Shell.Word("mkdir"), Shell.Word("-p"), Shell.Word(dir), Shell.Operator("&&")];
      assert ts[4..] == Shell.WriteTokens(d, path);
    }
  }

  lemma {:induction false} ReadCommandIsScript(path: string)
    requires Shell.NUL !in path
    ensures ScriptOf(Shell.DownloadCommand(path)) == Some(Read(path))
  {
    Shell.DownloadCommandReads(path);
  }

  // ---- The remote side ---------------------------------------------------

  type Files = map<string, seq<Byte>>

  /** The Workspace's files and directories; dirOf names the directory that a path is in. */
  datatype Remote = Remote(files: Files, dirs: set<string>, dirOf: string -> string)

  /** The directory is there: the working directory and the root always are. */
  predicate Present(dirs: set<string>, dir: string) {
    dir in dirs || dir == "." || dir == "/"
  }

  function Made(dirs: set<string>, dir: Option<string>): set<string> {
    dirs + (if dir.Some? then {dir.value} else {})
  }

  /**
   What a finished remote run is assumed to have done when it exits with zero.
   stdin is what the command was sent before it exited; that input never ends, so
   head only finishes once it has its count. The shell can only write into a
   directory that is there, base64 -d succeeds on well-formed text only, and
   base64 writes the encoding of the file, wrapped into lines.
   */
  ghost predicate RemoteRun(script: Option<Script>, stdin: seq<Byte>, before: Remote, code: int, stdout: seq<Byte>,
                            after: Remote) {
    code == 0 ==>
      match script
      case None => false
      case Some(Write(count, path, dir)) =>
        && Present(Made(before.dirs, dir), before.dirOf(path)) && Made(before.dirs, dir) <= after.dirs
        && |stdin| >= count && Decode(stdin[..count]).Some?
        && after == before.(dirs := after.dirs, files := before.files[path := Decode(stdin[..count]).value])
      case Some(Read(path)) =>
        path in before.files && Unwrapped(stdout) == Encode(before.files[path]) && after == before
  }

  // ---- Upload ------------------------------------------------------------

  /**
   The goroutine that feeds the exec's stdin. The reads of the source go through
   a limit of size bytes into the encoder; complete says that the copy reached its
   end, rather than being cut off by an error of the source or by the exec's end.
   */
  method CopyEncoded(input: seq<seq<Byte>>, size: nat, complete: bool) returns (copied: nat, pipe: seq<Byte>)
    ensures copied == |Prefix(Flatten(input), size)|
    ensures pipe == if complete then Encode(Prefix(Flatten(input), size)) else Groups(Prefix(Flatten(input), size))
  {
    var encoder := new Encoder();
    copied := 0;
    for i := 0 to |input|
      invariant encoder.Valid() && encoder.written == Prefix(Flatten(input[..i]), size) && copied == |encoder.written|
    {
      assert input[..i + 1] == input[..i] + [input[i]];
      FlattenSnoc(input[..i], input[i]);
      var chunk := Prefix(input[i], size - copied);
      PrefixSnoc(Flatten(input[..i]), input[i], size);
      encoder.Write(chunk);
      copied := copied + |chunk|;
    }
    assert input[..|input|] == input;
    if complete {
      encoder.Close();
    }
    pipe := encoder.sink;
  }

  lemma {:induction false} PrefixSnoc<T>(a: seq<T>, b: seq<T>, n: nat)
    ensures |Prefix(a, n)| <= n
    ensures Prefix(a + b, n) == Prefix(a, n) + Prefix(b, n - |Prefix(a, n)|)
  {
  }

  /** The sizes and paths that an upload takes: any file, an empty one too, up to half of maxInt. */
  predicate Accepted(remotePath: string, size: int, maxInt: nat) {
    remotePath != "" && 0 <= size && size <= maxInt / 2
  }

  /** What an upload that is not refused asks of the exec, and how it ends. */
  ghost predicate Uploaded(remotePath: string, dir: string, size: nat, input: seq<seq<Byte>>, complete: bool,
                           outcome: Outcome, r: Result<Done, Error>, command: string, pipe: seq<Byte>) {
    var content := Prefix(Flatten(input), size);
    && command == WriteCommand(EncodedLen(size), remotePath, dir)
    && pipe == (if complete then Encode(content) else Groups(content))
    && r == (if outcome.Failed? then Err(ExecFailed)
             else if |content| != size then Err(ShortSource(|content|))
             else if outcome.code != 0 then Err(CommandFailed(outcome.code))
             else Ok(Done))
  }

  method Upload(remotePath: string, dir: string, size: int, maxInt: nat,
                input: seq<seq<Byte>>, complete: bool, outcome: Outcome)
    returns (r: Result<Done, Error>, command: string, pipe: seq<Byte>)
    requires maxInt >= 7
    ensures remotePath == "" || size < 0 || size > maxInt / 2 ==> r == Err(InvalidArgument) && command == "" && pipe == []
    ensures remotePath != "" && 0 <= size <= maxInt / 2 ==>
      EncodedLen(size) <= maxInt && Uploaded(remotePath, dir, size, input, complete, outcome, r, command, pipe)
    ensures remotePath != "" && 0 <= size <= maxInt / 2 && outcome == Exited(0) ==>
      if |Flatten(input)| >= size then r == Ok(Done) else r == Err(ShortSource(|Flatten(input)|))
  {
    command, pipe := "", [];
    if remotePath == "" {
      return Err(InvalidArgument), command, pipe;
    }
    if size < 0 {
      return Err(InvalidArgument), command, pipe;
    }
    if size > maxInt / 2 {
      return Err(InvalidArgument), command, pipe;
    }
    EncodedLenFits(size, maxInt);
    var encodedLen := EncodedLen(size);
    command := WriteCommand(encodedLen, remotePath, dir);
    var copied;
    copied, pipe := CopyEncoded(input, size, complete);
    if outcome.Failed? {
      r := Err(ExecFailed);
    } else if copied != size {
      r := Err(ShortSource(copied));
    } else if outcome.code != 0 {
      r := Err(CommandFailed(outcome.code));
    } else {
      r := Ok(Done);
    }
  }

  lemma {:induction false} PipeLength(content: seq<Byte>, complete: bool)
    ensures var pipe := if complete then Encode(content) else Groups(content);
            pipe <= Encode(content) && |Encode(content)| == EncodedLen(|content|)
  {
    EncodeLength(content);
  }

  /** A write of the announced count, fed from the pipe, writes the whole content. */
  lemma {:induction false} WriteIsExact(size: nat, content: seq<Byte>, complete: bool, path: string,
                                        dir: Option<string>,
                     sent: seq<Byte>, before: Remote, stdout: seq<Byte>, after: Remote)
    requires |content| == size && sent <= (if complete then Encode(content) else Groups(content))
    requires RemoteRun(Some(Write(EncodedLen(size), path, dir)), sent, before, 0, stdout, after)
    ensures after.files == before.files[path := content]
  {
    PipeLength(content, complete);
    assert sent[..EncodedLen(size)] == Encode(content);
    DecodePlain(content);
  }

  /**
   An upload that returns no error has put exactly the first size bytes of the
   source into the remote file, and touched no other. sent is the part of the
   pipe that reached the command.
   */
  lemma {:induction false} UploadIsExact(remotePath: string, dir: string, size: nat, input: seq<seq<Byte>>,
                                         complete: bool, outcome: Outcome,
                      r: Result<Done, Error>, command: string, pipe: seq<Byte>,
                      sent: seq<Byte>, before: Remote, stdout: seq<Byte>, after: Remote)
    requires Shell.NUL !in remotePath && Shell.NUL !in dir
    requires Uploaded(remotePath, dir, size, input, complete, outcome, r, command, pipe)
    requires sent <= pipe
    requires outcome.Exited? ==> RemoteRun(ScriptOf(command), sent, before, outcome.code, stdout, after)
    requires r.Ok?
    ensures |Flatten(input)| >= size
    ensures after.files == before.files[remotePath := Flatten(input)[..size]]
  {
    var content := Prefix(Flatten(input), size);
    WriteCommandIsScript(EncodedLen(size), remotePath, dir);
    assert content == Flatten(input)[..size];
    WriteIsExact(size, content, complete, remotePath, Parent(dir), sent, before, stdout, after);
  }

  /**
   The count in the command alone does not tell a short source from a full one:
   a one-byte source satisfies a head that waits for three bytes' worth, so the
   comparison of the copied bytes is what catches it.
   */
  lemma {:induction false} ShortSourceFillsTheCount(b: Byte)
    ensures |Encode([b])| == EncodedLen(3) && Decode(Encode([b])[..EncodedLen(3)]) == Some([b])
  {
    EncodeLength([b]);
    DecodePlain([b]);
    assert Encode([b])[..EncodedLen(3)] == Encode([b]);
  }

  /** Some part of the pipe lets the script exit with zero. */
  ghost predicate MayExitZero(script: Option<Script>, pipe: seq<Byte>, before: Remote) {
    exists sent, stdout, after :: sent <= pipe && RemoteRun(script, sent, before, 0, stdout, after)
  }

  /** The Workspace after an upload of the content. */
  function Wrote(before: Remote, path: string, dir: string, content: seq<Byte>): Remote {
    before.(dirs := before.dirs + {dir}, files := before.files[path := content])
  }

  /**
   The command of an upload can always exit with zero once it gets the whole text:
   no directory has to be there before, since the one of the path is created.
   */
  lemma {:induction false} UploadCreatesItsDirectory(remotePath: string, dir: string, content: seq<Byte>, before: Remote)
    requires Shell.NUL !in remotePath && Shell.NUL !in dir && dir == before.dirOf(remotePath) && dir != ""
    ensures MayExitZero(ScriptOf(WriteCommand(EncodedLen(|content|), remotePath, dir)), Encode(content), before)
  {
    var script := ScriptOf(WriteCommand(EncodedLen(|content|), remotePath, dir));
    var pipe := Encode(content);
    WriteCommandIsScript(EncodedLen(|content|), remotePath, dir);
    EncodeLength(content);
    DecodePlain(content);
    assert pipe[..EncodedLen(|content|)] == pipe;
    assert RemoteRun(script, pipe, before, 0, [], Wrote(before, remotePath, dir, content));
  }

  /** Without that part of the command it could not, wherever the directory is missing. */
  lemma {:induction false} MissingDirectoryFails(path: string, count: nat, pipe: seq<Byte>, before: Remote)
    requires !Present(before.dirs, before.dirOf(path))
    ensures !MayExitZero(Some(Write(count, path, None)), pipe, before)
  {
    assert Made(before.dirs, None) == before.dirs;
  }

  /**
   Behind a source that is too short the command can exit with zero, so that the
   comparison of the copied bytes is what fails the upload, exactly if the whole
   text was written and it has as many quads as a full source would have. If a
   quad is missing, head waits for it and only the context ends the upload.
   */
  lemma {:induction false} ShortSourceMayExitZeroIff(remotePath: string, dir: string, size: nat, content: seq<Byte>,
                                                     complete: bool, before: Remote)
    requires Shell.NUL !in remotePath && Shell.NUL !in dir && dir == before.dirOf(remotePath) && dir != ""
    requires |content| < size
    ensures MayExitZero(ScriptOf(WriteCommand(EncodedLen(size), remotePath, dir)),
                        if complete then Encode(content) else Groups(content), before)
       <==> complete && (|content| + 2) / 3 == (size + 2) / 3
  {
    var script := ScriptOf(WriteCommand(EncodedLen(size), remotePath, dir));
    var pipe := if complete then Encode(content) else Groups(content);
    WriteCommandIsScript(EncodedLen(size), remotePath, dir);
    EncodeLength(content);
    GroupsLength(content);
    if complete && (|content| + 2) / 3 == (size + 2) / 3 {
      DecodePlain(content);
      assert pipe[..EncodedLen(size)] == pipe;
      assert RemoteRun(script, pipe, before, 0, [], Wrote(before, remotePath, dir, content));
    }
  }

  // ---- Download ----------------------------------------------------------

  /** A writer that fails once more than remaining bytes are written to it. */
  class LimitedWriter {
    var w: seq<Byte>
    var remaining: nat

    constructor (limit: nat)
      ensures w == [] && remaining == limit
    {
      w, remaining := [], limit;
    }

    method Write(p: seq<Byte>) returns (n: nat, ok: bool)
      modifies this
      ensures ok <==> |p| <= old(remaining)
      ensures ok ==> n == |p| && w == old(w) + p && remaining == old(remaining) - |p|
      ensures !ok ==> n == 0 && w == old(w) && remaining == old(remaining)
    {
      if |p| > remaining {
        return 0, false;
      }
      w := w + p;
      remaining := remaining - |p|;
      return |p|, true;
    }
  }

  /** The pieces in which the decoder hands on a content: any cut will do. */
  ghost predicate Cuts(pieces: seq<seq<Byte>>, content: seq<Byte>) {
    Flatten(pieces) == content
  }

  lemma {:induction false} FlattenFront<T>(parts: seq<seq<T>>, i: nat)
    requires i <= |parts|
    ensures Flatten(parts) == Flatten(parts[..i]) + Flatten(parts[i..])
  {
    assert parts == parts[..i] + parts[i..];
    FlattenAppend(parts[..i], parts[i..]);
  }

  /**
   The copy from the decoder into a capped buffer. The buffer never exceeds its
   cap, and the copy fails exactly if the text is malformed or the content is
   larger than the cap, however the content is cut.
   */
  method CopyDecoded(pieces: seq<seq<Byte>>, wellFormed: bool, dst: LimitedWriter) returns (ok: bool)
    requires dst.w == []
    modifies dst
    ensures ok <==> wellFormed && |Flatten(pieces)| <= old(dst.remaining)
    ensures |dst.w| + dst.remaining == old(dst.remaining)
    ensures dst.w <= Flatten(pieces)
    ensures ok ==> dst.w == Flatten(pieces)
  {
    for i := 0 to |pieces|
      invariant |dst.w| + dst.remaining == old(dst.remaining) && dst.w == Flatten(pieces[..i])
    {
      FlattenFront(pieces, i);
      FlattenFront(pieces, i + 1);
      assert pieces[..i + 1] == pieces[..i] + [pieces[i]];
      FlattenSnoc(pieces[..i], pieces[i]);
      var _, written := dst.Write(pieces[i]);
      if !written {
        return false;
      }
    }
    assert pieces[..|pieces|] == pieces;
    ok := wellFormed;
  }

  /** The order in which download reports what went wrong. */
  function DownloadResult(outcome: Outcome, copied: bool): Result<Done, Error> {
    if outcome.Failed? then Err(ExecFailed)
    else if outcome.code != 0 then Err(CommandFailed(outcome.code))
    else if !copied then Err(CopyFailed)
    else Ok(Done)
  }

  const DEFAULT_MAX_READ_FILE: nat := 64 * 1024 * 1024

  /** The text is well formed and its content no larger than room. */
  predicate Fits(text: seq<Byte>, room: nat) {
    Decode(text).Some? && |Decode(text).value| <= room
  }

  /** The cap on a file's size, if the argument of WithMaxCaptureBytes is accepted. */
  function CapOf(limit: Option<int>): Option<nat> {
    match limit
    case None => Some(DEFAULT_MAX_READ_FILE)
    case Some(n) => if n < 0 then None else Some(n)
  }

  /** All of the content, or an error and nothing. */
  function ReadResult(remotePath: string, limit: Option<int>, outcome: Outcome, text: seq<Byte>)
    : Result<seq<Byte>, Error>
  {
    if CapOf(limit).None? || remotePath == "" then Err(InvalidArgument)
    else if outcome.Failed? then Err(ExecFailed)
    else if outcome.code != 0 then Err(CommandFailed(outcome.code))
    else if Fits(text, CapOf(limit).value) then Ok(Decode(text).value)
    else Err(CopyFailed)
  }

  /**
   ReadFile; limit is the argument of WithMaxCaptureBytes, if it is given. text
   is what the command wrote to its standard output, and pieces is the way the
   decoder hands on what it made of it.
   */
  method ReadFile(remotePath: string, limit: Option<int>, outcome: Outcome, text: seq<Byte>, pieces: seq<seq<Byte>>)
    returns (r: Result<seq<Byte>, Error>)
    requires Decode(text).Some? ==> Cuts(pieces, Decode(text).value)
    ensures r == ReadResult(remotePath, limit, outcome, text)
    ensures r.Ok? ==> |r.value| <= if limit.Some? then limit.value else 64 * 1024 * 1024
    ensures remotePath != "" && limit.None? && outcome == Exited(0) && Fits(text, 64 * 1024 * 1024) ==>
      r == Ok(Decode(text).value)
  {
    if limit.Some? && limit.value < 0 {
      return Err(InvalidArgument);
    }
    var cap: nat := if limit.Some? then limit.value else DEFAULT_MAX_READ_FILE;
    var buf := new LimitedWriter(cap);
    if remotePath == "" {
      return Err(InvalidArgument);
    }
    var copied := CopyDecoded(pieces, Decode(text).Some?, buf);
    var d := DownloadResult(outcome, copied);
    r := if d.Err? then Err(d.error) else Ok(buf.w);
  }

  /** What is read back is what was uploaded, for every split and every wrapping on the way. */
  lemma {:induction false} UploadThenDownload(remotePath: string, dir: string, size: nat, input: seq<seq<Byte>>,
                                              complete: bool,
                           outcome: Outcome, r: Result<Done, Error>, command: string, pipe: seq<Byte>,
                           sent: seq<Byte>, before: Remote, stdout: seq<Byte>, after: Remote,
                           chunks: seq<seq<Byte>>, last: Remote)
    requires Shell.NUL !in remotePath && Shell.NUL !in dir
    requires Uploaded(remotePath, dir, size, input, complete, outcome, r, command, pipe) && sent <= pipe
    requires outcome.Exited? ==> RemoteRun(ScriptOf(command), sent, before, outcome.code, stdout, after)
    requires r.Ok?
    requires RemoteRun(ScriptOf(Shell.DownloadCommand(remotePath)), [], after, 0, Flatten(chunks), last)
    ensures |Flatten(input)| >= size && Decode(Flatten(chunks)) == Some(Flatten(input)[..size]) && last == after
  {
    UploadIsExact(remotePath, dir, size, input, complete, outcome, r, command, pipe, sent, before, stdout, after);
    ReadCommandIsScript(remotePath);
    DecodeEncode(Flatten(input)[..size], Flatten(chunks));
  }

  // ---- Download into a local file ----------------------------------------

  /** What the local file system answers. */
  datatype Local = Local(mkdirOk: bool, createOk: bool, removeOk: bool, closeOk: bool)

  class LocalDisk {
    var files: Files

    /**
     text is the command's output and pieces the way its content reaches the file,
     which takes room bytes before its writes fail. held is what the file got.
     */
    method DownloadFile(remotePath: string, localPath: string, outcome: Outcome, text: seq<Byte>,
                        pieces: seq<seq<Byte>>,
                        room: nat, local: Local)
      returns (r: Result<Done, Error>, ghost held: seq<Byte>)
      requires Decode(text).Some? ==> Cuts(pieces, Decode(text).value)
      modifies this
      ensures (r, files) == AfterDownload(remotePath, localPath, outcome, Fits(text, room), held, local, old(files))
      ensures r.Ok? ==> Decode(text) == Some(held)
    {
      held := [];
      if localPath == "" {
        return Err(InvalidArgument), held;
      }
      if !local.mkdirOk {
        return Err(LocalFile), held;
      }
      if !local.createOk {
        return Err(LocalFile), held;
      }
      files := files[localPath := []];
      if remotePath == "" {
        r := Err(InvalidArgument);
      } else {
        var file := new LimitedWriter(room);
        var copied := CopyDecoded(pieces, Decode(text).Some?, file);
        held := file.w;
        files := files[localPath := file.w];
        assert files == old(files)[localPath := held];
        r := DownloadResult(outcome, copied);
      }
      if r.Err? {
        if local.removeOk {
          assert files - {localPath} == old(files) - {localPath};
          files := files - {localPath};
        }
        return r, held;
      }
      r := if local.closeOk then Ok(Done) else Err(LocalFile);
    }
  }

  predicate BeforeCreate(localPath: string, local: Local) {
    localPath == "" || !local.mkdirOk || !local.createOk
  }

  function DownloadError(remotePath: string, outcome: Outcome, copied: bool): Result<Done, Error> {
    if remotePath == "" then Err(InvalidArgument) else DownloadResult(outcome, copied)
  }

  /** The result and the local files, given how each step goes. */
  function AfterDownload(remotePath: string, localPath: string, outcome: Outcome, copied: bool, held: seq<Byte>,
                         local: Local, files: Files): (Result<Done, Error>, Files) {
    if BeforeCreate(localPath, local) then
      (Err(if localPath == "" then InvalidArgument else LocalFile), files)
    else
      var d := DownloadError(remotePath, outcome, copied);
      var content := if remotePath == "" then [] else held;
      if d.Err? then (d, if local.removeOk then files - {localPath} else files[localPath := content])
      else (if local.closeOk then Ok(Done) else Err(LocalFile), files[localPath := content])
  }

  /** A download that returns no error has put the remote file into the local one, and touched no other. */
  lemma {:induction false} DownloadIsExact(remotePath: string, localPath: string, text: seq<Byte>, room: nat,
                                           held: seq<Byte>,
                        local: Local, files: Files, remote: Remote, last: Remote)
    requires Shell.NUL !in remotePath
    requires RemoteRun(ScriptOf(Shell.DownloadCommand(remotePath)), [], remote, 0, text, last)
    requires AfterDownload(remotePath, localPath, Exited(0), Fits(text, room), held, local, files).0.Ok?
    requires Decode(text) == Some(held)
    ensures remotePath in remote.files && last == remote
    ensures AfterDownload(remotePath, localPath, Exited(0), Fits(text, room), held, local, files).1
         == files[localPath := remote.files[remotePath]]
  {
    ReadCommandIsScript(remotePath);
    DecodeEncode(remote.files[remotePath], text);
  }

  /** The remote part fails and the clean-up removes the local file. */
  predicate CleansUp(remotePath: string, outcome: Outcome, copied: bool, local: Local) {
    DownloadError(remotePath, outcome, copied).Err? && local.removeOk
  }

  /**
   A failed download leaves the local files as they were exactly if it fails before
   the local file is created; or if it cleans up and there was no such file; or if
   it does not, and the file that was there happens to hold what was written.
   */
  lemma {:induction false} FailedDownloadKeepsFilesIff(remotePath: string, localPath: string, outcome: Outcome,
                                                       copied: bool,
                                    held: seq<Byte>, local: Local, files: Files)
    ensures var (r, after) := AfterDownload(remotePath, localPath, outcome, copied, held, local, files);
            var content := if remotePath == "" then [] else held;
            r.Err? ==>
              (after == files <==>
                || BeforeCreate(localPath, local)
                || (if CleansUp(remotePath, outcome, copied, local) then localPath !in files
                    else localPath in files && files[localPath] == content))
  {
    var content := if remotePath == "" then [] else held;
    assert localPath !in files - {localPath};
    assert localPath !in files ==> files - {localPath} == files;
    assert localPath in files[localPath := content] && files[localPath := content][localPath] == content;
    assert localPath in files && files[localPath] == content ==> files[localPath := content] == files;
  }

  /** Two downloads of the repository's own test: both lose a local file that is promised to survive. */
  lemma {:induction false} FailedDownloadDestroysTheFile(remotePath: string, outcome: Outcome)
    requires remotePath == "" || (outcome.Exited? && outcome.code != 0)
    ensures var files: Files := map["existing.txt" := [1]];
            AfterDownload(remotePath, "existing.txt", outcome, true, [], Local(true, true, true, true), files).0.Err?
            && AfterDownload(remotePath, "existing.txt", outcome, true, [], Local(true, true, true, true), files).1 == map[]
  {
    var files: Files := map["existing.txt" := [1]];
    assert files - {"existing.txt"} == map[];
  }
}
