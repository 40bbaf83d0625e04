/**
 cordium-go/util.go quotes arguments for the Workspace's shell; the shell reads
 the command line back. The printer follows the source; the reader is the token
 recognition and quote removal of POSIX.1-2017, Shell Command Language, sections
 2.2.1, 2.2.2, 2.2.3, 2.3 and 2.6.7, written as a machine that reads one
 character at a time. Each char stands for one byte.
 */
module Shell {
  import opened Prelude

  // ---- The printer -------------------------------------------------------

  const NUL: char := 0 as char

  /** The characters whose presence makes ShellQuote add quotes. */
  predicate IsSpecial(c: char) {
    || c == '\\' || c == '"' || c == '\'' || c == '`' || c == '$' || c == '&' || c == '|' || c == ';'
    || c == '<' || c == '>' || c == '(' || c == ')' || c == '[' || c == ']' || c == '{' || c == '}'
    || c == '*' || c == '?' || c == '!' || c == '#' || c == '~' || c == '^' || c == '='
    || c == ' ' || c == '\t' || c == '\n' || c == '\r'
  }

  predicate HasSpecial(s: string) {
    exists i :: 0 <= i < |s| && IsSpecial(s[i])
  }

  /** Every single quote becomes: close quote, escaped quote, open quote. */
  function EscapeQuotes(s: string): string {
    if s == "" then ""
    else (if s[0] == '\'' then "'\\''" else [s[0]]) + EscapeQuotes(s[1..])
  }

  function ShellQuote(arg: string): string {
    if arg == "" then "''"
    else if !HasSpecial(arg) then arg
    else "'" + EscapeQuotes(arg) + "'"
  }

  function Join(parts: seq<string>, sep: string): string {
    if parts == [] then ""
    else if |parts| == 1 then parts[0]
    else parts[0] + sep + Join(parts[1..], sep)
  }

  function QuoteAll(args: seq<string>): (r: seq<string>)
    ensures |r| == |args|
    ensures forall i :: 0 <= i < |args| ==> r[i] == ShellQuote(args[i])
  {
    seq(|args|, i requires 0 <= i < |args| => ShellQuote(args[i]))
  }

  function ArgvLine(args: seq<string>): string {
    Join(QuoteAll(args), " ")
  }

  method Argv(args: seq<string>) returns (line: string)
    ensures line == ArgvLine(args)
    ensures (forall a :: a in args ==> NUL !in a) ==> Lex(line) == Some(Words(args))
  {
    var quoted: seq<string> := [];
    for i := 0 to |args|
      invariant quoted == QuoteAll(args)[..i]
    {
      quoted := quoted + [ShellQuote(args[i])];
    }
    assert quoted == QuoteAll(args);
    line := Join(quoted, " ");
    if forall a :: a in args ==> NUL !in a {
      ArgvRoundTrip(args);
    }
  }

  // ---- The reader --------------------------------------------------------

  datatype Token = Word(text: string) | Operator(symbol: string)

  /**
   What the reader is in the middle of. The word modes carry the text read so
   far with its quotes already removed. Broken is a line that is not made of
   literal words and operators alone: an expansion, a pattern, a comment, an
   assignment, a tilde prefix or a NUL.
   */
  datatype Mode =
    | Between
    | InOperator(symbol: string)
    | InWord(text: string)
    | Single(text: string)
    | Double(text: string)
    | Backslash(text: string, started: bool)
    | DoubleBackslash(text: string)
    | Broken

  datatype Reader = Reader(tokens: seq<Token>, mode: Mode)

  const START := Reader([], Between)

  predicate IsBlank(c: char) { c == ' ' || c == '\t' }

  predicate IsOperatorStart(c: char) {
    c == '&' || c == '|' || c == ';' || c == '<' || c == '>' || c == '(' || c == ')' || c == '\n'
  }

  /** Whether c continues the operator read so far into a longer one. */
  predicate Extends(symbol: string, c: char) {
    || (symbol == "&" && c == '&')
    || (symbol == "|" && c == '|')
    || (symbol == ";" && c == ';')
    || (symbol == "<" && (c == '<' || c == '&' || c == '>'))
    || (symbol == ">" && (c == '>' || c == '&' || c == '|'))
    || (symbol == "<<" && c == '-')
  }

  /** Unquoted characters that make a word more than literal text. */
  predicate IsActive(c: char, first: bool) {
    c == '$' || c == '`' || c == '*' || c == '?' || c == '[' || c == '=' || (first && (c == '#' || c == '~'))
  }

  /** A character read where a token may start, rule by rule of section 2.3. */
  function StepBetween(tokens: seq<Token>, c: char): Reader {
    if c == '\'' then Reader(tokens, Single(""))
    else if c == '"' then Reader(tokens, Double(""))
    else if c == '\\' then Reader(tokens, Backslash("", false))
    else if IsActive(c, true) then Reader(tokens, Broken)
    else if IsOperatorStart(c) then Reader(tokens, InOperator([c]))
    else if IsBlank(c) then Reader(tokens, Between)
    else Reader(tokens, InWord([c]))
  }

  /** A command line cannot hold a NUL, whatever the mode. */
  function Step(r: Reader, c: char): Reader {
    if c == NUL then Reader(r.tokens, Broken) else
    match r.mode
    case Broken => r
    case Between => StepBetween(r.tokens, c)
    case InOperator(symbol) =>
      if Extends(symbol, c) then Reader(r.tokens, InOperator(symbol + [c]))
      else StepBetween(r.tokens + [Operator(symbol)], c)
    case InWord(text) =>
      if c == '\'' then Reader(r.tokens, Single(text))
      else if c == '"' then Reader(r.tokens, Double(text))
      else if c == '\\' then Reader(r.tokens, Backslash(text, true))
      else if IsActive(c, false) then Reader(r.tokens, Broken)
      else if IsOperatorStart(c) || IsBlank(c) then StepBetween(r.tokens + [Word(text)], c)
      else Reader(r.tokens, InWord(text + [c]))
    case Single(text) =>
      if c == '\'' then Reader(r.tokens, InWord(text))
      else Reader(r.tokens, Single(text + [c]))
    case Double(text) =>
      if c == '$' || c == '`' then Reader(r.tokens, Broken)
      else if c == '"' then Reader(r.tokens, InWord(text))
      else if c == '\\' then Reader(r.tokens, DoubleBackslash(text))
      else Reader(r.tokens, Double(text + [c]))
    case Backslash(text, started) =>
      if c == '\n' then Reader(r.tokens, if started then InWord(text) else Between)
      else Reader(r.tokens, InWord(text + [c]))
    case DoubleBackslash(text) =>
      if c == '\n' then Reader(r.tokens, Double(text))
      else if c == '$' || c == '`' || c == '"' || c == '\\' then Reader(r.tokens, Double(text + [c]))
      else Reader(r.tokens, Double(text + ['\\', c]))
  }

  function Read(r: Reader, s: string): Reader
    decreases |s|
  {
    if s == "" then r else Read(Step(r, s[0]), s[1..])
  }

  /** The tokens of a whole line, when it is made of literal words and operators. */
  function Lex(line: string): Option<seq<Token>> {
    var r := Read(START, line);
    match r.mode
    case Between => Some(r.tokens)
    case InOperator(symbol) => Some(r.tokens + [Operator(symbol)])
    case InWord(text) => Some(r.tokens + [Word(text)])
    case _ => None
  }

  function Words(args: seq<string>): seq<Token> {
    seq(|args|, i requires 0 <= i < |args| => Word(args[i]))
  }

  // ---- Reading undoes quoting --------------------------------------------

  lemma {:induction false} ReadAppend(r: Reader, a: string, b: string)
    ensures Read(r, a + b) == Read(Read(r, a), b)
    decreases |a|
  {
    if a == "" {
      assert a + b == b;
    } else {
      assert (a + b)[1..] == a[1..] + b;
      ReadAppend(Step(r, a[0]), a[1..], b);
    }
  }

  lemma {:induction false} ReadEscaped(tokens: seq<Token>, text: string, s: string)
    requires NUL !in s
    ensures Read(Reader(tokens, Single(text)), EscapeQuotes(s)) == Reader(tokens, Single(text + s))
    decreases |s|
  {
    if s == "" {
      assert text + s == text;
    } else {
      var head := if s[0] == '\'' then "'\\''" else [s[0]];
      var r := Reader(tokens, Single(text));
      ReadAppend(r, head, EscapeQuotes(s[1..]));
      if s[0] == '\'' {
        assert Step(Step(Step(Step(r, '\''), '\\'), '\''), '\'') == Reader(tokens, Single(text + ['\'']));
        assert head[1..] == "\\''" && head[2..] == "''" && head[3..] == "'";
        assert Read(r, head) == Read(Step(r, '\''), "\\''");
        assert Read(Step(Step(r, '\''), '\\'), "''") == Read(Step(Step(Step(r, '\''), '\\'), '\''), "'");
      }
      assert Read(r, head) == Reader(tokens, Single(text + [s[0]]));
      ReadEscaped(tokens, text + [s[0]], s[1..]);
      assert text + [s[0]] + s[1..] == text + s;
    }
  }

  lemma {:induction false} ReadBare(tokens: seq<Token>, text: string, s: string)
    requires NUL !in s && !HasSpecial(s)
    ensures Read(Reader(tokens, InWord(text)), s) == Reader(tokens, InWord(text + s))
    decreases |s|
  {
    if s == "" {
      assert text + s == text;
    } else {
      assert !IsSpecial(s[0]);
      assert forall i :: 0 <= i < |s[1..]| ==> s[1..][i] == s[i + 1];
      ReadBare(tokens, text + [s[0]], s[1..]);
      assert text + [s[0]] + s[1..] == text + s;
    }
  }

  /** Reading a quoted argument yields one word whose text is the argument. */
  lemma {:induction false} QuoteReadsAsOneWord(tokens: seq<Token>, arg: string)
    requires NUL !in arg
    ensures Read(Reader(tokens, Between), ShellQuote(arg)) == Reader(tokens, InWord(arg))
  {
    var r := Reader(tokens, Between);
    if arg == "" {
      assert "''"[1..] == "'";
      assert Read(r, "''") == Read(Step(r, '\''), "'");
    } else if !HasSpecial(arg) {
      assert !IsSpecial(arg[0]);
      assert forall i :: 0 <= i < |arg[1..]| ==> arg[1..][i] == arg[i + 1];
      ReadBare(tokens, [arg[0]], arg[1..]);
      assert [arg[0]] + arg[1..] == arg;
    } else {
      ReadAppend(r, "'" + EscapeQuotes(arg), "'");
      assert ("'" + EscapeQuotes(arg))[1..] == EscapeQuotes(arg);
      ReadEscaped(tokens, "", arg);
      assert "" + arg == arg;
    }
  }

  /** A command line written as arguments to be quoted and operators. */
  datatype Piece = Arg(text: string) | Sym(symbol: string)

  predicate Writable(p: Piece) {
    match p
    case Arg(text) => NUL !in text
    case Sym(symbol) => symbol in ["<", ">", "|", "&&"]
  }

  function Text(p: Piece): string {
    match p
    case Arg(text) => ShellQuote(text)
    case Sym(symbol) => symbol
  }

  function TokenOf(p: Piece): Token {
    match p
    case Arg(text) => Word(text)
    case Sym(symbol) => Operator(symbol)
  }

  function Texts(ps: seq<Piece>): seq<string> {
    seq(|ps|, i requires 0 <= i < |ps| => Text(ps[i]))
  }

  function TokensOf(ps: seq<Piece>): seq<Token> {
    seq(|ps|, i requires 0 <= i < |ps| => TokenOf(ps[i]))
  }

  function Render(ps: seq<Piece>): string {
    Join(Texts(ps), " ")
  }

  lemma {:induction false} ReadSymbol(tokens: seq<Token>, symbol: string)
    requires Writable(Sym(symbol))
    ensures Read(Reader(tokens, Between), symbol) == Reader(tokens, InOperator(symbol))
  {
    var r := Step(Reader(tokens, Between), symbol[0]);
    assert Read(Reader(tokens, Between), symbol) == Read(r, symbol[1..]);
    if symbol == "&&" {
      assert r == Reader(tokens, InOperator("&"));
      assert symbol[1..] == ['&'];
      assert Read(r, ['&']) == Step(r, '&');
      assert "&" + ['&'] == symbol;
    } else {
      assert symbol[1..] == "" && [symbol[0]] == symbol;
    }
  }

  lemma {:induction false} ReadPiece(tokens: seq<Token>, p: Piece)
    requires Writable(p)
    ensures Read(Reader(tokens, Between), Text(p) + " ") == Reader(tokens + [TokenOf(p)], Between)
  {
    var r := Reader(tokens, Between);
    match p
    case Arg(text) =>
      QuoteReadsAsOneWord(tokens, text);
      ReadAppend(r, ShellQuote(text), " ");
    case Sym(symbol) =>
      ReadSymbol(tokens, symbol);
      ReadAppend(r, symbol, " ");
  }

  lemma {:induction false} ReadPieces(tokens: seq<Token>, ps: seq<Piece>)
    requires ps != []
    requires forall p :: p in ps ==> Writable(p)
    ensures Read(Reader(tokens, Between), Render(ps) + " ") == Reader(tokens + TokensOf(ps), Between)
    decreases |ps|
  {
    ReadPiece(tokens, ps[0]);
    if |ps| == 1 {
      assert TokensOf(ps) == [TokenOf(ps[0])];
    } else {
      var rest := ps[1..];
      assert Texts(ps)[1..] == Texts(rest);
      assert Render(ps) + " " == (Text(ps[0]) + " ") + (Render(rest) + " ");
      ReadAppend(Reader(tokens, Between), Text(ps[0]) + " ", Render(rest) + " ");
      ReadPieces(tokens + [TokenOf(ps[0])], rest);
      assert tokens + [TokenOf(ps[0])] + TokensOf(rest) == tokens + TokensOf(ps);
    }
  }

  /** Every written line reads back as the tokens it was written from. */
  lemma {:induction false} RenderRoundTrip(ps: seq<Piece>)
    requires forall p :: p in ps ==> Writable(p)
    ensures Lex(Render(ps)) == Some(TokensOf(ps))
  {
    if ps == [] {
      assert TokensOf(ps) == [];
    } else {
      ReadPieces([], ps);
      ReadAppend(START, Render(ps), " ");
      assert [] + TokensOf(ps) == TokensOf(ps);
      assert Read(Read(START, Render(ps)), " ") == Step(Read(START, Render(ps)), ' ');
    }
  }

  /** The shell reads Argv's line back as exactly the arguments. */
  lemma {:induction false} ArgvRoundTrip(args: seq<string>)
    requires forall a :: a in args ==> NUL !in a
    ensures Lex(ArgvLine(args)) == Some(Words(args))
  {
    var ps := seq(|args|, i requires 0 <= i < |args| => Arg(args[i]));
    assert Texts(ps) == QuoteAll(args);
    assert TokensOf(ps) == Words(args);
    RenderRoundTrip(ps);
  }

  lemma {:induction false} NulBreaks(r: Reader, s: string)
    requires NUL in s || r.mode.Broken?
    ensures Read(r, s).mode.Broken?
    decreases |s|
  {
    if s != "" {
      assert s == [s[0]] + s[1..];
      NulBreaks(Step(r, s[0]), s[1..]);
    }
  }

  lemma {:induction false} QuoteKeepsNul(s: string)
    requires NUL in s
    ensures NUL in EscapeQuotes(s)
  {
    assert s == [s[0]] + s[1..];
    if s[0] != NUL {
      QuoteKeepsNul(s[1..]);
    }
  }

  lemma {:induction false} JoinKeepsNul(parts: seq<string>)
    requires exists p :: p in parts && NUL in p
    ensures NUL in Join(parts, " ")
  {
    var p :| p in parts && NUL in p;
    if |parts| > 1 && NUL !in parts[0] {
      assert parts == [parts[0]] + parts[1..];
      JoinKeepsNul(parts[1..]);
    }
  }

  /** The round trip holds exactly for the arguments a shell word can hold at all. */
  lemma {:induction false} ArgvRoundTripIff(args: seq<string>)
    ensures Lex(ArgvLine(args)) == Some(Words(args)) <==> forall a :: a in args ==> NUL !in a
  {
    if a :| a in args && NUL in a {
      var i :| 0 <= i < |args| && args[i] == a;
      QuoteKeepsNul(a);
      assert NUL in QuoteAll(args)[i];
      JoinKeepsNul(QuoteAll(args));
      NulBreaks(START, ArgvLine(args));
    } else {
      ArgvRoundTrip(args);
    }
  }

  lemma {:induction false} ArgvInjective(a: seq<string>, b: seq<string>)
    requires forall s :: s in a + b ==> NUL !in s
    requires ArgvLine(a) == ArgvLine(b)
    ensures a == b
  {
    assert forall s :: s in a ==> s in a + b;
    assert forall s :: s in b ==> s in a + b;
    ArgvRoundTrip(a);
    ArgvRoundTrip(b);
    assert |Words(a)| == |a| && |Words(b)| == |b|;
    forall i | 0 <= i < |a| ensures a[i] == b[i] {
      assert Words(a)[i] == Word(a[i]) && Words(b)[i] == Word(b[i]);
    }
  }

  // ---- The transfer command lines (cordium-go/files.go) ------------------

  function DownloadWords(path: string): seq<string> {
    ["base64", "<", ShellQuote(path)]
  }

  function WriteWords(count: string, path: string): seq<string> {
    ["head", "-c", count, "|", "base64", "-d", ">", ShellQuote(path)]
  }

  /** dir is the parent directory that has to be created first, if any. */
  function UploadWords(count: string, path: string, dir: Option<string>): seq<string> {
    match dir
    case None => WriteWords(count, path)
    case Some(d) => ["mkdir", "-p", ShellQuote(d), "&&"] + WriteWords(count, path)
  }

  function DownloadCommand(path: string): string {
    Join(DownloadWords(path), " ")
  }

  function UploadCommand(count: string, path: string, dir: Option<string>): string {
    Join(UploadWords(count, path, dir), " ")
  }

  predicate IsBare(word: string) {
    word != "" && NUL !in word && !HasSpecial(word)
  }

  lemma {:induction false} PlainIsBare(word: string)
    requires word != "" && forall i :: 0 <= i < |word| ==> word[i] == '-' || '0' <= word[i] <= '9' || 'a' <= word[i] <= 'z'
    ensures IsBare(word)
  {
  }

  /** The shell sees one command with one input redirection, from exactly the given path. */
  lemma {:induction false} DownloadCommandReads(path: string)
    requires NUL !in path
    ensures Lex(DownloadCommand(path)) == Some([Word("base64"), Operator("<"), Word(path)])
  {
    PlainIsBare("base64");
    var ps := [Arg("base64"), Sym("<"), Arg(path)];
    assert Texts(ps) == DownloadWords(path);
    assert TokensOf(ps) == [Word("base64"), Operator("<"), Word(path)];
    RenderRoundTrip(ps);
  }

  function WritePieces(count: string, path: string): seq<Piece> {
    [Arg("head"), Arg("-c"), Arg(count), Sym("|"), Arg("base64"), Arg("-d"), Sym(">"), Arg(path)]
  }

  function UploadPieces(count: string, path: string, dir: Option<string>): seq<Piece> {
    match dir
    case None => WritePieces(count, path)
    case Some(d) => [Arg("mkdir"), Arg("-p"), Arg(d), Sym("&&")] + WritePieces(count, path)
  }

  function WriteTokens(count: string, path: string): seq<Token> {
    [Word("head"), Word("-c"), Word(count), Operator("|"), Word("base64"), Word("-d"), Operator(">"), Word(path)]
  }

  function UploadTokens(count: string, path: string, dir: Option<string>): seq<Token> {
    match dir
    case None => WriteTokens(count, path)
    case Some(d) => [Word("mkdir"), Word("-p"), Word(d), Operator("&&")] + WriteTokens(count, path)
  }

  lemma {:induction false} UploadTexts(count: string, path: string, dir: Option<string>)
    requires IsBare(count)
    ensures Texts(UploadPieces(count, path, dir)) == UploadWords(count, path, dir)
  {
    PlainIsBare("head");
    PlainIsBare("-c");
    PlainIsBare("base64");
    PlainIsBare("-d");
    PlainIsBare("mkdir");
    PlainIsBare("-p");
    assert Texts(WritePieces(count, path)) == WriteWords(count, path);
    if dir.Some? {
      var front := [Arg("mkdir"), Arg("-p"), Arg(dir.value), Sym("&&")];
      assert Texts(front) == ["mkdir", "-p", ShellQuote(dir.value), "&&"];
      assert Texts(front + WritePieces(count, path)) == Texts(front) + Texts(WritePieces(count, path));
    }
  }

  /** The upload pipeline reads the announced count and redirects to exactly the given path. */
  lemma {:induction false} UploadCommandReads(count: string, path: string, dir: Option<string>)
    requires IsBare(count) && NUL !in path
    requires dir.Some? ==> NUL !in dir.value
    ensures Lex(UploadCommand(count, path, dir)) == Some(UploadTokens(count, path, dir))
  {
    var ps := UploadPieces(count, path, dir);
    UploadTexts(count, path, dir);
    assert TokensOf(ps) == UploadTokens(count, path, dir);
    RenderRoundTrip(ps);
  }
}
