/**
 The Go header rewriter of unsorted/licenser/main.go: Octelium's Apache headers
 are removed, the build constraints are hoisted, and the header is put between
 them and the rest of the preamble. The source is split at its package clause,
 which is where the white space and comments in front of it end.
 */
module Licenser {
  import opened Prelude
  import opened Text
  import opened Preamble

  // ---- The rewrite (main.go:172-220) -------------------------------------

  const BOM: char := 0xFEFF as char

  datatype Parts = Parts(bom: string, preamble: string, body: string)

  /** The offset of the first token that is neither a blank nor part of a comment. */
  function FirstToken(m: Mode, s: string): Option<nat>
    decreases |s|
  {
    if s == "" then None
    else if m.Code? && !IsGoBlank(s[0]) && s[0] != '/' then Some(0)
    else
      match FirstToken(StepMode(m, s[0]), s[1..])
      case None => None
      case Some(n) => Some(n + 1)
  }

  /** The keyword and something after it that does not belong to the same word. */
  predicate StartsClause(s: string) {
    HasPrefix(s, "package") && |s| > 7 && !InWord(s[7])
  }

  predicate InWord(c: char) {
    'a' <= c <= 'z' || 'A' <= c <= 'Z' || '0' <= c <= '9' || c == '_' || c as int >= 0x80
  }

  function SplitRest(bom: string, rest: string): Option<Parts> {
    match FirstToken(Code, rest)
    case None => None
    case Some(n) =>
      if n <= |rest| && IsPreamble(rest[..n]) && StartsClause(rest[n..])
      then Some(Parts(bom, rest[..n], rest[n..])) else None
  }

  /** The parser's package clause; a source without one is an error. */
  function Split(src: string): Option<Parts> {
    var bom := if HasPrefix(src, [BOM]) then [BOM] else "";
    SplitRest(bom, src[|bom|..])
  }

  function GoText(l: string): seq<string> {
    if IsGoBuild(TrimSpace(l)) then [TrimSpace(l)] else []
  }

  function PlusText(l: string): seq<string> {
    if !IsGoBuild(TrimSpace(l)) && IsPlusBuild(TrimSpace(l)) then [TrimSpace(l)] else []
  }

  function Leftover(l: string): seq<string> {
    if IsBuildConstraint(l) then [] else [l]
  }

  function GoTexts(ls: seq<string>): seq<string> {
    if ls == [] then []
    else GoText(ls[0]) + GoTexts(ls[1..])
  }

  function PlusTexts(ls: seq<string>): seq<string> {
    if ls == [] then []
    else PlusText(ls[0]) + PlusTexts(ls[1..])
  }

  function OtherLines(ls: seq<string>): seq<string> {
    if ls == [] then []
    else Leftover(ls[0]) + OtherLines(ls[1..])
  }

  function Constraints(ls: seq<string>): seq<string> {
    GoTexts(ls) + PlusTexts(ls)
  }

  /** trimLeadingBlankLines. */
  function TrimBlankLines(s: string): string
    decreases |s|
  {
    if s == "" then ""
    else if Blank(s[..LineEnd(s)]) then TrimBlankLines(s[LineEnd(s)..])
    else s
  }

  function Eol(s: string): string {
    if Contains(s, "\r\n") then "\r\n" else "\n"
  }

  function ReplaceCrLf(s: string): string {
    if s == "" then ""
    else if |s| > 1 && s[0] == '\r' && s[1] == '\n' then "\n" + ReplaceCrLf(s[2..])
    else [s[0]] + ReplaceCrLf(s[1..])
  }

  function ReplaceLf(s: string, eol: string): string {
    if s == "" then "" else (if s[0] == '\n' then eol else [s[0]]) + ReplaceLf(s[1..], eol)
  }

  function WithEol(value: string, eol: string): string {
    if eol == "\n" then ReplaceCrLf(value) else ReplaceLf(ReplaceCrLf(value), eol)
  }

  function Rows(rows: seq<string>, eol: string): string {
    if rows == [] then "" else rows[0] + eol + Rows(rows[1..], eol)
  }

  /** The hoisted constraints, one a line, and the empty line after them. */
  function Block(constraints: seq<string>, eol: string): string {
    if constraints == [] then "" else Rows(constraints, eol) + eol
  }

  /** The preamble without Octelium's headers. */
  function Unheadered(preamble: string): string {
    Unparse(RemoveHeaders(Tokens(preamble)))
  }

  /** What is left of a preamble below the header. */
  function Remainder(preamble: string): string {
    TrimBlankLines(Flatten(OtherLines(Lines(Unheadered(preamble)))))
  }

  function Assemble(p: Parts, header: string): string {
    var eol := Eol(p.preamble + p.body);
    p.bom + Block(Constraints(Lines(Unheadered(p.preamble))), eol)
    + WithEol(header, eol) + eol + eol
    + (if Blank(Remainder(p.preamble)) then "" else Remainder(p.preamble)) + p.body
  }

  function Rewrite(src: string, header: string): Option<string> {
    match Split(src)
    case None => None
    case Some(p) => Some(Assemble(p, header))
  }

  // ---- Splitting ---------------------------------------------------------

  /** A preamble followed by something that is no comment is split off whole. */
  lemma {:induction false} FirstTokenAfter(m: Mode, pre: string, body: string)
    requires ModeAfter(m, pre) == Code
    requires body != "" && !IsGoBlank(body[0]) && body[0] != '/'
    ensures FirstToken(m, pre + body) == Some(|pre|)
    decreases |pre|
  {
    if pre == "" {
      assert pre + body == body;
    } else {
      assert (pre + body)[1..] == pre[1..] + body;
      if m.Code? && !IsGoBlank(pre[0]) && pre[0] != '/' {
        BadIsForEver(pre[1..]);
      } else {
        FirstTokenAfter(StepMode(m, pre[0]), pre[1..], body);
      }
    }
  }

  lemma {:induction false} SplitOf(bom: string, pre: string, body: string)
    requires bom == "" || bom == [BOM]
    requires bom == "" ==> !HasPrefix(pre + body, [BOM])
    requires IsPreamble(pre) && StartsClause(body)
    ensures Split(bom + pre + body) == Some(Parts(bom, pre, body))
  {
    var src := bom + pre + body;
    assert body[0] == "package"[0] == 'p';
    FirstTokenAfter(Code, pre, body);
    assert src[|bom|..] == pre + body;
    assert bom == "" ==> src == pre + body;
    assert (pre + body)[..|pre|] == pre && (pre + body)[|pre|..] == body;
  }

  lemma {:induction false} SplitRestParts(bom: string, rest: string)
    requires SplitRest(bom, rest).Some?
    ensures var p := SplitRest(bom, rest).value;
            p.bom == bom && rest == p.preamble + p.body && IsPreamble(p.preamble) && StartsClause(p.body)
  {
  }

  /** Splitting cuts the source into its parts, which hold nothing else. */
  lemma {:induction false} SplitParts(src: string)
    requires Split(src).Some?
    ensures var p := Split(src).value;
            && src == p.bom + p.preamble + p.body && IsPreamble(p.preamble) && StartsClause(p.body)
            && (p.bom == "" || p.bom == [BOM]) && (p.bom == "" ==> !HasPrefix(src, [BOM]))
  {
    var bom := if HasPrefix(src, [BOM]) then [BOM] else "";
    var rest := src[|bom|..];
    SplitRestParts(bom, rest);
    assert src == bom + rest;
    Assoc(bom, Split(src).value.preamble, Split(src).value.body);
  }

  // ---- Lines and the scanner ---------------------------------------------

  lemma {:induction false} ScanBlanks(s: string)
    requires Blank(s)
    ensures ModeAfter(Code, s) == Code || ModeAfter(Code, s) == Bad
    ensures forall t :: t in Emit(Code, s) ==> t.Ws?
    decreases |s|
  {
    if s != "" {
      assert forall i :: 0 <= i < |s[1..]| ==> s[1..][i] == s[i + 1];
      assert s[0] != '/';
      if IsGoBlank(s[0]) {
        ScanBlanks(s[1..]);
      } else {
        BadIsForEver(s[1..]);
        EmitBad(s[1..]);
      }
    }
  }

  lemma {:induction false} EmitBad(s: string)
    ensures Emit(Bad, s) == []
    decreases |s|
  {
    if s != "" {
      EmitBad(s[1..]);
    }
  }

  lemma {:induction false} ScanInLine(m: Mode, s: string)
    requires m.LineText? && '\n' !in s
    ensures ModeAfter(m, s).LineText?
    decreases |s|
  {
    if s != "" {
      ScanInLine(StepMode(m, s[0]), s[1..]);
    }
  }

  lemma {:induction false} ConstraintsAreComments(text: string)
    requires IsGoBuild(text) || IsPlusBuild(text)
    ensures HasPrefix(text, "//") && !IsSpace(text[0])
  {
    assert "//go:build"[0] == '/' && "//go:build"[1] == '/' && "//go:build "[0] == '/' && "//go:build "[1] == '/';
    assert "// +build"[0] == '/' && "// +build"[1] == '/' && "// +build "[0] == '/' && "// +build "[1] == '/';
  }

  /** The text of a line, without the blanks around it, has no line feed. */
  lemma {:induction false} LineParts(l: string, left: string, t: string, right: string)
    requires IsLine(l) && l == left + t + right && t != "" && !IsSpace(t[|t| - 1])
    ensures l == left + (t + right) && '\n' !in t
    ensures forall i :: 0 <= i < |right| - 1 ==> right[i] != '\n'
  {
    assert forall i :: 0 <= i < |t| ==> t[i] == l[|left| + i];
    assert forall i :: 0 <= i < |right| ==> right[i] == l[|left| + |t| + i];
  }

  lemma {:induction false} ConstraintShape(l: string) returns (left: string, right: string)
    requires IsLine(l) && IsBuildConstraint(l)
    ensures l == left + (TrimSpace(l) + right) && Blank(left) && Blank(right)
    ensures IsLineComment(TrimSpace(l))
    ensures forall i :: 0 <= i < |right| - 1 ==> right[i] != '\n'
  {
    left, right := TrimParts(l);
    ConstraintsAreComments(TrimSpace(l));
    LineParts(l, left, TrimSpace(l), right);
  }

  /** A line comment without its line feed leaves the scanner inside of it. */
  lemma {:induction false} OpenLineComment(u: string)
    requires IsLineComment(u)
    ensures ModeAfter(Code, u).LineText?
  {
    var x := u[2..];
    assert u == "//" + x;
    ScanAppend(Code, "//", x);
    SlashSlash();
    ScanInLine(LineText("//"), x);
  }

  /** Blanks before a token keep the scanner where it is, or the text is no preamble. */
  lemma {:induction false} LeadingBlanks(left: string, rest: string)
    requires Blank(left) && ModeAfter(Code, left + rest) == Code
    ensures ModeAfter(Code, left) == Code && ModeAfter(Code, rest) == Code
    ensures Emit(Code, left + rest) == Emit(Code, left) + Emit(Code, rest)
  {
    ScanAppend(Code, left, rest);
    ScanBlanks(left);
    if ModeAfter(Code, left) == Bad {
      BadIsForEver(rest);
    }
  }

  lemma {:induction false} CommentLine(t: string, right: string, rest: string)
    requires IsLineComment(t) && (forall i :: 0 <= i < |right| - 1 ==> right[i] != '\n')
    requires Ended(right) || rest == ""
    requires ModeAfter(Code, t + right + rest) == Code
    ensures Ended(right) && ModeAfter(Code, t + right) == Code
    ensures Emit(Code, t + right) == [Comment(t + right[..|right| - 1]), Ws('\n')]
  {
    if !Ended(right) {
      assert t + right + rest == t + right;
      assert '\n' !in right;
      OpenLineComment(t + right);
    } else {
      var u := t + right[..|right| - 1];
      assert t + right == u + "\n";
      ScanLine(u);
    }
  }

  /** A constraint's line, read outside of comments, is one line comment. */
  lemma {:induction false} ConstraintLine(l: string, rest: string) returns (comment: string, right: string)
    requires IsLine(l) && IsBuildConstraint(l) && (Ended(l) || rest == "")
    requires ModeAfter(Code, l + rest) == Code
    ensures ModeAfter(Code, l) == Code && Comment(comment) in Emit(Code, l)
    ensures comment == TrimSpace(l) + right && IsLineComment(TrimSpace(l))
  {
    var left, r := ConstraintShape(l);
    var t := TrimSpace(l);
    assert l + rest == left + (t + r + rest);
    LeadingBlanks(left, t + r + rest);
    assert Ended(l) ==> l[|l| - 1] == (t + r)[|t + r| - 1];
    CommentLine(t, r, rest);
    ScanAppend(Code, left, t + r);
    right := r[..|r| - 1];
    comment := t + right;
    assert Comment(comment) in Emit(Code, t + r);
  }

  lemma {:induction false} SlashSlash()
    ensures ModeAfter(Code, "//") == LineText("//") && Emit(Code, "//") == []
  {
    assert "//"[1..] == "/" && "/"[1..] == "";
    assert ModeAfter(Code, "//") == ModeAfter(Slash, "/") == ModeAfter(LineText("//"), "");
    assert Emit(Code, "//") == Emit(Slash, "/");
    assert Emit(Slash, "/") == Emit(LineText("//"), "") == [];
  }

  /** Every build constraint starts outside of comments, so it is a whole line comment. */
  predicate WholeLines(ls: seq<string>, m: Mode)
    decreases |ls|
  {
    ls != [] ==> (IsBuildConstraint(ls[0]) ==> m == Code) && WholeLines(ls[1..], ModeAfter(m, ls[0]))
  }

  predicate LinesOk(ls: seq<string>) {
    && (forall i :: 0 <= i < |ls| ==> IsLine(ls[i]))
    && (forall i :: 0 <= i < |ls| - 1 ==> Ended(ls[i]))
  }

  /** Taking whole constraint lines out keeps a preamble a preamble. */
  lemma {:induction false} OtherLinesScan(ls: seq<string>, m: Mode)
    requires LinesOk(ls) && WholeLines(ls, m) && ModeAfter(m, Flatten(ls)) == Code
    ensures ModeAfter(m, Flatten(OtherLines(ls))) == Code
    decreases |ls|
  {
    if ls != [] {
      var l, rest := ls[0], ls[1..];
      ScanAppend(m, l, Flatten(rest));
      if IsBuildConstraint(l) {
        assert |ls| == 1 ==> Flatten(rest) == "";
        var _, _ := ConstraintLine(l, Flatten(rest));
        OtherLinesScan(rest, Code);
        assert OtherLines(ls) == [] + OtherLines(rest) == OtherLines(rest);
      } else {
        OtherLinesScan(rest, ModeAfter(m, l));
        assert OtherLines(ls) == [l] + OtherLines(rest);
        assert OtherLines(ls)[1..] == OtherLines(rest);
        ScanAppend(m, l, Flatten(OtherLines(rest)));
      }
    }
  }

  lemma {:induction false} OtherLinesOk(ls: seq<string>)
    requires LinesOk(ls)
    ensures LinesOk(OtherLines(ls))
    ensures forall l :: l in OtherLines(ls) ==> l in ls && !IsBuildConstraint(l)
  {
    if ls != [] {
      OtherLinesOk(ls[1..]);
      if |ls| == 1 {
        assert OtherLines(ls[1..]) == [];
      }
    }
  }

  /** The first line of the text, if there is one, is not blank. */
  predicate StartsWithText(s: string) {
    s == "" || !Blank(s[..LineEnd(s)])
  }

  lemma {:induction false} TrimStep(s: string) returns (line: string, rest: string)
    requires s != ""
    ensures line == s[..LineEnd(s)] && s == line + rest && |rest| < |s|
    ensures line != "" && (rest == "" || Ended(line))
    ensures TrimBlankLines(s) == if Blank(line) then TrimBlankLines(rest) else s
  {
    line, rest := s[..LineEnd(s)], s[LineEnd(s)..];
  }

  lemma {:induction false} TrimmedStartsWithText(s: string)
    ensures StartsWithText(TrimBlankLines(s))
    decreases |s|
  {
    if s != "" {
      var line, rest := TrimStep(s);
      if Blank(line) {
        TrimmedStartsWithText(rest);
      }
    }
  }

  predicate WholeBlankLines(cut: string, rest: string) {
    Blank(cut) && (cut == "" || Ended(cut) || rest == "")
  }

  lemma {:induction false} BlankLinesGrow(line: string, cut: string, rest: string)
    requires Blank(line) && line != "" && (cut + rest == "" || Ended(line)) && WholeBlankLines(cut, rest)
    ensures WholeBlankLines(line + cut, rest)
  {
    assert cut != "" ==> (line + cut)[|line + cut| - 1] == cut[|cut| - 1];
    assert cut == "" ==> line + cut == line;
  }

  /** Leading blank lines are whole lines of blanks, and nothing else is cut off. */
  lemma {:induction false} TrimBlankLinesParts(s: string) returns (cut: string)
    ensures s == cut + TrimBlankLines(s)
    ensures WholeBlankLines(cut, TrimBlankLines(s))
    decreases |s|
  {
    if s == "" {
      return "";
    }
    var line, rest := TrimStep(s);
    var t := TrimBlankLines(s);
    if !Blank(line) {
      cut := "";
      assert t == s;
      return;
    }
    assert t == TrimBlankLines(rest);
    var more := TrimBlankLinesParts(rest);
    assert rest == more + t;
    BlankLinesGrow(line, more, t);
    Assoc(line, more, t);
    cut := line + more;
  }

  lemma {:induction false} TrimBlankLinesScan(s: string)
    requires IsPreamble(s)
    ensures IsPreamble(TrimBlankLines(s))
  {
    var cut := TrimBlankLinesParts(s);
    LeadingBlanks(cut, TrimBlankLines(s));
  }

  /** Nothing that survives the trimming is blank, so the final blank test changes nothing. */
  lemma {:induction false} TrimmedIsEmptyOrText(s: string)
    ensures Blank(TrimBlankLines(s)) <==> TrimBlankLines(s) == ""
  {
    TrimmedStartsWithText(s);
    var t := TrimBlankLines(s);
    assert t[..LineEnd(t)] <= t;
  }
}
