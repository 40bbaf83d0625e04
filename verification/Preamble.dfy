/**
 The part of a Go file before its package clause, as the licenser sees it: white
 space and comments. The scanner is the part of Go's own that such text needs,
 written as a machine that reads one character at a time; it covers sources
 without carriage returns inside comments.
 */
module Preamble {
  import opened Prelude
  import opened Text

  // ---- Scanning ----------------------------------------------------------

  datatype Token = Ws(c: char) | Comment(text: string)

  datatype Mode = Code | Slash | LineText(text: string) | BlockText(text: string, star: bool) | Bad

  predicate IsGoBlank(c: char) {
    c == ' ' || c == '\t' || c == '\n' || c == '\r'
  }

  function StepMode(m: Mode, c: char): Mode {
    match m
    case Code => if IsGoBlank(c) then Code else if c == '/' then Slash else Bad
    case Slash => if c == '/' then LineText("//") else if c == '*' then BlockText("/*", false) else Bad
    case LineText(t) => if c == '\n' then Code else LineText(t + [c])
    case BlockText(t, star) => if star && c == '/' then Code else BlockText(t + [c], c == '*')
    case Bad => Bad
  }

  function StepEmit(m: Mode, c: char): seq<Token> {
    match m
    case Code => if IsGoBlank(c) then [Ws(c)] else []
    case LineText(t) => if c == '\n' then [Comment(t), Ws(c)] else []
    case BlockText(t, star) => if star && c == '/' then [Comment(t + [c])] else []
    case _ => []
  }

  function ModeAfter(m: Mode, s: string): Mode
    decreases |s|
  {
    if s == "" then m else ModeAfter(StepMode(m, s[0]), s[1..])
  }

  function Emit(m: Mode, s: string): seq<Token>
    decreases |s|
  {
    if s == "" then [] else StepEmit(m, s[0]) + Emit(StepMode(m, s[0]), s[1..])
  }

  /** The text is white space and complete comments. */
  predicate IsPreamble(s: string) {
    ModeAfter(Code, s) == Code
  }

  function Tokens(s: string): seq<Token> {
    Emit(Code, s)
  }

  function TextOf(t: Token): string {
    match t case Ws(c) => [c] case Comment(text) => text
  }

  function Unparse(ts: seq<Token>): string {
    if ts == [] then "" else TextOf(ts[0]) + Unparse(ts[1..])
  }

  lemma {:induction false} ScanAppend(m: Mode, a: string, b: string)
    ensures ModeAfter(m, a + b) == ModeAfter(ModeAfter(m, a), b)
    ensures Emit(m, a + b) == Emit(m, a) + Emit(ModeAfter(m, a), b)
    decreases |a|
  {
    if a == "" {
      assert a + b == b;
    } else {
      assert (a + b)[1..] == a[1..] + b;
      var n := StepMode(m, a[0]);
      ScanAppend(n, a[1..], b);
      Assoc(StepEmit(m, a[0]), Emit(n, a[1..]), Emit(ModeAfter(n, a[1..]), b));
    }
  }

  lemma {:induction false} ScanSnoc(m: Mode, a: string, c: char)
    ensures ModeAfter(m, a + [c]) == StepMode(ModeAfter(m, a), c)
    ensures Emit(m, a + [c]) == Emit(m, a) + StepEmit(ModeAfter(m, a), c)
  {
    ScanAppend(m, a, [c]);
    assert [c][1..] == "";
    assert ModeAfter(ModeAfter(m, a), [c]) == StepMode(ModeAfter(m, a), c);
  }

  lemma {:induction false} BadIsForEver(s: string)
    ensures ModeAfter(Bad, s) == Bad
    decreases |s|
  {
    if s != "" {
      BadIsForEver(s[1..]);
    }
  }

  lemma {:induction false} UnparseAppend(a: seq<Token>, b: seq<Token>)
    ensures Unparse(a + b) == Unparse(a) + Unparse(b)
  {
    if a == [] {
      assert a + b == b;
    } else {
      assert (a + b)[1..] == a[1..] + b;
      UnparseAppend(a[1..], b);
    }
  }

  lemma {:induction false} UnparseCons(t: Token, rest: seq<Token>)
    ensures Unparse([t] + rest) == TextOf(t) + Unparse(rest)
  {
    assert ([t] + rest)[1..] == rest;
  }

  // ---- Token sequences that scanning yields ------------------------------

  predicate IsLineComment(t: string) {
    HasPrefix(t, "//") && '\n' !in t
  }

  predicate IsBlockComment(t: string) {
    HasPrefix(t, "/*") && ModeAfter(Code, t) == Code && Emit(Code, t) == [Comment(t)]
  }

  /** Blanks and comments, every line comment ended by its line feed. */
  predicate WellFormed(ts: seq<Token>) {
    ts != [] ==>
      && (match ts[0]
          case Ws(c) => IsGoBlank(c)
          case Comment(t) => IsBlockComment(t) || (IsLineComment(t) && |ts| > 1 && ts[1] == Ws('\n')))
      && WellFormed(ts[1..])
  }

  function Pending(m: Mode): string {
    match m
    case Slash => "/"
    case LineText(t) => t
    case BlockText(t, _) => t
    case _ => ""
  }

  predicate ModeOk(m: Mode) {
    match m
    case LineText(t) => IsLineComment(t)
    case BlockText(t, star) => HasPrefix(t, "/*") && ModeAfter(Code, t) == m && Emit(Code, t) == []
    case _ => true
  }

  lemma {:induction false} ModeOkStep(m: Mode, c: char)
    requires ModeOk(m)
    ensures ModeOk(StepMode(m, c))
    ensures m.BlockText? && m.star && c == '/' ==> IsBlockComment(m.text + [c])
  {
    match m
    case Slash =>
      if c == '*' {
        assert "/*"[1..] == "*" && "*"[1..] == "";
        assert ModeAfter(Code, "/*") == ModeAfter(Slash, "*") == ModeAfter(BlockText("/*", false), "");
        assert Emit(Code, "/*") == Emit(Slash, "*");
        assert Emit(Slash, "*") == Emit(BlockText("/*", false), "") == [];
      }
    case BlockText(t, star) =>
      ScanSnoc(Code, t, c);
      assert HasPrefix(t + [c], "/*");
      assert Emit(Code, t) + StepEmit(m, c) == StepEmit(m, c);
    case _ =>
  }

  lemma {:induction false} StepText(m: Mode, c: char)
    ensures !StepMode(m, c).Bad? ==> Unparse(StepEmit(m, c)) + Pending(StepMode(m, c)) == Pending(m) + [c]
  {
    var e := StepEmit(m, c);
    if |e| > 0 {
      UnparseCons(e[0], e[1..]);
      assert e == [e[0]] + e[1..];
      if |e| > 1 {
        UnparseCons(e[1], []);
        assert e[1..] == [e[1]] + [];
      }
    }
  }

  lemma {:induction false} MoveBoundary(e: string, p: string, q: string, s: string)
    requires s != "" && e + p == q + [s[0]]
    ensures e + (p + s[1..]) == q + s
  {
    Assoc(e, p, s[1..]);
    Assoc(q, [s[0]], s[1..]);
    assert s == [s[0]] + s[1..];
  }

  /** Scanning loses nothing. */
  lemma {:induction false} ScanKeepsText(m: Mode, s: string)
    requires ModeAfter(m, s) == Code
    ensures Unparse(Emit(m, s)) == Pending(m) + s
    decreases |s|
  {
    if s != "" {
      var n := StepMode(m, s[0]);
      if n.Bad? {
        BadIsForEver(s[1..]);
      } else {
        ScanKeepsText(n, s[1..]);
        StepText(m, s[0]);
        UnparseAppend(StepEmit(m, s[0]), Emit(n, s[1..]));
        MoveBoundary(Unparse(StepEmit(m, s[0])), Pending(n), Pending(m), s);
      }
    }
  }

  lemma {:induction false} WellFormedCons(t: Token, rest: seq<Token>)
    requires WellFormed(rest)
    requires match t
             case Ws(c) => IsGoBlank(c)
             case Comment(x) => IsBlockComment(x) || (IsLineComment(x) && rest != [] && rest[0] == Ws('\n'))
    ensures WellFormed([t] + rest)
  {
    assert ([t] + rest)[1..] == rest;
  }

  lemma {:induction false} StepWellFormed(m: Mode, c: char, rest: seq<Token>)
    requires ModeOk(m) && WellFormed(rest)
    requires m.BlockText? && m.star && c == '/' ==> IsBlockComment(m.text + [c])
    ensures WellFormed(StepEmit(m, c) + rest)
  {
    var e := StepEmit(m, c);
    if e == [] {
      assert e + rest == rest;
    } else if |e| == 1 {
      WellFormedCons(e[0], rest);
      assert e + rest == [e[0]] + rest;
    } else {
      WellFormedCons(e[1], rest);
      WellFormedCons(e[0], [e[1]] + rest);
      assert e + rest == [e[0]] + ([e[1]] + rest);
    }
  }

  /** Scanning yields well-formed tokens. */
  lemma {:induction false} ScanIsWellFormed(m: Mode, s: string)
    requires ModeOk(m) && ModeAfter(m, s) == Code
    ensures WellFormed(Emit(m, s))
    decreases |s|
  {
    if s != "" {
      var n := StepMode(m, s[0]);
      if n.Bad? {
        BadIsForEver(s[1..]);
      } else {
        ModeOkStep(m, s[0]);
        ScanIsWellFormed(n, s[1..]);
        StepWellFormed(m, s[0], Emit(n, s[1..]));
      }
    }
  }

  lemma {:induction false} TokensParts(s: string)
    requires IsPreamble(s)
    ensures WellFormed(Tokens(s)) && Unparse(Tokens(s)) == s
  {
    ScanKeepsText(Code, s);
    ScanIsWellFormed(Code, s);
    assert "" + s == s;
  }

  lemma {:induction false} ScanLineComment(m: Mode, rest: string)
    requires m.LineText? && '\n' !in rest
    ensures ModeAfter(m, rest + "\n") == Code
    ensures Emit(m, rest + "\n") == [Comment(m.text + rest), Ws('\n')]
    decreases |rest|
  {
    if rest == "" {
      assert rest + "\n" == "\n" && "\n"[1..] == "";
      assert m.text + rest == m.text;
      assert Emit(Code, "") == [];
    } else {
      assert (rest + "\n")[1..] == rest[1..] + "\n";
      var n := StepMode(m, rest[0]);
      ScanLineComment(n, rest[1..]);
      assert n.text + rest[1..] == m.text + rest;
    }
  }

  lemma {:induction false} ScanLine(t: string)
    requires IsLineComment(t)
    ensures ModeAfter(Code, t + "\n") == Code && Emit(Code, t + "\n") == [Comment(t), Ws('\n')]
  {
    var rest := t[2..];
    assert t == "//" + rest;
    assert (t + "\n")[1..] == "/" + rest + "\n";
    assert ("/" + rest + "\n")[1..] == rest + "\n";
    ScanLineComment(LineText("//"), rest);
    assert Emit(Slash, "/" + rest + "\n") == [] + Emit(LineText("//"), rest + "\n");
    assert Emit(Code, t + "\n") == [] + Emit(Slash, "/" + rest + "\n");
  }

  /** The text of some tokens, followed by text that scans to others. */
  lemma {:induction false} ScanNext(first: string, ts: seq<Token>, more: string, rest: seq<Token>)
    requires ModeAfter(Code, first) == Code && Emit(Code, first) == ts
    requires IsPreamble(more) && Tokens(more) == rest
    ensures IsPreamble(first + more) && Tokens(first + more) == ts + rest
  {
    ScanAppend(Code, first, more);
  }

  lemma {:induction false} ScanBlank(c: char)
    requires IsGoBlank(c)
    ensures ModeAfter(Code, [c]) == Code && Emit(Code, [c]) == [Ws(c)]
  {
    assert [c][1..] == "";
    assert Emit(Code, [c]) == [Ws(c)] + Emit(Code, "");
  }

  /** Scanning gives back every well-formed token sequence. */
  lemma {:induction false} ScanUnparse(ts: seq<Token>)
    requires WellFormed(ts)
    ensures IsPreamble(Unparse(ts)) && Tokens(Unparse(ts)) == ts
  {
    if ts != [] {
      var rest := ts[1..];
      assert ts == [ts[0]] + rest;
      ScanUnparse(rest);
      match ts[0]
      case Ws(c) =>
        ScanBlank(c);
        ScanNext([c], [Ws(c)], Unparse(rest), rest);
      case Comment(t) =>
        if IsBlockComment(t) {
          ScanNext(t, [Comment(t)], Unparse(rest), rest);
        } else {
          ScanUnparseLine(t, rest);
        }
    }
  }

  lemma {:induction false} JoinLine(t: string, end: string, more: string, rest: seq<Token>)
    requires ModeAfter(Code, end) == Code && Emit(Code, end) == [Ws('\n')]
    requires ModeAfter(Code, t + end) == Code && Emit(Code, t + end) == [Comment(t), Ws('\n')]
    requires IsPreamble(end + more) && Tokens(end + more) == rest
    ensures IsPreamble(t + (end + more)) && Tokens(t + (end + more)) == [Comment(t)] + rest
  {
    ScanAppend(Code, end, more);
    ScanAppend(Code, t + end, more);
    Assoc(t, end, more);
    Assoc([Comment(t)], [Ws('\n')], Emit(Code, more));
    assert [Comment(t)] + [Ws('\n')] == [Comment(t), Ws('\n')];
  }

  /** A line comment and its line feed, which belongs to the tokens after it. */
  lemma {:induction false} ScanUnparseLine(t: string, rest: seq<Token>)
    requires IsLineComment(t) && rest != [] && rest[0] == Ws('\n')
    requires IsPreamble(Unparse(rest)) && Tokens(Unparse(rest)) == rest
    ensures IsPreamble(t + Unparse(rest)) && Tokens(t + Unparse(rest)) == [Comment(t)] + rest
  {
    var end := ['\n'];
    assert end == "\n";
    ScanBlank('\n');
    ScanLine(t);
    JoinLine(t, end, Unparse(rest[1..]), rest);
  }

  // ---- Apache headers (main.go:222-269, 364-403) -------------------------

  const MARKER: string := "Copyright Octelium Labs, LLC. All rights reserved."
  const LICENSE: string := "Licensed under the Apache License, Version 2.0"
  const TERMINATOR: string := "limitations under the License."

  predicate IsHeader(text: string) {
    Contains(text, MARKER) && Contains(text, LICENSE) && Contains(text, TERMINATOR)
  }

  predicate IsGoBuild(text: string) {
    text == "//go:build" || HasPrefix(text, "//go:build ")
  }

  predicate IsPlusBuild(text: string) {
    text == "// +build" || HasPrefix(text, "// +build ")
  }

  predicate IsBuildConstraint(text: string) {
    IsGoBuild(TrimSpace(text)) || IsPlusBuild(TrimSpace(text))
  }

  predicate IsGeneratedMarker(text: string) {
    HasPrefix(TrimSpace(text), "// Code generated ") && HasSuffix(TrimSpace(text), " DO NOT EDIT.")
  }

  /** The index of the next comment at or after n, or the length. */
  function NextComment(ts: seq<Token>, n: nat): (j: nat)
    requires n <= |ts|
    ensures n <= j <= |ts|
    ensures j < |ts| ==> ts[j].Comment?
    decreases |ts| - n
  {
    if n == |ts| || ts[n].Comment? then n else NextComment(ts, n + 1)
  }

  lemma {:induction false} OnlyBlanksBeforeNext(ts: seq<Token>, n: nat)
    requires n <= |ts|
    ensures forall k :: n <= k < NextComment(ts, n) ==> ts[k].Ws?
    decreases |ts| - n
  {
    if n < |ts| && !ts[n].Comment? {
      OnlyBlanksBeforeNext(ts, n + 1);
    }
  }

  function CountLineFeeds(s: string): nat {
    if s == "" then 0 else (if s[0] == '\n' then 1 else 0) + CountLineFeeds(s[1..])
  }

  /** Two line comments with only white space and exactly one line feed in between. */
  predicate Adjacent(current: string, between: string, next: string) {
    HasPrefix(current, "//") && HasPrefix(next, "//") && Blank(between) && CountLineFeeds(between) == 1
  }

  /** The next comment belongs to the same group. */
  predicate Joins(current: string, between: string, next: string) {
    Adjacent(current, between, next) && !IsBuildConstraint(next) && !IsGeneratedMarker(next)
  }

  /** The text of the tokens from number a up to number b. */
  function Between(ts: seq<Token>, a: nat, b: nat): string
    requires a <= b <= |ts|
    decreases b - a
  {
    if a == b then "" else TextOf(ts[a]) + Between(ts, a + 1, b)
  }

  lemma {:induction false} BetweenIsText(ts: seq<Token>, a: nat, b: nat)
    requires a <= b <= |ts|
    ensures Between(ts, a, b) == Unparse(ts[a..b])
    decreases b - a
  {
    if a < b {
      BetweenIsText(ts, a + 1, b);
      assert ts[a..b] == [ts[a]] + ts[a + 1..b];
      UnparseCons(ts[a], ts[a + 1..b]);
    }
  }

  predicate EndsHeader(text: string) {
    Contains(text, TERMINATOR)
  }

  /** A line comment that may start a header. */
  predicate StartsGroup(text: string) {
    !HasPrefix(text, "/*") && HasPrefix(text, "//") && Contains(text, MARKER)
  }

  /** A block comment that is a header by itself. */
  predicate IsBlockHeader(text: string) {
    HasPrefix(text, "/*") && IsHeader(text)
  }

  /** What the removal asks of comment texts; most of what holds of it holds for any such questions. */
  datatype Rules = Rules(
    joins: (string, string, string) -> bool,
    last: string -> bool,
    starts: string -> bool,
    block: string -> bool,
    header: string -> bool)

  const LICENSER: Rules := Rules(Joins, EndsHeader, StartsGroup, IsBlockHeader, IsHeader)

  /** The end of the comment group whose last comment so far is token n - 1. */
  function GroupEnd(r: Rules, ts: seq<Token>, n: nat): (m: nat)
    requires 0 < n <= |ts| && ts[n - 1].Comment?
    ensures n <= m <= |ts| && ts[m - 1].Comment?
    decreases |ts| - n
  {
    var j := NextComment(ts, n);
    if j == |ts| || !r.joins(ts[n - 1].text, Between(ts, n, j), ts[j].text) then n
    else if r.last(ts[j].text) then j + 1
    else GroupEnd(r, ts, j + 1)
  }

  /** The ends of the groups, by the comments that they have come to. */
  type Ends = nat -> nat

  function EndsBy(r: Rules, ts: seq<Token>): Ends {
    (n: nat) => if 0 < n <= |ts| && ts[n - 1].Comment? then GroupEnd(r, ts, n) else 0
  }

  /** How many tokens of ts, which starts with a comment, form a header to remove. */
  function HeaderLength(r: Rules, ts: seq<Token>): (n: nat)
    ensures n <= |ts|
    ensures n > 0 ==> ts[0].Comment? && ts[n - 1].Comment?
  {
    if ts == [] || ts[0].Ws? then 0
    else if r.starts(ts[0].text) then
      var n := GroupEnd(r, ts, 1);
      if r.header(Unparse(ts[..n])) then n else 0
    else if r.block(ts[0].text) then 1 else 0
  }

  /** A preamble cut into the tokens that stay and the headers that go. */
  datatype Segments = End | Keep(token: Token, rest: Segments) | Drop(group: seq<Token>, rest: Segments)

  /** cut says how many tokens at the front of a sequence are to go. */
  type Cutter = seq<Token> -> nat

  function SegmentsBy(cut: Cutter, ts: seq<Token>): Segments
    decreases |ts|
  {
    if ts == [] then End
    else
      var n := cut(ts);
      if 0 < n <= |ts| then Drop(ts[..n], SegmentsBy(cut, ts[n..]))
      else Keep(ts[0], SegmentsBy(cut, ts[1..]))
  }

  function All(segments: Segments): seq<Token> {
    match segments
    case End => []
    case Keep(t, rest) => [t] + All(rest)
    case Drop(g, rest) => g + All(rest)
  }

  function Kept(segments: Segments): seq<Token> {
    match segments
    case End => []
    case Keep(t, rest) => [t] + Kept(rest)
    case Drop(_, rest) => Kept(rest)
  }

  function Removed(cut: Cutter, ts: seq<Token>): seq<Token> {
    Kept(SegmentsBy(cut, ts))
  }

  function LengthBy(r: Rules): Cutter {
    (ts: seq<Token>) => HeaderLength(r, ts)
  }

  const HEADERS: Cutter := LengthBy(LICENSER)

  function RemoveHeaders(ts: seq<Token>): seq<Token> {
    Removed(HEADERS, ts)
  }

  predicate IsGroup(group: seq<Token>) {
    group != [] && group[0].Comment? && group[|group| - 1].Comment?
  }

  predicate SoundRules(r: Rules, text: string) {
    r.block(text) ==> r.header(text)
  }

  lemma {:induction false} HeaderIsGroup(r: Rules, ts: seq<Token>, n: nat)
    requires n == HeaderLength(r, ts) && n > 0 && SoundRules(r, ts[0].text)
    ensures IsGroup(ts[..n]) && r.header(Unparse(ts[..n]))
  {
    if !r.starts(ts[0].text) {
      assert ts[..1] == [ts[0]] + [];
      UnparseCons(ts[0], []);
      assert ts[0].text + "" == ts[0].text;
    }
  }

  lemma {:induction false} SegmentsCover(cut: Cutter, ts: seq<Token>)
    ensures All(SegmentsBy(cut, ts)) == ts
    decreases |ts|
  {
    if ts != [] {
      var n := cut(ts);
      if 0 < n <= |ts| {
        SegmentsCover(cut, ts[n..]);
        assert ts == ts[..n] + ts[n..];
      } else {
        SegmentsCover(cut, ts[1..]);
        assert ts == [ts[0]] + ts[1..];
      }
    }
  }

  predicate DropsHeaders(r: Rules, segments: Segments) {
    match segments
    case End => true
    case Keep(_, rest) => DropsHeaders(r, rest)
    case Drop(g, rest) => IsGroup(g) && r.header(Unparse(g)) && DropsHeaders(r, rest)
  }

  ghost predicate AllSound(r: Rules) {
    forall text :: SoundRules(r, text)
  }

  lemma {:induction false} SegmentsDropHeaders(r: Rules, ts: seq<Token>)
    requires AllSound(r)
    ensures DropsHeaders(r, SegmentsBy(LengthBy(r), ts))
    decreases |ts|
  {
    if ts != [] {
      var n := LengthBy(r)(ts);
      if n > 0 {
        assert SoundRules(r, ts[0].text);
        HeaderIsGroup(r, ts, n);
        SegmentsDropHeaders(r, ts[n..]);
      } else {
        SegmentsDropHeaders(r, ts[1..]);
      }
    }
  }

  lemma {:induction false} LicenserIsSound()
    ensures AllSound(LICENSER)
  {
  }

  lemma {:induction false} WellFormedSuffix(ts: seq<Token>, n: nat)
    requires WellFormed(ts) && n <= |ts|
    ensures WellFormed(ts[n..])
  {
    if n > 0 {
      WellFormedSuffix(ts[1..], n - 1);
      assert ts[1..][n - 1..] == ts[n..];
    }
  }

  lemma {:induction false} RemovalKeeps(cut: Cutter, ts: seq<Token>)
    requires ts != [] && !(0 < cut(ts) <= |ts|)
    ensures Removed(cut, ts) == [ts[0]] + Removed(cut, ts[1..])
  {
  }

  lemma {:induction false} RemovalDrops(cut: Cutter, ts: seq<Token>)
    requires 0 < cut(ts) <= |ts|
    ensures Removed(cut, ts) == Removed(cut, ts[cut(ts)..])
  {
  }

  /** No header starts with white space. */
  ghost predicate CutsAtComments(cut: Cutter) {
    forall ts: seq<Token> :: ts != [] && ts[0].Ws? ==> cut(ts) == 0
  }

  /** Removing headers leaves well-formed tokens, hence a preamble that scans to them. */
  lemma {:induction false} RemovalWellFormed(cut: Cutter, ts: seq<Token>)
    requires WellFormed(ts) && CutsAtComments(cut)
    ensures WellFormed(Removed(cut, ts))
    decreases |ts|
  {
    if ts == [] {
    } else if 0 < cut(ts) <= |ts| {
      WellFormedSuffix(ts, cut(ts));
      RemovalDrops(cut, ts);
      RemovalWellFormed(cut, ts[cut(ts)..]);
    } else {
      RemovalKeeps(cut, ts);
      RemovalWellFormed(cut, ts[1..]);
      if ts[0].Comment? && !IsBlockComment(ts[0].text) {
        assert cut(ts[1..]) == 0;
        RemovalKeeps(cut, ts[1..]);
      }
      WellFormedCons(ts[0], Removed(cut, ts[1..]));
    }
  }
}
