/**
 A source on which the header rewrite is not idempotent. A build constraint
 stands between the two halves of a header and keeps the first rewrite from
 recognising it; hoisting the constraint brings the halves together, so that the
 second rewrite takes them out.
 */
module LicenserExample {
  import opened Prelude
  import opened Text
  import opened Preamble
  import opened Licenser
  import opened LicenserProofs
  import opened LicenserIdempotence
  import opened LicenserTheorem
  import LicenserHeader

  const NOTICE: string := "// " + MARKER
  const CONSTRAINT: string := "//go:build " + "linux"
  const TERMS: string := "// " + LICENSE + "; " + TERMINATOR
  const BODY: string := "package p"

  const HALVED: string := Rows([NOTICE, CONSTRAINT, TERMS], "\n")

  /** A line comment that is no build constraint and holds no carriage return. */
  predicate Remark(c: string) {
    IsLineComment(c) && !IsBuildConstraint(c) && '\r' !in c
  }

  /** The first half of a header, the constraint in the middle, and the second half. */
  predicate Halves(a: string, g: string, b: string) {
    && Remark(a) && StartsGroup(a) && !IsHeader(a)
    && IsRow(g) && IsGoBuild(g) && !Contains(g, MARKER)
    && Remark(b) && !IsGeneratedMarker(b) && !Contains(b, MARKER) && Contains(b, LICENSE) && EndsHeader(b)
  }

  // ---- The three comments ------------------------------------------------

  lemma {:induction false} CharsOfOccurrence(s: string, sub: string, k: nat)
    requires Contains(s, sub) && k < |sub|
    ensures sub[k] in s
  {
    var i :| 0 <= i <= |s| && OccursAt(s, sub, i);
    assert s[i + k] == sub[k];
  }

  lemma {:induction false} LacksChar(s: string, sub: string, x: char)
    requires x in sub && x !in s
    ensures !Contains(s, sub)
  {
    var k :| 0 <= k < |sub| && sub[k] == x;
    if Contains(s, sub) {
      CharsOfOccurrence(s, sub, k);
    }
  }

  /** Text that can stand in a comment after "// ". */
  predicate Words(t: string) {
    t != "" && t[0] != '+' && !IsSpace(t[|t| - 1]) && '\n' !in t && '\r' !in t
  }

  lemma {:induction false} IsRemark(t: string)
    requires Words(t)
    ensures Remark("// " + t) && TrimSpace("// " + t) == "// " + t
  {
    var c := "// " + t;
    assert c[0] == '/' && c[1] == '/' && c[2] == ' ' && c[3] == t[0] && c[|c| - 1] == t[|t| - 1];
    TrimOfTrimmed(c, "");
    assert c + "" == c;
    assert "//go:build"[2] == 'g' && "//go:build "[2] == 'g' && "// +build"[3] == '+' && "// +build "[3] == '+';
  }

  /** A phrase in two pieces, and the characters it is made of. */
  lemma {:induction false} Phrase(phrase: string, a: string, b: string, x: char)
    requires phrase == a + b && a != "" && b != "" && a[0] != '+' && !IsSpace(b[|b| - 1])
    requires '\n' !in a && '\r' !in a && '\n' !in b && '\r' !in b
    ensures Words(phrase) && phrase[0] == a[0] && (x in phrase <==> x in a || x in b)
  {
  }

  lemma {:induction false} MarkerWords()
    ensures Words(MARKER) && MARKER[0] == 'C' && 'V' !in MARKER
  {
    LicenserHeader.MarkerPieces();
    Phrase(MARKER, "Copyright Octelium Labs, ", "LLC. All rights reserved.", 'V');
  }

  lemma {:induction false} LicenseWords()
    ensures Words(LICENSE) && LICENSE[0] == 'L' && 'C' !in LICENSE
  {
    LicenserHeader.LicensePieces();
    Phrase(LICENSE, "Licensed under the Apache ", "License, Version 2.0", 'C');
  }

  lemma {:induction false} LicenseHasV()
    ensures 'V' in LICENSE
  {
    LicenserHeader.LicensePieces();
    assert "License, Version 2.0"[9] == 'V';
    Phrase(LICENSE, "Licensed under the Apache ", "License, Version 2.0", 'V');
  }

  lemma {:induction false} TerminatorWords()
    ensures Words(TERMINATOR) && 'C' !in TERMINATOR
  {
    LicenserHeader.TerminatorPieces();
    Phrase(TERMINATOR, "limitations under ", "the License.", 'C');
  }

  lemma {:induction false} Within(a: string, sub: string, b: string)
    ensures Contains(a + sub + b, sub)
  {
    assert OccursAt(a + sub + b, sub, |a|);
  }

  lemma {:induction false} IsHalf(marker: string, license: string)
    requires marker == MARKER && Words(marker) && license == LICENSE && 'V' in license && 'V' !in marker
    ensures Remark("// " + marker) && StartsGroup("// " + marker) && !IsHeader("// " + marker)
  {
    var c := "// " + marker;
    IsRemark(marker);
    Within("// ", marker, "");
    assert "// " + marker + "" == c;
    NoBlock(c);
    assert 'V' !in "// ";
    LacksChar(c, license, 'V');
  }

  lemma {:induction false} NoticeIsHalf()
    ensures Remark(NOTICE) && StartsGroup(NOTICE) && !IsHeader(NOTICE)
  {
    MarkerWords();
    LicenseHasV();
    IsHalf(MARKER, LICENSE);
  }

  lemma {:induction false} NoCopyright(c: string)
    requires 'C' !in c
    ensures !Contains(c, MARKER)
  {
    MarkerWords();
    LacksChar(c, MARKER, 'C');
  }

  lemma {:induction false} IsGoRow(tag: string)
    requires Words(tag) && 'C' !in tag
    ensures var c := "//go:build " + tag; IsRow(c) && IsGoBuild(c) && !Contains(c, MARKER)
  {
    var prefix := "//go:build ";
    var c := prefix + tag;
    assert prefix[0] == '/' && prefix[1] == '/' && 'C' !in prefix && '\n' !in prefix && '\r' !in prefix;
    NoCopyright(c);
    assert c[0] == '/' && c[1] == '/' && c[|c| - 1] == tag[|tag| - 1];
    TrimOfTrimmed(c, "");
    assert c + "" == c;
  }

  lemma {:induction false} ConstraintIsRow()
    ensures IsRow(CONSTRAINT) && IsGoBuild(CONSTRAINT) && !Contains(CONSTRAINT, MARKER)
  {
    IsGoRow("linux");
  }

  /** The text of the second half, as one phrase. */
  lemma {:induction false} OtherHalfWords(license: string, terminator: string)
    requires Words(license) && Words(terminator)
    ensures Words(license + "; " + terminator)
    ensures "// " + license + "; " + terminator == "// " + (license + "; " + terminator)
  {
    assert "; " == ";" + " ";
    Assoc("// ", license, "; ");
    Assoc("// ", license + "; ", terminator);
  }

  lemma {:induction false} OtherHalfHolds(license: string, terminator: string)
    ensures var c := "// " + license + "; " + terminator; Contains(c, license) && Contains(c, terminator)
  {
    var c := "// " + license + "; " + terminator;
    Within("// ", license, "; " + terminator);
    Assoc("// " + license, "; ", terminator);
    Within("// " + license + "; ", terminator, "");
    assert c + "" == c;
  }

  lemma {:induction false} IsOtherHalf(license: string, terminator: string)
    requires license == LICENSE && terminator == TERMINATOR
    requires Words(license) && Words(terminator) && license[0] == 'L' && 'C' !in license && 'C' !in terminator
    ensures var c := "// " + license + "; " + terminator;
            Remark(c) && !IsGeneratedMarker(c) && !Contains(c, MARKER) && Contains(c, license) && EndsHeader(c)
  {
    var c := "// " + license + "; " + terminator;
    OtherHalfWords(license, terminator);
    IsRemark(license + "; " + terminator);
    assert 'C' !in "// " && 'C' !in "; ";
    NoCopyright(c);
    assert "// Code generated "[3] == 'C' && c[3] == 'L';
    OtherHalfHolds(license, terminator);
  }

  lemma {:induction false} TermsAreHalf()
    ensures Remark(TERMS) && !IsGeneratedMarker(TERMS) && !Contains(TERMS, MARKER)
    ensures Contains(TERMS, LICENSE) && EndsHeader(TERMS)
  {
    LicenseWords();
    TerminatorWords();
    IsOtherHalf(LICENSE, TERMINATOR);
  }

  lemma {:induction false} ExampleIsHalved()
    ensures Halves(NOTICE, CONSTRAINT, TERMS)
  {
    NoticeIsHalf();
    ConstraintIsRow();
    TermsAreHalf();
  }

  // ---- What the scans find -----------------------------------------------

  lemma {:induction false} CommentsScan(rows: seq<string>)
    requires Comments(rows)
    ensures IsPreamble(Rows(rows, "\n")) && Tokens(Rows(rows, "\n")) == RowTokens(rows)
  {
    if rows != [] {
      ScanLine(rows[0]);
      CommentsScan(rows[1..]);
      ScanAppend(Code, rows[0] + "\n", Rows(rows[1..], "\n"));
    }
  }

  lemma {:induction false} NoBlock(t: string)
    requires IsLineComment(t)
    ensures !HasPrefix(t, "/*")
  {
    assert "/*"[1] == '*' && "//"[1] == '/';
  }

  /** A line comment without the marker, and the line feed after it, stay. */
  lemma {:induction false} UnmarkedStays(t: string, rest: seq<Token>)
    requires IsLineComment(t) && !Contains(t, MARKER)
    ensures RemoveHeaders([Comment(t)] + ([Ws('\n')] + rest)) == [Comment(t)] + ([Ws('\n')] + RemoveHeaders(rest))
  {
    NoBlock(t);
    RemovalSkips(Comment(t), [Ws('\n')] + rest);
    RemovalSkips(Ws('\n'), rest);
  }

  lemma {:induction false} HalfStays(a: string, g: string, rest: seq<Token>)
    requires Remark(a) && StartsGroup(a) && !IsHeader(a) && IsRow(g)
    ensures HEADERS([Comment(a)] + ([Ws('\n')] + ([Comment(g)] + rest))) == 0
  {
    var ts := [Comment(a)] + ([Ws('\n')] + ([Comment(g)] + rest));
    assert ts[0] == Comment(a) && ts[1] == Ws('\n') && ts[2] == Comment(g);
    assert NextComment(ts, 1) == NextComment(ts, 2) == 2;
    assert !Joins(a, Between(ts, 1, 2), g);
    assert GroupEnd(LICENSER, ts, 1) == 1;
    assert ts[..1] == [Comment(a)] + [];
    UnparseCons(Comment(a), []);
    assert a + "" == a;
    NoBlock(a);
  }

  lemma {:induction false} RowTokensCons(row: string, rows: seq<string>)
    ensures RowTokens([row] + rows) == [Comment(row)] + ([Ws('\n')] + RowTokens(rows))
    ensures Rows([row] + rows, "\n") == row + "\n" + Rows(rows, "\n")
  {
    assert ([row] + rows)[1..] == rows;
  }

  lemma {:induction false} ThreeRows(a: string, g: string, b: string)
    ensures RowTokens([a, g, b]) == [Comment(a)] + ([Ws('\n')] + ([Comment(g)] + ([Ws('\n')] + ([Comment(b)] + ([Ws('\n')] + [])))))
  {
    assert [a, g, b] == [a] + [g, b] && [g, b] == [g] + [b] && [b] == [b] + [];
    RowTokensCons(a, [g, b]);
    RowTokensCons(g, [b]);
    RowTokensCons(b, []);
  }

  /** The first scan removes nothing. */
  lemma {:induction false} FirstScan(a: string, g: string, b: string)
    requires Halves(a, g, b)
    ensures RemoveHeaders(RowTokens([a, g, b])) == RowTokens([a, g, b])
  {
    var t: seq<Token> := [];
    var tb := [Comment(b)] + ([Ws('\n')] + t);
    var tg := [Comment(g)] + ([Ws('\n')] + tb);
    ThreeRows(a, g, b);
    UnmarkedStays(b, t);
    UnmarkedStays(g, tb);
    HalfStays(a, g, [Ws('\n')] + tb);
    RemovalSkips(Comment(a), [Ws('\n')] + tg);
    RemovalSkips(Ws('\n'), tg);
  }

  lemma {:induction false} HalvesTogether(a: string, b: string)
    requires Contains(a, MARKER) && Contains(b, LICENSE) && Contains(b, TERMINATOR)
    ensures IsHeader(a + ("\n" + b))
  {
    ContainsWider("", a, "\n" + b, MARKER);
    ContainsWider(a + "\n", b, "", LICENSE);
    ContainsWider(a + "\n", b, "", TERMINATOR);
    assert "" + a + ("\n" + b) == a + ("\n" + b);
    assert a + "\n" + b + "" == a + ("\n" + b);
  }

  lemma {:induction false} OneLineFeed()
    ensures Blank("\n") && CountLineFeeds("\n") == 1
  {
    assert "\n"[1..] == "";
  }

  /** Without the constraint in between the halves are one header. */
  lemma {:induction false} SecondScan(a: string, g: string, b: string)
    requires Halves(a, g, b)
    ensures RemoveHeaders(RowTokens([a, b])) == [Ws('\n')]
  {
    var ts := [Comment(a), Ws('\n'), Comment(b), Ws('\n')];
    assert [a, b] == [a] + [b] && [b] == [b] + [];
    RowTokensCons(a, [b]);
    RowTokensCons(b, []);
    assert RowTokens([a, b]) == ts;
    assert NextComment(ts, 1) == NextComment(ts, 2) == 2;
    assert Between(ts, 1, 2) == "\n" + Between(ts, 2, 2) == "\n";
    OneLineFeed();
    assert Joins(a, "\n", b);
    assert GroupEnd(LICENSER, ts, 1) == 3;
    var group := [Comment(a)] + ([Ws('\n')] + ([Comment(b)] + []));
    assert ts[..3] == group;
    UnparseCons(Comment(a), [Ws('\n')] + ([Comment(b)] + []));
    UnparseCons(Ws('\n'), [Comment(b)] + []);
    UnparseCons(Comment(b), []);
    assert b + "" == b;
    HalvesTogether(a, b);
    assert HEADERS(ts) == 3;
    RemovalDrops(HEADERS, ts);
    assert ts[3..] == [Ws('\n')] + [];
    RemovalSkips(Ws('\n'), []);
  }

  // ---- The lines ---------------------------------------------------------

  lemma {:induction false} CommentIsLine(t: string)
    requires IsLineComment(t)
    ensures IsLine(t + "\n") && Ended(t + "\n") && TrimSpace(t + "\n") == TrimSpace(t)
  {
    TrimIgnoresTrailing(t, "\n");
  }

  function RowsAsLines(rows: seq<string>): seq<string> {
    if rows == [] then [] else [rows[0] + "\n"] + RowsAsLines(rows[1..])
  }

  lemma {:induction false} LinesOfRows(rows: seq<string>)
    requires Comments(rows)
    ensures Lines(Rows(rows, "\n")) == RowsAsLines(rows)
  {
    if rows != [] {
      var first, rest := rows[0] + "\n", Rows(rows[1..], "\n");
      CommentIsLine(rows[0]);
      LinesOfRows(rows[1..]);
      LineEndOfLine(first, rest);
      assert (first + rest)[..|first|] == first && (first + rest)[|first|..] == rest;
    }
  }

  lemma {:induction false} RowsAsLinesCons(row: string, rows: seq<string>)
    ensures RowsAsLines([row] + rows) == [row + "\n"] + RowsAsLines(rows)
  {
    assert ([row] + rows)[1..] == rows;
  }

  lemma {:induction false} RemarkLine(a: string, rest: seq<string>)
    requires Remark(a)
    ensures !IsBuildConstraint(a + "\n")
    ensures GoTexts([a + "\n"] + rest) == GoTexts(rest) && PlusTexts([a + "\n"] + rest) == PlusTexts(rest)
    ensures OtherLines([a + "\n"] + rest) == [a + "\n"] + OtherLines(rest)
  {
    CommentIsLine(a);
    var ls := [a + "\n"] + rest;
    assert ls[1..] == rest;
    assert [] + GoTexts(rest) == GoTexts(rest) && [] + PlusTexts(rest) == PlusTexts(rest);
  }

  lemma {:induction false} ConstraintRow(g: string, rest: seq<string>)
    requires IsRow(g) && IsGoBuild(g)
    ensures GoTexts([g + "\n"] + rest) == [g] + GoTexts(rest) && PlusTexts([g + "\n"] + rest) == PlusTexts(rest)
    ensures OtherLines([g + "\n"] + rest) == OtherLines(rest)
  {
    CommentIsLine(g);
    var ls := [g + "\n"] + rest;
    assert ls[1..] == rest;
    assert [] + OtherLines(rest) == OtherLines(rest) && [] + PlusTexts(rest) == PlusTexts(rest);
  }

  /** The constraint is hoisted, and the halves stay behind. */
  lemma {:induction false} HalvesHoist(a: string, g: string, b: string)
    requires Halves(a, g, b)
    ensures var ls := RowsAsLines([a, g, b]);
            GoTexts(ls) == [g] && PlusTexts(ls) == [] && OtherLines(ls) == RowsAsLines([a, b])
  {
    var lb := [b + "\n"] + [];
    assert [a, g, b] == [a] + [g, b] && [g, b] == [g] + [b] && [b] == [b] + [] && [a, b] == [a] + [b];
    RowsAsLinesCons(a, [g, b]);
    RowsAsLinesCons(g, [b]);
    RowsAsLinesCons(b, []);
    RowsAsLinesCons(a, [b]);
    RemarkLine(b, []);
    ConstraintRow(g, lb);
    RemarkLine(a, [g + "\n"] + lb);
    assert [g] + [] == [g];
  }

  lemma {:induction false} FlattenRows(rows: seq<string>)
    ensures Flatten(RowsAsLines(rows)) == Rows(rows, "\n")
  {
    if rows != [] {
      FlattenRows(rows[1..]);
      FlattenCons(rows[0] + "\n", RowsAsLines(rows[1..]));
    }
  }

  lemma {:induction false} CommentsTrim(rows: seq<string>)
    requires Comments(rows)
    ensures TrimBlankLines(Rows(rows, "\n")) == Rows(rows, "\n")
  {
    if rows != [] {
      var s := Rows(rows, "\n");
      CommentStart(rows[0]);
      assert s[0] == rows[0][0] == '/';
      assert s[..LineEnd(s)][0] == '/';
    }
  }

  lemma {:induction false} RowsWholeLines(rows: seq<string>)
    requires Comments(rows)
    ensures WholeLines(RowsAsLines(rows), Code)
  {
    if rows != [] {
      ScanLine(rows[0]);
      RowsWholeLines(rows[1..]);
      assert RowsAsLines(rows)[1..] == RowsAsLines(rows[1..]);
    }
  }

  /** A preamble of line comments in which the scan finds no header. */
  lemma {:induction false} StablePreamble(rows: seq<string>)
    requires Comments(rows) && RemoveHeaders(RowTokens(rows)) == RowTokens(rows)
    ensures var pre := Rows(rows, "\n");
            && IsPreamble(pre) && Unheadered(pre) == pre && Lines(pre) == RowsAsLines(rows)
            && WholeLines(RowsAsLines(rows), Code)
  {
    CommentsScan(rows);
    TokensParts(Rows(rows, "\n"));
    LinesOfRows(rows);
    RowsWholeLines(rows);
  }

  lemma {:induction false} RemainderOf(rows: seq<string>, left: seq<string>)
    requires Comments(rows) && Comments(left) && RemoveHeaders(RowTokens(rows)) == RowTokens(rows)
    requires OtherLines(RowsAsLines(rows)) == RowsAsLines(left)
    ensures Remainder(Rows(rows, "\n")) == Rows(left, "\n")
  {
    StablePreamble(rows);
    FlattenRows(left);
    CommentsTrim(left);
  }

  lemma {:induction false} HalvedLfOnly(a: string, g: string, b: string)
    requires Halves(a, g, b)
    ensures LfOnly(Rows([a, g, b], "\n"))
  {
    assert [a, g, b] == [a] + [g, b] && [g, b] == [g] + [b] && [b] == [b] + [];
    RowTokensCons(a, [g, b]);
    RowTokensCons(g, [b]);
    RowTokensCons(b, []);
  }

  lemma {:induction false} StableIsPlain(rows: seq<string>, body: string)
    requires rows != [] && Comments(rows) && RemoveHeaders(RowTokens(rows)) == RowTokens(rows)
    requires LfOnly(Rows(rows, "\n")) && LfOnly(body) && StartsClause(body)
    ensures var pre := Rows(rows, "\n"); Plain(pre + body) && Split(pre + body) == Some(Parts("", pre, body))
  {
    var pre := Rows(rows, "\n");
    StablePreamble(rows);
    CommentStart(rows[0]);
    assert pre[0] == rows[0][0] == '/';
    assert (pre + body)[0] == '/' && [BOM][0] == BOM;
    SplitOf("", pre, body);
    assert "" + pre + body == pre + body;
  }

  lemma {:induction false} EmptyLineIs()
    ensures Lines("\n") == ["\n"] && TrimBlankLines("\n") == "" && !IsBuildConstraint("\n")
  {
    var s := "\n";
    assert s[1..] == "" && s[..1] == s && LineEnd(s) == 1;
    assert Lines(s) == [s] + Lines("") == [s];
    TrimOfBlank(s);
  }

  /** An empty line below the header is neither a constraint nor kept. */
  lemma {:induction false} EmptyLineVanishes()
    ensures Lines("\n") == ["\n"] && GoTexts(["\n"]) == [] && PlusTexts(["\n"]) == []
    ensures TrimBlankLines(Flatten(OtherLines(["\n"]))) == ""
  {
    var ls := ["\n"];
    EmptyLineIs();
    assert ls[1..] == [] && ls == ["\n"] + [];
    assert OtherLines(ls) == ["\n"] + [];
    FlattenCons("\n", []);
    assert "\n" + "" == "\n";
  }

  lemma {:induction false} HalvesVanish(a: string, g: string, b: string)
    requires Halves(a, g, b)
    ensures Unheadered(Rows([a, b], "\n")) == "\n"
  {
    CommentsScan([a, b]);
    SecondScan(a, g, b);
    assert [Ws('\n')] == [Ws('\n')] + [];
    UnparseCons(Ws('\n'), []);
  }

  /** The first scan keeps all rows, and the second one drops those that are left. */
  predicate ScannedTwice(rows: seq<string>, left: seq<string>) {
    RemoveHeaders(RowTokens(rows)) == RowTokens(rows) && Unheadered(Rows(left, "\n")) == "\n"
  }

  predicate Hoisted(rows: seq<string>, left: seq<string>, go: seq<string>) {
    && GoTexts(RowsAsLines(rows)) == go && PlusTexts(RowsAsLines(rows)) == []
    && OtherLines(RowsAsLines(rows)) == RowsAsLines(left)
  }

  predicate PlainRows(rows: seq<string>, left: seq<string>) {
    Comments(rows) && Comments(left) && LfOnly(Rows(rows, "\n")) && Rows(left, "\n") != ""
  }

  /** The rows at the end are dropped, but not before the second rewrite. */
  predicate DroppedLater(rows: seq<string>, left: seq<string>, go: seq<string>) {
    PlainRows(rows, left) && ScannedTwice(rows, left) && Hoisted(rows, left, go)
  }

  lemma {:induction false} RestShows(go: seq<string>, header: string, rest: string, body: string)
    requires rest != ""
    ensures NewPreamble(go, header, rest) + body != NewPreamble(go, header, "") + body
  {
    assert |NewPreamble(go, header, rest) + body| == |NewPreamble(go, header, "") + body| + |rest|;
  }

  lemma {:induction false} RowsRewrittenTwice(rows: seq<string>, left: seq<string>, go: seq<string>, body: string, header: string)
    requires rows != [] && DroppedLater(rows, left, go) && GoodHeader(header)
    requires LfOnly(body) && StartsClause(body)
    ensures var src := Rows(rows, "\n") + body;
            var once := NewPreamble(go, header, Rows(left, "\n")) + body;
            && Plain(src) && Rewrite(src, header) == Some(once)
            && Rewrite(once, header) == Some(NewPreamble(go, header, "") + body)
  {
    var pre, rest := Rows(rows, "\n"), Rows(left, "\n");
    var none: seq<string> := [];
    StableIsPlain(rows, body);
    StablePreamble(rows);
    RemainderOf(rows, left);
    EmptyLineVanishes();
    TwoRewrites(pre + body, header);
    assert go + none == go && none + none == none;
    assert "" + NewPreamble(go, header, rest) == NewPreamble(go, header, rest);
    assert "" + NewPreamble(go, header, "") == NewPreamble(go, header, "");
  }

  lemma {:induction false} HalvesArePlain(a: string, g: string, b: string)
    requires Halves(a, g, b)
    ensures PlainRows([a, g, b], [a, b])
  {
    HalvedLfOnly(a, g, b);
    RowTokensCons(a, [b]);
    assert [a] + [b] == [a, b];
  }

  lemma {:induction false} HalvesScanned(a: string, g: string, b: string)
    requires Halves(a, g, b)
    ensures ScannedTwice([a, g, b], [a, b])
  {
    FirstScan(a, g, b);
    HalvesVanish(a, g, b);
  }

  lemma {:induction false} HalvesDropped(a: string, g: string, b: string)
    requires Halves(a, g, b)
    ensures DroppedLater([a, g, b], [a, b], [g])
  {
    HalvesArePlain(a, g, b);
    HalvesScanned(a, g, b);
    HalvesHoist(a, g, b);
  }

  lemma {:induction false} BodyFacts()
    ensures LfOnly(BODY) && StartsClause(BODY)
  {
  }

  /**
   Whenever a constraint halves a header, two rewrites in a row give different
   texts: the first leaves the halves below its own header, the second drops them.
   */
  lemma {:induction false} HalvedHeaderNeedsTwoRewrites(a: string, g: string, b: string, header: string)
    requires Halves(a, g, b) && GoodHeader(header)
    ensures var src := Rows([a, g, b], "\n") + BODY;
            var once := NewPreamble([g], header, Rows([a, b], "\n")) + BODY;
            var twice := NewPreamble([g], header, "") + BODY;
            && Plain(src) && once != twice
            && Rewrite(src, header) == Some(once) && Rewrite(once, header) == Some(twice)
  {
    var rows, left := [a, g, b], [a, b];
    HalvesDropped(a, g, b);
    BodyFacts();
    RowsRewrittenTwice(rows, left, [g], BODY, header);
    RestShows([g], header, Rows(left, "\n"), BODY);
  }

  /** One such source, with the header that the licenser puts in. */
  lemma {:induction false} RewriteIsNotAlwaysIdempotent()
    ensures var src := HALVED + BODY;
            && Plain(src) && Rewrite(src, LicenserHeader.APACHE_HEADER).Some?
            && Rewrite(Rewrite(src, LicenserHeader.APACHE_HEADER).value, LicenserHeader.APACHE_HEADER)
               != Rewrite(src, LicenserHeader.APACHE_HEADER)
  {
    ExampleIsHalved();
    LicenserHeader.ApacheHeaderIsGood();
    HalvedHeaderNeedsTwoRewrites(NOTICE, CONSTRAINT, TERMS, LicenserHeader.APACHE_HEADER);
  }
}
