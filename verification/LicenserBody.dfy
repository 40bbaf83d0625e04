/**
 Whether what the rewrite puts out is still a source with the same body. Hoisting
 takes whole lines, so it is not if a constraint's line was part of a block comment.
 */
module LicenserBody {
  import opened Prelude
  import opened Text
  import opened Preamble
  import opened Licenser
  import opened LicenserProofs
  import opened LicenserIdempotence
  import opened LicenserTheorem
  import LicenserHeader
  import LicenserExample

  lemma {:induction false} FrontScans(rows: seq<string>, header: string)
    requires Comments(rows) && GoodHeader(header)
    ensures IsPreamble(Block(rows, "\n") + header + "\n" + "\n")
  {
    var b := Block(rows, "\n");
    LineFeedScans();
    LicenserExample.CommentsScan(rows);
    if rows != [] {
      ScanAppend(Code, Rows(rows, "\n"), "\n");
    }
    ScanAppend(Code, b, header);
    ScanAppend(Code, b + header, "\n");
    ScanAppend(Code, b + header + "\n", "\n");
  }

  lemma {:induction false} NewPreambleScansIff(rows: seq<string>, header: string, rest: string)
    requires Comments(rows) && GoodHeader(header)
    ensures IsPreamble(NewPreamble(rows, header, rest)) <==> IsPreamble(rest)
  {
    FrontScans(rows, header);
    ScanAppend(Code, Block(rows, "\n") + header + "\n" + "\n", rest);
  }

  lemma {:induction false} NewPreambleOpens(rows: seq<string>, header: string, rest: string)
    requires Comments(rows) && GoodHeader(header)
    ensures NewPreamble(rows, header, rest) != "" && NewPreamble(rows, header, rest)[0] == '/'
  {
    assert "/*"[0] == '/';
    if rows != [] {
      CommentStart(rows[0]);
      assert Rows(rows, "\n")[0] == rows[0][0];
    }
  }

  /** A source with a given start is split at a given body only if what is in between is a preamble. */
  lemma {:induction false} SplitsAtIff(bom: string, pre: string, body: string)
    requires bom == "" || bom == [BOM]
    requires pre != "" && pre[0] == '/' && StartsClause(body)
    ensures var out := bom + pre + body;
            Split(out).Some? && Split(out).value.body == body <==> IsPreamble(pre)
  {
    var out := bom + pre + body;
    assert (pre + body)[0] == '/' && [BOM][0] == BOM;
    if IsPreamble(pre) {
      SplitOf(bom, pre, body);
    }
    if Split(out).Some? && Split(out).value.body == body {
      var q := Split(out).value;
      SplitParts(out);
      BomIs(bom, pre, body, q);
      SameFrame(bom, pre, q.preamble, body);
    }
  }

  lemma {:induction false} BomIs(bom: string, pre: string, body: string, q: Parts)
    requires (bom == "" || bom == [BOM]) && (q.bom == "" || q.bom == [BOM])
    requires pre != "" && pre[0] == '/'
    requires bom + pre + body == q.bom + q.preamble + q.body
    requires q.bom == "" ==> !HasPrefix(bom + pre + body, [BOM])
    ensures q.bom == bom
  {
    var out := bom + pre + body;
    assert bom == [BOM] ==> out[0] == BOM;
    assert bom == "" ==> out[0] == '/';
    assert q.bom == [BOM] ==> (q.bom + q.preamble + q.body)[0] == BOM;
  }

  lemma {:induction false} ConstraintsAreComments(preamble: string)
    ensures Comments(Constraints(Lines(Unheadered(preamble))))
  {
    var ls := Lines(Unheadered(preamble));
    LinesAre(Unheadered(preamble));
    TextsAreComments(ls);
    CommentsAppend(GoTexts(ls), PlusTexts(ls));
  }

  /**
   The rewrite of a source without carriage returns splits at the same body if and
   only if what is left below the header is a preamble by itself.
   */
  lemma {:induction false} SameBodyIff(src: string, header: string)
    requires Split(src).Some? && LfOnly(src) && GoodHeader(header)
    ensures var p := Split(src).value;
            && Rewrite(src, header).Some?
            && (var out := Rewrite(src, header).value;
                Split(out).Some? && Split(out).value.body == p.body <==> IsPreamble(Remainder(p.preamble)))
  {
    var p := Split(src).value;
    var rows, rest := Constraints(Lines(Unheadered(p.preamble))), Remainder(p.preamble);
    SplitParts(src);
    OneRewrite(src, p, header);
    ConstraintsAreComments(p.preamble);
    NewPreambleScansIff(rows, header, rest);
    NewPreambleOpens(rows, header, rest);
    SplitsAtIff(p.bom, NewPreamble(rows, header, rest), p.body);
  }

  /** It is one whenever all constraints are whole line comments. */
  lemma {:induction false} WholeLinesKeepTheBody(src: string, header: string)
    requires Plain(src) && GoodHeader(header)
    ensures Rewrite(src, header).Some?
    ensures var out := Rewrite(src, header).value; Split(out).Some? && Split(out).value.body == Split(src).value.body
  {
    var p := Split(src).value;
    SplitParts(src);
    UnheaderedFacts(p.preamble);
    RestFacts(Unheadered(p.preamble));
    SameBodyIff(src, header);
  }

  // ---- A constraint inside of a block comment ----------------------------

  const OPENING: string := "/*" + "\n"
  const INSIDE: string := "//go:build " + "x " + "*/"

  lemma {:induction false} OpeningScans()
    ensures ModeAfter(Code, OPENING) == BlockText(OPENING, false) && Emit(Code, OPENING) == []
  {
    LicenserHeader.ScanOpen();
  }

  /** Text that stays inside of a block comment up to its end. */
  lemma {:induction false} BlockEnds(open: string, text: string)
    requires '*' !in text
    ensures ModeAfter(BlockText(open, false), text + "*" + "/") == Code
    ensures Emit(BlockText(open, false), text + "*" + "/") == [Comment(open + text + "*" + "/")]
  {
    var m := BlockText(open, false);
    LicenserHeader.ScanInBlock(m, text);
    ScanSnoc(m, text, '*');
    ScanSnoc(m, text + "*", '/');
    assert text + ['*'] == text + "*" && text + "*" + ['/'] == text + "*" + "/";
    assert open + text + ['*'] + ['/'] == open + text + "*" + "/";
  }

  lemma {:induction false} InsidePieces()
    ensures INSIDE == "//go:build x " + "*" + "/" && '*' !in "//go:build x "
    ensures HasPrefix(INSIDE, "//go:build ") && '\n' !in INSIDE && INSIDE[|INSIDE| - 1] == '/'
  {
  }

  /** The preamble is one block comment and a line feed. */
  lemma {:induction false} ExampleScans()
    ensures IsPreamble(OPENING + INSIDE + "\n")
    ensures Tokens(OPENING + INSIDE + "\n") == [Comment(OPENING + INSIDE), Ws('\n')]
  {
    var text := "//go:build x ";
    InsidePieces();
    OpeningScans();
    BlockEnds(OPENING, text);
    Assoc(OPENING, text, "*");
    Assoc(OPENING, text + "*", "/");
    ScanAppend(Code, OPENING, INSIDE);
    LineFeedScans();
    ScanAppend(Code, OPENING + INSIDE, "\n");
    assert [] + [Comment(OPENING + INSIDE)] == [Comment(OPENING + INSIDE)];
    assert [Comment(OPENING + INSIDE)] + [Ws('\n')] == [Comment(OPENING + INSIDE), Ws('\n')];
  }

  const SPANNING: string := OPENING + INSIDE + "\n"

  lemma {:induction false} PartsLackC()
    ensures 'C' !in OPENING && 'C' !in INSIDE && '\r' !in OPENING && '\r' !in INSIDE
    ensures HasPrefix(OPENING, "/*")
  {
  }

  /** The comment is no header, so it stays. */
  lemma {:induction false} ExampleIsKept()
    ensures Unheadered(SPANNING) == SPANNING
  {
    var c, none := OPENING + INSIDE, [];
    ExampleScans();
    PartsLackC();
    assert HasPrefix(c, "/*");
    LicenserExample.NoCopyright(c);
    var ts := [Comment(c)] + ([Ws('\n')] + none);
    assert ts == Tokens(SPANNING);
    assert HEADERS(ts) == 0;
    RemovalSkips(Comment(c), [Ws('\n')] + none);
    RemovalSkips(Ws('\n'), none);
    TokensParts(SPANNING);
  }

  lemma {:induction false} OpeningIsNoConstraint()
    ensures IsLine(OPENING) && Ended(OPENING) && !IsBuildConstraint(OPENING) && !Blank(OPENING)
  {
    TrimOfTrimmed("/*", "\n");
    assert OPENING[0] == '/';
    assert "//go:build"[1] == '/' && "//go:build "[1] == '/' && "// +build"[1] == '/' && "// +build "[1] == '/';
  }

  lemma {:induction false} InsideIsConstraint()
    ensures IsLine(INSIDE + "\n") && IsBuildConstraint(INSIDE + "\n")
  {
    InsidePieces();
    assert "//go:build "[0] == '/';
    TrimOfTrimmed(INSIDE, "\n");
  }

  /** The second line is hoisted, and the first one is left. */
  lemma {:induction false} ExampleLeaves()
    ensures Remainder(SPANNING) == OPENING
  {
    var ls := [OPENING, INSIDE + "\n"];
    ExampleIsKept();
    OpeningIsNoConstraint();
    InsideIsConstraint();
    assert ls == [OPENING] + [INSIDE + "\n"] && [INSIDE + "\n"] == [INSIDE + "\n"] + [] && [OPENING] == [OPENING] + [];
    FlattenCons(OPENING, [INSIDE + "\n"]);
    FlattenCons(INSIDE + "\n", []);
    FlattenCons(OPENING, []);
    assert INSIDE + "\n" + "" == INSIDE + "\n" && OPENING + "" == OPENING;
    Assoc(OPENING, INSIDE, "\n");
    LinesOfFlatten(ls);
    TextsSnoc([OPENING], INSIDE + "\n");
    TextsSnoc([], OPENING);
    assert [] + [OPENING] == [OPENING] && [OPENING] + [] == [OPENING];
    assert OtherLines(ls) == [OPENING];
    LineEndOfLine(OPENING, "");
  }

  lemma {:induction false} ExampleIsSource()
    ensures Split(SPANNING + LicenserExample.BODY) == Some(Parts("", SPANNING, LicenserExample.BODY)) && LfOnly(SPANNING + LicenserExample.BODY)
  {
    ExampleScans();
    PartsLackC();
    assert (SPANNING + LicenserExample.BODY)[0] == OPENING[0] == "/*"[0] == '/' && [BOM][0] == BOM;
    LicenserExample.BodyFacts();
    SplitOf("", SPANNING, LicenserExample.BODY);
    assert "" + SPANNING + LicenserExample.BODY == SPANNING + LicenserExample.BODY;
  }

  /**
   A valid source that the rewrite breaks: the second line of its comment looks like
   a constraint and is hoisted, which leaves the comment open in front of the body.
   */
  lemma {:induction false} RewriteMayLoseTheBody(header: string)
    requires GoodHeader(header)
    ensures var src := SPANNING + LicenserExample.BODY;
            && Split(src) == Some(Parts("", SPANNING, LicenserExample.BODY)) && LfOnly(src)
            && Rewrite(src, header).Some?
            && (var out := Rewrite(src, header).value; Split(out).Some? ==> Split(out).value.body != LicenserExample.BODY)
  {
    ExampleIsSource();
    ExampleLeaves();
    OpeningScans();
    SameBodyIff(SPANNING + LicenserExample.BODY, header);
  }
}
