/** The exact condition under which the header rewrite is idempotent. */
module LicenserTheorem {
  import opened Prelude
  import opened Text
  import opened Preamble
  import opened Licenser
  import opened LicenserProofs
  import opened LicenserIdempotence
  import LicenserHeader

  /** An LF-only source whose build constraints are whole line comments outside its headers. */
  predicate Plain(src: string) {
    && Split(src).Some? && LfOnly(src)
    && WholeLines(Lines(Unheadered(Split(src).value.preamble)), Code)
  }

  // ---- No carriage return appears ----------------------------------------

  lemma {:induction false} RemovalLfOnly(ts: seq<Token>)
    requires LfOnly(Unparse(ts))
    ensures LfOnly(Unparse(RemoveHeaders(ts)))
    decreases |ts|
  {
    if ts == [] {
    } else if HEADERS(ts) > 0 {
      var n := HEADERS(ts);
      assert ts == ts[..n] + ts[n..];
      UnparseAppend(ts[..n], ts[n..]);
      RemovalDrops(HEADERS, ts);
      RemovalLfOnly(ts[n..]);
    } else {
      RemovalKeeps(HEADERS, ts);
      RemovalLfOnly(ts[1..]);
      UnparseCons(ts[0], RemoveHeaders(ts[1..]));
    }
  }

  lemma {:induction false} LinesLfOnly(ls: seq<string>)
    requires LfOnly(Flatten(ls))
    ensures forall i :: 0 <= i < |ls| ==> LfOnly(ls[i])
  {
    if ls != [] {
      LinesLfOnly(ls[1..]);
      assert forall i :: 1 <= i < |ls| ==> ls[i] == ls[1..][i - 1];
    }
  }

  lemma {:induction false} OtherLinesLfOnly(ls: seq<string>)
    requires LfOnly(Flatten(ls))
    ensures LfOnly(Flatten(OtherLines(ls)))
  {
    if ls != [] {
      OtherLinesLfOnly(ls[1..]);
      assert OtherLines(ls) == (if IsBuildConstraint(ls[0]) then [] else [ls[0]]) + OtherLines(ls[1..]);
      FlattenCons(ls[0], OtherLines(ls[1..]));
      assert [] + OtherLines(ls[1..]) == OtherLines(ls[1..]);
    }
  }

  lemma {:induction false} RowsLfOnly(rows: seq<string>)
    requires AllRows(rows)
    ensures LfOnly(Rows(rows, "\n"))
  {
    if rows != [] {
      FirstRow(rows);
      RowsLfOnly(rows[1..]);
    }
  }

  lemma {:induction false} ReplaceNothing(s: string)
    requires LfOnly(s)
    ensures ReplaceCrLf(s) == s
  {
    if s != "" {
      ReplaceNothing(s[1..]);
    }
  }

  lemma {:induction false} EolOfLfOnly(s: string, header: string)
    requires LfOnly(s) && LfOnly(header)
    ensures Eol(s) == "\n" && WithEol(header, "\n") == header
  {
    ReplaceNothing(header);
    if Contains(s, "\r\n") {
      var i :| 0 <= i <= |s| && OccursAt(s, "\r\n", i);
      CharAt(s, "\r\n", i);
    }
  }

  lemma {:induction false} CharAt(s: string, sub: string, i: nat)
    requires OccursAt(s, sub, i) && sub != ""
    ensures sub[0] in s
  {
    assert s[i..i + |sub|][0] == s[i];
  }

  // ---- The first rewrite -------------------------------------------------

  lemma {:induction false} NoConstraintsLeft(ls: seq<string>)
    requires forall i :: 0 <= i < |ls| ==> !IsBuildConstraint(ls[i])
    ensures GoTexts(ls) == [] && PlusTexts(ls) == [] && OtherLines(ls) == ls
  {
    if ls != [] {
      NoConstraintsLeft(ls[1..]);
      assert ls == [ls[0]] + ls[1..];
    }
  }

  lemma {:induction false} TrimmedStays(s: string)
    ensures TrimBlankLines(TrimBlankLines(s)) == TrimBlankLines(s)
  {
    TrimmedStartsWithText(s);
  }

  /** The lines that trimming leaves are lines of the original. */
  lemma {:induction false} TrimmedLines(ls: seq<string>)
    requires LinesOk(ls)
    ensures forall l :: l in Lines(TrimBlankLines(Flatten(ls))) ==> l in ls
  {
    var s := Flatten(ls);
    var cut := TrimBlankLinesParts(s);
    LinesOfFlatten(ls);
    if TrimBlankLines(s) != "" {
      LinesAppend(cut, TrimBlankLines(s));
    }
  }

  /** A preamble without headers, and what the rewrite takes out of it. */
  lemma {:induction false} UnheaderedFacts(pre: string)
    requires IsPreamble(pre) && LfOnly(pre)
    ensures var r := Unheadered(pre);
            IsPreamble(r) && Tokens(r) == RemoveHeaders(Tokens(pre)) && LfOnly(r) && NoHeaderComment(Tokens(r))
  {
    TokensParts(pre);
    RemovalWellFormed(HEADERS, Tokens(pre));
    ScanUnparse(RemoveHeaders(Tokens(pre)));
    RemovalLfOnly(Tokens(pre));
    RemovalLeavesNoHeader(Tokens(pre));
  }

  lemma {:induction false} RowsFacts(r: string)
    requires IsPreamble(r) && LfOnly(r) && NoHeaderComment(Tokens(r)) && WholeLines(Lines(r), Code)
    ensures var ls := Lines(r);
            AllRows(GoTexts(ls)) && AllRows(PlusTexts(ls)) && AllRows(Constraints(ls))
            && AllGo(GoTexts(ls)) && NoGo(PlusTexts(ls))
  {
    var ls := Lines(r);
    LinesAre(r);
    LinesLfOnly(ls);
    ConstraintsAreRows(ls, Code);
    TextsAreRows(ls);
    GoTextsAreGo(ls);
  }

  lemma {:induction false} RestFacts(r: string)
    requires IsPreamble(r) && LfOnly(r) && WholeLines(Lines(r), Code)
    ensures var p := TrimBlankLines(Flatten(OtherLines(Lines(r))));
            && IsPreamble(p) && LfOnly(p) && TrimBlankLines(p) == p && (Blank(p) <==> p == "")
            && GoTexts(Lines(p)) == [] && PlusTexts(Lines(p)) == [] && OtherLines(Lines(p)) == Lines(p)
  {
    var ls := Lines(r);
    var o := Flatten(OtherLines(ls));
    var p := TrimBlankLines(o);
    LinesAre(r);
    OtherLinesScan(ls, Code);
    OtherLinesOk(ls);
    OtherLinesLfOnly(ls);
    TrimBlankLinesScan(o);
    TrimmedStays(o);
    TrimmedIsEmptyOrText(o);
    TrimmedLines(OtherLines(ls));
    var cut := TrimBlankLinesParts(o);
    assert LfOnly(p);
    forall i | 0 <= i < |Lines(p)| ensures !IsBuildConstraint(Lines(p)[i]) {
      assert Lines(p)[i] in Lines(p);
    }
    NoConstraintsLeft(Lines(p));
  }

  /** The preamble that a rewrite puts together from its parts. */
  function NewPreamble(rows: seq<string>, header: string, rest: string): string {
    Block(rows, "\n") + header + "\n" + "\n" + rest
  }

  lemma {:induction false} NewPreambleScans(rows: seq<string>, header: string, rest: string)
    requires AllRows(rows) && GoodHeader(header) && IsPreamble(rest)
    ensures IsPreamble(NewPreamble(rows, header, rest))
    ensures Tokens(NewPreamble(rows, header, rest)) == NewTokens(rows, header, Tokens(rest))
  {
    var b := Block(rows, "\n");
    BlockScans(rows);
    LineFeedScans();
    ScanAppend(Code, b, header);
    ScanAppend(Code, b + header, "\n");
    ScanAppend(Code, b + header + "\n", "\n");
    ScanAppend(Code, b + header + "\n" + "\n", rest);
    var bt := BlockTokens(rows);
    assert bt + [Comment(header)] + [Ws('\n')] + [Ws('\n')] == bt + [Comment(header), Ws('\n'), Ws('\n')];
  }

  /** Without its header, the new preamble is the block, blank lines and the rest's own remains. */
  lemma {:induction false} NewPreambleReopens(rows: seq<string>, header: string, rest: string)
    requires AllRows(rows) && GoodHeader(header) && IsPreamble(rest)
    ensures Unheadered(NewPreamble(rows, header, rest)) == Reopened(rows, Unheadered(rest))
  {
    NewPreambleScans(rows, header, rest);
    NewHeaderIsRemoved(rows, header, Tokens(rest));
    var blanks := [Ws('\n'), Ws('\n')];
    UnparseAppend(BlockTokens(rows) + blanks, RemoveHeaders(Tokens(rest)));
    UnparseAppend(BlockTokens(rows), blanks);
    BlockScans(rows);
    TokensParts(Block(rows, "\n"));
    UnparseCons(Ws('\n'), [Ws('\n')]);
    UnparseCons(Ws('\n'), []);
    assert Unparse(blanks) == "\n" + "\n" by {
      assert blanks == [Ws('\n')] + [Ws('\n')];
      assert [Ws('\n')] == [Ws('\n')] + [];
    }
    Assoc(Block(rows, "\n"), "\n", "\n");
  }

  lemma {:induction false} NewPreambleLfOnly(rows: seq<string>, header: string, rest: string)
    requires AllRows(rows) && LfOnly(header) && LfOnly(rest)
    ensures LfOnly(NewPreamble(rows, header, rest))
  {
    RowsLfOnly(rows);
  }

  lemma {:induction false} NewPreambleStart(rows: seq<string>, header: string, rest: string)
    requires AllRows(rows) && GoodHeader(header)
    ensures NewPreamble(rows, header, rest) != "" && NewPreamble(rows, header, rest)[0] == '/'
  {
    assert "/*"[0] == '/' && "//"[0] == '/';
    if rows != [] {
      FirstRow(rows);
      assert Rows(rows, "\n")[0] == rows[0][0];
    }
  }

  // ---- Both rewrites -----------------------------------------------------

  lemma {:induction false} Regroup(bom: string, block: string, header: string, eol: string, rest: string, body: string)
    ensures bom + block + header + eol + eol + rest + body == bom + (block + header + eol + eol + rest) + body
  {
    Assoc(bom, block, header);
    Assoc(bom, block + header, eol);
    Assoc(bom, block + header + eol, eol);
    Assoc(bom, block + header + eol + eol, rest);
  }

  /** What one rewrite yields, for a preamble given by its header-free text. */
  lemma {:induction false} OneRewrite(src: string, p: Parts, header: string)
    requires Split(src) == Some(p) && LfOnly(p.preamble + p.body) && LfOnly(header)
    ensures Rewrite(src, header) ==
      Some(p.bom + NewPreamble(Constraints(Lines(Unheadered(p.preamble))), header, Remainder(p.preamble)) + p.body)
  {
    EolOfLfOnly(p.preamble + p.body, header);
    TrimmedIsEmptyOrText(Flatten(OtherLines(Lines(Unheadered(p.preamble)))));
    var block := Block(Constraints(Lines(Unheadered(p.preamble))), "\n");
    Regroup(p.bom, block, header, "\n", Remainder(p.preamble), p.body);
  }

  /** The second rewrite, in terms of what the header scan makes of the rest. */
  lemma {:induction false} TwoRewrites(src: string, header: string)
    requires Plain(src) && GoodHeader(header)
    ensures var p := Split(src).value;
            var ls := Lines(Unheadered(p.preamble));
            var rest := Remainder(p.preamble);
            var again := Lines(Unheadered(rest));
            var out := p.bom + NewPreamble(Constraints(ls), header, rest) + p.body;
            && Rewrite(src, header) == Some(out)
            && Rewrite(out, header) == Some(p.bom + NewPreamble(
                 (GoTexts(ls) + GoTexts(again)) + (PlusTexts(ls) + PlusTexts(again)), header,
                 TrimBlankLines(Flatten(OtherLines(again)))) + p.body)
  {
    var p := Split(src).value;
    SplitParts(src);
    var r := Unheadered(p.preamble);
    var ls := Lines(r);
    var rows := Constraints(ls);
    var rest := Remainder(p.preamble);
    UnheaderedFacts(p.preamble);
    RowsFacts(r);
    RestFacts(r);
    OneRewrite(src, p, header);
    var pre := NewPreamble(rows, header, rest);
    NewPreambleScans(rows, header, rest);
    NewPreambleStart(rows, header, rest);
    NewPreambleLfOnly(rows, header, rest);
    SplitOf(p.bom, pre, p.body);
    NewPreambleReopens(rows, header, rest);
    ReopenedTexts(GoTexts(ls), PlusTexts(ls), Unheadered(rest));
    OneRewrite(p.bom + pre + p.body, Parts(p.bom, pre, p.body), header);
  }

  // ---- The block can be read off the text --------------------------------

  predicate Comments(rows: seq<string>) {
    forall i :: 0 <= i < |rows| ==> IsLineComment(rows[i])
  }

  lemma {:induction false} TextsAreComments(ls: seq<string>)
    requires forall i :: 0 <= i < |ls| ==> IsLine(ls[i])
    ensures Comments(GoTexts(ls)) && Comments(PlusTexts(ls))
  {
    if ls != [] {
      TextsAreComments(ls[1..]);
      if IsBuildConstraint(ls[0]) {
        var _, _ := ConstraintShape(ls[0]);
      }
    }
  }

  lemma {:induction false} CommentStart(c: string)
    requires IsLineComment(c)
    ensures |c| >= 2 && c[0] == '/' && c[1] == '/'
  {
    assert "//"[0] == '/' && "//"[1] == '/';
  }

  lemma {:induction false} FirstRowUnique(a: string, b: string, x: string, y: string)
    requires '\n' !in a && '\n' !in b && a + "\n" + x == b + "\n" + y
    ensures a == b && x == y
  {
    var s := a + "\n" + x;
    assert s[|a|] == '\n' && s[|b|] == '\n';
    assert forall i :: 0 <= i < |a| ==> s[i] == a[i];
    assert forall i :: 0 <= i < |b| ==> s[i] == b[i];
    assert |a| == |b|;
    assert s[..|a|] == a && s[..|b|] == b;
    assert s[|a| + 1..] == x && s[|b| + 1..] == y;
  }

  lemma {:induction false} RowsFirstChar(rows: seq<string>, x: string)
    requires Comments(rows)
    ensures (Rows(rows, "\n") + "\n" + x)[0] == if rows == [] then '\n' else '/'
  {
    if rows != [] {
      CommentStart(rows[0]);
      assert Rows(rows, "\n")[0] == rows[0][0];
    }
  }

  lemma {:induction false} RowsUnique(a: seq<string>, b: seq<string>, x: string, y: string)
    requires Comments(a) && Comments(b)
    requires Rows(a, "\n") + "\n" + x == Rows(b, "\n") + "\n" + y
    ensures a == b && x == y
  {
    RowsFirstChar(a, x);
    RowsFirstChar(b, y);
    if a == [] {
      FirstRowUnique("", "", x, y);
    } else {
      var ra, rb := Rows(a[1..], "\n"), Rows(b[1..], "\n");
      assert Rows(a, "\n") + "\n" + x == a[0] + "\n" + (ra + "\n" + x);
      assert Rows(b, "\n") + "\n" + y == b[0] + "\n" + (rb + "\n" + y);
      FirstRowUnique(a[0], b[0], ra + "\n" + x, rb + "\n" + y);
      RowsUnique(a[1..], b[1..], x, y);
      assert a == [a[0]] + a[1..] && b == [b[0]] + b[1..];
    }
  }

  /** The text after the block: it starts with a block comment. */
  lemma {:induction false} BlockUnique(a: seq<string>, b: seq<string>, header: string, x: string, y: string)
    requires Comments(a) && Comments(b) && GoodHeader(header) && header <= x && header <= y
    requires Block(a, "\n") + x == Block(b, "\n") + y
    ensures a == b && x == y
  {
    SecondChar(a, header, x);
    SecondChar(b, header, y);
    if a != [] {
      RowsUnique(a, b, x, y);
    } else {
      assert "" + x == x && "" + y == y;
    }
  }

  /** A new preamble determines the constraints and the rest it was made of. */
  lemma {:induction false} NewPreambleUnique(a: seq<string>, b: seq<string>, header: string, x: string, y: string)
    requires Comments(a) && Comments(b) && GoodHeader(header)
    requires NewPreamble(a, header, x) == NewPreamble(b, header, y)
    ensures a == b && x == y
  {
    NewPreambleTail(a, header, x);
    NewPreambleTail(b, header, y);
    BlockUnique(a, b, header, header + "\n" + "\n" + x, header + "\n" + "\n" + y);
    AfterHeader(header, x);
    AfterHeader(header, y);
  }

  lemma {:induction false} NewPreambleTail(rows: seq<string>, header: string, rest: string)
    ensures NewPreamble(rows, header, rest) == Block(rows, "\n") + (header + "\n" + "\n" + rest)
  {
    Assoc(Block(rows, "\n"), header, "\n");
    Assoc(Block(rows, "\n"), header + "\n", "\n");
    Assoc(Block(rows, "\n"), header + "\n" + "\n", rest);
  }

  lemma {:induction false} AfterHeader(header: string, x: string)
    ensures header <= header + "\n" + "\n" + x && (header + "\n" + "\n" + x)[|header| + 2..] == x
  {
  }

  lemma {:induction false} SecondChar(rows: seq<string>, header: string, rest: string)
    requires Comments(rows) && GoodHeader(header) && header <= rest
    ensures |Block(rows, "\n") + rest| >= 2
    ensures (Block(rows, "\n") + rest)[1] == if rows == [] then '*' else '/'
  {
    assert "/*"[1] == '*';
    if rows != [] {
      CommentStart(rows[0]);
      assert Rows(rows, "\n")[1] == rows[0][1];
    }
  }

  // ---- The theorem -------------------------------------------------------

  lemma {:induction false} OtherLinesShorter(ls: seq<string>)
    ensures |Flatten(OtherLines(ls))| <= |Flatten(ls)|
  {
    if ls != [] {
      OtherLinesShorter(ls[1..]);
      FlattenCons(ls[0], OtherLines(ls[1..]));
      assert [] + OtherLines(ls[1..]) == OtherLines(ls[1..]);
    }
  }

  lemma {:induction false} RestShrinks(rest: string)
    requires IsPreamble(rest)
    ensures Unheadered(rest) == rest || |TrimBlankLines(Flatten(OtherLines(Lines(Unheadered(rest)))))| < |rest|
  {
    TokensParts(rest);
    RemovalShortens(Tokens(rest));
    var ls := Lines(Unheadered(rest));
    LinesAre(Unheadered(rest));
    OtherLinesShorter(ls);
    var cut := TrimBlankLinesParts(Flatten(OtherLines(ls)));
  }

  lemma {:induction false} SameFrame(bom: string, a: string, b: string, body: string)
    requires bom + a + body == bom + b + body
    ensures a == b
  {
    var s := bom + a + body;
    assert |a| == |b|;
    assert s[|bom|..|bom| + |a|] == a && s[|bom|..|bom| + |b|] == b;
  }

  /** The three facts about a plain source that both directions start from. */
  lemma {:induction false} PlainFacts(src: string)
    requires Plain(src)
    ensures var p := Split(src).value;
            var ls := Lines(Unheadered(p.preamble));
            var rest := Remainder(p.preamble);
            && Comments(Constraints(ls)) && IsPreamble(rest) && TrimBlankLines(rest) == rest
            && GoTexts(Lines(rest)) == [] && PlusTexts(Lines(rest)) == [] && OtherLines(Lines(rest)) == Lines(rest)
  {
    var p := Split(src).value;
    SplitParts(src);
    UnheaderedFacts(p.preamble);
    RowsFacts(Unheadered(p.preamble));
    RestFacts(Unheadered(p.preamble));
    var rows := Constraints(Lines(Unheadered(p.preamble)));
    assert forall i :: 0 <= i < |rows| ==> IsRow(rows[i]);
  }

  lemma {:induction false} StableStays(src: string, header: string)
    requires Plain(src) && GoodHeader(header)
    requires Unheadered(Remainder(Split(src).value.preamble)) == Remainder(Split(src).value.preamble)
    ensures Rewrite(src, header).Some? && Rewrite(Rewrite(src, header).value, header) == Rewrite(src, header)
  {
    var p := Split(src).value;
    var ls := Lines(Unheadered(p.preamble));
    TwoRewrites(src, header);
    PlainFacts(src);
    LinesAre(Remainder(p.preamble));
    assert GoTexts(ls) + [] == GoTexts(ls) && PlusTexts(ls) + [] == PlusTexts(ls);
  }

  /** Different rows or a different rest make a different preamble, hence a different source. */
  lemma {:induction false} FramesDiffer(p: Parts, header: string, a: seq<string>, b: seq<string>, x: string, y: string)
    requires Comments(a) && Comments(b) && GoodHeader(header) && x != y
    ensures p.bom + NewPreamble(a, header, x) + p.body != p.bom + NewPreamble(b, header, y) + p.body
  {
    if NewPreamble(a, header, x) == NewPreamble(b, header, y) {
      NewPreambleUnique(a, b, header, x, y);
    } else if p.bom + NewPreamble(a, header, x) + p.body == p.bom + NewPreamble(b, header, y) + p.body {
      SameFrame(p.bom, NewPreamble(a, header, x), NewPreamble(b, header, y), p.body);
    }
  }

  lemma {:induction false} CommentsAppend(a: seq<string>, b: seq<string>)
    requires Comments(a) && Comments(b)
    ensures Comments(a + b)
  {
  }

  /** The constraints of both rewrites, in the order in which the second one hoists them. */
  function MergedConstraints(ls: seq<string>, again: seq<string>): seq<string> {
    (GoTexts(ls) + GoTexts(again)) + (PlusTexts(ls) + PlusTexts(again))
  }

  lemma {:induction false} MergedAreComments(ls: seq<string>, again: seq<string>)
    requires Comments(Constraints(ls)) && Comments(Constraints(again))
    ensures Comments(MergedConstraints(ls, again))
  {
    var g, q, h, r := GoTexts(ls), PlusTexts(ls), GoTexts(again), PlusTexts(again);
    assert forall i :: 0 <= i < |g| ==> g[i] == (g + q)[i];
    assert forall i :: 0 <= i < |q| ==> q[i] == (g + q)[|g| + i];
    assert forall i :: 0 <= i < |h| ==> h[i] == (h + r)[i];
    assert forall i :: 0 <= i < |r| ==> r[i] == (h + r)[|h| + i];
    CommentsAppend(g, h);
    CommentsAppend(q, r);
    CommentsAppend(g + h, q + r);
  }

  lemma {:induction false} UnstableChanges(src: string, header: string)
    requires Plain(src) && GoodHeader(header)
    requires Unheadered(Remainder(Split(src).value.preamble)) != Remainder(Split(src).value.preamble)
    ensures Rewrite(src, header).Some? && Rewrite(Rewrite(src, header).value, header) != Rewrite(src, header)
  {
    var p := Split(src).value;
    var ls := Lines(Unheadered(p.preamble));
    var rest := Remainder(p.preamble);
    var again := Lines(Unheadered(rest));
    TwoRewrites(src, header);
    PlainFacts(src);
    RestShrinks(rest);
    LinesAre(Unheadered(rest));
    TextsAreComments(again);
    MergedAreComments(ls, again);
    FramesDiffer(p, header, Constraints(ls), MergedConstraints(ls, again), rest, TrimBlankLines(Flatten(OtherLines(again))));
  }

  /**
   For every LF-only source whose constraints are whole line comments: a second
   rewrite changes nothing if and only if the header scan finds nothing to remove
   in what the first one left below its header.
   */
  lemma {:induction false} RewriteIdempotentIff(src: string, header: string)
    requires Plain(src) && GoodHeader(header)
    ensures var rest := Remainder(Split(src).value.preamble);
            Rewrite(src, header).Some?
            && (Rewrite(Rewrite(src, header).value, header) == Rewrite(src, header) <==> Unheadered(rest) == rest)
  {
    var rest := Remainder(Split(src).value.preamble);
    if Unheadered(rest) == rest {
      StableStays(src, header);
    } else {
      UnstableChanges(src, header);
    }
  }

  // ---- No marker left is enough ------------------------------------------

  lemma {:induction false} CommentsOccur(ts: seq<Token>, sub: string)
    requires !Contains(Unparse(ts), sub)
    ensures forall t :: t in ts && t.Comment? ==> !Contains(t.text, sub)
  {
    if ts != [] {
      var text, more := TextOf(ts[0]), Unparse(ts[1..]);
      assert Unparse(ts) == "" + text + more == text + more + "";
      if Contains(text, sub) {
        ContainsWider("", text, more, sub);
      }
      if Contains(more, sub) {
        ContainsWider(text, more, "", sub);
      }
      CommentsOccur(ts[1..], sub);
    }
  }

  lemma {:induction false} NothingToRemove(ts: seq<Token>)
    requires forall t :: t in ts && t.Comment? ==> !Contains(t.text, MARKER)
    ensures RemoveHeaders(ts) == ts
    decreases |ts|
  {
    if ts != [] {
      assert ts[0].Comment? ==> ts[0] in ts;
      assert HEADERS(ts) == 0;
      RemovalKeeps(HEADERS, ts);
      NothingToRemove(ts[1..]);
      assert ts == [ts[0]] + ts[1..];
    }
  }

  lemma {:induction false} LineInText(ls: seq<string>, i: nat, sub: string)
    requires i < |ls| && Contains(ls[i], sub)
    ensures Contains(Flatten(ls), sub)
  {
    var a, b := ls[..i], ls[i + 1..];
    assert ls == a + [ls[i]] + b;
    FlattenAppend(a + [ls[i]], b);
    FlattenSnoc(a, ls[i]);
    ContainsWider(Flatten(a), ls[i], Flatten(b), sub);
  }

  lemma {:induction false} MarkerIsOneLine()
    ensures MARKER != "" && '\n' !in MARKER
  {
    LicenserHeader.MarkerPieces();
    assert '\n' !in "Copyright Octelium Labs, " && '\n' !in "LLC. All rights reserved.";
  }

  /** Taking lines out of a text cannot bring a one-line text into being. */
  lemma {:induction false} RemainderKeepsMarkerOut(pre: string)
    requires !Contains(Unheadered(pre), MARKER)
    ensures !Contains(Remainder(pre), MARKER)
  {
    MarkerIsOneLine();
    var r := Unheadered(pre);
    var ls := Lines(r);
    LinesAre(r);
    OtherLinesOk(ls);
    forall l | l in OtherLines(ls) ensures l != "" && !Contains(l, MARKER) {
      var i :| 0 <= i < |ls| && ls[i] == l;
      if Contains(l, MARKER) {
        LineInText(ls, i, MARKER);
      }
    }
    NoLineContains(OtherLines(ls), MARKER);
    var cut := TrimBlankLinesParts(Flatten(OtherLines(ls)));
    assert cut + Remainder(pre) + "" == cut + Remainder(pre);
    if Contains(Remainder(pre), MARKER) {
      ContainsWider(cut, Remainder(pre), "", MARKER);
    }
  }

  /** The rewrite is idempotent when no copyright marker survives the first removal. */
  lemma {:induction false} RewriteIdempotent(src: string, header: string)
    requires Plain(src) && GoodHeader(header)
    requires !Contains(Unheadered(Split(src).value.preamble), MARKER)
    ensures Rewrite(src, header).Some? && Rewrite(Rewrite(src, header).value, header) == Rewrite(src, header)
  {
    var p := Split(src).value;
    var rest := Remainder(p.preamble);
    SplitParts(src);
    UnheaderedFacts(p.preamble);
    RestFacts(Unheadered(p.preamble));
    RemainderKeepsMarkerOut(p.preamble);
    TokensParts(rest);
    CommentsOccur(Tokens(rest), MARKER);
    NothingToRemove(Tokens(rest));
    RewriteIdempotentIff(src, header);
  }
}
