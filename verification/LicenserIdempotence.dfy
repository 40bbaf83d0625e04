/** When rewriting a rewritten source changes nothing more. */
module LicenserIdempotence {
  import opened Prelude
  import opened Text
  import opened Preamble
  import opened Licenser
  import opened LicenserProofs

  // ---- The constraints of a preamble are rows ----------------------------

  predicate RowLine(l: string) {
    IsBuildConstraint(l) ==> IsRow(TrimSpace(l))
  }

  lemma {:induction false} TrimTwice(s: string)
    ensures TrimSpace(TrimSpace(s)) == TrimSpace(s)
  {
    var _, _ := TrimParts(s);
    var t := TrimSpace(s);
    if t != "" {
      TrimOfTrimmed(t, "");
      assert t + "" == t;
    }
  }

  lemma {:induction false} ConstraintIsRow(l: string, comment: string, right: string)
    requires IsBuildConstraint(l) && '\r' !in l
    requires comment == TrimSpace(l) + right && IsLineComment(TrimSpace(l)) && !IsHeader(comment)
    ensures IsRow(TrimSpace(l))
  {
    var t := TrimSpace(l);
    var a, b := TrimParts(l);
    TrimTwice(l);
    assert forall i :: 0 <= i < |t| ==> t[i] == l[|a| + i];
    assert comment == "" + t + right;
    if IsHeader(t) {
      HeaderWider("", t, right);
    }
  }

  /** Read outside of block comments, every constraint line yields a row of the new block. */
  lemma {:induction false} ConstraintsAreRows(ls: seq<string>, m: Mode)
    requires LinesOk(ls) && WholeLines(ls, m) && ModeAfter(m, Flatten(ls)) == Code
    requires NoHeaderComment(Emit(m, Flatten(ls)))
    requires forall i :: 0 <= i < |ls| ==> '\r' !in ls[i]
    ensures forall i :: 0 <= i < |ls| ==> RowLine(ls[i])
    decreases |ls|
  {
    if ls != [] {
      var l, rest := ls[0], ls[1..];
      var n := ModeAfter(m, l);
      ScanAppend(m, l, Flatten(rest));
      assert |ls| == 1 ==> Flatten(rest) == "";
      ConstraintsAreRows(rest, n);
      if IsBuildConstraint(l) {
        var comment, right := ConstraintLine(l, Flatten(rest));
        ConstraintIsRow(l, comment, right);
      }
      assert forall i :: 1 <= i < |ls| ==> ls[i] == rest[i - 1];
    }
  }

  lemma {:induction false} TextsAreRows(ls: seq<string>)
    requires forall i :: 0 <= i < |ls| ==> RowLine(ls[i])
    ensures AllRows(GoTexts(ls)) && AllRows(PlusTexts(ls)) && AllRows(Constraints(ls))
  {
    if ls != [] {
      assert RowLine(ls[0]);
      assert forall i :: 0 <= i < |ls[1..]| ==> ls[1..][i] == ls[i + 1];
      TextsAreRows(ls[1..]);
    }
  }

  // ---- The lines of a rewritten preamble ---------------------------------

  function RowLines(rows: seq<string>): seq<string> {
    if rows == [] then [] else [rows[0] + "\n"] + RowLines(rows[1..])
  }

  lemma {:induction false} RowLinesFlatten(rows: seq<string>)
    requires AllRows(rows)
    ensures Flatten(RowLines(rows)) == Rows(rows, "\n")
    ensures forall i :: 0 <= i < |RowLines(rows)| ==> IsLine(RowLines(rows)[i]) && Ended(RowLines(rows)[i])
  {
    if rows != [] {
      FirstRow(rows);
      RowLinesFlatten(rows[1..]);
      assert Rows(rows, "\n") == (rows[0] + "\n") + Rows(rows[1..], "\n");
    }
  }

  lemma {:induction false} GoTextsAppend(a: seq<string>, b: seq<string>)
    ensures GoTexts(a + b) == GoTexts(a) + GoTexts(b)
  {
    if a == [] {
      assert a + b == b;
    } else {
      assert (a + b)[1..] == a[1..] + b;
      GoTextsAppend(a[1..], b);
      Assoc(GoText(a[0]), GoTexts(a[1..]), GoTexts(b));
    }
  }

  lemma {:induction false} PlusTextsAppend(a: seq<string>, b: seq<string>)
    ensures PlusTexts(a + b) == PlusTexts(a) + PlusTexts(b)
  {
    if a == [] {
      assert a + b == b;
    } else {
      assert (a + b)[1..] == a[1..] + b;
      PlusTextsAppend(a[1..], b);
      Assoc(PlusText(a[0]), PlusTexts(a[1..]), PlusTexts(b));
    }
  }

  lemma {:induction false} OtherLinesAppend(a: seq<string>, b: seq<string>)
    ensures OtherLines(a + b) == OtherLines(a) + OtherLines(b)
  {
    if a == [] {
      assert a + b == b;
    } else {
      assert (a + b)[1..] == a[1..] + b;
      OtherLinesAppend(a[1..], b);
      Assoc(Leftover(a[0]), OtherLines(a[1..]), OtherLines(b));
    }
  }

  lemma {:induction false} TextsAppend(a: seq<string>, b: seq<string>)
    ensures GoTexts(a + b) == GoTexts(a) + GoTexts(b)
    ensures PlusTexts(a + b) == PlusTexts(a) + PlusTexts(b)
    ensures OtherLines(a + b) == OtherLines(a) + OtherLines(b)
  {
    GoTextsAppend(a, b);
    PlusTextsAppend(a, b);
    OtherLinesAppend(a, b);
  }

  /** What one more line adds to the texts. */
  lemma {:induction false} TextsSnoc(ls: seq<string>, l: string)
    ensures GoTexts(ls + [l]) == GoTexts(ls) + GoText(l)
    ensures PlusTexts(ls + [l]) == PlusTexts(ls) + PlusText(l)
    ensures OtherLines(ls + [l]) == OtherLines(ls) + Leftover(l)
  {
    TextsAppend(ls, [l]);
    assert GoTexts([l]) == GoText(l) + [] && PlusTexts([l]) == PlusText(l) + [] && OtherLines([l]) == Leftover(l) + [];
  }

  predicate AllGo(rows: seq<string>) {
    forall i :: 0 <= i < |rows| ==> IsGoBuild(rows[i])
  }

  predicate NoGo(rows: seq<string>) {
    forall i :: 0 <= i < |rows| ==> !IsGoBuild(rows[i])
  }

  lemma {:induction false} RowLineTrims(row: string)
    requires IsRow(row)
    ensures TrimSpace(row + "\n") == row && IsBuildConstraint(row + "\n")
  {
    TrimIgnoresTrailing(row, "\n");
  }

  /** Rows are found again as constraints, and leave nothing else. */
  lemma {:induction false} TextsOfRow(row: string, rest: seq<string>)
    requires TrimSpace(row + "\n") == row && (IsGoBuild(row) || IsPlusBuild(row))
    ensures GoTexts([row + "\n"] + rest) == (if IsGoBuild(row) then [row] else []) + GoTexts(rest)
    ensures PlusTexts([row + "\n"] + rest) == (if IsGoBuild(row) then [] else [row]) + PlusTexts(rest)
    ensures OtherLines([row + "\n"] + rest) == OtherLines(rest)
  {
    assert ([row + "\n"] + rest)[1..] == rest;
    assert [] + OtherLines(rest) == OtherLines(rest);
  }

  lemma {:induction false} TextsOfRows(rows: seq<string>)
    requires AllRows(rows)
    ensures AllGo(rows) ==> GoTexts(RowLines(rows)) == rows && PlusTexts(RowLines(rows)) == []
    ensures NoGo(rows) ==> GoTexts(RowLines(rows)) == [] && PlusTexts(RowLines(rows)) == rows
    ensures OtherLines(RowLines(rows)) == []
  {
    if rows != [] {
      FirstRow(rows);
      RowLineTrims(rows[0]);
      TextsOfRow(rows[0], RowLines(rows[1..]));
      TextsOfRows(rows[1..]);
      assert rows == [rows[0]] + rows[1..];
    }
  }

  lemma {:induction false} GoTextsAreGo(ls: seq<string>)
    ensures AllGo(GoTexts(ls)) && NoGo(PlusTexts(ls))
  {
    if ls != [] {
      GoTextsAreGo(ls[1..]);
    }
  }

  lemma {:induction false} RowLinesAppend(a: seq<string>, b: seq<string>)
    ensures RowLines(a + b) == RowLines(a) + RowLines(b)
  {
    if a == [] {
      assert a + b == b;
    } else {
      assert (a + b)[1..] == a[1..] + b;
      RowLinesAppend(a[1..], b);
    }
  }

  /** The block's own lines: the constraints, go:build first, and nothing else. */
  lemma {:induction false} TextsOfBlock(go: seq<string>, plus: seq<string>)
    requires AllRows(go) && AllRows(plus) && AllGo(go) && NoGo(plus)
    ensures GoTexts(RowLines(go + plus)) == go && PlusTexts(RowLines(go + plus)) == plus
    ensures OtherLines(RowLines(go + plus)) == []
  {
    RowLinesAppend(go, plus);
    TextsAppend(RowLines(go), RowLines(plus));
    TextsOfRows(go);
    TextsOfRows(plus);
    assert go + [] == go && [] + plus == plus;
  }

  function LineFeeds(n: nat): seq<string> {
    if n == 0 then [] else ["\n"] + LineFeeds(n - 1)
  }

  lemma {:induction false} LineFeedsPass(n: nat)
    ensures GoTexts(LineFeeds(n)) == [] && PlusTexts(LineFeeds(n)) == [] && OtherLines(LineFeeds(n)) == LineFeeds(n)
    ensures forall i :: 0 <= i < |LineFeeds(n)| ==> IsLine(LineFeeds(n)[i]) && Ended(LineFeeds(n)[i])
  {
    if n > 0 {
      LineFeedsPass(n - 1);
      TrimOfBlank("\n");
      assert LineFeeds(n)[1..] == LineFeeds(n - 1);
    }
  }

  lemma {:induction false} LineFeedTrims(t: string)
    ensures TrimBlankLines("\n" + t) == TrimBlankLines(t)
  {
    var s := "\n" + t;
    LineEndOfLine("\n", t);
    assert s[..1] == "\n" && s[1..] == t;
    assert Blank("\n");
  }

  lemma {:induction false} FlattenCons(l: string, ls: seq<string>)
    ensures Flatten([l] + ls) == l + Flatten(ls)
  {
    assert ([l] + ls)[1..] == ls;
  }

  lemma {:induction false} LineFeedsTrim(n: nat, s: string)
    ensures TrimBlankLines(Flatten(LineFeeds(n)) + s) == TrimBlankLines(s)
  {
    if n == 0 {
      assert Flatten(LineFeeds(n)) + s == s;
    } else {
      FlattenCons("\n", LineFeeds(n - 1));
      Assoc("\n", Flatten(LineFeeds(n - 1)), s);
      LineFeedTrims(Flatten(LineFeeds(n - 1)) + s);
      LineFeedsTrim(n - 1, s);
    }
  }

  /** The line feeds between the block and the rest once the header between them is gone. */
  function Gap(rows: seq<string>): nat { if rows == [] then 2 else 3 }

  /** A rewritten preamble without its header: the block, blank lines and the rest. */
  function Reopened(rows: seq<string>, rest: string): string {
    Block(rows, "\n") + "\n" + "\n" + rest
  }

  lemma {:induction false} GapText(rows: seq<string>)
    ensures Flatten(LineFeeds(Gap(rows))) == (if rows == [] then "" else "\n") + "\n" + "\n"
  {
    FlattenCons("\n", LineFeeds(0));
    FlattenCons("\n", LineFeeds(1));
    FlattenCons("\n", LineFeeds(2));
    assert Flatten(LineFeeds(0)) == "";
  }

  lemma {:induction false} ReopenedText(rows: seq<string>, rest: string)
    requires AllRows(rows)
    ensures Flatten(RowLines(rows) + LineFeeds(Gap(rows))) + rest == Reopened(rows, rest)
  {
    RowLinesFlatten(rows);
    FlattenAppend(RowLines(rows), LineFeeds(Gap(rows)));
    GapText(rows);
  }

  lemma {:induction false} ReopenedLines(rows: seq<string>, rest: string)
    requires AllRows(rows)
    ensures Lines(Reopened(rows, rest)) == RowLines(rows) + LineFeeds(Gap(rows)) + Lines(rest)
  {
    var front := RowLines(rows) + LineFeeds(Gap(rows));
    RowLinesFlatten(rows);
    LineFeedsPass(Gap(rows));
    ReopenedText(rows, rest);
    LinesOfFlatten(front);
    FlattenEnded(front);
    LinesAppend(Flatten(front), rest);
  }

  lemma {:induction false} FlattenEnded(ls: seq<string>)
    requires ls != [] && Ended(ls[|ls| - 1])
    ensures Ended(Flatten(ls))
  {
    var n := |ls| - 1;
    assert ls == ls[..n] + [ls[n]];
    FlattenSnoc(ls[..n], ls[n]);
  }

  lemma {:induction false} FrontTexts(go: seq<string>, plus: seq<string>, n: nat)
    requires AllRows(go) && AllRows(plus) && AllGo(go) && NoGo(plus)
    ensures var front := RowLines(go + plus) + LineFeeds(n);
            GoTexts(front) == go && PlusTexts(front) == plus && OtherLines(front) == LineFeeds(n)
  {
    TextsAppend(RowLines(go + plus), LineFeeds(n));
    TextsOfBlock(go, plus);
    LineFeedsPass(n);
    assert go + [] == go && plus + [] == plus && [] + LineFeeds(n) == LineFeeds(n);
  }

  /** What the next rewrite extracts from a reopened preamble. */
  lemma {:induction false} ReopenedTexts(go: seq<string>, plus: seq<string>, rest: string)
    requires AllRows(go) && AllRows(plus) && AllGo(go) && NoGo(plus)
    ensures var ls := Lines(Reopened(go + plus, rest));
            && Constraints(ls) == (go + GoTexts(Lines(rest))) + (plus + PlusTexts(Lines(rest)))
            && TrimBlankLines(Flatten(OtherLines(ls))) == TrimBlankLines(Flatten(OtherLines(Lines(rest))))
  {
    var n := Gap(go + plus);
    ReopenedLines(go + plus, rest);
    FrontTexts(go, plus, n);
    TextsAppend(RowLines(go + plus) + LineFeeds(n), Lines(rest));
    FlattenAppend(LineFeeds(n), OtherLines(Lines(rest)));
    LineFeedsTrim(n, Flatten(OtherLines(Lines(rest))));
  }
}
