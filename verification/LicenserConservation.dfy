/**
 What the header rewrite conserves: every part of the source is accounted for,
 by lists of line numbers that say where each line of the preamble went.
 */
module LicenserConservation {
  import opened Prelude
  import opened Text
  import opened Preamble
  import HeaderGroups
  import opened Licenser
  import opened LicenserIdempotence

  datatype Kind = GoLine | PlusLine | OtherLine

  function KindOf(l: string): Kind {
    if IsGoBuild(TrimSpace(l)) then GoLine else if IsPlusBuild(TrimSpace(l)) then PlusLine else OtherLine
  }

  predicate Increasing(xs: seq<nat>) {
    forall i, j :: 0 <= i < j < |xs| ==> xs[i] < xs[j]
  }

  /** The numbers of the lines of one kind: each of them once, in their order. */
  predicate Picks(ls: seq<string>, kind: Kind, xs: seq<nat>) {
    && Increasing(xs)
    && (forall x :: x in xs ==> x < |ls| && KindOf(ls[x]) == kind)
    && (forall n: nat :: n < |ls| && KindOf(ls[n]) == kind ==> n in xs)
  }

  predicate InLines(ls: seq<string>, xs: seq<nat>) {
    forall i :: 0 <= i < |xs| ==> xs[i] < |ls|
  }

  function LinesAt(ls: seq<string>, xs: seq<nat>): (r: seq<string>)
    requires InLines(ls, xs)
    ensures |r| == |xs| && forall i :: 0 <= i < |r| ==> r[i] == ls[xs[i]]
  {
    seq(|xs|, i requires 0 <= i < |xs| => ls[xs[i]])
  }

  function TextsAt(ls: seq<string>, xs: seq<nat>): (r: seq<string>)
    requires InLines(ls, xs)
    ensures |r| == |xs| && forall i :: 0 <= i < |r| ==> r[i] == TrimSpace(ls[xs[i]])
  {
    seq(|xs|, i requires 0 <= i < |xs| => TrimSpace(ls[xs[i]]))
  }

  function Chosen(l: string, kind: Kind, text: string): seq<string> {
    if KindOf(l) == kind then [text] else []
  }

  lemma {:induction false} PicksAreInLines(ls: seq<string>, kind: Kind, xs: seq<nat>)
    requires Picks(ls, kind, xs)
    ensures InLines(ls, xs)
  {
    assert forall i :: 0 <= i < |xs| ==> xs[i] in xs;
  }

  lemma {:induction false} PicksOne(ls: seq<string>, l: string, kind: Kind, xs: seq<nat>)
    requires Picks(ls, kind, xs) && InLines(ls, xs) && KindOf(l) == kind
    ensures Picks(ls + [l], kind, xs + [|ls|])
  {
    var all := ls + [l];
    assert all[|ls|] == l && forall n :: 0 <= n < |ls| ==> all[n] == ls[n];
  }

  lemma {:induction false} PicksNone(ls: seq<string>, l: string, kind: Kind, xs: seq<nat>)
    requires Picks(ls, kind, xs) && KindOf(l) != kind
    ensures Picks(ls + [l], kind, xs)
  {
    var all := ls + [l];
    assert all[|ls|] == l && forall n :: 0 <= n < |ls| ==> all[n] == ls[n];
  }

  lemma {:induction false} LinesSnoc(ls: seq<string>, l: string, xs: seq<nat>)
    requires InLines(ls, xs)
    ensures InLines(ls + [l], xs) && InLines(ls + [l], xs + [|ls|])
    ensures TextsAt(ls + [l], xs) == TextsAt(ls, xs) && LinesAt(ls + [l], xs) == LinesAt(ls, xs)
    ensures TextsAt(ls + [l], xs + [|ls|]) == TextsAt(ls, xs) + [TrimSpace(l)]
    ensures LinesAt(ls + [l], xs + [|ls|]) == LinesAt(ls, xs) + [l]
  {
  }

  /** The line numbers of one kind, when one more line is looked at. */
  lemma {:induction false} PicksSnoc(ls: seq<string>, l: string, kind: Kind, xs: seq<nat>) returns (ys: seq<nat>)
    requires Picks(ls, kind, xs)
    ensures Picks(ls + [l], kind, ys)
    ensures InLines(ls, xs) && InLines(ls + [l], ys)
    ensures TextsAt(ls + [l], ys) == TextsAt(ls, xs) + Chosen(l, kind, TrimSpace(l))
    ensures LinesAt(ls + [l], ys) == LinesAt(ls, xs) + Chosen(l, kind, l)
  {
    PicksAreInLines(ls, kind, xs);
    LinesSnoc(ls, l, xs);
    if KindOf(l) == kind {
      PicksOne(ls, l, kind, xs);
      ys := xs + [|ls|];
    } else {
      PicksNone(ls, l, kind, xs);
      ys := xs;
      assert TextsAt(ls, xs) + [] == TextsAt(ls, xs) && LinesAt(ls, xs) + [] == LinesAt(ls, xs);
    }
  }

  lemma {:induction false} KindIs(l: string)
    ensures GoText(l) == Chosen(l, GoLine, TrimSpace(l))
    ensures PlusText(l) == Chosen(l, PlusLine, TrimSpace(l))
    ensures Leftover(l) == Chosen(l, OtherLine, l)
  {
  }

  /** Each list of texts is the lines of its kind, each exactly once and in order. */
  lemma {:induction false} KindsPartition(ls: seq<string>) returns (go: seq<nat>, plus: seq<nat>, other: seq<nat>)
    ensures Picks(ls, GoLine, go) && Picks(ls, PlusLine, plus) && Picks(ls, OtherLine, other)
    ensures InLines(ls, go) && InLines(ls, plus) && InLines(ls, other)
    ensures GoTexts(ls) == TextsAt(ls, go)
    ensures PlusTexts(ls) == TextsAt(ls, plus)
    ensures OtherLines(ls) == LinesAt(ls, other)
  {
    if ls == [] {
      go, plus, other := [], [], [];
    } else {
      var front, last := ls[..|ls| - 1], ls[|ls| - 1];
      assert ls == front + [last];
      go, plus, other := KindsPartition(front);
      TextsSnoc(front, last);
      KindIs(last);
      go := PicksSnoc(front, last, GoLine, go);
      plus := PicksSnoc(front, last, PlusLine, plus);
      other := PicksSnoc(front, last, OtherLine, other);
    }
  }

  /** The text under the header: what is left of the preamble, minus leading blank lines. */
  lemma {:induction false} RemainderParts(preamble: string) returns (cut: string)
    ensures Flatten(OtherLines(Lines(Unheadered(preamble)))) == cut + Remainder(preamble)
    ensures WholeBlankLines(cut, Remainder(preamble)) && StartsWithText(Remainder(preamble))
    ensures (if Blank(Remainder(preamble)) then "" else Remainder(preamble)) == Remainder(preamble)
  {
    var left := Flatten(OtherLines(Lines(Unheadered(preamble))));
    cut := TrimBlankLinesParts(left);
    TrimmedStartsWithText(left);
    TrimmedIsEmptyOrText(left);
  }

  /**
   The rewrite only moves and removes what it says. BOM and body stay; the
   preamble is the kept tokens plus whole headers; each line of the kept text is
   either a //go:build line, a // +build line or neither; the constraints come
   out once each, in order, the //go:build lines first; the other lines follow
   the header in their order, without the blank lines in front.
   */
  lemma {:induction false} RewriteConserves(src: string, header: string)
    returns (p: Parts, segments: Segments, ls: seq<string>,
             go: seq<nat>, plus: seq<nat>, other: seq<nat>, cut: string, rest: string)
    requires Rewrite(src, header).Some?
    ensures src == p.bom + p.preamble + p.body
    ensures (p.bom == "" || p.bom == [BOM]) && IsPreamble(p.preamble) && StartsClause(p.body)
    ensures segments == SegmentsBy(HEADERS, Tokens(p.preamble)) && Unparse(All(segments)) == p.preamble
    ensures DropsHeaders(LICENSER, segments) && HeaderGroups.ExactSegments(segments)
    ensures Flatten(ls) == Unparse(Kept(segments)) && LinesOk(ls)
    ensures Picks(ls, GoLine, go) && Picks(ls, PlusLine, plus) && Picks(ls, OtherLine, other)
    ensures InLines(ls, go) && InLines(ls, plus) && InLines(ls, other)
    ensures Flatten(LinesAt(ls, other)) == cut + rest
    ensures WholeBlankLines(cut, rest) && StartsWithText(rest)
    ensures var eol := if Contains(p.preamble + p.body, "\r\n") then "\r\n" else "\n";
            Rewrite(src, header).value ==
            p.bom + Block(TextsAt(ls, go) + TextsAt(ls, plus), eol) + WithEol(header, eol) + eol + eol + rest + p.body
  {
    SplitParts(src);
    p := Split(src).value;
    TokensParts(p.preamble);
    HeaderGroups.SegmentsExact(Tokens(p.preamble));
    segments := SegmentsBy(HEADERS, Tokens(p.preamble));
    ls := Lines(Unheadered(p.preamble));
    LinesAre(Unheadered(p.preamble));
    go, plus, other := KindsPartition(ls);
    cut := RemainderParts(p.preamble);
    rest := Remainder(p.preamble);
  }
}
