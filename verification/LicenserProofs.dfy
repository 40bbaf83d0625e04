/** The theorems about the header rewrite: what it conserves and when it is idempotent. */
module LicenserProofs {
  import opened Prelude
  import opened Text
  import opened Preamble
  import HeaderGroups
  import opened Licenser

  /** A header that setHeader can put in: one block comment that is recognised again. */
  predicate GoodHeader(header: string) {
    IsBlockComment(header) && IsHeader(header) && '\r' !in header
  }

  predicate LfOnly(s: string) { '\r' !in s }

  // ---- Headers in token sequences ----------------------------------------

  predicate NoHeaderComment(ts: seq<Token>) {
    forall t :: t in ts && t.Comment? ==> !IsHeader(t.text)
  }

  lemma {:induction false} HeaderWider(a: string, s: string, b: string)
    requires IsHeader(s)
    ensures IsHeader(a + s + b)
  {
    ContainsWider(a, s, b, MARKER);
    ContainsWider(a, s, b, LICENSE);
    ContainsWider(a, s, b, TERMINATOR);
  }

  lemma {:induction false} HeaderGroup(ts: seq<Token>, n: nat)
    requires 0 < n <= |ts| && ts[0].Comment? && IsHeader(ts[0].text)
    ensures IsHeader(Unparse(ts[..n]))
  {
    var text, more := ts[0].text, ts[1..n];
    assert ts[..n] == [ts[0]] + more;
    UnparseCons(ts[0], more);
    HeaderWider("", text, Unparse(more));
    assert "" + text + Unparse(more) == text + Unparse(more);
  }

  /** A comment that is kept is no header by itself. */
  lemma {:induction false} KeptCommentIsNoHeader(ts: seq<Token>)
    requires WellFormed(ts) && ts != [] && ts[0].Comment? && HEADERS(ts) == 0
    ensures !IsHeader(ts[0].text)
  {
    if IsHeader(ts[0].text) {
      HeaderGroup(ts, GroupEnd(LICENSER, ts, 1));
    }
  }

  lemma {:induction false} RemovalLeavesNoHeader(ts: seq<Token>)
    requires WellFormed(ts)
    ensures NoHeaderComment(RemoveHeaders(ts))
    decreases |ts|
  {
    if ts == [] {
    } else if HEADERS(ts) > 0 {
      WellFormedSuffix(ts, HEADERS(ts));
      RemovalDrops(HEADERS, ts);
      RemovalLeavesNoHeader(ts[HEADERS(ts)..]);
    } else {
      RemovalKeeps(HEADERS, ts);
      RemovalLeavesNoHeader(ts[1..]);
      if ts[0].Comment? {
        KeptCommentIsNoHeader(ts);
      }
    }
  }

  lemma {:induction false} KeptShortens(segments: Segments)
    requires DropsHeaders(LICENSER, segments) && NoEmptyComment(All(segments))
    ensures |Unparse(Kept(segments))| <= |Unparse(All(segments))|
    ensures Kept(segments) == All(segments) || |Unparse(Kept(segments))| < |Unparse(All(segments))|
  {
    match segments
    case End =>
    case Keep(t, rest) =>
      KeptShortens(rest);
      UnparseCons(t, All(rest));
      UnparseCons(t, Kept(rest));
    case Drop(g, rest) =>
      KeptShortens(rest);
      assert g[0] in All(segments);
      UnparseAppend(g, All(rest));
      UnparseCons(g[0], g[1..]);
      assert g == [g[0]] + g[1..];
  }

  predicate NoEmptyComment(ts: seq<Token>) {
    forall t :: t in ts && t.Comment? ==> t.text != ""
  }

  lemma {:induction false} CommentsAreNotEmpty(ts: seq<Token>)
    requires WellFormed(ts)
    ensures NoEmptyComment(ts)
  {
    if ts != [] {
      CommentsAreNotEmpty(ts[1..]);
    }
  }

  /** A removal that changes anything makes the text shorter. */
  lemma {:induction false} RemovalShortens(ts: seq<Token>)
    requires WellFormed(ts)
    ensures |Unparse(RemoveHeaders(ts))| <= |Unparse(ts)|
    ensures RemoveHeaders(ts) == ts || |Unparse(RemoveHeaders(ts))| < |Unparse(ts)|
  {
    HeaderGroups.SegmentsExact(ts);
    CommentsAreNotEmpty(ts);
    KeptShortens(SegmentsBy(HEADERS, ts));
  }

  // ---- The hoisted block -------------------------------------------------

  /** A row of the block: a trimmed constraint that is a line comment and no header. */
  predicate IsRow(c: string) {
    && IsLineComment(c) && TrimSpace(c) == c && !IsHeader(c) && '\r' !in c
    && (IsGoBuild(c) || IsPlusBuild(c))
  }

  predicate AllRows(rows: seq<string>) {
    forall i :: 0 <= i < |rows| ==> IsRow(rows[i])
  }

  lemma {:induction false} FirstRow(rows: seq<string>)
    requires AllRows(rows) && rows != []
    ensures IsRow(rows[0]) && AllRows(rows[1..])
  {
  }

  function RowTokens(rows: seq<string>): seq<Token> {
    if rows == [] then [] else [Comment(rows[0]), Ws('\n')] + RowTokens(rows[1..])
  }

  function BlockTokens(rows: seq<string>): seq<Token> {
    if rows == [] then [] else RowTokens(rows) + [Ws('\n')]
  }

  lemma {:induction false} RowsScan(rows: seq<string>)
    requires AllRows(rows)
    ensures IsPreamble(Rows(rows, "\n")) && Tokens(Rows(rows, "\n")) == RowTokens(rows)
  {
    if rows != [] {
      FirstRow(rows);
      ScanLine(rows[0]);
      RowsScan(rows[1..]);
      ScanAppend(Code, rows[0] + "\n", Rows(rows[1..], "\n"));
    }
  }

  lemma {:induction false} LineFeedScans()
    ensures IsPreamble("\n") && Tokens("\n") == [Ws('\n')]
  {
    assert "\n"[1..] == "";
    assert Emit(Code, "\n") == [Ws('\n')] + Emit(Code, "");
  }

  lemma {:induction false} BlockScans(rows: seq<string>)
    requires AllRows(rows)
    ensures IsPreamble(Block(rows, "\n")) && Tokens(Block(rows, "\n")) == BlockTokens(rows)
  {
    RowsScan(rows);
    LineFeedScans();
    ScanAppend(Code, Rows(rows, "\n"), "\n");
  }

  /** What follows a row never joins its comment group. */
  predicate GroupStops(row: string, after: seq<Token>) {
    var j := NextComment(after, 0);
    j == |after| || !HasPrefix(after[j].text, "//") || IsBuildConstraint(after[j].text)
  }

  lemma {:induction false} NextCommentShift(a: Token, ts: seq<Token>, n: nat)
    requires n <= |ts|
    ensures NextComment([a] + ts, n + 1) == NextComment(ts, n) + 1
    decreases |ts| - n
  {
    if n < |ts| && !ts[n].Comment? {
      NextCommentShift(a, ts, n + 1);
    }
  }

  lemma {:induction false} RowIsKept(row: string, after: seq<Token>)
    requires IsRow(row) && GroupStops(row, after)
    ensures HEADERS([Comment(row)] + after) == 0
  {
    var ts := [Comment(row)] + after;
    NextCommentShift(Comment(row), after, 0);
    assert row[1] == "//"[1] && "/*"[1] == '*';
    assert !HasPrefix(row, "/*");
    if StartsGroup(row) {
      var j := NextComment(ts, 1);
      assert j < |ts| ==> ts[j] == after[j - 1] && !Joins(row, Between(ts, 1, j), ts[j].text);
      assert GroupEnd(LICENSER, ts, 1) == 1;
      assert ts[..1] == [Comment(row)] + [];
      UnparseCons(Comment(row), []);
      assert row + "" == row;
    }
  }

  lemma {:induction false} RemovalSkips(t: Token, rest: seq<Token>)
    requires HEADERS([t] + rest) == 0
    ensures RemoveHeaders([t] + rest) == [t] + RemoveHeaders(rest)
  {
    RemovalKeeps(HEADERS, [t] + rest);
    assert ([t] + rest)[1..] == rest;
  }

  /** The next comment cannot continue a group of line comments. */
  predicate NoLineNext(rest: seq<Token>) {
    var j := NextComment(rest, 0);
    j < |rest| && !HasPrefix(rest[j].text, "//")
  }

  lemma {:induction false} NoLineNextAfterBlank(c: char, rest: seq<Token>)
    requires NoLineNext(rest)
    ensures NoLineNext([Ws(c)] + rest)
  {
    NextCommentShift(Ws(c), rest, 0);
  }

  lemma {:induction false} RowStopsGroup(row: string, next: string, rest: seq<Token>)
    requires IsRow(next)
    ensures GroupStops(row, [Ws('\n'), Comment(next)] + rest)
  {
    var after := [Ws('\n'), Comment(next)] + rest;
    assert NextComment(after, 0) == NextComment(after, 1) == 1;
  }

  /** One row in front of the rest, once it is known that its group stops there. */
  lemma {:induction false} OneRowIsKept(row: string, tail: seq<Token>)
    requires IsRow(row) && GroupStops(row, [Ws('\n')] + tail)
    ensures RemoveHeaders([Comment(row), Ws('\n')] + tail) == [Comment(row), Ws('\n')] + RemoveHeaders(tail)
  {
    var after := [Ws('\n')] + tail;
    RowIsKept(row, after);
    RemovalSkips(Comment(row), after);
    RemovalSkips(Ws('\n'), tail);
    assert [Comment(row), Ws('\n')] + tail == [Comment(row)] + after;
    assert [Comment(row)] + ([Ws('\n')] + RemoveHeaders(tail)) == [Comment(row), Ws('\n')] + RemoveHeaders(tail);
  }

  lemma {:induction false} BlockIsNoLine(t: string)
    requires HasPrefix(t, "/*")
    ensures !HasPrefix(t, "//")
  {
    assert "/*"[1] == '*' && "//"[1] == '/';
  }

  lemma {:induction false} RowsStopGroup(row: string, more: seq<string>, rest: seq<Token>)
    requires AllRows(more) && NoLineNext(rest)
    ensures GroupStops(row, [Ws('\n')] + (RowTokens(more) + rest))
  {
    if more == [] {
      assert RowTokens(more) + rest == rest;
      NoLineNextAfterBlank('\n', rest);
    } else {
      FirstRow(more);
      var later := [Ws('\n')] + RowTokens(more[1..]) + rest;
      assert [Ws('\n')] + (RowTokens(more) + rest) == [Ws('\n'), Comment(more[0])] + later;
      RowStopsGroup(row, more[0], later);
    }
  }

  /** Rows in front of something that is no line comment survive the removal. */
  lemma {:induction false} RowsAreKept(rows: seq<string>, rest: seq<Token>)
    requires AllRows(rows) && NoLineNext(rest)
    ensures RemoveHeaders(RowTokens(rows) + rest) == RowTokens(rows) + RemoveHeaders(rest)
  {
    if rows == [] {
      assert RowTokens(rows) + rest == rest;
      assert RowTokens(rows) + RemoveHeaders(rest) == RemoveHeaders(rest);
    } else {
      var more := rows[1..];
      FirstRow(rows);
      RowsAreKept(more, rest);
      RowsStopGroup(rows[0], more, rest);
      OneRowIsKept(rows[0], RowTokens(more) + rest);
      RowTokensFront(rows, rest);
      RowTokensFront(rows, RemoveHeaders(rest));
    }
  }

  lemma {:induction false} RowTokensFront(rows: seq<string>, rest: seq<Token>)
    requires rows != []
    ensures RowTokens(rows) + rest == [Comment(rows[0]), Ws('\n')] + (RowTokens(rows[1..]) + rest)
  {
  }

  /** The tokens of a preamble that the rewrite has put together. */
  function NewTokens(rows: seq<string>, header: string, rest: seq<Token>): seq<Token> {
    BlockTokens(rows) + [Comment(header), Ws('\n'), Ws('\n')] + rest
  }

  lemma {:induction false} HeaderAloneIsRemoved(header: string, rest: seq<Token>)
    requires GoodHeader(header)
    ensures RemoveHeaders([Comment(header), Ws('\n'), Ws('\n')] + rest) == [Ws('\n'), Ws('\n')] + RemoveHeaders(rest)
  {
    var tail := [Comment(header), Ws('\n'), Ws('\n')] + rest;
    assert HEADERS(tail) == 1;
    RemovalDrops(HEADERS, tail);
    assert tail[1..] == [Ws('\n')] + ([Ws('\n')] + rest);
    RemovalSkips(Ws('\n'), [Ws('\n')] + rest);
    RemovalSkips(Ws('\n'), rest);
  }

  lemma {:induction false} BlockIsKept(rows: seq<string>, tail: seq<Token>)
    requires AllRows(rows) && NoLineNext(tail)
    ensures RemoveHeaders(BlockTokens(rows) + tail) == BlockTokens(rows) + RemoveHeaders(tail)
  {
    if rows == [] {
      assert BlockTokens(rows) + tail == tail;
      assert BlockTokens(rows) + RemoveHeaders(tail) == RemoveHeaders(tail);
    } else {
      NoLineNextAfterBlank('\n', tail);
      RowsAreKept(rows, [Ws('\n')] + tail);
      RemovalSkips(Ws('\n'), tail);
      Assoc(RowTokens(rows), [Ws('\n')], tail);
      Assoc(RowTokens(rows), [Ws('\n')], RemoveHeaders(tail));
    }
  }

  lemma {:induction false} HeaderStopsGroups(header: string, rest: seq<Token>)
    requires GoodHeader(header)
    ensures NoLineNext([Comment(header), Ws('\n'), Ws('\n')] + rest)
  {
    BlockIsNoLine(header);
    var tail := [Comment(header), Ws('\n'), Ws('\n')] + rest;
    assert tail[0] == Comment(header);
    assert NextComment(tail, 0) == 0;
  }

  /** The next rewrite takes out the header, and what it finds in the rest. */
  lemma {:induction false} NewHeaderIsRemoved(rows: seq<string>, header: string, rest: seq<Token>)
    requires AllRows(rows) && GoodHeader(header)
    ensures RemoveHeaders(NewTokens(rows, header, rest))
         == BlockTokens(rows) + [Ws('\n'), Ws('\n')] + RemoveHeaders(rest)
  {
    HeaderAloneIsRemoved(header, rest);
    HeaderStopsGroups(header, rest);
    BlockIsKept(rows, [Comment(header), Ws('\n'), Ws('\n')] + rest);
    Assoc(BlockTokens(rows), [Comment(header), Ws('\n'), Ws('\n')], rest);
    Assoc(BlockTokens(rows), [Ws('\n'), Ws('\n')], RemoveHeaders(rest));
  }
}
