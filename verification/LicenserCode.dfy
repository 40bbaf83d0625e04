/**
 The licenser's own loops and cursors (main.go:222-362, 405-423), proved to
 compute the functions of the specification, and what the rewrite conserves.
 */
module LicenserCode {
  import opened Prelude
  import opened Text
  import opened Preamble
  import opened Licenser
  import opened LicenserProofs
  import opened LicenserIdempotence

  datatype SourceComment = SourceComment(start: nat, end: nat, text: string)

  datatype Span = Span(start: nat, end: nat)

  // ---- Spans of a token sequence -----------------------------------------

  /** The spans of the segments that go, when the first segment starts at offset at. */
  function SpansOf(segments: Segments, at: nat): seq<Span> {
    match segments
    case End => []
    case Keep(t, rest) => SpansOf(rest, at + |TextOf(t)|)
    case Drop(g, rest) => [Span(at, at + |Unparse(g)|)] + SpansOf(rest, at + |Unparse(g)|)
  }

  /** Ordered, disjoint and in bounds: removeSpans skips none of them. */
  predicate InOrder(spans: seq<Span>, cursor: nat, limit: nat) {
    spans != [] ==>
      cursor <= spans[0].start <= spans[0].end <= limit && InOrder(spans[1..], spans[0].end, limit)
  }

  lemma {:induction false} SplitAt(ts: seq<Token>, n: nat)
    requires n <= |ts|
    ensures Unparse(ts) == Unparse(ts[..n]) + Unparse(ts[n..])
  {
    assert ts == ts[..n] + ts[n..];
    UnparseAppend(ts[..n], ts[n..]);
  }

  lemma {:induction false} InOrderCons(s: Span, spans: seq<Span>, cursor: nat, limit: nat)
    requires cursor <= s.start <= s.end <= limit && InOrder(spans, s.end, limit)
    ensures InOrder([s] + spans, cursor, limit)
  {
    assert ([s] + spans)[1..] == spans;
  }

  lemma {:induction false} InOrderFrom(spans: seq<Span>, a: nat, b: nat, limit: nat)
    requires InOrder(spans, b, limit) && a <= b
    ensures InOrder(spans, a, limit)
  {
  }

  /** Offsets only grow, so removeSpans skips none of the spans. */
  lemma {:induction false} SpansInOrder(segments: Segments, at: nat)
    ensures InOrder(SpansOf(segments, at), at, at + |Unparse(All(segments))|)
  {
    var limit := at + |Unparse(All(segments))|;
    match segments
    case End =>
    case Keep(t, rest) =>
      var end := at + |TextOf(t)|;
      UnparseCons(t, All(rest));
      SpansInOrder(rest, end);
      InOrderFrom(SpansOf(rest, end), at, end, limit);
    case Drop(g, rest) =>
      var end := at + |Unparse(g)|;
      UnparseAppend(g, All(rest));
      SpansInOrder(rest, end);
      InOrderCons(Span(at, end), SpansOf(rest, end), at, limit);
  }

  /** removeSpans, with its guard against spans that are out of order or bounds. */
  function Cut(src: string, spans: seq<Span>, cursor: nat): string
    requires cursor <= |src|
  {
    if spans == [] then src[cursor..]
    else
      var s := spans[0];
      if s.start < cursor || s.end < s.start || s.end > |src| then Cut(src, spans[1..], cursor)
      else src[cursor..s.start] + Cut(src, spans[1..], s.end)
  }

  lemma {:induction false} CutOne(src: string, s: Span, spans: seq<Span>, cursor: nat)
    requires cursor <= s.start <= s.end <= |src|
    ensures Cut(src, [s] + spans, cursor) == src[cursor..s.start] + Cut(src, spans, s.end)
  {
    assert ([s] + spans)[1..] == spans;
  }

  lemma {:induction false} CutFront(src: string, at: nat, text: string, more: string)
    requires at <= |src| && src[at..] == text + more
    ensures at + |text| <= |src| && src[at..at + |text|] == text && src[at + |text|..] == more
  {
    assert src[at + |text|..] == src[at..][|text|..];
    assert src[at..at + |text|] == src[at..][..|text|];
  }

  lemma {:induction false} CutKept(src: string, at: nat, text: string, spans: seq<Span>, cursor: nat, kept: string)
    requires cursor <= at && at + |text| <= |src| && src[at..at + |text|] == text
    requires Same(Cut(src, spans, cursor), src[cursor..at + |text|] + kept)
    ensures Same(Cut(src, spans, cursor), src[cursor..at] + (text + kept))
  {
    assert src[cursor..at + |text|] == src[cursor..at] + text;
    Assoc(src[cursor..at], text, kept);
  }

  lemma {:induction false} CutDropped(src: string, at: nat, end: nat, spans: seq<Span>, cursor: nat, kept: string)
    requires cursor <= at <= end <= |src|
    requires Same(Cut(src, spans, end), src[end..end] + kept)
    ensures Same(Cut(src, [Span(at, end)] + spans, cursor), src[cursor..at] + kept)
  {
    CutOne(src, Span(at, end), spans, cursor);
    assert src[end..end] + kept == kept;
  }

  /** The text behind a token, or behind a group of tokens. */
  lemma {:induction false} BehindToken(src: string, at: nat, t: Token, more: seq<Token>)
    requires at <= |src| && Same(src[at..], Unparse([t] + more))
    ensures at + |TextOf(t)| <= |src| && src[at..at + |TextOf(t)|] == TextOf(t)
    ensures Same(src[at + |TextOf(t)|..], Unparse(more))
  {
    UnparseCons(t, more);
    CutFront(src, at, TextOf(t), Unparse(more));
  }

  lemma {:induction false} BehindGroup(src: string, at: nat, g: seq<Token>, more: seq<Token>)
    requires at <= |src| && Same(src[at..], Unparse(g + more))
    ensures at + |Unparse(g)| <= |src| && Same(src[at + |Unparse(g)|..], Unparse(more))
  {
    UnparseAppend(g, more);
    CutFront(src, at, Unparse(g), Unparse(more));
  }

  lemma {:induction false} CutAtEnd(src: string, cursor: nat)
    requires cursor <= |src|
    ensures Same(Cut(src, [], cursor), src[cursor..|src|] + "")
  {
    assert src[cursor..|src|] + "" == src[cursor..];
  }

  /** Cutting the spans out leaves the segments that are kept. */
  lemma {:induction false} CutSpans(src: string, segments: Segments, at: nat, cursor: nat)
    requires cursor <= at <= |src| && Same(src[at..], Unparse(All(segments)))
    ensures Same(Cut(src, SpansOf(segments, at), cursor), src[cursor..at] + Unparse(Kept(segments)))
    decreases segments
  {
    match segments
    case End =>
      assert |src[at..]| == 0;
      CutAtEnd(src, cursor);
    case Keep(t, rest) =>
      BehindToken(src, at, t, All(rest));
      CutSpans(src, rest, at + |TextOf(t)|, cursor);
      CutKept(src, at, TextOf(t), SpansOf(rest, at + |TextOf(t)|), cursor, Unparse(Kept(rest)));
      UnparseCons(t, Kept(rest));
    case Drop(g, rest) =>
      var end := at + |Unparse(g)|;
      BehindGroup(src, at, g, All(rest));
      CutSpans(src, rest, end, end);
      CutDropped(src, at, end, SpansOf(rest, end), cursor, Unparse(Kept(rest)));
  }

  // ---- The loops ---------------------------------------------------------

  method SplitLines(src: string) returns (lines: seq<string>)
    ensures lines == Lines(src)
  {
    lines := [];
    var rest := src;
    while rest != ""
      invariant lines + Lines(rest) == Lines(src)
      decreases |rest|
    {
      var n := LineEnd(rest);
      assert lines + Lines(rest) == lines + [rest[..n]] + Lines(rest[n..]);
      lines := lines + [rest[..n]];
      rest := rest[n..];
    }
  }

  method TrimLeadingBlankLines(src: string) returns (r: string)
    ensures r == TrimBlankLines(src)
  {
    r := src;
    while r != ""
      invariant TrimBlankLines(r) == TrimBlankLines(src)
      decreases |r|
    {
      var n := LineEnd(r);
      if !Blank(r[..n]) {
        return;
      }
      r := r[n..];
    }
  }

  lemma {:induction false} GoLineNext(ls: seq<string>, l: string)
    requires IsGoBuild(TrimSpace(l))
    ensures GoTexts(ls + [l]) == GoTexts(ls) + [TrimSpace(l)] && PlusTexts(ls + [l]) == PlusTexts(ls)
    ensures OtherLines(ls + [l]) == OtherLines(ls)
  {
    TextsSnoc(ls, l);
  }

  lemma {:induction false} PlusLineNext(ls: seq<string>, l: string)
    requires !IsGoBuild(TrimSpace(l)) && IsPlusBuild(TrimSpace(l))
    ensures GoTexts(ls + [l]) == GoTexts(ls) && PlusTexts(ls + [l]) == PlusTexts(ls) + [TrimSpace(l)]
    ensures OtherLines(ls + [l]) == OtherLines(ls)
  {
    TextsSnoc(ls, l);
  }

  lemma {:induction false} OtherLineNext(ls: seq<string>, l: string)
    requires !IsGoBuild(TrimSpace(l)) && !IsPlusBuild(TrimSpace(l))
    ensures GoTexts(ls + [l]) == GoTexts(ls) && PlusTexts(ls + [l]) == PlusTexts(ls)
    ensures Flatten(OtherLines(ls + [l])) == Flatten(OtherLines(ls)) + l
  {
    TextsSnoc(ls, l);
    FlattenSnoc(OtherLines(ls), l);
  }

  /** What the loop has collected from the lines that it has gone through. */
  predicate Extracted(done: seq<string>, go: seq<string>, plus: seq<string>, remainder: string) {
    go == GoTexts(done) && plus == PlusTexts(done) && remainder == Flatten(OtherLines(done))
  }

  lemma {:induction false} ExtractedNext(done: seq<string>, l: string, go: seq<string>, plus: seq<string>,
                                         remainder: string)
    requires Extracted(done, go, plus, remainder)
    ensures var text := TrimSpace(l);
            if IsGoBuild(text) then Extracted(done + [l], go + [text], plus, remainder)
            else if IsPlusBuild(text) then Extracted(done + [l], go, plus + [text], remainder)
            else Extracted(done + [l], go, plus, remainder + l)
  {
    if IsGoBuild(TrimSpace(l)) {
      GoLineNext(done, l);
    } else if IsPlusBuild(TrimSpace(l)) {
      PlusLineNext(done, l);
    } else {
      OtherLineNext(done, l);
    }
  }

  lemma {:induction false} PrefixNext<T>(s: seq<T>, i: nat)
    requires i < |s|
    ensures s[..i + 1] == s[..i] + [s[i]]
  {
  }

  method ExtractBuildConstraints(src: string) returns (constraints: seq<string>, remainder: string)
    ensures constraints == Constraints(Lines(src))
    ensures remainder == Flatten(OtherLines(Lines(src)))
  {
    var lines := SplitLines(src);
    var go: seq<string>, plus: seq<string> := [], [];
    remainder := "";
    for i := 0 to |lines|
      invariant Extracted(lines[..i], go, plus, remainder)
    {
      PrefixNext(lines, i);
      ExtractedNext(lines[..i], lines[i], go, plus, remainder);
      var text := TrimSpace(lines[i]);
      if IsGoBuild(text) {
        go := go + [text];
      } else if IsPlusBuild(text) {
        plus := plus + [text];
      } else {
        remainder := remainder + lines[i];
      }
    }
    assert lines[..|lines|] == lines;
    constraints := go + plus;
  }

  method RemoveSpans(src: string, spans: seq<Span>) returns (r: string)
    ensures r == Cut(src, spans, 0)
  {
    r := "";
    var cursor: nat := 0;
    for i := 0 to |spans|
      invariant cursor <= |src|
      invariant r + Cut(src, spans[i..], cursor) == Cut(src, spans, 0)
    {
      var s := spans[i];
      assert spans[i..][1..] == spans[i + 1..];
      if s.start < cursor || s.end < s.start || s.end > |src| {
        continue;
      }
      Assoc(r, src[cursor..s.start], Cut(src, spans[i + 1..], s.end));
      r := r + src[cursor..s.start];
      cursor := s.end;
    }
    r := r + src[cursor..];
  }

  // ---- Comments of a token sequence --------------------------------------

  /** The offset at which token k starts. */
  function Off(ts: seq<Token>, k: nat): nat
    requires k <= |ts|
  {
    if k == 0 then 0 else Off(ts, k - 1) + |TextOf(ts[k - 1])|
  }

  /** How many of the first k tokens are comments. */
  function Count(ts: seq<Token>, k: nat): nat
    requires k <= |ts|
  {
    if k == 0 then 0 else Count(ts, k - 1) + if ts[k - 1].Comment? then 1 else 0
  }

  function CommentAt(ts: seq<Token>, k: nat): SourceComment
    requires k < |ts| && ts[k].Comment?
  {
    SourceComment(Off(ts, k), Off(ts, k + 1), ts[k].text)
  }

  predicate ListsAt(comments: seq<SourceComment>, ts: seq<Token>, k: nat)
    requires k < |ts|
  {
    ts[k].Comment? ==> Count(ts, k) < |comments| && comments[Count(ts, k)] == CommentAt(ts, k)
  }

  /** The comments of the tokens, all of them and in order, with their offsets. */
  predicate Listed(comments: seq<SourceComment>, ts: seq<Token>) {
    |comments| == Count(ts, |ts|) && forall k: nat :: k < |ts| ==> ListsAt(comments, ts, k)
  }

  /** The scanner, run to the end of the text. */
  method ScanTokens(src: string) returns (tokens: seq<Token>)
    requires IsPreamble(src)
    ensures tokens == Tokens(src)
  {
    tokens := [];
    var m := Code;
    for i := 0 to |src|
      invariant ModeAfter(m, src[i..]) == Code
      invariant tokens + Emit(m, src[i..]) == Tokens(src)
    {
      assert src[i..][1..] == src[i + 1..];
      Assoc(tokens, StepEmit(m, src[i]), Emit(StepMode(m, src[i]), src[i + 1..]));
      tokens := tokens + StepEmit(m, src[i]);
      m := StepMode(m, src[i]);
    }
    assert src[|src|..] == "" && tokens + [] == tokens;
  }

  lemma {:induction false} ListsMore(comments: seq<SourceComment>, c: SourceComment, ts: seq<Token>, k: nat)
    requires k < |ts| && ListsAt(comments, ts, k)
    ensures ListsAt(comments + [c], ts, k)
  {
  }

  method ScanComments(src: string) returns (comments: seq<SourceComment>)
    requires IsPreamble(src)
    ensures Listed(comments, Tokens(src))
  {
    var tokens := ScanTokens(src);
    comments := [];
    var at: nat := 0;
    for i := 0 to |tokens|
      invariant at == Off(tokens, i) && |comments| == Count(tokens, i)
      invariant forall k: nat :: k < i ==> ListsAt(comments, tokens, k)
    {
      var next := at + |TextOf(tokens[i])|;
      if tokens[i].Comment? {
        var c := SourceComment(at, next, tokens[i].text);
        forall k: nat | k < i ensures ListsAt(comments + [c], tokens, k) {
          ListsMore(comments, c, tokens, k);
        }
        comments := comments + [c];
      }
      at := next;
      assert ListsAt(comments, tokens, i);
    }
  }

  lemma {:induction false} CountGrows(ts: seq<Token>, a: nat, b: nat)
    requires a <= b <= |ts|
    ensures Count(ts, a) <= Count(ts, b)
    decreases b - a
  {
    if a < b {
      CountGrows(ts, a, b - 1);
    }
  }

  lemma {:induction false} OffIsLength(ts: seq<Token>, k: nat)
    requires k <= |ts|
    ensures Off(ts, k) == |Unparse(ts[..k])|
  {
    if k > 0 {
      OffIsLength(ts, k - 1);
      assert ts[..k] == ts[..k - 1] + [ts[k - 1]];
      UnparseAppend(ts[..k - 1], [ts[k - 1]]);
      UnparseCons(ts[k - 1], []);
      assert [ts[k - 1]] == [ts[k - 1]] + [];
    }
  }

  /** The text between two token boundaries. */
  lemma {:induction false} SliceOf(ts: seq<Token>, a: nat, b: nat)
    requires a <= b <= |ts|
    ensures Off(ts, a) <= Off(ts, b) <= |Unparse(ts)|
    ensures Unparse(ts)[Off(ts, a)..Off(ts, b)] == Unparse(ts[a..b])
  {
    OffIsLength(ts, a);
    OffIsLength(ts, b);
    SplitAt(ts, b);
    SplitAt(ts[..b], a);
    assert ts[..b][..a] == ts[..a] && ts[..b][a..] == ts[a..b];
  }

  lemma {:induction false} TextLength(ts: seq<Token>, a: nat, b: nat)
    requires a <= b <= |ts|
    ensures Off(ts, b) == Off(ts, a) + |Unparse(ts[a..b])|
  {
    SliceOf(ts, a, b);
  }

  // ---- Comment groups ----------------------------------------------------

  /** Between a token and the next comment there are no comments to count. */
  lemma {:induction false} CountOfBlanks(ts: seq<Token>, a: nat, j: nat)
    requires a <= j <= |ts| && forall x :: a <= x < j ==> ts[x].Ws?
    ensures Count(ts, j) == Count(ts, a)
    decreases j - a
  {
    if a < j {
      CountOfBlanks(ts, a, j - 1);
    }
  }

  predicate JoinsGroup(r: Rules, src: string, current: SourceComment, next: SourceComment) {
    current.end <= next.start <= |src| && r.joins(current.text, src[current.end..next.start], next.text)
  }

  /** The group's recursion stops where the loop over the comments stops. */
  lemma {:induction false} GroupStep(r: Rules, ts: seq<Token>, a: nat, j: nat)
    requires 0 < a <= j < |ts| && ts[a - 1].Comment? && j == NextComment(ts, a)
    ensures GroupEnd(r, ts, a) ==
      if !JoinsGroup(r, Unparse(ts), CommentAt(ts, a - 1), CommentAt(ts, j)) then a
      else if r.last(ts[j].text) then j + 1
      else GroupEnd(r, ts, j + 1)
  {
    SliceOf(ts, a, j);
    BetweenIsText(ts, a, j);
  }

  predicate InText(src: string, comments: seq<SourceComment>) {
    forall i :: 0 <= i < |comments| ==> comments[i].start <= comments[i].end <= |src|
  }

  /** The index of the last comment of the group whose last comment so far is number i. */
  function LastInGroup(r: Rules, src: string, comments: seq<SourceComment>, i: nat): (end: nat)
    requires i < |comments| && InText(src, comments)
    ensures i <= end < |comments| && comments[i].start <= comments[end].end <= |src|
    decreases |comments| - i
  {
    if i + 1 == |comments| || !JoinsGroup(r, src, comments[i], comments[i + 1]) then i
    else if r.last(comments[i + 1].text) then i + 1
    else LastInGroup(r, src, comments, i + 1)
  }

  /** Comment number i is token a - 1. */
  predicate At(ts: seq<Token>, i: nat, a: nat) {
    0 < a <= |ts| && ts[a - 1].Comment? && i == Count(ts, a - 1)
  }

  lemma {:induction false} AtLast(comments: seq<SourceComment>, ts: seq<Token>, i: nat, a: nat)
    requires Listed(comments, ts) && At(ts, i, a) && i + 1 == |comments|
    ensures NextComment(ts, a) == |ts|
  {
    var j := NextComment(ts, a);
    OnlyBlanksBeforeNext(ts, a);
    CountOfBlanks(ts, a, j);
    if j < |ts| {
      CountGrows(ts, j + 1, |ts|);
    }
  }

  lemma {:induction false} AtNext(comments: seq<SourceComment>, ts: seq<Token>, i: nat, a: nat)
    requires Listed(comments, ts) && At(ts, i, a) && i + 1 < |comments|
    ensures NextComment(ts, a) < |ts| && At(ts, i + 1, NextComment(ts, a) + 1)
    ensures comments[i] == CommentAt(ts, a - 1) && comments[i + 1] == CommentAt(ts, NextComment(ts, a))
  {
    var j := NextComment(ts, a);
    OnlyBlanksBeforeNext(ts, a);
    CountOfBlanks(ts, a, j);
    assert ListsAt(comments, ts, a - 1);
    assert j < |ts| ==> ListsAt(comments, ts, j);
  }

  lemma {:induction false} GroupStepAt(r: Rules, comments: seq<SourceComment>, ts: seq<Token>, i: nat, a: nat, j: nat)
    requires 0 < a <= j < |ts| && ts[a - 1].Comment? && j == NextComment(ts, a)
    requires i + 1 < |comments| && comments[i] == CommentAt(ts, a - 1) && comments[i + 1] == CommentAt(ts, j)
    ensures GroupEnd(r, ts, a) ==
      if !JoinsGroup(r, Unparse(ts), comments[i], comments[i + 1]) then a
      else if r.last(comments[i + 1].text) then j + 1
      else GroupEnd(r, ts, j + 1)
  {
    GroupStep(r, ts, a, j);
  }

  lemma {:induction false} LastInGroupStep(r: Rules, src: string, comments: seq<SourceComment>, i: nat)
    requires i + 1 < |comments| && InText(src, comments)
    ensures LastInGroup(r, src, comments, i) ==
      if !JoinsGroup(r, src, comments[i], comments[i + 1]) then i
      else if r.last(comments[i + 1].text) then i + 1
      else LastInGroup(r, src, comments, i + 1)
  {
  }

  /** The loop over the comments finds the group that the recursion over the tokens finds. */
  lemma {:induction false} GroupsAgree(r: Rules, comments: seq<SourceComment>, ts: seq<Token>, i: nat, a: nat)
    requires Listed(comments, ts) && InText(Unparse(ts), comments) && At(ts, i, a) && i < |comments|
    ensures At(ts, LastInGroup(r, Unparse(ts), comments, i), GroupEnd(r, ts, a))
    decreases |comments| - i
  {
    if i + 1 == |comments| {
      AtLast(comments, ts, i, a);
    } else {
      var j := NextComment(ts, a);
      AtNext(comments, ts, i, a);
      GroupStepAt(r, comments, ts, i, a, j);
      LastInGroupStep(r, Unparse(ts), comments, i);
      if JoinsGroup(r, Unparse(ts), comments[i], comments[i + 1]) && !r.last(comments[i + 1].text) {
        GroupsAgree(r, comments, ts, i + 1, j + 1);
      }
    }
  }

  /** adjacentLineComments, on the text between the two comments. */
  predicate AdjacentComments(src: string, current: SourceComment, next: SourceComment) {
    && HasPrefix(current.text, "//") && HasPrefix(next.text, "//")
    && current.end <= next.start <= |src|
    && Blank(src[current.end..next.start]) && CountLineFeeds(src[current.end..next.start]) == 1
  }

  /** The inner loop of removeApacheHeaders. */
  method FindGroupEnd(src: string, comments: seq<SourceComment>, idx: nat) returns (endIdx: nat)
    requires idx < |comments| && InText(src, comments)
    ensures endIdx == LastInGroup(LICENSER, src, comments, idx)
  {
    endIdx := idx;
    while endIdx + 1 < |comments| && AdjacentComments(src, comments[endIdx], comments[endIdx + 1])
      invariant endIdx < |comments|
      invariant LastInGroup(LICENSER, src, comments, endIdx) == LastInGroup(LICENSER, src, comments, idx)
      decreases |comments| - endIdx
    {
      var next := comments[endIdx + 1];
      if IsBuildConstraint(next.text) || IsGeneratedMarker(next.text) {
        break;
      }
      endIdx := endIdx + 1;
      if Contains(next.text, TERMINATOR) {
        break;
      }
    }
  }

  /** rest is what follows the first k tokens. */
  predicate Follows(ts: seq<Token>, rest: seq<Token>, k: nat) {
    |ts| == k + |rest| && forall i :: 0 <= i < |rest| ==> rest[i] == ts[k + i]
  }

  lemma {:induction false} NextCommentOfSuffix(ts: seq<Token>, rest: seq<Token>, k: nat, n: nat)
    requires Follows(ts, rest, k) && n <= |rest|
    ensures NextComment(rest, n) + k == NextComment(ts, k + n)
    decreases |rest| - n
  {
    if n < |rest| && !rest[n].Comment? {
      NextCommentOfSuffix(ts, rest, k, n + 1);
    }
  }

  lemma {:induction false} BetweenOfSuffix(ts: seq<Token>, rest: seq<Token>, k: nat, a: nat, b: nat)
    requires Follows(ts, rest, k) && a <= b <= |rest|
    ensures Same(Between(rest, a, b), Between(ts, k + a, k + b))
    decreases b - a
  {
    if a < b {
      BetweenOfSuffix(ts, rest, k, a + 1, b);
      assert rest[a] == ts[k + a];
    }
  }

  /** Where a group ends that has come to the comment before token n, j being the next comment. */
  function EndFrom(n: nat, j: nat, joins: bool, last: bool, later: nat): nat {
    if !joins then n else if last then j + 1 else later
  }

  predicate JoinsNext(r: Rules, ts: seq<Token>, n: nat, j: nat)
    requires 0 < n <= j <= |ts| && ts[n - 1].Comment? && (j < |ts| ==> ts[j].Comment?)
  {
    j < |ts| && r.joins(ts[n - 1].text, Between(ts, n, j), ts[j].text)
  }

  predicate EndsNext(r: Rules, ts: seq<Token>, j: nat) {
    j < |ts| && ts[j].Comment? && r.last(ts[j].text)
  }

  ghost predicate EndsAt(r: Rules, ts: seq<Token>, ends: Ends, n: nat)
    requires 0 < n <= |ts| && ts[n - 1].Comment?
  {
    var j := NextComment(ts, n);
    ends(n) == EndFrom(n, j, JoinsNext(r, ts, n, j), EndsNext(r, ts, j), ends(j + 1))
  }

  ghost predicate EndsGoOn(r: Rules, ts: seq<Token>, ends: Ends) {
    forall n: nat :: 0 < n <= |ts| && ts[n - 1].Comment? ==> EndsAt(r, ts, ends, n)
  }

  lemma {:induction false} EndsByGoOn(r: Rules, ts: seq<Token>)
    ensures EndsGoOn(r, ts, EndsBy(r, ts))
  {
  }

  lemma {:induction false} JoinsOfSuffix(r: Rules, ts: seq<Token>, rest: seq<Token>, k: nat, n: nat, j: nat)
    requires Follows(ts, rest, k) && 0 < n <= j <= |rest| && rest[n - 1].Comment? && (j < |rest| ==> rest[j].Comment?)
    ensures ts[k + n - 1].Comment? && (k + j < |ts| ==> ts[k + j].Comment?)
    ensures JoinsNext(r, ts, k + n, k + j) == JoinsNext(r, rest, n, j)
    ensures EndsNext(r, ts, k + j) == EndsNext(r, rest, j)
  {
    BetweenOfSuffix(ts, rest, k, n, j);
  }

  lemma {:induction false} EndsOfSuffix(r: Rules, ts: seq<Token>, f: Ends, rest: seq<Token>, g: Ends, k: nat, n: nat)
    requires Follows(ts, rest, k) && EndsGoOn(r, ts, f) && EndsGoOn(r, rest, g)
    requires 0 < n <= |rest| && rest[n - 1].Comment?
    ensures f(k + n) == k + g(n)
    decreases |rest| - n
  {
    var j := NextComment(rest, n);
    NextCommentOfSuffix(ts, rest, k, n);
    JoinsOfSuffix(r, ts, rest, k, n, j);
    assert EndsAt(r, rest, g, n) && EndsAt(r, ts, f, k + n);
    if j < |rest| {
      EndsOfSuffix(r, ts, f, rest, g, k, j + 1);
    }
  }

  /** A group reaches as far as it does in the tokens from its start on. */
  lemma {:induction false} GroupOfSuffix(r: Rules, ts: seq<Token>, rest: seq<Token>, k: nat, n: nat)
    requires Follows(ts, rest, k) && 0 < n <= |rest| && rest[n - 1].Comment? && ts[k + n - 1].Comment?
    ensures GroupEnd(r, ts, k + n) == k + GroupEnd(r, rest, n)
  {
    EndsByGoOn(r, ts);
    EndsByGoOn(r, rest);
    EndsOfSuffix(r, ts, EndsBy(r, ts), rest, EndsBy(r, rest), k, n);
  }

  // ---- Headers -----------------------------------------------------------

  /** The last comment of the header that starts with comment number i, if one does. */
  function HeaderAt(r: Rules, src: string, comments: seq<SourceComment>, i: nat): (end: Option<nat>)
    requires i < |comments| && InText(src, comments)
    ensures end.Some? ==> i <= end.value < |comments|
  {
    var c := comments[i];
    if r.starts(c.text) then
      var end := LastInGroup(r, src, comments, i);
      if r.header(src[c.start..comments[end].end]) then Some(end) else None
    else if r.block(c.text) then Some(i) else None
  }

  /** The comments and the tokens agree on the header that starts at token k. */
  predicate SameHeader(ts: seq<Token>, k: nat, end: Option<nat>, n: nat) {
    match end
    case None => n == 0
    case Some(e) => n > 0 && At(ts, e, k + n)
  }

  lemma {:induction false} SliceOfSuffix<T>(s: seq<T>, k: nat, b: nat)
    requires k <= b <= |s|
    ensures s[k..][..b - k] == s[k..b]
  {
  }

  lemma {:induction false} LengthIs(r: Rules, ts: seq<Token>, g: nat, text: string)
    requires ts != [] && ts[0].Comment? && g == GroupEnd(r, ts, 1) && text == Unparse(ts[..g])
    ensures HeaderLength(r, ts) ==
      if r.starts(ts[0].text) then if r.header(text) then g else 0
      else if r.block(ts[0].text) then 1 else 0
  {
  }

  lemma {:induction false} GroupFrom(r: Rules, ts: seq<Token>, k: nat)
    requires k < |ts| && ts[k].Comment?
    ensures ts[k..][0] == ts[k] && GroupEnd(r, ts, k + 1) == k + GroupEnd(r, ts[k..], 1)
  {
    GroupOfSuffix(r, ts, ts[k..], k, 1);
  }

  lemma {:induction false} LengthAt(r: Rules, ts: seq<Token>, k: nat, g: nat, text: string)
    requires k < |ts| && ts[k].Comment?
    requires g == GroupEnd(r, ts, k + 1) && text == Unparse(ts[k..g])
    ensures HeaderLength(r, ts[k..]) ==
      if r.starts(ts[k].text) then if r.header(text) then g - k else 0
      else if r.block(ts[k].text) then 1 else 0
  {
    GroupFrom(r, ts, k);
    SliceOfSuffix(ts, k, g);
    LengthIs(r, ts[k..], g - k, text);
  }

  lemma {:induction false} HeaderAtIs(r: Rules, src: string, comments: seq<SourceComment>, i: nat, end: nat,
                                      text: string)
    requires i < |comments| && InText(src, comments)
    requires end == LastInGroup(r, src, comments, i) && text == src[comments[i].start..comments[end].end]
    ensures HeaderAt(r, src, comments, i) ==
      if r.starts(comments[i].text) then if r.header(text) then Some(end) else None
      else if r.block(comments[i].text) then Some(i) else None
  {
  }

  /** The text from one comment to another, as the loops cut it out of the source. */
  lemma {:induction false} TextIs(ts: seq<Token>, k: nat, g: nat, first: SourceComment, last: SourceComment)
    requires k < g <= |ts| && ts[k].Comment? && ts[g - 1].Comment?
    requires first == CommentAt(ts, k) && last == CommentAt(ts, g - 1)
    ensures first.start <= last.end <= |Unparse(ts)|
    ensures Same(Unparse(ts)[first.start..last.end], Unparse(ts[k..g]))
  {
    SliceOf(ts, k, g);
  }

  lemma {:induction false} GroupEndIs(r: Rules, comments: seq<SourceComment>, ts: seq<Token>, k: nat, i: nat)
    requires Listed(comments, ts) && InText(Unparse(ts), comments) && At(ts, i, k + 1) && i < |comments|
    ensures var g, end := GroupEnd(r, ts, k + 1), LastInGroup(r, Unparse(ts), comments, i);
            At(ts, end, g) && comments[end] == CommentAt(ts, g - 1)
  {
    var g := GroupEnd(r, ts, k + 1);
    GroupsAgree(r, comments, ts, i, k + 1);
    assert ListsAt(comments, ts, g - 1);
  }

  /** The text of a group. */
  lemma {:induction false} GroupTextIs(r: Rules, comments: seq<SourceComment>, ts: seq<Token>, k: nat, i: nat)
    requires Listed(comments, ts) && InText(Unparse(ts), comments) && At(ts, i, k + 1) && i < |comments|
    requires comments[i] == CommentAt(ts, k)
    ensures var g, end := GroupEnd(r, ts, k + 1), LastInGroup(r, Unparse(ts), comments, i);
            At(ts, end, g) && Same(Unparse(ts)[comments[i].start..comments[end].end], Unparse(ts[k..g]))
  {
    var g, end := GroupEnd(r, ts, k + 1), LastInGroup(r, Unparse(ts), comments, i);
    GroupEndIs(r, comments, ts, k, i);
    TextIs(ts, k, g, comments[i], comments[end]);
  }

  /** The answers of the rules lead to the same header in both countings. */
  lemma {:induction false} SameAnswers(ts: seq<Token>, k: nat, g: nat, i: nat, end: nat, starts: bool, header: bool,
                                       block: bool, result: Option<nat>, n: nat)
    requires k < g && At(ts, i, k + 1) && At(ts, end, g)
    requires result == if starts then if header then Some(end) else None else if block then Some(i) else None
    requires n == if starts then if header then g - k else 0 else if block then 1 else 0
    ensures SameHeader(ts, k, result, n)
  {
  }

  lemma {:induction false} HeadersAgreeAt(r: Rules, comments: seq<SourceComment>, ts: seq<Token>, k: nat, i: nat)
    requires Listed(comments, ts) && InText(Unparse(ts), comments) && At(ts, i, k + 1) && i < |comments|
    requires comments[i] == CommentAt(ts, k)
    ensures SameHeader(ts, k, HeaderAt(r, Unparse(ts), comments, i), HeaderLength(r, ts[k..]))
  {
    var src, c := Unparse(ts), comments[i];
    var g, end := GroupEnd(r, ts, k + 1), LastInGroup(r, src, comments, i);
    var text := Unparse(ts[k..g]);
    GroupTextIs(r, comments, ts, k, i);
    HeaderAtIs(r, src, comments, i, end, text);
    LengthAt(r, ts, k, g, text);
    SameAnswers(ts, k, g, i, end, r.starts(c.text), r.header(text), r.block(c.text),
                HeaderAt(r, src, comments, i), HeaderLength(r, ts[k..]));
  }

  // ---- The spans that are cut out ----------------------------------------

  /** Where the header that starts with a comment ends. */
  type Finder = nat -> Option<nat>

  predicate Forward(find: Finder, i: nat, limit: nat) {
    find(i).Some? ==> i <= find(i).value < limit
  }

  /** The spans of the headers among the comments from number i on. */
  function Removals(find: Finder, comments: seq<SourceComment>, i: nat): seq<Span>
    requires i <= |comments|
    decreases |comments| - i
  {
    if i == |comments| then []
    else if !find(i).Some? || !Forward(find, i, |comments|) then Removals(find, comments, i + 1)
    else [Span(comments[i].start, comments[find(i).value].end)] + Removals(find, comments, find(i).value + 1)
  }

  /** How many tokens the header that starts at a token takes up, or 0. */
  type Sizes = nat -> nat

  predicate IsCut(size: Sizes, k: nat, limit: nat) {
    0 < size(k) && k + size(k) <= limit
  }

  /** The spans of the headers among the tokens from number k on. */
  function SpansFrom(size: Sizes, ts: seq<Token>, k: nat): seq<Span>
    requires k <= |ts|
    decreases |ts| - k
  {
    if k == |ts| then []
    else if IsCut(size, k, |ts|) then [Span(Off(ts, k), Off(ts, k + size(k)))] + SpansFrom(size, ts, k + size(k))
    else SpansFrom(size, ts, k + 1)
  }

  ghost predicate SameHeaderAt(find: Finder, size: Sizes, ts: seq<Token>, k: nat)
    requires k < |ts|
  {
    if ts[k].Ws? then size(k) == 0 else SameHeader(ts, k, find(Count(ts, k)), size(k))
  }

  /** Comments and tokens lead to the same headers. */
  ghost predicate SameHeaders(find: Finder, size: Sizes, ts: seq<Token>) {
    forall k: nat :: k < |ts| ==> SameHeaderAt(find, size, ts, k)
  }

  /** The same span, counted in comments and counted in tokens. */
  lemma {:induction false} SameSpan(comments: seq<SourceComment>, ts: seq<Token>, k: nat, e: nat, b: nat)
    requires Listed(comments, ts) && k < |ts| && ts[k].Comment? && k < b && At(ts, e, b)
    ensures Count(ts, k) <= e < |comments| && Count(ts, b) == e + 1
    ensures comments[Count(ts, k)].start == Off(ts, k) && comments[e].end == Off(ts, b)
  {
    assert ListsAt(comments, ts, k) && ListsAt(comments, ts, b - 1);
    CountGrows(ts, k, b - 1);
  }

  lemma {:induction false} RemovalsNext(find: Finder, comments: seq<SourceComment>, i: nat)
    requires i < |comments|
    ensures find(i) == None ==> Removals(find, comments, i) == Removals(find, comments, i + 1)
    ensures find(i).Some? && Forward(find, i, |comments|) ==>
      Removals(find, comments, i) ==
      [Span(comments[i].start, comments[find(i).value].end)] + Removals(find, comments, find(i).value + 1)
  {
  }

  lemma {:induction false} SpansNext(size: Sizes, ts: seq<Token>, k: nat)
    requires k < |ts|
    ensures !IsCut(size, k, |ts|) ==> SpansFrom(size, ts, k) == SpansFrom(size, ts, k + 1)
    ensures IsCut(size, k, |ts|) ==>
      SpansFrom(size, ts, k) == [Span(Off(ts, k), Off(ts, k + size(k)))] + SpansFrom(size, ts, k + size(k))
  {
  }

  /** One step of the agreement, at a comment: the spans go on at the same place. */
  lemma {:induction false} RemovalsStep(find: Finder, size: Sizes, comments: seq<SourceComment>, ts: seq<Token>, k: nat,
                                        b: nat)
    requires Listed(comments, ts) && k < |ts| && ts[k].Comment? && SameHeader(ts, k, find(Count(ts, k)), size(k))
    requires b == (if size(k) == 0 then k + 1 else k + size(k))
    ensures k < b <= |ts| && Count(ts, k) < |comments| && Count(ts, b) <= |comments|
    ensures Removals(find, comments, Count(ts, b)) == SpansFrom(size, ts, b) ==>
              Removals(find, comments, Count(ts, k)) == SpansFrom(size, ts, k)
  {
    SameSpan(comments, ts, k, Count(ts, b - 1), b);
    SpansNext(size, ts, k);
    RemovalsNext(find, comments, Count(ts, k));
  }

  /** The headers found among the comments are those among the tokens. */
  lemma {:induction false} RemovalsAgree(find: Finder, size: Sizes, comments: seq<SourceComment>, ts: seq<Token>,
                                         k: nat)
    requires Listed(comments, ts) && SameHeaders(find, size, ts) && k <= |ts| && Count(ts, k) <= |comments|
    ensures Removals(find, comments, Count(ts, k)) == SpansFrom(size, ts, k)
    decreases |ts| - k
  {
    if k < |ts| {
      assert SameHeaderAt(find, size, ts, k);
      if ts[k].Ws? {
        SpansNext(size, ts, k);
        RemovalsAgree(find, size, comments, ts, k + 1);
      } else {
        var b := if size(k) == 0 then k + 1 else k + size(k);
        RemovalsStep(find, size, comments, ts, k, b);
        RemovalsAgree(find, size, comments, ts, b);
      }
    }
  }

  lemma {:induction false} SuffixOfSuffix<T>(s: seq<T>, k: nat, n: nat)
    requires k + n <= |s|
    ensures s[k..][n..] == s[k + n..]
  {
  }

  lemma {:induction false} SegmentsAt(cut: Cutter, ts: seq<Token>, k: nat, n: nat)
    requires k < |ts| && n == cut(ts[k..])
    ensures SegmentsBy(cut, ts[k..]) ==
      if 0 < n <= |ts| - k then Drop(ts[k..k + n], SegmentsBy(cut, ts[k + n..]))
      else Keep(ts[k], SegmentsBy(cut, ts[k + 1..]))
  {
    if 0 < n <= |ts| - k {
      SuffixOfSuffix(ts, k, n);
      SliceOfSuffix(ts, k, k + n);
    } else {
      SuffixOfSuffix(ts, k, 1);
    }
  }

  /** The segments from each token on. */
  type Suffixes = nat -> Segments

  ghost predicate SegmentsNext(size: Sizes, segments: Suffixes, ts: seq<Token>, k: nat)
    requires k < |ts|
  {
    segments(k) ==
    if IsCut(size, k, |ts|) then Drop(ts[k..k + size(k)], segments(k + size(k))) else Keep(ts[k], segments(k + 1))
  }

  ghost predicate SegmentsGoOn(size: Sizes, segments: Suffixes, ts: seq<Token>) {
    segments(|ts|) == End && forall k: nat :: k < |ts| ==> SegmentsNext(size, segments, ts, k)
  }

  lemma {:induction false} SpansOfCut(size: Sizes, segments: Suffixes, ts: seq<Token>, k: nat)
    requires k < |ts| && SegmentsNext(size, segments, ts, k) && IsCut(size, k, |ts|)
    requires SpansFrom(size, ts, k + size(k)) == SpansOf(segments(k + size(k)), Off(ts, k + size(k)))
    ensures SpansFrom(size, ts, k) == SpansOf(segments(k), Off(ts, k))
  {
    SpansNext(size, ts, k);
    TextLength(ts, k, k + size(k));
  }

  lemma {:induction false} SpansOfKept(size: Sizes, segments: Suffixes, ts: seq<Token>, k: nat)
    requires k < |ts| && SegmentsNext(size, segments, ts, k) && !IsCut(size, k, |ts|)
    requires SpansFrom(size, ts, k + 1) == SpansOf(segments(k + 1), Off(ts, k + 1))
    ensures SpansFrom(size, ts, k) == SpansOf(segments(k), Off(ts, k))
  {
    SpansNext(size, ts, k);
  }

  /** The spans are those of the segments that go. */
  lemma {:induction false} SpansOfSegments(size: Sizes, segments: Suffixes, ts: seq<Token>, k: nat)
    requires k <= |ts| && SegmentsGoOn(size, segments, ts)
    ensures SpansFrom(size, ts, k) == SpansOf(segments(k), Off(ts, k))
    decreases |ts| - k
  {
    if k < |ts| {
      assert SegmentsNext(size, segments, ts, k);
      if IsCut(size, k, |ts|) {
        SpansOfSegments(size, segments, ts, k + size(k));
        SpansOfCut(size, segments, ts, k);
      } else {
        SpansOfSegments(size, segments, ts, k + 1);
        SpansOfKept(size, segments, ts, k);
      }
    }
  }

  function SizesOf(cut: Cutter, ts: seq<Token>): Sizes {
    (k: nat) => if k <= |ts| then cut(ts[k..]) else 0
  }

  function SuffixesOf(cut: Cutter, ts: seq<Token>): Suffixes {
    (k: nat) => if k <= |ts| then SegmentsBy(cut, ts[k..]) else End
  }

  lemma {:induction false} SuffixesGoOn(cut: Cutter, ts: seq<Token>)
    ensures SegmentsGoOn(SizesOf(cut, ts), SuffixesOf(cut, ts), ts)
    ensures SuffixesOf(cut, ts)(0) == SegmentsBy(cut, ts)
  {
    assert ts[|ts|..] == [] && ts[0..] == ts;
    forall k: nat | k < |ts| ensures SegmentsNext(SizesOf(cut, ts), SuffixesOf(cut, ts), ts, k) {
      SegmentsAt(cut, ts, k, cut(ts[k..]));
    }
  }

  ghost predicate FindsAt(find: Finder, src: string, comments: seq<SourceComment>, i: nat)
    requires i < |comments| && InText(src, comments)
  {
    find(i) == HeaderAt(LICENSER, src, comments, i)
  }

  /** find leads to the licenser's headers. */
  ghost predicate Finds(find: Finder, src: string, comments: seq<SourceComment>) {
    InText(src, comments) && forall i: nat :: i < |comments| ==> FindsAt(find, src, comments, i)
  }

  method HeaderEnd(src: string, comments: seq<SourceComment>, idx: nat, ghost find: Finder) returns (end: Option<nat>)
    requires idx < |comments| && Finds(find, src, comments)
    ensures end == find(idx) && Forward(find, idx, |comments|)
  {
    assert FindsAt(find, src, comments, idx);
    var comment := comments[idx];
    if HasPrefix(comment.text, "/*") {
      return if IsHeader(comment.text) then Some(idx) else None;
    }
    if !HasPrefix(comment.text, "//") || !Contains(comment.text, MARKER) {
      return None;
    }
    var endIdx := FindGroupEnd(src, comments, idx);
    var candidate := src[comment.start..comments[endIdx].end];
    return if IsHeader(candidate) then Some(endIdx) else None;
  }

  function FindBy(r: Rules, src: string, comments: seq<SourceComment>): Finder
    requires InText(src, comments)
  {
    (i: nat) => if i < |comments| then HeaderAt(r, src, comments, i) else None
  }

  lemma {:induction false} FindByFinds(src: string, comments: seq<SourceComment>)
    requires InText(src, comments)
    ensures Finds(FindBy(LICENSER, src, comments), src, comments)
  {
  }

  /** One more span found, the rest still to come. */
  lemma {:induction false} RemovalsGrow(find: Finder, comments: seq<SourceComment>, i: nat, found: seq<Span>,
                                        all: seq<Span>)
    requires i < |comments| && Forward(find, i, |comments|) && found + Removals(find, comments, i) == all
    ensures find(i).None? ==> found + Removals(find, comments, i + 1) == all
    ensures find(i).Some? ==>
      found + [Span(comments[i].start, comments[find(i).value].end)] + Removals(find, comments, find(i).value + 1) == all
  {
    RemovalsNext(find, comments, i);
    if find(i).Some? {
      Assoc(found, [Span(comments[i].start, comments[find(i).value].end)], Removals(find, comments, find(i).value + 1));
    }
  }

  method FindRemovals(src: string, comments: seq<SourceComment>, ghost find: Finder) returns (removals: seq<Span>)
    requires Finds(find, src, comments)
    ensures removals == Removals(find, comments, 0)
  {
    ghost var all := Removals(find, comments, 0);
    removals := [];
    var idx: nat := 0;
    while idx < |comments|
      invariant idx <= |comments|
      invariant removals + Removals(find, comments, idx) == all
    {
      var end := HeaderEnd(src, comments, idx, find);
      RemovalsGrow(find, comments, idx, removals, all);
      if end.Some? {
        removals := removals + [Span(comments[idx].start, comments[end.value].end)];
        idx := end.value;
      }
      idx := idx + 1;
    }
    assert removals + [] == removals;
  }

  lemma {:induction false} TokenOf(comments: seq<SourceComment>, ts: seq<Token>, i: nat, n: nat) returns (k: nat)
    requires Listed(comments, ts) && n <= |ts| && i < Count(ts, n)
    ensures k < |ts| && ts[k].Comment? && Count(ts, k) == i && i < |comments| && comments[i] == CommentAt(ts, k)
  {
    if ts[n - 1].Comment? && i == Count(ts, n - 1) {
      k := n - 1;
      assert ListsAt(comments, ts, k);
    } else {
      k := TokenOf(comments, ts, i, n - 1);
    }
  }

  lemma {:induction false} CommentsInText(comments: seq<SourceComment>, ts: seq<Token>)
    requires Listed(comments, ts)
    ensures InText(Unparse(ts), comments)
  {
    forall i | 0 <= i < |comments| ensures comments[i].start <= comments[i].end <= |Unparse(ts)| {
      var k := TokenOf(comments, ts, i, |ts|);
      SliceOf(ts, k, k + 1);
    }
  }

  lemma {:induction false} HeadersAreSame(r: Rules, comments: seq<SourceComment>, ts: seq<Token>)
    requires Listed(comments, ts) && InText(Unparse(ts), comments)
    ensures SameHeaders(FindBy(r, Unparse(ts), comments), SizesOf(LengthBy(r), ts), ts)
  {
    forall k: nat | k < |ts| ensures SameHeaderAt(FindBy(r, Unparse(ts), comments), SizesOf(LengthBy(r), ts), ts, k) {
      if ts[k].Comment? {
        assert ListsAt(comments, ts, k);
        HeadersAgreeAt(r, comments, ts, k, Count(ts, k));
      } else {
        assert ts[k..][0].Ws?;
      }
    }
  }

  /** The spans that the loops find are those of the segments to drop. */
  lemma {:induction false} SpansOfSource(r: Rules, src: string, comments: seq<SourceComment>)
    requires IsPreamble(src) && Listed(comments, Tokens(src))
    ensures InText(src, comments)
    ensures Removals(FindBy(r, src, comments), comments, 0) == SpansOf(SegmentsBy(LengthBy(r), Tokens(src)), 0)
  {
    var ts := Tokens(src);
    var cut := LengthBy(r);
    TokensParts(src);
    CommentsInText(comments, ts);
    HeadersAreSame(r, comments, ts);
    RemovalsAgree(FindBy(r, src, comments), SizesOf(cut, ts), comments, ts, 0);
    SuffixesGoOn(cut, ts);
    SpansOfSegments(SizesOf(cut, ts), SuffixesOf(cut, ts), ts, 0);
  }

  lemma {:induction false} CutSource(cut: Cutter, src: string)
    requires IsPreamble(src)
    ensures Cut(src, SpansOf(SegmentsBy(cut, Tokens(src)), 0), 0) == Unparse(Removed(cut, Tokens(src)))
  {
    TokensParts(src);
    SegmentsCover(cut, Tokens(src));
    CutSpans(src, SegmentsBy(cut, Tokens(src)), 0, 0);
    assert src[0..] == src && src[0..0] + Unparse(Removed(cut, Tokens(src))) == Unparse(Removed(cut, Tokens(src)));
  }

  /** What is cut out are the headers of the specification. */
  method RemoveApacheHeaders(src: string) returns (out: string)
    requires IsPreamble(src)
    ensures out == Unheadered(src)
  {
    var comments := ScanComments(src);
    SpansOfSource(LICENSER, src, comments);
    CutSource(HEADERS, src);
    if |comments| == 0 {
      return src;
    }
    FindByFinds(src, comments);
    var removals := FindRemovals(src, comments, FindBy(LICENSER, src, comments));
    out := RemoveSpans(src, removals);
  }

  // ---- rewriteGoHeader ---------------------------------------------------

  lemma {:induction false} RowsSnoc(rows: seq<string>, row: string, eol: string)
    ensures Rows(rows + [row], eol) == Rows(rows, eol) + (row + eol)
  {
    if rows == [] {
      assert [] + [row] == [row];
      assert row + eol + "" == row + eol;
    } else {
      RowsSnoc(rows[1..], row, eol);
      assert (rows + [row])[1..] == rows[1..] + [row];
    }
  }

  /** The buffer with the constraints: line ends between them, then one for the last and an empty line. */
  method WriteConstraints(bom: string, constraints: seq<string>, eol: string) returns (r: string)
    ensures r == bom + Block(constraints, eol)
  {
    r := bom;
    if |constraints| > 0 {
      for idx := 0 to |constraints|
        invariant idx == 0 ==> r == bom
        invariant idx > 0 ==> r + eol == bom + Rows(constraints[..idx], eol)
      {
        assert constraints[..idx + 1] == constraints[..idx] + [constraints[idx]];
        RowsSnoc(constraints[..idx], constraints[idx], eol);
        if idx > 0 {
          r := r + eol;
        }
        assert r == bom + Rows(constraints[..idx], eol);
        Assoc(bom, Rows(constraints[..idx], eol), constraints[idx] + eol);
        Assoc(r, constraints[idx], eol);
        r := r + constraints[idx];
      }
      assert constraints[..|constraints|] == constraints;
      r := r + eol;
      Assoc(bom, Rows(constraints, eol), eol);
      r := r + eol;
    } else {
      assert bom + "" == bom;
    }
  }

  /** The rewrite of one file; a source without a package clause is an error. */
  method RewriteGoHeader(src: string, header: string) returns (updated: Option<string>, changed: bool)
    ensures updated == Rewrite(src, header)
    ensures changed <==> updated.Some? && updated.value != src
  {
    var parts := Split(src);
    if parts.None? {
      return None, false;
    }
    SplitParts(src);
    var p := parts.value;
    var eol := Eol(p.preamble + p.body);
    var preamble := RemoveApacheHeaders(p.preamble);
    var constraints;
    constraints, preamble := ExtractBuildConstraints(preamble);
    preamble := TrimLeadingBlankLines(preamble);
    var ret := WriteConstraints(p.bom, constraints, eol);
    ret := ret + WithEol(header, eol) + eol + eol;
    if !Blank(preamble) {
      ret := ret + preamble;
    } else {
      assert ret + "" == ret;
    }
    ret := ret + p.body;
    updated, changed := Some(ret), ret != src;
  }
}
