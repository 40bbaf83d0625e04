/**
 Which comments make a header, said of the token sequence alone: three phrases in
 one block comment, or in a group of line comments that starts with the copyright
 and goes on as far as it may. The scan of Preamble removes exactly these.
 */
module HeaderGroups {
  import opened Prelude
  import opened Text
  import opened Preamble

  // ---- What a header is --------------------------------------------------

  /** How many line feeds there are among the tokens from number a up to number b. */
  function Feeds(ts: seq<Token>, a: nat, b: nat): nat
    requires a <= b <= |ts|
    decreases b - a
  {
    if a == b then 0 else (if ts[a] == Ws('\n') then 1 else 0) + Feeds(ts, a + 1, b)
  }

  predicate Blanks(ts: seq<Token>, a: nat, b: nat)
    requires a <= b <= |ts|
  {
    forall m :: a <= m < b ==> ts[m].Ws? && IsSpace(ts[m].c)
  }

  predicate IsLineCommentToken(t: Token) {
    t.Comment? && HasPrefix(t.text, "//")
  }

  /** Line comment j is on the line below line comment i, and neither a constraint nor a generated-code marker. */
  predicate Continues(ts: seq<Token>, i: nat, j: nat)
    requires i < j < |ts|
  {
    && IsLineCommentToken(ts[i]) && IsLineCommentToken(ts[j])
    && Blanks(ts, i + 1, j) && Feeds(ts, i + 1, j) == 1
    && !IsBuildConstraint(ts[j].text) && !IsGeneratedMarker(ts[j].text)
  }

  predicate ContinuesOne(ts: seq<Token>, j: nat)
    requires j < |ts|
  {
    exists i: nat :: i < j && Continues(ts, i, j)
  }

  predicate EndsIt(ts: seq<Token>, j: nat)
    requires j < |ts|
  {
    ts[j].Comment? && Contains(ts[j].text, TERMINATOR)
  }

  /** A comment after the first, and at most the last one, in a group of n tokens. */
  predicate InGroup(ts: seq<Token>, n: nat, j: nat)
    requires 0 < n <= |ts| && j < n
  {
    ts[j].Comment? && j > 0 ==> ContinuesOne(ts, j) && (EndsIt(ts, j) ==> j == n - 1)
  }

  /** Every comment continues the one before it, and the group ends with the first that ends a header. */
  predicate Chained(ts: seq<Token>, n: nat)
    requires 0 < n <= |ts|
  {
    ts[n - 1].Comment? && forall j: nat :: j < n ==> InGroup(ts, n, j)
  }

  predicate ContinuedBy(ts: seq<Token>, i: nat)
    requires i < |ts|
  {
    exists j: nat :: i < j < |ts| && Continues(ts, i, j)
  }

  /** The group goes no further: its last comment ends a header, or the next one does not continue it. */
  predicate Complete(ts: seq<Token>, n: nat)
    requires 0 < n <= |ts|
  {
    (n > 1 && EndsIt(ts, n - 1)) || !ContinuedBy(ts, n - 1)
  }

  predicate HoldsPhrases(text: string) {
    Contains(text, MARKER) && Contains(text, LICENSE) && Contains(text, TERMINATOR)
  }

  /** The first n tokens are a header. */
  predicate HeaderPrefix(ts: seq<Token>, n: nat) {
    && 0 < n <= |ts| && ts[0].Comment? && HoldsPhrases(Unparse(ts[..n]))
    && (if HasPrefix(ts[0].text, "/*") then n == 1
        else HasPrefix(ts[0].text, "//") && Contains(ts[0].text, MARKER) && Chained(ts, n) && Complete(ts, n))
  }

  // ---- Groups ------------------------------------------------------------

  predicate OnlyWs(ts: seq<Token>, a: nat, b: nat)
    requires a <= b <= |ts|
  {
    forall m :: a <= m < b ==> ts[m].Ws?
  }

  lemma {:induction false} BetweenCons(ts: seq<Token>, a: nat, b: nat)
    requires a < b <= |ts| && ts[a].Ws?
    ensures Between(ts, a, b) == [ts[a].c] + Between(ts, a + 1, b)
  {
  }

  lemma {:induction false} BlankCons(c: char, s: string)
    ensures Blank([c] + s) <==> IsSpace(c) && Blank(s)
  {
    assert forall i :: 0 <= i < |s| ==> ([c] + s)[i + 1] == s[i];
    assert ([c] + s)[0] == c;
  }

  lemma {:induction false} FeedsCons(c: char, s: string)
    ensures CountLineFeeds([c] + s) == (if c == '\n' then 1 else 0) + CountLineFeeds(s)
  {
    assert ([c] + s)[1..] == s;
  }

  lemma {:induction false} BetweenBlanks(ts: seq<Token>, a: nat, b: nat)
    requires a <= b <= |ts| && OnlyWs(ts, a, b)
    ensures Blank(Between(ts, a, b)) <==> Blanks(ts, a, b)
    decreases b - a
  {
    if a < b {
      BetweenBlanks(ts, a + 1, b);
      BetweenCons(ts, a, b);
      BlankCons(ts[a].c, Between(ts, a + 1, b));
    }
  }

  lemma {:induction false} BetweenFeeds(ts: seq<Token>, a: nat, b: nat)
    requires a <= b <= |ts| && OnlyWs(ts, a, b)
    ensures CountLineFeeds(Between(ts, a, b)) == Feeds(ts, a, b)
    decreases b - a
  {
    if a < b {
      BetweenFeeds(ts, a + 1, b);
      BetweenCons(ts, a, b);
      FeedsCons(ts[a].c, Between(ts, a + 1, b));
    }
  }

  /** The scan's test of two neighbouring comments, given the next comment. */
  lemma {:induction false} JoinsIff(ts: seq<Token>, a: nat, j: nat)
    requires 0 < a <= j < |ts| && ts[a - 1].Comment? && j == NextComment(ts, a)
    ensures LICENSER.joins(ts[a - 1].text, Between(ts, a, j), ts[j].text) <==> Continues(ts, a - 1, j)
  {
    OnlyBlanksBeforeNext(ts, a);
    BetweenBlanks(ts, a, j);
    BetweenFeeds(ts, a, j);
  }

  /** Only the comment right before can be continued. */
  lemma {:induction false} ContinuesPrevious(ts: seq<Token>, a: nat, j: nat)
    requires 0 < a <= j < |ts| && ts[a - 1].Comment? && j == NextComment(ts, a)
    ensures ContinuesOne(ts, j) <==> Continues(ts, a - 1, j)
  {
    OnlyBlanksBeforeNext(ts, a);
    if i: nat :| i < j && Continues(ts, i, j) {
      assert i >= a - 1;
      assert i < a;
    }
  }

  /** A comment of the group after which it goes on. */
  predicate Within(ts: seq<Token>, j: nat)
    requires j < |ts|
  {
    ts[j].Comment? ==> ContinuesOne(ts, j) && !EndsIt(ts, j)
  }

  /** The part of a group that has been gone through: it may go on. */
  predicate Open(ts: seq<Token>, a: nat)
    requires 0 < a <= |ts|
  {
    ts[a - 1].Comment? && forall j: nat :: 0 < j < a ==> Within(ts, j)
  }

  lemma {:induction false} BlankIsInGroup(ts: seq<Token>, a: nat, j: nat, k: nat)
    requires 0 < a <= k < j < |ts| && j == NextComment(ts, a)
    ensures InGroup(ts, j + 1, k) && Within(ts, k)
  {
    OnlyBlanksBeforeNext(ts, a);
  }

  lemma {:induction false} OpenGrows(ts: seq<Token>, a: nat, j: nat)
    requires 0 < a <= j < |ts| && Open(ts, a) && j == NextComment(ts, a) && ContinuesOne(ts, j)
    ensures Chained(ts, j + 1)
    ensures !EndsIt(ts, j) ==> Open(ts, j + 1)
  {
    var n := j + 1;
    forall k: nat | k < n ensures InGroup(ts, n, k) && (k > 0 && !EndsIt(ts, j) ==> Within(ts, k)) {
      if a <= k < j {
        BlankIsInGroup(ts, a, j, k);
      } else if 0 < k < a {
        assert Within(ts, k);
      }
    }
  }

  lemma {:induction false} OpenIsChained(ts: seq<Token>, a: nat)
    requires 0 < a <= |ts| && Open(ts, a)
    ensures Chained(ts, a)
  {
    forall k: nat | k < a ensures InGroup(ts, a, k) {
      if k > 0 {
        assert Within(ts, k);
      }
    }
  }

  lemma {:induction false} OnlyNextContinues(ts: seq<Token>, a: nat, k: nat)
    requires 0 < a <= k < |ts| && Continues(ts, a - 1, k)
    ensures k == NextComment(ts, a)
  {
    OnlyBlanksBeforeNext(ts, a);
  }

  lemma {:induction false} NothingContinues(ts: seq<Token>, a: nat)
    requires 0 < a <= |ts| && ts[a - 1].Comment?
    requires var j := NextComment(ts, a); j == |ts| || !Continues(ts, a - 1, j)
    ensures !ContinuedBy(ts, a - 1)
  {
    var i := a - 1;
    if ContinuedBy(ts, i) {
      var k: nat :| i < k < |ts| && Continues(ts, i, k);
      OnlyNextContinues(ts, a, k);
    }
  }

  /** One round of the scan over a group. */
  ghost predicate RoundAt(ts: seq<Token>, ends: Ends, a: nat)
    requires 0 < a <= |ts| && ts[a - 1].Comment?
  {
    var j := NextComment(ts, a);
    ends(a) == if j == |ts| || !Continues(ts, a - 1, j) then a else if EndsIt(ts, j) then j + 1 else ends(j + 1)
  }

  ghost predicate Rounds(ts: seq<Token>, ends: Ends) {
    forall a: nat :: 0 < a <= |ts| && ts[a - 1].Comment? ==> RoundAt(ts, ends, a)
  }

  lemma {:induction false} RoundIs(ts: seq<Token>, a: nat)
    requires 0 < a <= |ts| && ts[a - 1].Comment?
    ensures RoundAt(ts, EndsBy(LICENSER, ts), a)
  {
    var j := NextComment(ts, a);
    if j < |ts| {
      JoinsIff(ts, a, j);
    }
  }

  lemma {:induction false} ScanRounds(ts: seq<Token>)
    ensures Rounds(ts, EndsBy(LICENSER, ts))
  {
    forall a: nat | 0 < a <= |ts| && ts[a - 1].Comment? ensures RoundAt(ts, EndsBy(LICENSER, ts), a) {
      RoundIs(ts, a);
    }
  }

  /** At b the scan has arrived, or it goes on from a later place with the same outcome. */
  predicate OnTheWay(ends: Ends, open: nat -> bool, done: nat -> bool, next: nat -> nat, limit: nat, b: nat) {
    open(b) ==>
      && b <= limit
      && (done(ends(b)) || (b < next(b) && open(next(b)) && ends(b) == ends(next(b))))
  }

  lemma {:induction false} Arrives(ends: Ends, open: nat -> bool, done: nat -> bool, next: nat -> nat, limit: nat, a: nat)
    requires open(a) && forall b: nat :: OnTheWay(ends, open, done, next, limit, b)
    ensures done(ends(a))
    decreases if a <= limit then limit - a else 0
  {
    assert OnTheWay(ends, open, done, next, limit, a);
    if !done(ends(a)) {
      assert OnTheWay(ends, open, done, next, limit, next(a));
      Arrives(ends, open, done, next, limit, next(a));
    }
  }

  predicate OpenAt(ts: seq<Token>, a: nat) {
    0 < a <= |ts| && Open(ts, a)
  }

  predicate CompleteAt(ts: seq<Token>, e: nat) {
    0 < e <= |ts| && Chained(ts, e) && Complete(ts, e)
  }

  lemma {:induction false} StopsComplete(ts: seq<Token>, a: nat)
    requires OpenAt(ts, a)
    requires var j := NextComment(ts, a); j == |ts| || !Continues(ts, a - 1, j)
    ensures CompleteAt(ts, a)
  {
    OpenIsChained(ts, a);
    NothingContinues(ts, a);
  }

  lemma {:induction false} GoesOn(ts: seq<Token>, a: nat, j: nat)
    requires OpenAt(ts, a) && j == NextComment(ts, a) && j < |ts| && Continues(ts, a - 1, j)
    ensures if EndsIt(ts, j) then CompleteAt(ts, j + 1) else OpenAt(ts, j + 1)
  {
    assert ContinuesOne(ts, j);
    OpenGrows(ts, a, j);
  }

  function OpenIn(ts: seq<Token>): nat -> bool {
    (a: nat) => OpenAt(ts, a)
  }

  function CompleteIn(ts: seq<Token>): nat -> bool {
    (e: nat) => CompleteAt(ts, e)
  }

  function BehindNext(ts: seq<Token>): nat -> nat {
    (a: nat) => if a <= |ts| then NextComment(ts, a) + 1 else 0
  }

  lemma {:induction false} RoundLeads(ts: seq<Token>, ends: Ends, b: nat)
    requires Rounds(ts, ends) && OpenAt(ts, b)
    ensures CompleteAt(ts, ends(b))
            || (OpenAt(ts, NextComment(ts, b) + 1) && ends(b) == ends(NextComment(ts, b) + 1))
  {
    var j := NextComment(ts, b);
    assert RoundAt(ts, ends, b);
    if j == |ts| || !Continues(ts, b - 1, j) {
      StopsComplete(ts, b);
    } else {
      GoesOn(ts, b, j);
    }
  }

  lemma {:induction false} ScanIsOnTheWay(ts: seq<Token>, ends: Ends, b: nat)
    requires Rounds(ts, ends)
    ensures OnTheWay(ends, OpenIn(ts), CompleteIn(ts), BehindNext(ts), |ts|, b)
  {
    if OpenAt(ts, b) {
      RoundLeads(ts, ends, b);
    }
  }

  /** The scan's group is a complete chain. */
  lemma {:induction false} GroupIsComplete(ts: seq<Token>, ends: Ends, a: nat)
    requires OpenAt(ts, a) && Rounds(ts, ends)
    ensures CompleteAt(ts, ends(a))
  {
    forall b: nat ensures OnTheWay(ends, OpenIn(ts), CompleteIn(ts), BehindNext(ts), |ts|, b) {
      ScanIsOnTheWay(ts, ends, b);
    }
    Arrives(ends, OpenIn(ts), CompleteIn(ts), BehindNext(ts), |ts|, a);
  }

  /** A complete chain that goes on beyond a has its next comment inside. */
  lemma {:induction false} ChainGoesOn(ts: seq<Token>, a: nat, n: nat)
    requires 0 < a < n <= |ts| && ts[a - 1].Comment? && Chained(ts, n)
    ensures var j := NextComment(ts, a); j < n && Continues(ts, a - 1, j) && (EndsIt(ts, j) ==> j == n - 1)
  {
    var j := NextComment(ts, a);
    OnlyBlanksBeforeNext(ts, a);
    assert j <= n - 1;
    assert InGroup(ts, n, j);
    ContinuesPrevious(ts, a, j);
  }

  /** There is only one complete chain, and the scan finds it. */
  lemma {:induction false} CompleteIsGroup(ts: seq<Token>, ends: Ends, a: nat, n: nat)
    requires 0 < a <= n <= |ts| && Open(ts, a) && Rounds(ts, ends) && Chained(ts, n) && Complete(ts, n)
    ensures ends(a) == n
    decreases |ts| - a
  {
    var j := NextComment(ts, a);
    assert RoundAt(ts, ends, a);
    if a < n {
      ChainGoesOn(ts, a, n);
      if !EndsIt(ts, j) {
        OpenGrows(ts, a, j);
        CompleteIsGroup(ts, ends, j + 1, n);
      }
    } else {
      assert a > 1 ==> Within(ts, a - 1);
    }
  }

  /** The scan's group from the first comment on is the complete chain. */
  lemma {:induction false} GroupIff(ts: seq<Token>, n: nat)
    requires 0 < n <= |ts| && ts[0].Comment?
    ensures GroupEnd(LICENSER, ts, 1) == n <==> Chained(ts, n) && Complete(ts, n)
  {
    var ends := EndsBy(LICENSER, ts);
    ScanRounds(ts);
    assert Open(ts, 1);
    GroupIsComplete(ts, ends, 1);
    if Chained(ts, n) && Complete(ts, n) {
      CompleteIsGroup(ts, ends, 1, n);
    }
  }

  // ---- Headers -----------------------------------------------------------

  lemma {:induction false} OneToken(ts: seq<Token>)
    requires ts != [] && ts[0].Comment?
    ensures Unparse(ts[..1]) == ts[0].text
  {
    assert ts[..1] == [ts[0]] + [];
    UnparseCons(ts[0], []);
    assert ts[0].text + "" == ts[0].text;
  }

  lemma {:induction false} BlockOrLine(text: string)
    ensures !(HasPrefix(text, "/*") && HasPrefix(text, "//"))
  {
    assert "/*"[1] == '*' && "//"[1] == '/';
  }

  /** The scan takes out n tokens exactly if they are a header. */
  lemma {:induction false} HeadersExactly(ts: seq<Token>, n: nat)
    requires n > 0
    ensures HEADERS(ts) == n <==> HeaderPrefix(ts, n)
  {
    if ts != [] && ts[0].Comment? {
      BlockOrLine(ts[0].text);
      OneToken(ts);
      if n <= |ts| {
        GroupIff(ts, n);
      }
    }
  }

  /** Each dropped group is a header where it stands, and no header starts at a kept token. */
  ghost predicate ExactSegments(segments: Segments) {
    match segments
    case End => true
    case Keep(t, rest) => (forall n :: !HeaderPrefix([t] + All(rest), n)) && ExactSegments(rest)
    case Drop(g, rest) => HeaderPrefix(g + All(rest), |g|) && ExactSegments(rest)
  }

  lemma {:induction false} NoHeaderHere(ts: seq<Token>)
    requires HEADERS(ts) == 0
    ensures forall n :: !HeaderPrefix(ts, n)
  {
    forall n ensures !HeaderPrefix(ts, n) {
      if n > 0 {
        HeadersExactly(ts, n);
      }
    }
  }

  lemma {:induction false} FrontAndRest(cut: Cutter, ts: seq<Token>, n: nat)
    requires n <= |ts|
    ensures ts[..n] + All(SegmentsBy(cut, ts[n..])) == ts
  {
    SegmentsCover(cut, ts[n..]);
    assert ts == ts[..n] + ts[n..];
  }

  /** The removal takes out all headers, whole and nothing but them. */
  lemma {:induction false} SegmentsAreHeaders(ts: seq<Token>)
    ensures ExactSegments(SegmentsBy(HEADERS, ts))
    decreases |ts|
  {
    if ts != [] {
      var n := HEADERS(ts);
      if n > 0 {
        SegmentsAreHeaders(ts[n..]);
        HeadersExactly(ts, n);
        FrontAndRest(HEADERS, ts, n);
      } else {
        SegmentsAreHeaders(ts[1..]);
        NoHeaderHere(ts);
        FrontAndRest(HEADERS, ts, 1);
        assert [ts[0]] == ts[..1];
      }
    }
  }

  /** The removal takes out all headers, whole and nothing but them, and leaves everything else in place. */
  lemma {:induction false} SegmentsExact(ts: seq<Token>)
    ensures All(SegmentsBy(HEADERS, ts)) == ts
    ensures DropsHeaders(LICENSER, SegmentsBy(HEADERS, ts)) && ExactSegments(SegmentsBy(HEADERS, ts))
  {
    LicenserIsSound();
    SegmentsCover(HEADERS, ts);
    SegmentsDropHeaders(LICENSER, ts);
    SegmentsAreHeaders(ts);
  }

  /** In particular only the last comment of a removed group, or its first, ends a header, and none but the first is a marker. */
  lemma {:induction false} GroupStaysWithin(ts: seq<Token>, n: nat, j: nat)
    requires HeaderPrefix(ts, n) && 0 < j < n && ts[j].Comment?
    ensures Contains(ts[j].text, TERMINATOR) ==> j == n - 1
    ensures !IsBuildConstraint(ts[j].text) && !IsGeneratedMarker(ts[j].text)
  {
    assert InGroup(ts, n, j);
  }
}
