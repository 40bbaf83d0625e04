/** The string helpers that the licenser relies on. A char is a code point of a valid UTF-8 source. */
module Text {
  import opened Prelude

  /** White space as the bytes and strings packages see it. */
  predicate IsSpace(c: char) {
    var n := c as int;
    || 9 <= n <= 13 || n == 32 || n == 0x85 || n == 0xA0 || n == 0x1680 || 0x2000 <= n <= 0x200a
    || n == 0x2028 || n == 0x2029 || n == 0x202f || n == 0x205f || n == 0x3000
  }

  predicate Blank(s: string) {
    forall i :: 0 <= i < |s| ==> IsSpace(s[i])
  }

  function TrimLeft(s: string): string {
    if s != "" && IsSpace(s[0]) then TrimLeft(s[1..]) else s
  }

  function TrimRight(s: string): string {
    if s != "" && IsSpace(s[|s| - 1]) then TrimRight(s[..|s| - 1]) else s
  }

  function TrimSpace(s: string): string {
    TrimRight(TrimLeft(s))
  }

  predicate OccursAt(s: string, sub: string, i: nat) {
    i + |sub| <= |s| && forall j {:trigger sub[j]} :: 0 <= j < |sub| ==> s[i + j] == sub[j]
  }

  predicate Contains(s: string, sub: string) {
    exists i :: 0 <= i <= |s| && OccursAt(s, sub, i)
  }

  predicate HasPrefix(s: string, prefix: string) {
    |prefix| <= |s| && forall j {:trigger prefix[j]} :: 0 <= j < |prefix| ==> s[j] == prefix[j]
  }

  predicate HasSuffix(s: string, suffix: string) {
    |suffix| <= |s| && forall j {:trigger suffix[j]} :: 0 <= j < |suffix| ==> s[|s| - |suffix| + j] == suffix[j]
  }

  lemma {:induction false} ContainsWider(a: string, s: string, b: string, sub: string)
    requires Contains(s, sub)
    ensures Contains(a + s + b, sub)
  {
    var i :| 0 <= i <= |s| && OccursAt(s, sub, i);
    assert OccursAt(a + s + b, sub, |a| + i);
  }

  /** A text without line feeds cannot straddle the end of a line. */
  lemma {:induction false} ContainsAcrossLine(line: string, rest: string, sub: string)
    requires Contains(line + rest, sub) && sub != "" && '\n' !in sub
    requires line != "" && line[|line| - 1] == '\n'
    ensures Contains(line, sub) || Contains(rest, sub)
  {
    var s := line + rest;
    var i :| 0 <= i <= |s| && OccursAt(s, sub, i);
    if i + |sub| <= |line| {
      assert OccursAt(line, sub, i);
    } else if i >= |line| {
      assert OccursAt(rest, sub, i - |line|);
    } else {
      CharOfOccurrence(s, sub, i, |line| - 1);
    }
  }

  lemma {:induction false} CharOfOccurrence(s: string, sub: string, i: nat, k: nat)
    requires OccursAt(s, sub, i) && i <= k < i + |sub|
    ensures s[k] in sub
  {
    assert s[i + (k - i)] == sub[k - i];
  }

  // ---- Trimming ----------------------------------------------------------

  /** What TrimSpace leaves has no space at either end, and cuts only spaces off. */
  lemma {:induction false} TrimLeftParts(s: string) returns (cut: string)
    ensures s == cut + TrimLeft(s) && Blank(cut)
    ensures TrimLeft(s) != "" ==> !IsSpace(TrimLeft(s)[0])
  {
    if s != "" && IsSpace(s[0]) {
      var rest := TrimLeftParts(s[1..]);
      cut := [s[0]] + rest;
      assert s == [s[0]] + s[1..];
    } else {
      cut := "";
    }
  }

  lemma {:induction false} TrimRightParts(s: string) returns (cut: string)
    ensures s == TrimRight(s) + cut && Blank(cut)
    ensures TrimRight(s) != "" ==> !IsSpace(TrimRight(s)[|TrimRight(s)| - 1])
  {
    if s != "" && IsSpace(s[|s| - 1]) {
      var rest := TrimRightParts(s[..|s| - 1]);
      cut := rest + [s[|s| - 1]];
      assert s == s[..|s| - 1] + [s[|s| - 1]];
    } else {
      cut := "";
    }
  }

  lemma {:induction false} TrimParts(s: string) returns (left: string, right: string)
    ensures s == left + TrimSpace(s) + right && Blank(left) && Blank(right)
    ensures TrimSpace(s) != "" ==>
      !IsSpace(TrimSpace(s)[0]) && !IsSpace(TrimSpace(s)[|TrimSpace(s)| - 1])
  {
    left := TrimLeftParts(s);
    right := TrimRightParts(TrimLeft(s));
    var t := TrimLeft(s);
    assert t == TrimSpace(s) + right;
    assert TrimSpace(s) != "" ==> TrimSpace(s)[0] == t[0];
  }

  /** Text without spaces at its ends stands alone, whatever blanks follow it. */
  lemma {:induction false} TrimOfTrimmed(s: string, right: string)
    requires s != "" && !IsSpace(s[0]) && !IsSpace(s[|s| - 1]) && Blank(right)
    ensures TrimSpace(s + right) == s
    decreases |right|
  {
    assert TrimLeft(s + right) == s + right;
    if right == "" {
      assert s + right == s;
    } else {
      var n := |right| - 1;
      assert (s + right)[..|s + right| - 1] == s + right[..n];
      assert IsSpace(right[n]);
      TrimOfTrimmed(s, right[..n]);
      assert TrimLeft(s + right[..n]) == s + right[..n];
    }
  }

  lemma {:induction false} TrimLeftSkips(left: string, s: string)
    requires Blank(left)
    ensures TrimLeft(left + s) == TrimLeft(s)
  {
    if left == "" {
      assert left + s == s;
    } else {
      assert (left + s)[1..] == left[1..] + s;
      TrimLeftSkips(left[1..], s);
    }
  }

  lemma {:induction false} TrimOfBlank(s: string)
    requires Blank(s)
    ensures TrimSpace(s) == ""
  {
    TrimLeftSkips(s, "");
    assert s + "" == s;
  }

  /** Blanks after a text do not show in its trimmed form. */
  lemma {:induction false} TrimIgnoresTrailing(s: string, right: string)
    requires Blank(right)
    ensures TrimSpace(s + right) == TrimSpace(s)
  {
    var a, b := TrimParts(s);
    var t := TrimSpace(s);
    if t == "" {
      assert Blank(s + right);
      TrimOfBlank(s + right);
    } else {
      assert s + right == a + (t + (b + right));
      TrimLeftSkips(a, t + (b + right));
      TrimOfTrimmed(t, b + right);
      assert TrimLeft(t + (b + right)) == t + (b + right);
    }
  }

  // ---- Lines -------------------------------------------------------------

  /** The index just past the first line feed, or the length when there is none. */
  function LineEnd(s: string): (n: nat)
    ensures n <= |s| && (s != "" ==> n > 0)
    ensures n < |s| ==> s[n - 1] == '\n'
  {
    if s == "" then 0 else if s[0] == '\n' then 1 else 1 + LineEnd(s[1..])
  }

  lemma {:induction false} LineEndIsFirst(s: string)
    ensures forall i :: 0 <= i < LineEnd(s) - 1 ==> s[i] != '\n'
  {
    if s != "" && s[0] != '\n' {
      LineEndIsFirst(s[1..]);
      assert forall i :: 0 < i < |s| ==> s[i] == s[1..][i - 1];
    }
  }

  /** splitLines: every line keeps its line feed. */
  function Lines(s: string): seq<string>
    decreases |s|
  {
    if s == "" then [] else [s[..LineEnd(s)]] + Lines(s[LineEnd(s)..])
  }

  /** A line: no line feed but at its very end. */
  predicate IsLine(l: string) {
    l != "" && forall i :: 0 <= i < |l| - 1 ==> l[i] != '\n'
  }

  predicate Ended(l: string) {
    l != "" && l[|l| - 1] == '\n'
  }

  lemma {:induction false} FirstLineIs(s: string)
    requires s != ""
    ensures IsLine(s[..LineEnd(s)]) && (LineEnd(s) < |s| ==> Ended(s[..LineEnd(s)]))
  {
    LineEndIsFirst(s);
  }

  lemma {:induction false} LinesCons(first: string, rest: seq<string>)
    requires IsLine(first) && (rest != [] ==> Ended(first))
    requires forall i :: 0 <= i < |rest| ==> IsLine(rest[i])
    requires forall i :: 0 <= i < |rest| - 1 ==> Ended(rest[i])
    ensures Flatten([first] + rest) == first + Flatten(rest)
    ensures forall i :: 0 <= i < |rest| + 1 ==> IsLine(([first] + rest)[i])
    ensures forall i :: 0 <= i < |rest| ==> Ended(([first] + rest)[i])
  {
    assert ([first] + rest)[1..] == rest;
  }

  lemma {:induction false} LinesAre(s: string)
    ensures Flatten(Lines(s)) == s
    ensures forall i :: 0 <= i < |Lines(s)| ==> IsLine(Lines(s)[i])
    ensures forall i :: 0 <= i < |Lines(s)| - 1 ==> Ended(Lines(s)[i])
    decreases |s|
  {
    if s != "" {
      var first, rest := s[..LineEnd(s)], s[LineEnd(s)..];
      FirstLineIs(s);
      LinesAre(rest);
      LinesCons(first, Lines(rest));
      assert s == first + rest;
    }
  }

  lemma {:induction false} LineEndOfLine(l: string, rest: string)
    requires IsLine(l) && (Ended(l) || rest == "")
    ensures LineEnd(l + rest) == |l|
  {
    if |l| == 1 {
      assert (l + rest)[0] == l[0];
      if rest == "" {
        assert l + rest == l;
        assert l[1..] == "";
      }
    } else {
      assert (l + rest)[0] == l[0] != '\n';
      assert (l + rest)[1..] == l[1..] + rest;
      assert forall i :: 0 <= i < |l[1..]| - 1 ==> l[1..][i] == l[i + 1];
      LineEndOfLine(l[1..], rest);
    }
  }

  /** Splitting gives back any sequence of lines of which all but the last are ended. */
  lemma {:induction false} LinesOfFlatten(ls: seq<string>)
    requires forall i :: 0 <= i < |ls| ==> IsLine(ls[i])
    requires forall i :: 0 <= i < |ls| - 1 ==> Ended(ls[i])
    ensures Lines(Flatten(ls)) == ls
  {
    if ls != [] {
      var rest := Flatten(ls[1..]);
      if |ls| == 1 {
        assert rest == "";
      }
      LineEndOfLine(ls[0], rest);
      assert (ls[0] + rest)[..|ls[0]|] == ls[0];
      assert (ls[0] + rest)[|ls[0]|..] == rest;
      LinesOfFlatten(ls[1..]);
    }
  }

  lemma {:induction false} LastOfFlatten(ls: seq<string>)
    requires |ls| > 0 && ls[|ls| - 1] != ""
    ensures Flatten(ls) != ""
    ensures Flatten(ls)[|Flatten(ls)| - 1] == ls[|ls| - 1][|ls[|ls| - 1]| - 1]
  {
    if |ls| > 1 {
      LastOfFlatten(ls[1..]);
    } else {
      assert Flatten(ls[1..]) == "";
    }
  }

  /** The last line of an ended text is ended. */
  lemma {:induction false} LastLineEnded(a: string)
    requires Ended(a)
    ensures |Lines(a)| > 0 && Ended(Lines(a)[|Lines(a)| - 1])
  {
    LinesAre(a);
    LastOfFlatten(Lines(a));
  }

  lemma {:induction false} LinesJoin(x: seq<string>, y: seq<string>)
    requires forall i :: 0 <= i < |x| ==> IsLine(x[i]) && Ended(x[i])
    requires forall i :: 0 <= i < |y| ==> IsLine(y[i])
    requires forall i :: 0 <= i < |y| - 1 ==> Ended(y[i])
    ensures Lines(Flatten(x) + Flatten(y)) == x + y
  {
    FlattenAppend(x, y);
    LinesOfFlatten(x + y);
  }

  lemma {:induction false} LinesAppend(a: string, b: string)
    requires a == "" || Ended(a)
    ensures Lines(a + b) == Lines(a) + Lines(b)
  {
    LinesAre(a);
    LinesAre(b);
    if a != "" {
      LastLineEnded(a);
    }
    LinesJoin(Lines(a), Lines(b));
  }

  lemma {:induction false} NoLineContains(ls: seq<string>, sub: string)
    requires sub != "" && '\n' !in sub
    requires forall l :: l in ls ==> l != "" && !Contains(l, sub)
    requires forall i :: 0 <= i < |ls| - 1 ==> Ended(ls[i])
    ensures !Contains(Flatten(ls), sub)
  {
    if ls != [] {
      assert forall l :: l in ls[1..] ==> l in ls;
      assert ls[0] in ls;
      NoLineContains(ls[1..], sub);
      if |ls| == 1 {
        assert Flatten(ls) == ls[0] + "" == ls[0];
      } else if Contains(Flatten(ls), sub) {
        ContainsAcrossLine(ls[0], Flatten(ls[1..]), sub);
      }
    }
  }
}
