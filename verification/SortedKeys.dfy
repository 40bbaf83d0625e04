/** sortedKeys of cordium-go/spec.go: whatever order a map is walked in, the keys come out the same. */
module SortedKeys {
  import opened Prelude
  import opened KeyedList

  /** The order of Go strings; that of UTF-8 bytes is that of code points. */
  predicate Less(a: string, b: string) {
    b != "" && (a == "" || a[0] < b[0] || (a[0] == b[0] && Less(a[1..], b[1..])))
  }

  lemma {:induction false} LessIsTotal(a: string, b: string)
    ensures Less(a, b) || a == b || Less(b, a)
    ensures !(Less(a, b) && Less(b, a)) && !Less(a, a)
  {
    if a != "" {
      LessIsTotal(a[1..], if b == "" then b else b[1..]);
      if b != "" {
        assert a[0] == b[0] && a[1..] == b[1..] ==> a == b by {
          assert a == [a[0]] + a[1..] && b == [b[0]] + b[1..];
        }
      }
    }
  }

  lemma {:induction false} LessIsTransitive(a: string, b: string, c: string)
    requires Less(a, b) && Less(b, c)
    ensures Less(a, c)
  {
    if a != "" && b != "" && c != "" && a[0] == b[0] == c[0] {
      LessIsTransitive(a[1..], b[1..], c[1..]);
    }
  }

  predicate Ascending(s: seq<string>) {
    forall i, j :: 0 <= i < j < |s| ==> Less(s[i], s[j])
  }

  predicate SameElements<T(==)>(a: seq<T>, b: seq<T>) {
    (forall x :: x in a ==> x in b) && (forall x :: x in b ==> x in a)
  }

  /** Insertion in front of the first larger string. */
  function Insert(s: seq<string>, k: string): (r: seq<string>)
    ensures |r| == |s| + 1 && forall x :: x in r <==> x in s || x == k
  {
    if s == [] || Less(k, s[0]) then [k] + s
    else
      assert s == [s[0]] + s[1..];
      [s[0]] + Insert(s[1..], k)
  }

  lemma {:induction false} AscendingCons(k: string, s: seq<string>)
    requires Ascending(s) && forall x :: x in s ==> Less(k, x)
    ensures Ascending([k] + s)
  {
    var r := [k] + s;
    forall i, j | 0 <= i < j < |r| ensures Less(r[i], r[j]) {
      assert r[j] == s[j - 1] && s[j - 1] in s;
      assert i > 0 ==> r[i] == s[i - 1];
    }
  }

  lemma {:induction false} InsertKeepsAscending(s: seq<string>, k: string)
    requires Ascending(s) && k !in s
    ensures Ascending(Insert(s, k))
  {
    if s == [] {
    } else if Less(k, s[0]) {
      forall x | x in s ensures Less(k, x) {
        var i :| 0 <= i < |s| && s[i] == x;
        if i > 0 {
          LessIsTransitive(k, s[0], s[i]);
        }
      }
      AscendingCons(k, s);
    } else {
      LessIsTotal(k, s[0]);
      assert s[0] in s && forall x :: x in s[1..] ==> x in s;
      InsertKeepsAscending(s[1..], k);
      forall x | x in Insert(s[1..], k) ensures Less(s[0], x) {
        if x != k {
          var i :| 0 <= i < |s[1..]| && s[1..][i] == x;
          assert s[1..][i] == s[i + 1];
        }
      }
      AscendingCons(s[0], Insert(s[1..], k));
    }
  }

  /** What sort.Strings makes of distinct strings. */
  function Sorted(s: seq<string>): (r: seq<string>)
    ensures |r| == |s| && SameElements(r, s)
  {
    if s == [] then []
    else
      assert s == [s[0]] + s[1..];
      Insert(Sorted(s[1..]), s[0])
  }

  lemma {:induction false} SortedIsAscending(s: seq<string>)
    requires Distinct(s)
    ensures Ascending(Sorted(s))
  {
    if s != [] {
      assert forall i, j :: 0 <= i < j < |s[1..]| ==> s[1..][i] == s[i + 1] && s[1..][j] == s[j + 1];
      SortedIsAscending(s[1..]);
      assert s[0] !in s[1..];
      InsertKeepsAscending(Sorted(s[1..]), s[0]);
    }
  }

  /** The least element comes first. */
  lemma {:induction false} HeadIsLeast(a: seq<string>, x: string)
    requires Ascending(a) && x in a
    ensures x == a[0] || Less(a[0], x)
  {
    var i :| 0 <= i < |a| && a[i] == x;
    if i > 0 {
      assert Less(a[0], a[i]);
    }
  }

  lemma {:induction false} TailElements(a: seq<string>, x: string)
    requires Ascending(a) && a != []
    ensures x in a[1..] <==> x in a && x != a[0]
    ensures Ascending(a[1..])
  {
    assert forall i, j :: 0 <= i < j < |a[1..]| ==> a[1..][i] == a[i + 1] && a[1..][j] == a[j + 1];
    assert forall i :: 0 < i < |a| ==> a[1..][i - 1] == a[i];
    if x in a[1..] {
      var i :| 0 <= i < |a[1..]| && a[1..][i] == x;
      assert a[i + 1] == x && Less(a[0], a[i + 1]);
      LessIsTotal(a[0], x);
    } else if x in a {
      var i :| 0 <= i < |a| && a[i] == x;
    }
  }

  /** There is only one ascending list of given strings. */
  lemma {:induction false} AscendingIsUnique(a: seq<string>, b: seq<string>)
    requires Ascending(a) && Ascending(b) && SameElements(a, b)
    ensures a == b
  {
    assert b != [] ==> b[0] in b && b[0] in a;
    if a != [] {
      assert a[0] in a;
      assert b[0] in b;
      HeadIsLeast(a, b[0]);
      HeadIsLeast(b, a[0]);
      LessIsTotal(a[0], b[0]);
      forall x ensures x in a[1..] <==> x in b[1..] {
        TailElements(a, x);
        TailElements(b, x);
      }
      TailElements(a, a[0]);
      TailElements(b, b[0]);
      AscendingIsUnique(a[1..], b[1..]);
      assert a == [a[0]] + a[1..] && b == [b[0]] + b[1..];
    }
  }

  /** walk is the order in which a map with these keys is iterated: each key once. */
  predicate Walks(walk: seq<string>, keys: set<string>) {
    Distinct(walk) && (forall k :: k in walk ==> k in keys) && (forall k :: k in keys ==> k in walk)
  }

  /** The result is the strictly ascending list of the keys. */
  method KeysSorted(walk: seq<string>, ghost keys: set<string>) returns (r: seq<string>)
    requires Walks(walk, keys)
    ensures r == Sorted(walk)
    ensures Walks(r, keys) && Ascending(r)
  {
    if |walk| == 0 {
      return [];
    }
    r := [];
    for i := 0 to |walk|
      invariant r == walk[..i]
    {
      r := r + [walk[i]];
    }
    assert walk[..|walk|] == walk;
    SortedIsAscending(walk);
    r := Sorted(r);
    AscendingIsDistinct(r);
  }

  lemma {:induction false} AscendingIsDistinct(s: seq<string>)
    requires Ascending(s)
    ensures Distinct(s)
  {
    forall i, j | 0 <= i < j < |s| ensures s[i] != s[j] {
      LessIsTotal(s[i], s[j]);
    }
  }

  /** Two walks over the same map sort to the same list. */
  lemma {:induction false} WalkDoesNotMatter(a: seq<string>, b: seq<string>, keys: set<string>)
    requires Walks(a, keys) && Walks(b, keys)
    ensures Sorted(a) == Sorted(b)
  {
    SortedIsAscending(a);
    SortedIsAscending(b);
    AscendingIsUnique(Sorted(a), Sorted(b));
  }
}
