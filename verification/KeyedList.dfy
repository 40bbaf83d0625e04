/**
 The keyed lists of cordium-go/spec.go: an upsert that overwrites an entry in
 place (lines 1203-1211), and what any number of them amounts to, which is a map
 that remembers the order in which its keys first came.
 */
module KeyedList {
  import opened Prelude

  function KeysOf<T, K>(items: seq<T>, key: T -> K): (r: seq<K>)
    ensures |r| == |items| && forall i :: 0 <= i < |r| ==> r[i] == key(items[i])
  {
    seq(|items|, i requires 0 <= i < |items| => key(items[i]))
  }

  predicate Distinct<T(==)>(s: seq<T>) {
    forall i, j :: 0 <= i < j < |s| ==> s[i] != s[j]
  }

  /** The index of the first occurrence of x, or the length. */
  function IndexOf<T(==)>(s: seq<T>, x: T): (n: nat)
    ensures n <= |s| && (n < |s| ==> s[n] == x)
    ensures forall i :: 0 <= i < n ==> s[i] != x
  {
    if s == [] || s[0] == x then 0 else 1 + IndexOf(s[1..], x)
  }

  /** The entry that a key leads to. */
  function Lookup<T, K(==)>(items: seq<T>, k: K, key: T -> K): (r: Option<T>)
    ensures r.Some? <==> k in KeysOf(items, key)
    ensures r.Some? ==> key(r.value) == k && r.value in items
  {
    var i := IndexOf(KeysOf(items, key), k);
    if i < |items| then
      assert KeysOf(items, key)[i] == k;
      Some(items[i])
    else None
  }

  function Upserted<T, K(==)>(items: seq<T>, item: T, key: T -> K): seq<T> {
    var i := IndexOf(KeysOf(items, key), key(item));
    if i < |items| then items[i := item] else items + [item]
  }

  method Upsert<T, K(==)>(items: seq<T>, item: T, key: T -> K) returns (r: seq<T>)
    ensures r == Upserted(items, item, key)
  {
    for i := 0 to |items|
      invariant forall j :: 0 <= j < i ==> key(items[j]) != key(item)
    {
      if key(items[i]) == key(item) {
        assert i == IndexOf(KeysOf(items, key), key(item));
        return items[i := item];
      }
    }
    return items + [item];
  }

  /** A run of upserts, the last entry of writes being the last one written. */
  function UpsertAll<T, K(==)>(items: seq<T>, writes: seq<T>, key: T -> K): seq<T> {
    if writes == [] then items
    else Upserted(UpsertAll(items, writes[..|writes| - 1], key), writes[|writes| - 1], key)
  }

  lemma {:induction false} UpsertAllAppend<T, K>(items: seq<T>, a: seq<T>, b: seq<T>, key: T -> K)
    ensures UpsertAll(items, a + b, key) == UpsertAll(UpsertAll(items, a, key), b, key)
    decreases |b|
  {
    if b == [] {
      assert a + b == a;
    } else {
      var n := |b| - 1;
      assert (a + b)[..|a + b| - 1] == a + b[..n];
      UpsertAllAppend(items, a, b[..n], key);
    }
  }

  lemma {:induction false} IndexOfSnoc<T>(s: seq<T>, last: T, x: T)
    ensures IndexOf(s + [last], x) == if x in s then IndexOf(s, x) else if x == last then |s| else |s| + 1
  {
    var n := IndexOf(s + [last], x);
    if x in s {
      var m := IndexOf(s, x);
      assert (s + [last])[m] == x;
      assert n < |s| ==> s[n] == (s + [last])[n];
    } else {
      assert forall i :: 0 <= i < |s| ==> (s + [last])[i] == s[i] && s[i] != x;
      assert (s + [last])[|s|] == last;
    }
  }

  /** One upsert: the keys keep their places, and only the entry's own key leads anywhere new. */
  lemma {:induction false} UpsertIsMapUpdate<T, K>(items: seq<T>, item: T, key: T -> K, k: K)
    ensures var ks := KeysOf(items, key);
            KeysOf(Upserted(items, item, key), key) == if key(item) in ks then ks else ks + [key(item)]
    ensures Lookup(Upserted(items, item, key), k, key) == if k == key(item) then Some(item) else Lookup(items, k, key)
  {
    var ks := KeysOf(items, key);
    var i := IndexOf(ks, key(item));
    if i < |items| {
      assert ks[i] == key(item);
      assert KeysOf(Upserted(items, item, key), key) == ks;
    } else {
      assert KeysOf(items + [item], key) == ks + [key(item)];
      IndexOfSnoc(ks, key(item), k);
    }
  }

  /** The last entry of writes with the key, if there is one. */
  function LastWith<T, K(==)>(writes: seq<T>, k: K, key: T -> K): (r: Option<T>)
    ensures r.Some? <==> k in KeysOf(writes, key)
    ensures r.Some? ==> exists i :: 0 <= i < |writes| && writes[i] == r.value && key(writes[i]) == k
                                    && forall j :: i < j < |writes| ==> key(writes[j]) != k
  {
    if writes == [] then None
    else
      var n := |writes| - 1;
      assert KeysOf(writes, key)[n] == key(writes[n]);
      if key(writes[n]) == k then Some(writes[n])
      else
        assert KeysOf(writes, key) == KeysOf(writes[..n], key) + [key(writes[n])];
        LastWith(writes[..n], k, key)
  }

  /** Keys in front of the list stay in front; the others come in the order of their first writes. */
  ghost predicate OrderKept<K(!new)>(before: seq<K>, written: seq<K>, after: seq<K>) {
    && before <= after
    && (forall k :: k in after <==> k in before || k in written)
    && (forall i :: |before| <= i < |after| ==> after[i] !in before)
    && (Distinct(before) ==> Distinct(after))
    && (forall i, j :: |before| <= i < j < |after| ==> IndexOf(written, after[i]) < IndexOf(written, after[j]))
  }

  lemma {:induction false} OrderKeptSnoc<K(!new)>(before: seq<K>, written: seq<K>, k: K, after: seq<K>)
    requires OrderKept(before, written, after)
    ensures OrderKept(before, written + [k], if k in after then after else after + [k])
  {
    var next := if k in after then after else after + [k];
    forall i, j | |before| <= i < j < |next|
      ensures IndexOf(written + [k], next[i]) < IndexOf(written + [k], next[j])
    {
      NewKeyWasWritten(before, written, after, i);
      IndexOfSnoc(written, k, next[i]);
      IndexOfSnoc(written, k, next[j]);
      if j < |after| {
        NewKeyWasWritten(before, written, after, j);
      }
    }
    assert forall x :: x in written + [k] <==> x in written || x == k;
    assert forall x :: x in after + [k] <==> x in after || x == k;
  }

  lemma {:induction false} NewKeyWasWritten<K(!new)>(before: seq<K>, written: seq<K>, after: seq<K>, i: nat)
    requires OrderKept(before, written, after) && |before| <= i < |after|
    ensures after[i] in written
  {
    assert after[i] in after;
  }

  lemma {:induction false} UpsertsLookup<T, K>(items: seq<T>, writes: seq<T>, key: T -> K, k: K)
    ensures Lookup(UpsertAll(items, writes, key), k, key)
         == if LastWith(writes, k, key).Some? then LastWith(writes, k, key) else Lookup(items, k, key)
  {
    if writes != [] {
      var n := |writes| - 1;
      UpsertsLookup(items, writes[..n], key, k);
      UpsertIsMapUpdate(UpsertAll(items, writes[..n], key), writes[n], key, k);
    }
  }

  /** The keys alone: each new one comes last. */
  function AddKeys<K(==)>(before: seq<K>, written: seq<K>): seq<K> {
    if written == [] then before
    else
      var ks, k := AddKeys(before, written[..|written| - 1]), written[|written| - 1];
      if k in ks then ks else ks + [k]
  }

  lemma {:induction false} AddKeysSnoc<K>(before: seq<K>, written: seq<K>, k: K)
    ensures AddKeys(before, written + [k]) ==
            if k in AddKeys(before, written) then AddKeys(before, written) else AddKeys(before, written) + [k]
  {
    assert (written + [k])[..|written|] == written;
  }

  lemma {:induction false} KeysOfNext<T, K>(items: seq<T>, item: T, key: T -> K, before: seq<K>, written: seq<K>)
    requires KeysOf(items, key) == AddKeys(before, written)
    ensures KeysOf(Upserted(items, item, key), key) == AddKeys(before, written + [key(item)])
  {
    UpsertIsMapUpdate(items, item, key, key(item));
    AddKeysSnoc(before, written, key(item));
  }

  lemma {:induction false} KeysOfSnoc<T, K>(writes: seq<T>, key: T -> K)
    requires writes != []
    ensures var n := |writes| - 1; KeysOf(writes[..n], key) + [key(writes[n])] == KeysOf(writes, key)
  {
  }

  lemma {:induction false} KeysOfUpserts<T, K>(items: seq<T>, writes: seq<T>, key: T -> K)
    ensures KeysOf(UpsertAll(items, writes, key), key) == AddKeys(KeysOf(items, key), KeysOf(writes, key))
  {
    if writes != [] {
      var n := |writes| - 1;
      KeysOfUpserts(items, writes[..n], key);
      KeysOfNext(UpsertAll(items, writes[..n], key), writes[n], key, KeysOf(items, key), KeysOf(writes[..n], key));
      KeysOfSnoc(writes, key);
    }
  }

  lemma {:induction false} AddKeysKeepOrder<K(!new)>(before: seq<K>, written: seq<K>)
    ensures OrderKept(before, written, AddKeys(before, written))
  {
    if written != [] {
      var n := |written| - 1;
      AddKeysKeepOrder(before, written[..n]);
      OrderKeptSnoc(before, written[..n], written[n], AddKeys(before, written[..n]));
      assert written == written[..n] + [written[n]];
    }
  }

  /**
   Any run of upserts refines an ordered map. Each key leads to the last entry
   written with it, or to its old entry; keys that were there keep their places,
   new ones come behind in the order of their first writes, and no key comes twice
   unless one did before.
   */
  lemma {:induction false} UpsertsRefineOrderedMap<T, K(!new)>(items: seq<T>, writes: seq<T>, key: T -> K, k: K)
    ensures Lookup(UpsertAll(items, writes, key), k, key)
         == if LastWith(writes, k, key).Some? then LastWith(writes, k, key) else Lookup(items, k, key)
    ensures OrderKept(KeysOf(items, key), KeysOf(writes, key), KeysOf(UpsertAll(items, writes, key), key))
  {
    UpsertsLookup(items, writes, key, k);
    KeysOfUpserts(items, writes, key);
    AddKeysKeepOrder(KeysOf(items, key), KeysOf(writes, key));
  }

  lemma {:induction false} UpsertLeavesOthers<T, K>(items: seq<T>, item: T, key: T -> K, i: nat)
    requires i < |items| && key(items[i]) != key(item)
    ensures i < |Upserted(items, item, key)| && Upserted(items, item, key)[i] == items[i]
  {
    assert KeysOf(items, key)[i] == key(items[i]);
  }

  /** Entries whose keys are not written stay where they are, as they are. */
  lemma {:induction false} UpsertsLeaveOthers<T, K>(items: seq<T>, writes: seq<T>, key: T -> K, i: nat)
    requires i < |items| && key(items[i]) !in KeysOf(writes, key)
    ensures i < |UpsertAll(items, writes, key)| && UpsertAll(items, writes, key)[i] == items[i]
  {
    if writes != [] {
      var n := |writes| - 1;
      assert KeysOf(writes, key)[n] == key(writes[n]);
      assert forall j :: 0 <= j < n ==> KeysOf(writes[..n], key)[j] == KeysOf(writes, key)[j];
      UpsertsLeaveOthers(items, writes[..n], key, i);
      UpsertLeavesOthers(UpsertAll(items, writes[..n], key), writes[n], key, i);
    }
  }

  /** Everything in the list was there before or was written. */
  lemma {:induction false} UpsertsInventNothing<T, K>(items: seq<T>, writes: seq<T>, key: T -> K, x: T)
    requires x in UpsertAll(items, writes, key)
    ensures x in items || x in writes
  {
    if writes != [] {
      var n := |writes| - 1;
      if x != writes[n] {
        UpsertsInventNothing(items, writes[..n], key, x);
      }
    }
  }
}
