/** Sorting by descending key, as sort.SliceStable does it. */
module Sorting {
  import opened Filters

  ghost predicate Descending<T>(s: seq<T>, key: T -> int) {
    forall i, j :: 0 <= i < j < |s| ==> key(s[i]) >= key(s[j])
  }

  ghost predicate DistinctKeys<T>(s: seq<T>, key: T -> int) {
    forall i, j :: 0 <= i < j < |s| ==> key(s[i]) != key(s[j])
  }

  /** sort.SliceStable with "greater than" as its less function. */
  function StableSort<T>(s: seq<T>, key: T -> int): seq<T> {
    if s == [] then [] else InsertBefore(s[0], StableSort(s[1..], key), key)
  }

  function InsertBefore<T>(r: T, s: seq<T>, key: T -> int): seq<T> {
    if s == [] || !(key(s[0]) > key(r)) then [r] + s else [s[0]] + InsertBefore(r, s[1..], key)
  }

  lemma {:induction false} InsertKeepsAll<T>(r: T, s: seq<T>, key: T -> int)
    ensures multiset(InsertBefore(r, s, key)) == multiset{r} + multiset(s)
  {
    if s == [] || !(key(s[0]) > key(r)) {
    } else {
      InsertKeepsAll(r, s[1..], key);
      assert s == [s[0]] + s[1..];
    }
  }

  lemma {:induction false} InsertSorts<T>(r: T, s: seq<T>, key: T -> int)
    requires Descending(s, key)
    ensures Descending(InsertBefore(r, s, key), key)
  {
    if s == [] || !(key(s[0]) > key(r)) {
    } else {
      var rest := InsertBefore(r, s[1..], key);
      InsertSorts(r, s[1..], key);
      InsertKeepsAll(r, s[1..], key);
      forall i | 0 <= i < |rest| ensures key(s[0]) >= key(rest[i]) {
        assert rest[i] in multiset(rest);
        assert rest[i] == r || rest[i] in s[1..];
      }
    }
  }

  lemma {:induction false} SortSorts<T>(s: seq<T>, key: T -> int)
    ensures Descending(StableSort(s, key), key)
    ensures multiset(StableSort(s, key)) == multiset(s)
  {
    if s != [] {
      SortSorts(s[1..], key);
      InsertSorts(s[0], StableSort(s[1..], key), key);
      InsertKeepsAll(s[0], StableSort(s[1..], key), key);
      assert s == [s[0]] + s[1..];
    }
  }

  function HasKey<T>(key: T -> int, k: int): T -> bool { (x: T) => key(x) == k }

  lemma {:induction false} InsertIsStable<T>(r: T, s: seq<T>, key: T -> int, k: int)
    requires Descending(s, key)
    ensures Filter(InsertBefore(r, s, key), HasKey(key, k)) ==
            (if key(r) == k then [r] else []) + Filter(s, HasKey(key, k))
  {
    var t := InsertBefore(r, s, key);
    FilterFirst(t, HasKey(key, k));
    if s == [] || !(key(s[0]) > key(r)) {
      assert t[1..] == s;
    } else {
      InsertIsStable(r, s[1..], key, k);
      FilterFirst(s, HasKey(key, k));
      assert t[1..] == InsertBefore(r, s[1..], key);
    }
  }

  /** Elements with the same key stay in order. */
  lemma {:induction false} SortIsStable<T>(s: seq<T>, key: T -> int, k: int)
    ensures Filter(StableSort(s, key), HasKey(key, k)) == Filter(s, HasKey(key, k))
  {
    if s != [] {
      SortIsStable(s[1..], key, k);
      SortSorts(s[1..], key);
      InsertIsStable(s[0], StableSort(s[1..], key), key, k);
      FilterFirst(s, HasKey(key, k));
    }
  }

  lemma {:induction false} SortOfSorted<T>(s: seq<T>, key: T -> int)
    requires Descending(s, key)
    ensures StableSort(s, key) == s
  {
    if s != [] {
      SortOfSorted(s[1..], key);
      if |s| > 1 { assert s[1..][0] == s[1]; }
      assert s == [s[0]] + s[1..];
    }
  }

  lemma DistinctFromCounts<T>(s: seq<T>)
    requires forall r :: multiset(s)[r] <= 1
    ensures forall i, j :: 0 <= i < j < |s| ==> s[i] != s[j]
  {
    forall i, j | 0 <= i < j < |s| ensures s[i] != s[j] {
      var x := s[j];
      assert s == s[..j] + [x] + s[j + 1..];
      assert multiset(s)[x] == multiset(s[..j])[x] + multiset([x])[x] + multiset(s[j + 1..])[x];
      assert s[..j][i] == s[i];
      assert multiset(s[..j])[s[i]] > 0;
    }
  }

  lemma {:induction false} CountsFromDistinct<T>(s: seq<T>, r: T)
    requires forall i, j :: 0 <= i < j < |s| ==> s[i] != s[j]
    ensures multiset(s)[r] <= 1
  {
    if s != [] {
      assert s == [s[0]] + s[1..];
      CountsFromDistinct(s[1..], r);
      if r == s[0] { assert r !in s[1..]; }
    }
  }

  /** Sequences with the same elements, strictly descending, are equal. */
  lemma {:induction false} StrictlySortedUnique<T>(a: seq<T>, b: seq<T>, key: T -> int)
    requires Descending(a, key) && DistinctKeys(a, key) && Descending(b, key) && DistinctKeys(b, key)
    requires forall r :: r in a <==> r in b
    ensures a == b
    decreases |a|
  {
    assert |b| > 0 ==> b[0] in b;
    if a == [] {
      assert b == [];
    } else {
      assert a[0] in b && b[0] in a;
      assert a[0] == b[0];
      forall r ensures r in a[1..] <==> r in b[1..] {
        assert r in a <==> r == a[0] || r in a[1..];
        assert r in b <==> r == b[0] || r in b[1..];
        assert a[0] !in a[1..] && b[0] !in b[1..];
      }
      StrictlySortedUnique(a[1..], b[1..], key);
      assert a == [a[0]] + a[1..] && b == [b[0]] + b[1..];
    }
  }

  function SwapIndex(i: int, j: int, k: int): int { if k == i then j else if k == j then i else k }

  /** The sequence with two elements exchanged. */
  function Swap<T>(s: seq<T>, i: nat, j: nat): (t: seq<T>)
    requires i < |s| && j < |s|
    ensures |t| == |s| && forall k :: 0 <= k < |s| ==> t[k] == s[SwapIndex(i, j, k)]
  {
    s[i := s[j]][j := s[i]]
  }

  lemma SwapTies<T>(s: seq<T>, i: nat, j: nat, key: T -> int)
    requires Descending(s, key) && i < j < |s| && key(s[i]) == key(s[j])
    ensures Descending(Swap(s, i, j), key)
  {
    forall k | 0 <= k < |s| ensures key(Swap(s, i, j)[k]) == key(s[k]) {
    }
  }
}
