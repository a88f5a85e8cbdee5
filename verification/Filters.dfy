/** Keeping some elements of a sequence, in order.  Where an element ends up is said by counting: it comes
    after as many as are kept before it. */
module Filters {

  function Filter<T>(s: seq<T>, keep: T -> bool): seq<T> {
    if s == [] then []
    else Filter(s[..|s| - 1], keep) + if keep(s[|s| - 1]) then [s[|s| - 1]] else []
  }

  /** How many of the first n elements are kept. */
  ghost function Rank<T>(s: seq<T>, n: nat, keep: T -> bool): nat
    requires n <= |s|
  {
    |set i | 0 <= i < n && keep(s[i])|
  }

  lemma RankOneMore<T>(s: seq<T>, n: nat, keep: T -> bool)
    requires n < |s|
    ensures Rank(s, n + 1, keep) == Rank(s, n, keep) + if keep(s[n]) then 1 else 0
  {
    var before, after := set i | 0 <= i < n && keep(s[i]), set i | 0 <= i < n + 1 && keep(s[i]);
    assert after == if keep(s[n]) then before + {n} else before;
  }

  lemma RankOfPrefix<T>(s: seq<T>, m: nat, n: nat, keep: T -> bool)
    requires m <= n <= |s|
    ensures Rank(s[..n], m, keep) == Rank(s, m, keep)
  {
    assert (set i | 0 <= i < m && keep(s[..n][i])) == (set i | 0 <= i < m && keep(s[i]));
  }

  lemma SameRank<T>(a: seq<T>, b: seq<T>, n: nat, keep: T -> bool)
    requires n <= |a| == |b| && forall i :: 0 <= i < |a| ==> keep(a[i]) == keep(b[i])
    ensures Rank(a, n, keep) == Rank(b, n, keep)
  {
    assert (set i | 0 <= i < n && keep(a[i])) == (set i | 0 <= i < n && keep(b[i]));
  }

  lemma NothingRanked<T>(s: seq<T>, keep: T -> bool)
    ensures Rank(s, 0, keep) == 0
  {
  }

  lemma {:induction false} FilterLength<T>(s: seq<T>, keep: T -> bool)
    ensures |Filter(s, keep)| == Rank(s, |s|, keep)
  {
    hide Rank;
    if s == [] {
      NothingRanked(s, keep);
    } else {
      FilterLength(s[..|s| - 1], keep);
      RankOneMore(s, |s| - 1, keep);
      RankOfPrefix(s, |s| - 1, |s| - 1, keep);
    }
  }

  lemma {:induction false} FilterMembers<T>(s: seq<T>, keep: T -> bool)
    ensures forall x :: x in Filter(s, keep) <==> x in s && keep(x)
  {
    if s != [] {
      FilterMembers(s[..|s| - 1], keep);
      assert s == s[..|s| - 1] + [s[|s| - 1]];
    }
  }

  lemma {:induction false} FilterFirst<T>(s: seq<T>, keep: T -> bool)
    requires s != []
    ensures Filter(s, keep) == (if keep(s[0]) then [s[0]] else []) + Filter(s[1..], keep)
  {
    if |s| > 1 {
      FilterFirst(s[..|s| - 1], keep);
      assert s[..|s| - 1][1..] == s[1..][..|s| - 2];
    }
  }

  /** A filtered sequence has each kept element at its rank; and it has no other. */
  lemma {:induction false} FilterMeaning<T>(s: seq<T>, keep: T -> bool, j: nat)
    requires j < |s| && keep(s[j])
    ensures Rank(s, j, keep) < |Filter(s, keep)| && Filter(s, keep)[Rank(s, j, keep)] == s[j]
  {
    hide Rank;
    var n := |s| - 1;
    FilterLength(s[..n], keep);
    RankOfPrefix(s, n, n, keep);
    if j < n {
      RankOfPrefix(s, j, n, keep);
      FilterMeaning(s[..n], keep, j);
    }
  }

  /** Every element of a filtered sequence was kept at its rank. */
  lemma {:induction false} FilterOrigin<T>(s: seq<T>, keep: T -> bool, k: nat) returns (j: nat)
    requires k < |Filter(s, keep)|
    ensures j < |s| && keep(s[j]) && Rank(s, j, keep) == k && s[j] == Filter(s, keep)[k]
  {
    hide Rank;
    var n := |s| - 1;
    FilterLength(s[..n], keep);
    RankOfPrefix(s, n, n, keep);
    if k < |Filter(s[..n], keep)| {
      j := FilterOrigin(s[..n], keep, k);
      RankOfPrefix(s, j, n, keep);
    } else {
      j := n;
    }
  }

  lemma {:induction false} RankMonotone<T>(s: seq<T>, m: nat, n: nat, keep: T -> bool)
    requires m <= n <= |s|
    ensures Rank(s, m, keep) <= Rank(s, n, keep)
    ensures m < n && keep(s[m]) ==> Rank(s, m, keep) < Rank(s, n, keep)
    decreases n - m
  {
    hide Rank;
    if m < n {
      RankOneMore(s, n - 1, keep);
      RankMonotone(s, m, n - 1, keep);
    }
  }
}
