/** Counting finite sets. */
module FiniteSets {

  /** The numbers below n. */
  function Below(n: nat): (s: set<nat>)
    ensures |s| == n && forall w :: w in s <==> 0 <= w < n
  {
    if n == 0 then {} else Below(n - 1) + {n - 1}
  }

  lemma SubsetCount<T>(a: set<T>, b: set<T>)
    requires a <= b
    ensures |a| <= |b|
  {
    assert b == a + (b - a);
  }

  /** The elements of a sequence without repetitions are as many as the sequence is long. */
  lemma {:induction false} Elements<T>(s: seq<T>) returns (elements: set<T>)
    requires forall i, j :: 0 <= i < j < |s| ==> s[i] != s[j]
    ensures |elements| == |s| && forall v :: v in elements <==> v in s
  {
    if s == [] {
      elements := {};
    } else {
      elements := Elements(s[1..]);
      assert s == [s[0]] + s[1..];
      elements := elements + {s[0]};
    }
  }
}
