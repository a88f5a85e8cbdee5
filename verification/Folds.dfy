/** Folds of a function over a sequence: the multiset of everything the elements carry, and the sum
    of a weight.  Both say how they react to one element being replaced, removed or appended, which
    is all the protocol proofs need. */
module Folds {

  ghost function Gather<T, U>(s: seq<T>, f: T -> multiset<U>): multiset<U> {
    if s == [] then multiset{} else f(s[0]) + Gather(s[1..], f)
  }

  ghost function Total<T>(s: seq<T>, f: T -> nat): nat {
    if s == [] then 0 else f(s[0]) + Total(s[1..], f)
  }

  lemma {:induction false} GatherConcat<T, U>(s: seq<T>, t: seq<T>, f: T -> multiset<U>)
    ensures Gather(s + t, f) == Gather(s, f) + Gather(t, f)
  {
    if s == [] {
      assert s + t == t;
    } else {
      assert (s + t)[1..] == s[1..] + t;
      GatherConcat(s[1..], t, f);
    }
  }

  lemma {:induction false} TotalConcat<T>(s: seq<T>, t: seq<T>, f: T -> nat)
    ensures Total(s + t, f) == Total(s, f) + Total(t, f)
  {
    if s == [] {
      assert s + t == t;
    } else {
      assert (s + t)[1..] == s[1..] + t;
      TotalConcat(s[1..], t, f);
    }
  }

  lemma GatherAt<T, U>(s: seq<T>, i: nat, f: T -> multiset<U>)
    requires i < |s|
    ensures Gather(s, f) == Gather(s[..i], f) + f(s[i]) + Gather(s[i + 1..], f)
  {
    assert s == s[..i] + s[i..];
    GatherConcat(s[..i], s[i..], f);
    assert s[i..][1..] == s[i + 1..];
  }

  lemma TotalAt<T>(s: seq<T>, i: nat, f: T -> nat)
    requires i < |s|
    ensures Total(s, f) == Total(s[..i], f) + f(s[i]) + Total(s[i + 1..], f)
  {
    assert s == s[..i] + s[i..];
    TotalConcat(s[..i], s[i..], f);
    assert s[i..][1..] == s[i + 1..];
  }

  lemma GatherUpdate<T, U>(s: seq<T>, i: nat, x: T, f: T -> multiset<U>)
    requires i < |s|
    ensures Gather(s[i := x], f) + f(s[i]) == Gather(s, f) + f(x)
  {
    GatherAt(s, i, f);
    GatherAt(s[i := x], i, f);
    assert s[i := x][..i] == s[..i] && s[i := x][i + 1..] == s[i + 1..];
  }

  /** Replacing an element by one that carries the same changes nothing. */
  lemma GatherKeep<T, U>(s: seq<T>, i: nat, x: T, f: T -> multiset<U>)
    requires i < |s| && f(x) == f(s[i])
    ensures Gather(s[i := x], f) == Gather(s, f)
  {
    GatherAt(s, i, f);
    GatherAt(s[i := x], i, f);
    assert s[i := x][..i] == s[..i] && s[i := x][i + 1..] == s[i + 1..];
  }

  lemma TotalUpdate<T>(s: seq<T>, i: nat, x: T, f: T -> nat)
    requires i < |s|
    ensures Total(s[i := x], f) + f(s[i]) == Total(s, f) + f(x)
  {
    TotalAt(s, i, f);
    TotalAt(s[i := x], i, f);
    assert s[i := x][..i] == s[..i] && s[i := x][i + 1..] == s[i + 1..];
  }

  lemma GatherRemove<T, U>(s: seq<T>, i: nat, f: T -> multiset<U>)
    requires i < |s|
    ensures Gather(s[..i] + s[i + 1..], f) + f(s[i]) == Gather(s, f)
  {
    GatherAt(s, i, f);
    GatherConcat(s[..i], s[i + 1..], f);
  }

  lemma TotalRemove<T>(s: seq<T>, i: nat, f: T -> nat)
    requires i < |s|
    ensures Total(s[..i] + s[i + 1..], f) + f(s[i]) == Total(s, f)
  {
    TotalAt(s, i, f);
    TotalConcat(s[..i], s[i + 1..], f);
  }

  lemma GatherAppend<T, U>(s: seq<T>, x: T, f: T -> multiset<U>)
    ensures Gather(s + [x], f) == Gather(s, f) + f(x)
  {
    GatherConcat(s, [x], f);
    assert [x][1..] == [];
    assert Gather([x], f) == f(x) + Gather([x][1..], f);
  }

  lemma TotalAppend<T>(s: seq<T>, x: T, f: T -> nat)
    ensures Total(s + [x], f) == Total(s, f) + f(x)
  {
    TotalConcat(s, [x], f);
  }

  /** What an element carries, the whole sequence carries. */
  lemma GatherIncludes<T, U>(s: seq<T>, i: nat, f: T -> multiset<U>)
    requires i < |s|
    ensures f(s[i]) <= Gather(s, f)
  {
    GatherAt(s, i, f);
  }

  /** What the sequence carries, some element carries. */
  lemma {:induction false} GatherMember<T, U>(s: seq<T>, x: U, f: T -> multiset<U>) returns (i: nat)
    requires x in Gather(s, f)
    ensures i < |s| && x in f(s[i])
  {
    if x in f(s[0]) {
      i := 0;
    } else {
      i := GatherMember(s[1..], x, f);
      i := i + 1;
    }
  }

  lemma RemoveAt<T>(s: seq<T>, i: nat)
    requires i < |s|
    ensures multiset(s[..i] + s[i + 1..]) == multiset(s) - multiset{s[i]}
  {
    assert s == s[..i] + [s[i]] + s[i + 1..];
  }

  /** The order of the elements does not matter. */
  lemma {:induction false} GatherPermuted<T, U>(s: seq<T>, t: seq<T>, f: T -> multiset<U>)
    requires multiset(s) == multiset(t)
    ensures Gather(s, f) == Gather(t, f)
    decreases |s|
  {
    if s == [] {
      assert |multiset(t)| == |t|;
    } else {
      var x, rest := s[0], s[1..];
      assert x in multiset(t);
      var i :| 0 <= i < |t| && t[i] == x;
      var others := t[..i] + t[i + 1..];
      RemoveAt(t, i);
      assert multiset(rest) == multiset(s) - multiset{x} by { assert s == [x] + rest; }
      GatherPermuted(rest, others, f);
      GatherRemove(t, i, f);
    }
  }

  lemma {:induction false} GatherEmpty<T, U>(s: seq<T>, f: T -> multiset<U>)
    requires forall i :: 0 <= i < |s| ==> f(s[i]) == multiset{}
    ensures Gather(s, f) == multiset{}
  {
    if s != [] {
      GatherEmpty(s[1..], f);
    }
  }

  lemma {:induction false} TotalZero<T>(s: seq<T>, f: T -> nat)
    ensures Total(s, f) == 0 <==> forall i :: 0 <= i < |s| ==> f(s[i]) == 0
  {
    if s != [] {
      TotalZero(s[1..], f);
      if Total(s[1..], f) == 0 && f(s[0]) == 0 {
        forall i | 0 <= i < |s| ensures f(s[i]) == 0 {
          if i > 0 { assert s[i] == s[1..][i - 1]; }
        }
      }
      if forall i :: 0 <= i < |s| ==> f(s[i]) == 0 {
        forall i | 0 <= i < |s[1..]| ensures f(s[1..][i]) == 0 { assert s[1..][i] == s[i + 1]; }
      }
    }
  }
}
