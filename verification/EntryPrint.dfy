/** How fmt's %v prints a map of strings: its keys in ascending order, with nothing around keys and
    values to tell where one ends. */
module EntryPrint {

  // ---- The order of keys ---------------------------------------------------------------------

  /** s comes before t. */
  predicate Before(s: string, t: string) {
    t != "" && (s == "" || s[0] < t[0] || (s[0] == t[0] && Before(s[1..], t[1..])))
  }

  lemma {:induction false} BeforeTotal(s: string, t: string)
    ensures Before(s, t) || Before(t, s) || s == t
    ensures !(Before(s, t) && Before(t, s))
  {
    if s != "" && t != "" {
      BeforeTotal(s[1..], t[1..]);
      assert s == [s[0]] + s[1..] && t == [t[0]] + t[1..];
    }
  }

  lemma {:induction false} BeforeTransitive(s: string, t: string, u: string)
    requires Before(s, t) && Before(t, u)
    ensures Before(s, u)
  {
    if s != "" && s[0] == t[0] == u[0] {
      BeforeTransitive(s[1..], t[1..], u[1..]);
    }
  }

  predicate IsLeast(k: string, keys: set<string>) {
    k in keys && forall o :: o in keys ==> o == k || Before(k, o)
  }

  lemma {:induction false} SomeLeast(keys: set<string>) returns (k: string)
    requires keys != {}
    ensures IsLeast(k, keys)
  {
    hide Before;
    var one :| one in keys;
    var rest := keys - {one};
    assert forall o :: o in keys ==> o == one || o in rest;
    k := one;
    if rest != {} {
      var other := SomeLeast(rest);
      BeforeTotal(one, other);
      if Before(other, one) {
        k := other;
      }
      forall o | o in keys && o != k ensures Before(k, o) {
        assert o == one || o in rest;
        if k == one && o != other {
          BeforeTransitive(one, other, o);
        }
      }
    }
  }

  lemma LeastUnique(k: string, o: string, keys: set<string>)
    requires IsLeast(k, keys) && IsLeast(o, keys)
    ensures k == o
  {
    BeforeTotal(k, o);
  }

  // ---- Printing ------------------------------------------------------------------------------

  ghost function Least(keys: set<string>): (k: string)
    requires keys != {}
    ensures IsLeast(k, keys)
  {
    assert exists k :: IsLeast(k, keys) by { var k := SomeLeast(keys); }
    var k :| IsLeast(k, keys);
    k
  }

  ghost function Entries(m: map<string, string>): string {
    if m == map[] then ""
    else
      var k := Least(m.Keys);
      var rest := m - {k};
      assert |rest| < |m|;
      k + ":" + m[k] + if rest == map[] then "" else " " + Entries(rest)
  }

  ghost function Printed(m: map<string, string>): string { "map[" + Entries(m) + "]" }

  lemma EntriesOfOne(k: string, v: string)
    ensures Entries(map[k := v]) == k + ":" + v
  {
    assert map[k := v].Keys == {k} && Least({k}) == k;
    assert map[k := v] - {k} == map[];
  }

  /** A variable named a with value v prints like one without value whose name goes on as the first one
      does after its name. */
  lemma PrintAlike(a: string, v: string)
    ensures Printed(map["name" := a, "value" := v]) == Printed(map["name" := a + " value:" + v])
  {
    var m := map["name" := a, "value" := v];
    assert m.Keys == {"name", "value"};
    assert Before("name", "value");
    LeastUnique("name", Least(m.Keys), m.Keys);
    assert m - {"name"} == map["value" := v];
    EntriesOfOne("value", v);
    EntriesOfOne("name", a + " value:" + v);
    assert "name" + ":" + a + " " + ("value" + ":" + v) == "name" + ":" + (a + " value:" + v);
  }
}
