/** Reconciling duplicate environment variables: what the loop over an unordered map followed by a
    stable sort computes, for one container's env list. */
module EnvReconcile {
  import opened Manifests
  import opened Options
  import opened Sorting
  import opened EntryPrint

  /** The order in which two entries are printed, as a number; entries are sorted by it, descending. */
  type SortKey = Resource -> int

  ghost function NameOf(h: Heap, v: Value): Option<string> {
    if v.Map? && Field(h, v.res, Name).Some? && Field(h, v.res, Name).value.Str?
    then Some(Field(h, v.res, Name).value.text) else None
  }

  ghost predicate HasValueFrom(h: Heap, v: Value) {
    v.Map? && Field(h, v.res, ValueFrom).Some?
  }

  // ---- The specification ---------------------------------------------------------------------

  ghost predicate Named(h: Heap, env: seq<Value>, i: int, name: string) {
    0 <= i < |env| && NameOf(h, env[i]) == Some(name)
  }

  ghost predicate Occurs(h: Heap, env: seq<Value>, name: string) { exists i :: Named(h, env, i, name) }

  /** Entry i is the first one of that name that carries valueFrom. */
  ghost predicate FirstFrom(h: Heap, env: seq<Value>, name: string, i: int) {
    && Named(h, env, i, name) && HasValueFrom(h, env[i])
    && forall j :: Named(h, env, j, name) && j < i ==> !HasValueFrom(h, env[j])
  }

  /** Entry i is the last one of that name, and none of them carries valueFrom. */
  ghost predicate LastPlain(h: Heap, env: seq<Value>, name: string, i: int) {
    && Named(h, env, i, name)
    && forall j :: Named(h, env, j, name) ==> j <= i && !HasValueFrom(h, env[j])
  }

  /** r is the entry that survives for the name: the first with valueFrom if there is one, else the
      last. */
  ghost predicate Survives(h: Heap, env: seq<Value>, name: string, r: Resource) {
    exists i :: (FirstFrom(h, env, name, i) || LastPlain(h, env, name, i)) && env[i] == Map(r)
  }

  /** out is an admissible result: it has the survivor of every name once, in descending order. */
  ghost predicate Reconciled(h: Heap, env: seq<Value>, out: seq<Resource>, key: SortKey) {
    && (forall i :: 0 <= i < |out| ==>
          NameOf(h, Map(out[i])).Some? && Survives(h, env, NameOf(h, Map(out[i])).value, out[i]))
    && (forall name :: Occurs(h, env, name) ==> exists i :: 0 <= i < |out| && NameOf(h, Map(out[i])) == Some(name))
    && (forall i, j :: 0 <= i < j < |out| ==> NameOf(h, Map(out[i])) != NameOf(h, Map(out[j])))
    && Descending(out, key)
  }

  lemma SurvivorUnique(h: Heap, env: seq<Value>, name: string, r: Resource, q: Resource)
    requires Survives(h, env, name, r) && Survives(h, env, name, q)
    ensures r == q
  {
    var i :| (FirstFrom(h, env, name, i) || LastPlain(h, env, name, i)) && env[i] == Map(r);
    var j :| (FirstFrom(h, env, name, j) || LastPlain(h, env, name, j)) && env[j] == Map(q);
    assert i == j;
  }

  // ---- The fold over the map, and the stable sort --------------------------------------------

  /** The map after the first entries: an entry replaces the current one of its name unless that one
      carries valueFrom. */
  ghost function Reconcile(h: Heap, env: seq<Value>): map<string, Resource> {
    if env == [] then map[]
    else
      var m := Reconcile(h, env[..|env| - 1]);
      var v := env[|env| - 1];
      var name := NameOf(h, v);
      if name.None? then m
      else if name.value in m && Field(h, m[name.value], ValueFrom).Some? then m
      else m[name.value := v.res]
  }

  /** One more entry v: which entry of the name it now is that survives. */
  lemma SurvivesOneMore(h: Heap, before: seq<Value>, v: Value, name: string, i: int)
    requires FirstFrom(h, before, name, i) || LastPlain(h, before, name, i)
    ensures var env := before + [v];
            if NameOf(h, v) != Some(name) || HasValueFrom(h, before[i])
            then FirstFrom(h, env, name, i) || LastPlain(h, env, name, i)
            else FirstFrom(h, env, name, |before|) || LastPlain(h, env, name, |before|)
  {
    var env := before + [v];
    assert forall j :: 0 <= j < |before| ==> env[j] == before[j];
    forall j
      ensures Named(h, env, j, name) <==> Named(h, before, j, name) || (j == |before| && NameOf(h, v) == Some(name))
    {
    }
  }

  lemma NewName(h: Heap, before: seq<Value>, v: Value, name: string)
    requires !Occurs(h, before, name)
    ensures Occurs(h, before + [v], name) <==> NameOf(h, v) == Some(name)
    ensures NameOf(h, v) == Some(name) ==>
      FirstFrom(h, before + [v], name, |before|) || LastPlain(h, before + [v], name, |before|)
  {
    var env := before + [v];
    forall j ensures Named(h, env, j, name) <==> j == |before| && NameOf(h, v) == Some(name) {
      if 0 <= j < |before| { assert !Named(h, before, j, name); }
    }
    if NameOf(h, v) == Some(name) { assert Named(h, env, |before|, name); }
  }

  /** The map holds exactly the survivors. */
  lemma {:induction false} ReconcileMeaning(h: Heap, env: seq<Value>, name: string)
    ensures name in Reconcile(h, env) <==> Occurs(h, env, name)
    ensures name in Reconcile(h, env) ==>
      && Survives(h, env, name, Reconcile(h, env)[name])
      && NameOf(h, Map(Reconcile(h, env)[name])) == Some(name)
  {
    if env != [] {
      var before, v := env[..|env| - 1], env[|env| - 1];
      assert env == before + [v];
      ReconcileMeaning(h, before, name);
      if name in Reconcile(h, before) {
        var r := Reconcile(h, before)[name];
        var i :| (FirstFrom(h, before, name, i) || LastPlain(h, before, name, i)) && before[i] == Map(r);
        SurvivesOneMore(h, before, v, name, i);
        assert Named(h, env, i, name);
        assert HasValueFrom(h, before[i]) <==> Field(h, r, ValueFrom).Some?;
      } else {
        NewName(h, before, v, name);
      }
    }
  }

  /** out lists the values of the map in some iteration order. */
  ghost predicate Enumerates(h: Heap, out: seq<Resource>, m: map<string, Resource>) {
    && (forall i :: 0 <= i < |out| ==>
          NameOf(h, Map(out[i])).Some? && NameOf(h, Map(out[i])).value in m &&
          m[NameOf(h, Map(out[i])).value] == out[i])
    && (forall name :: name in m ==> exists i :: 0 <= i < |out| && NameOf(h, Map(out[i])) == Some(name))
    && (forall i, j :: 0 <= i < j < |out| ==> NameOf(h, Map(out[i])) != NameOf(h, Map(out[j])))
  }

  /** Reordering an enumeration leaves an enumeration. */
  lemma EnumerationReordered(h: Heap, a: seq<Resource>, b: seq<Resource>, m: map<string, Resource>)
    requires Enumerates(h, a, m) && multiset(a) == multiset(b)
    ensures Enumerates(h, b, m)
  {
    forall r ensures r in a <==> r in b { assert r in multiset(a) <==> r in multiset(b); }
    forall r ensures multiset(b)[r] <= 1 { CountsFromDistinct(a, r); }
    DistinctFromCounts(b);
    forall i | 0 <= i < |b|
      ensures NameOf(h, Map(b[i])).Some? && NameOf(h, Map(b[i])).value in m
      ensures m[NameOf(h, Map(b[i])).value] == b[i]
    {
      assert b[i] in a;
    }
    forall name | name in m ensures exists i :: 0 <= i < |b| && NameOf(h, Map(b[i])) == Some(name) {
      var i :| 0 <= i < |a| && NameOf(h, Map(a[i])) == Some(name);
      assert a[i] in b;
    }
  }

  /** The admissible results are exactly the sorted enumerations of the map. */
  lemma SortedEnumeration(h: Heap, env: seq<Value>, out: seq<Resource>, key: SortKey)
    ensures Reconciled(h, env, out, key) <==> Enumerates(h, out, Reconcile(h, env)) && Descending(out, key)
  {
    var m := Reconcile(h, env);
    forall name ensures name in m <==> Occurs(h, env, name) { ReconcileMeaning(h, env, name); }
    forall i | 0 <= i < |out| && NameOf(h, Map(out[i])).Some?
      ensures var name := NameOf(h, Map(out[i])).value;
              Survives(h, env, name, out[i]) <==> name in m && m[name] == out[i]
    {
      var name := NameOf(h, Map(out[i])).value;
      ReconcileMeaning(h, env, name);
      if Survives(h, env, name, out[i]) {
        var k :| (FirstFrom(h, env, name, k) || LastPlain(h, env, name, k)) && env[k] == Map(out[i]);
        assert Occurs(h, env, name);
        SurvivorUnique(h, env, name, out[i], m[name]);
      }
    }
  }

  /** Whatever order the map is iterated in, sorting gives an admissible result; and every admissible
      result comes from some iteration order, namely from itself. */
  lemma SortReconciles(h: Heap, env: seq<Value>, order: seq<Resource>, key: SortKey)
    requires Enumerates(h, order, Reconcile(h, env))
    ensures Reconciled(h, env, StableSort(order, key), key)
    ensures forall out :: Reconciled(h, env, out, key) ==>
      Enumerates(h, out, Reconcile(h, env)) && StableSort(out, key) == out
  {
    SortSorts(order, key);
    EnumerationReordered(h, order, StableSort(order, key), Reconcile(h, env));
    SortedEnumeration(h, env, StableSort(order, key), key);
    forall out | Reconciled(h, env, out, key)
      ensures Enumerates(h, out, Reconcile(h, env)) && StableSort(out, key) == out
    {
      SortedEnumeration(h, env, out, key);
      SortOfSorted(out, key);
    }
  }

  /** The loop over one container's env list, the flattening of the map in an arbitrary order, and the
      sort. */
  method ReconcileEnv(env: seq<Value>, key: SortKey, ghost objs: set<Resource>) returns (out: seq<Resource>)
    requires forall i :: 0 <= i < |env| ==> Within(env[i], objs)
    ensures Reconciled(Snapshot(objs), env, out, key)
    ensures AllIn(out, objs)
  {
    ghost var h := Snapshot(objs);
    var envVars: map<string, Resource> := map[];
    for i := 0 to |env|
      invariant envVars == Reconcile(h, env[..i])
      invariant forall name :: name in envVars ==> envVars[name] in objs
    {
      assert env[..i + 1][..i] == env[..i];
      assert Within(env[i], objs);
      if !env[i].Map? || Name !in env[i].res.fields || !env[i].res.fields[Name].Str? {
        continue;
      }
      var name := env[i].res.fields[Name].text;
      if name in envVars && ValueFrom in envVars[name].fields {
        continue;
      }
      envVars := envVars[name := env[i].res];
    }
    assert env[..|env|] == env;
    forall name ensures name in envVars ==> NameOf(h, Map(envVars[name])) == Some(name) {
      ReconcileMeaning(h, env, name);
    }
    var order := Flatten(envVars, h);
    out := StableSort(order, key);
    SortReconciles(h, env, order, key);
    forall i | 0 <= i < |out| ensures out[i] in objs {
      assert out[i] in multiset(out);
      SortSorts(order, key);
      assert out[i] in order;
    }
  }

  lemma EnumerateOneMore(h: Heap, order: seq<Resource>, m: map<string, Resource>, name: string, r: Resource)
    requires Enumerates(h, order, m) && name !in m && NameOf(h, Map(r)) == Some(name)
    ensures Enumerates(h, order + [r], m[name := r])
  {
    var out := order + [r];
    forall other | other in m[name := r] ensures exists i :: 0 <= i < |out| && NameOf(h, Map(out[i])) == Some(other) {
      if other == name {
        assert out[|order|] == r;
      } else {
        var i :| 0 <= i < |order| && NameOf(h, Map(order[i])) == Some(other);
        assert out[i] == order[i];
      }
    }
  }

  /** Ranging over the map, in whatever order. */
  method Flatten(envVars: map<string, Resource>, ghost h: Heap) returns (order: seq<Resource>)
    requires forall name :: name in envVars ==> NameOf(h, Map(envVars[name])) == Some(name)
    ensures Enumerates(h, order, envVars)
  {
    order := [];
    var left := envVars.Keys;
    while left != {}
      invariant left <= envVars.Keys
      invariant Enumerates(h, order, envVars - left)
      decreases left
    {
      var name :| name in left;
      EnumerateOneMore(h, order, envVars - left, name, envVars[name]);
      assert (envVars - left)[name := envVars[name]] == envVars - (left - {name});
      left := left - {name};
      order := order + [envVars[name]];
    }
    assert envVars - left == envVars;
  }

  // ---- Determinism and idempotence, exactly --------------------------------------------------

  function AsValues(rs: seq<Resource>): (vs: seq<Value>)
    ensures |vs| == |rs| && forall i :: 0 <= i < |rs| ==> vs[i] == Map(rs[i])
  {
    seq(|rs|, i requires 0 <= i < |rs| => Map(rs[i]))
  }

  /** Two admissible results hold the same entries. */
  lemma SameSurvivors(h: Heap, env: seq<Value>, a: seq<Resource>, b: seq<Resource>, key: SortKey)
    requires Reconciled(h, env, a, key) && Reconciled(h, env, b, key)
    ensures forall r :: r in a ==> r in b
  {
    forall r | r in a ensures r in b {
      var name := NameOf(h, Map(r)).value;
      assert Survives(h, env, name, r);
      var k :| (FirstFrom(h, env, name, k) || LastPlain(h, env, name, k)) && env[k] == Map(r);
      assert Occurs(h, env, name);
      var i :| 0 <= i < |b| && NameOf(h, Map(b[i])) == Some(name);
      SurvivorUnique(h, env, name, r, b[i]);
    }
  }

  /** Entries with equal keys may come out either way round. */
  lemma TieSwaps(h: Heap, env: seq<Value>, out: seq<Resource>, key: SortKey, i: nat, j: nat)
    requires Reconciled(h, env, out, key) && i < j < |out| && key(out[i]) == key(out[j])
    ensures Reconciled(h, env, Swap(out, i, j), key) && Swap(out, i, j) != out
  {
    var other := Swap(out, i, j);
    SwapTies(out, i, j, key);
    SwapKeepsEntries(h, env, out, i, j);
    assert NameOf(h, Map(out[i])) != NameOf(h, Map(out[j]));
    assert other[i] == out[SwapIndex(i, j, i)];
    forall name | Occurs(h, env, name) ensures exists k :: 0 <= k < |other| && NameOf(h, Map(other[k])) == Some(name) {
      var k :| 0 <= k < |out| && NameOf(h, Map(out[k])) == Some(name);
      assert other[SwapIndex(i, j, k)] == out[SwapIndex(i, j, SwapIndex(i, j, k))] == out[k];
    }
  }

  lemma SwapKeepsEntries(h: Heap, env: seq<Value>, out: seq<Resource>, i: nat, j: nat)
    requires i < |out| && j < |out|
    requires forall k :: 0 <= k < |out| ==>
      NameOf(h, Map(out[k])).Some? && Survives(h, env, NameOf(h, Map(out[k])).value, out[k])
    requires forall k, l :: 0 <= k < l < |out| ==> NameOf(h, Map(out[k])) != NameOf(h, Map(out[l]))
    ensures var other := Swap(out, i, j);
            && (forall k :: 0 <= k < |other| ==>
                  NameOf(h, Map(other[k])).Some? && Survives(h, env, NameOf(h, Map(other[k])).value, other[k]))
            && (forall k, l :: 0 <= k < l < |other| ==> NameOf(h, Map(other[k])) != NameOf(h, Map(other[l])))
  {
    var other := Swap(out, i, j);
    forall k | 0 <= k < |other|
      ensures NameOf(h, Map(other[k])).Some? && Survives(h, env, NameOf(h, Map(other[k])).value, other[k])
    {
      assert other[k] == out[SwapIndex(i, j, k)];
    }
    forall k, l | 0 <= k < l < |other| ensures NameOf(h, Map(other[k])) != NameOf(h, Map(other[l])) {
      assert other[k] == out[SwapIndex(i, j, k)] && other[l] == out[SwapIndex(i, j, l)];
    }
  }

  ghost predicate SurvivesAt(h: Heap, env: seq<Value>, name: string, i: int) {
    FirstFrom(h, env, name, i) || LastPlain(h, env, name, i)
  }

  /** The entries that survive for different names print differently. */
  ghost predicate SurvivorsDiffer(h: Heap, env: seq<Value>, key: SortKey) {
    forall a, b, i, j :: a != b && SurvivesAt(h, env, a, i) && SurvivesAt(h, env, b, j) ==>
      key(env[i].res) != key(env[j].res)
  }

  /** The condition on the env list, seen on any one result. */
  lemma SurvivorsDifferInResult(h: Heap, env: seq<Value>, out: seq<Resource>, key: SortKey)
    requires Reconciled(h, env, out, key)
    ensures SurvivorsDiffer(h, env, key) <==> DistinctKeys(out, key)
  {
    if SurvivorsDiffer(h, env, key) {
      forall i, j | 0 <= i < j < |out| ensures key(out[i]) != key(out[j]) {
        var k := SurvivorIndex(h, env, NameOf(h, Map(out[i])).value, out[i]);
        var l := SurvivorIndex(h, env, NameOf(h, Map(out[j])).value, out[j]);
      }
    }
    if DistinctKeys(out, key) {
      forall a, b, i, j | a != b && SurvivesAt(h, env, a, i) && SurvivesAt(h, env, b, j)
        ensures key(env[i].res) != key(env[j].res)
      {
        var k := ResultHasSurvivor(h, env, out, key, a, i);
        var l := ResultHasSurvivor(h, env, out, key, b, j);
      }
    }
  }

  lemma SurvivorIndex(h: Heap, env: seq<Value>, name: string, r: Resource) returns (i: nat)
    requires Survives(h, env, name, r)
    ensures i < |env| && SurvivesAt(h, env, name, i) && env[i] == Map(r)
  {
    i :| (FirstFrom(h, env, name, i) || LastPlain(h, env, name, i)) && env[i] == Map(r);
  }

  lemma ResultHasSurvivor(h: Heap, env: seq<Value>, out: seq<Resource>, key: SortKey, name: string, i: int)
    returns (k: nat)
    requires Reconciled(h, env, out, key) && SurvivesAt(h, env, name, i)
    ensures k < |out| && env[i] == Map(out[k]) && NameOf(h, env[i]) == Some(name)
  {
    assert Occurs(h, env, name) && Survives(h, env, name, env[i].res);
    k :| 0 <= k < |out| && NameOf(h, Map(out[k])) == Some(name);
    SurvivorUnique(h, env, name, env[i].res, out[k]);
  }

  lemma {:induction false} SomeOrder(h: Heap, m: map<string, Resource>) returns (order: seq<Resource>)
    requires forall name :: name in m ==> NameOf(h, Map(m[name])) == Some(name)
    ensures Enumerates(h, order, m)
    decreases |m|
  {
    order := [];
    if m != map[] {
      hide Enumerates, NameOf;
      var name :| name in m;
      var rest := m - {name};
      assert m == rest[name := m[name]] && |rest| < |m|;
      order := SomeOrder(h, rest);
      EnumerateOneMore(h, order, rest, name, m[name]);
      order := order + [m[name]];
    }
  }

  /** Every env list has a result. */
  lemma SomeResult(h: Heap, env: seq<Value>, key: SortKey) returns (out: seq<Resource>)
    ensures Reconciled(h, env, out, key)
  {
    forall name ensures name in Reconcile(h, env) ==> NameOf(h, Map(Reconcile(h, env)[name])) == Some(name) {
      ReconcileMeaning(h, env, name);
    }
    var order := SomeOrder(h, Reconcile(h, env));
    SortReconciles(h, env, order, key);
    out := StableSort(order, key);
  }

  /** One result is the only one exactly when its keys are distinct. */
  lemma OnlyResultIff(h: Heap, env: seq<Value>, out: seq<Resource>, key: SortKey)
    requires Reconciled(h, env, out, key)
    ensures (forall other :: Reconciled(h, env, other, key) ==> other == out) <==> DistinctKeys(out, key)
  {
    if DistinctKeys(out, key) {
      forall other | Reconciled(h, env, other, key) ensures other == out {
        SameSurvivors(h, env, out, other, key);
        SameSurvivors(h, env, other, out, key);
        forall i, j | 0 <= i < j < |other| ensures key(other[i]) != key(other[j]) {
          assert other[i] in out && other[j] in out;
          var k :| 0 <= k < |out| && out[k] == other[i];
          var l :| 0 <= l < |out| && out[l] == other[j];
          assert k != l;
        }
        StrictlySortedUnique(out, other, key);
      }
    } else {
      var i, j :| 0 <= i < j < |out| && key(out[i]) == key(out[j]);
      TieSwaps(h, env, out, key, i, j);
    }
  }

  /** The result does not depend on the map's iteration order exactly when no entries that survive for
      different names are printed alike. */
  lemma DeterministicIff(h: Heap, env: seq<Value>, key: SortKey)
    ensures (forall a, b :: Reconciled(h, env, a, key) && Reconciled(h, env, b, key) ==> a == b) <==>
            SurvivorsDiffer(h, env, key)
  {
    hide Reconciled, SurvivorsDiffer;
    var out := SomeResult(h, env, key);
    SurvivorsDifferInResult(h, env, out, key);
    OnlyResultIff(h, env, out, key);
  }

  /** In a result every name occurs once, so its entry survives a second pass. */
  lemma AlreadyReconciled(h: Heap, env: seq<Value>, out: seq<Resource>, key: SortKey, name: string, r: Resource)
    requires Reconciled(h, env, out, key)
    ensures Survives(h, AsValues(out), name, r) <==> r in out && NameOf(h, Map(r)) == Some(name)
  {
    var again := AsValues(out);
    if r in out && NameOf(h, Map(r)) == Some(name) {
      var i :| 0 <= i < |out| && out[i] == r;
      assert Named(h, again, i, name);
      assert forall j :: Named(h, again, j, name) ==> j == i;
      assert FirstFrom(h, again, name, i) || LastPlain(h, again, name, i);
    }
  }

  /** A second pass over a result admits exactly what a first pass over the original list admits. */
  lemma SecondPass(h: Heap, env: seq<Value>, out: seq<Resource>, again: seq<Resource>, key: SortKey)
    requires Reconciled(h, env, out, key)
    ensures Reconciled(h, AsValues(out), again, key) <==> Reconciled(h, env, again, key)
  {
    forall name ensures Occurs(h, AsValues(out), name) <==> Occurs(h, env, name) {
      if Occurs(h, env, name) {
        var i :| 0 <= i < |out| && NameOf(h, Map(out[i])) == Some(name);
        assert Named(h, AsValues(out), i, name);
      }
      if Occurs(h, AsValues(out), name) {
        var i :| Named(h, AsValues(out), i, name);
        assert Survives(h, env, name, out[i]);
      }
    }
    forall name, r ensures Survives(h, AsValues(out), name, r) <==> Survives(h, env, name, r) {
      AlreadyReconciled(h, env, out, key, name, r);
      if Survives(h, env, name, r) {
        var k :| (FirstFrom(h, env, name, k) || LastPlain(h, env, name, k)) && env[k] == Map(r);
        assert Occurs(h, env, name);
        var i :| 0 <= i < |out| && NameOf(h, Map(out[i])) == Some(name);
        SurvivorUnique(h, env, name, r, out[i]);
      }
    }
  }

  /** Running the pass twice equals running it once, whatever orders the two passes iterate in, exactly
      when no entries that survive for different names are printed alike. */
  lemma IdempotentIff(h: Heap, env: seq<Value>, key: SortKey)
    ensures (forall out, again :: Reconciled(h, env, out, key) && Reconciled(h, AsValues(out), again, key) ==>
               again == out)
            <==> SurvivorsDiffer(h, env, key)
  {
    hide Reconciled, SurvivorsDiffer;
    DeterministicIff(h, env, key);
    if SurvivorsDiffer(h, env, key) {
      forall out, again | Reconciled(h, env, out, key) && Reconciled(h, AsValues(out), again, key)
        ensures again == out
      {
        SecondPass(h, env, out, again, key);
      }
    } else {
      var out, again :| Reconciled(h, env, out, key) && Reconciled(h, env, again, key) && again != out;
      SecondPass(h, env, out, again, key);
    }
  }

  // ---- The result in terms of the fields -----------------------------------------------------

  /** Both entries are maps with the same text under name. */
  ghost predicate SameName(h: Heap, v: Value, w: Value) {
    && v.Map? && w.Map? && Field(h, v.res, Name).Some? && Field(h, v.res, Name).value.Str?
    && Field(h, w.res, Name) == Field(h, v.res, Name)
  }

  ghost predicate FromElsewhere(h: Heap, v: Value) { v.Map? && Field(h, v.res, ValueFrom).Some? }

  /** Entry i has a name, and it is the first entry of its name with valueFrom, or there is none with it
      and entry i is the last of its name. */
  ghost predicate KeptEntry(h: Heap, env: seq<Value>, i: int) {
    && 0 <= i < |env| && SameName(h, env[i], env[i])
    && if FromElsewhere(h, env[i])
       then forall j :: 0 <= j < i && SameName(h, env[i], env[j]) ==> !FromElsewhere(h, env[j])
       else forall j :: 0 <= j < |env| && SameName(h, env[i], env[j]) ==> j <= i && !FromElsewhere(h, env[j])
  }

  /** The list holds exactly the kept entries, one of each name, in descending order of what they print. */
  ghost predicate HoldsKept(h: Heap, env: seq<Value>, out: seq<Value>, key: SortKey) {
    && (forall k :: 0 <= k < |out| ==> out[k].Map? && exists i :: KeptEntry(h, env, i) && env[i] == out[k])
    && (forall i :: KeptEntry(h, env, i) ==> env[i] in out)
    && (forall j, k :: 0 <= j < k < |out| ==> !SameName(h, out[j], out[k]))
    && (forall j, k :: 0 <= j < k < |out| ==> out[j].Map? && out[k].Map? && key(out[j].res) >= key(out[k].res))
  }

  lemma NamedIff(h: Heap, env: seq<Value>, i: int, j: int, name: string)
    requires 0 <= i < |env| && 0 <= j < |env| && NameOf(h, env[i]) == Some(name)
    ensures Named(h, env, j, name) <==> SameName(h, env[i], env[j])
  {
  }

  lemma KeptIff(h: Heap, env: seq<Value>, i: int, name: string)
    ensures SurvivesAt(h, env, name, i) <==> KeptEntry(h, env, i) && NameOf(h, env[i]) == Some(name)
  {
    if 0 <= i < |env| && NameOf(h, env[i]) == Some(name) {
      forall j | 0 <= j < |env| ensures Named(h, env, j, name) <==> SameName(h, env[i], env[j]) {
        NamedIff(h, env, i, j, name);
      }
    }
  }

  lemma KeptAt(h: Heap, env: seq<Value>, out: seq<Resource>, key: SortKey, k: nat) returns (i: int)
    requires Reconciled(h, env, out, key) && k < |out|
    ensures KeptEntry(h, env, i) && env[i] == Map(out[k])
  {
    var name := NameOf(h, Map(out[k])).value;
    hide Survives, SurvivesAt, KeptEntry;
    i := SurvivorIndex(h, env, name, out[k]);
    KeptIff(h, env, i, name);
  }

  lemma KeptIsIn(h: Heap, env: seq<Value>, out: seq<Resource>, key: SortKey, i: int)
    requires Reconciled(h, env, out, key) && KeptEntry(h, env, i)
    ensures env[i] in AsValues(out)
  {
    var name := NameOf(h, env[i]).value;
    hide Reconciled, SurvivesAt, KeptEntry;
    KeptIff(h, env, i, name);
    var k := ResultHasSurvivor(h, env, out, key, name, i);
    assert AsValues(out)[k] == env[i];
  }

  lemma NamesDiffer(h: Heap, env: seq<Value>, out: seq<Resource>, key: SortKey)
    requires Reconciled(h, env, out, key)
    ensures forall j, k :: 0 <= j < k < |out| ==>
      !SameName(h, Map(out[j]), Map(out[k])) && key(out[j]) >= key(out[k])
  {
    hide Survives, Occurs;
    forall j, k | 0 <= j < k < |out| ensures !SameName(h, Map(out[j]), Map(out[k])) {
      assert NameOf(h, Map(out[j])) != NameOf(h, Map(out[k]));
    }
  }

  /** An admissible result over the fields alone. */
  lemma ReconciledMeaning(h: Heap, env: seq<Value>, out: seq<Resource>, key: SortKey)
    requires Reconciled(h, env, out, key)
    ensures HoldsKept(h, env, AsValues(out), key)
  {
    hide Reconciled, SameName, FromElsewhere;
    NamesDiffer(h, env, out, key);
    forall k | 0 <= k < |out| ensures exists i :: KeptEntry(h, env, i) && env[i] == AsValues(out)[k] {
      var i := KeptAt(h, env, out, key, k);
    }
    forall i | KeptEntry(h, env, i) ensures env[i] in AsValues(out) { KeptIsIn(h, env, out, key, i); }
  }

  // ---- Entries that print alike --------------------------------------------------------------

  function KeyName(k: Key): string {
    match k
    case Name => "name"
    case OtherKey(name) => name
    case Kind => "kind"
    case Items => "items"
    case Spec => "spec"
    case Template => "template"
    case JobTemplate => "jobTemplate"
    case Metadata => "metadata"
    case Labels => "labels"
    case ManifestLabel => "getporter.dev/manifest"
    case Data => "data"
    case ManifestText => "manifest"
    case Containers => "containers"
    case Image => "image"
    case ImagePullSecrets => "imagePullSecrets"
    case Env => "env"
    case ValueFrom => "valueFrom"
  }

  /** The entry consists of strings only, namely these. */
  ghost predicate HoldsStrings(f: Fields, m: map<string, string>) {
    && (forall k :: k in f ==> f[k].Str? && KeyName(k) in m && m[KeyName(k)] == f[k].text)
    && (forall s :: s in m ==> exists k :: k in f && KeyName(k) == s)
  }

  /** The key stands for what %v prints. */
  ghost predicate OrdersPrints(h: Heap, key: SortKey) {
    forall r, q, m, n :: r in h && q in h && HoldsStrings(h[r], m) && HoldsStrings(h[q], n) ==>
      (key(r) == key(q) <==> Printed(m) == Printed(n))
  }

  /** Two variables of different names, without valueFrom and with the same key, may come in either order. */
  lemma EitherOrder(h: Heap, r: Resource, q: Resource, a: string, b: string, key: SortKey)
    requires NameOf(h, Map(r)) == Some(a) && NameOf(h, Map(q)) == Some(b) && a != b && key(r) == key(q)
    requires !HasValueFrom(h, Map(r)) && !HasValueFrom(h, Map(q))
    ensures !SurvivorsDiffer(h, [Map(r), Map(q)], key)
    ensures Reconciled(h, [Map(r), Map(q)], [r, q], key) && Reconciled(h, [Map(r), Map(q)], [q, r], key)
  {
    var env := [Map(r), Map(q)];
    assert LastPlain(h, env, a, 0) && LastPlain(h, env, b, 1);
    assert SurvivesAt(h, env, a, 0) && SurvivesAt(h, env, b, 1);
    assert env[0] == Map(r) && env[1] == Map(q);
    forall name | Occurs(h, env, name) ensures name == a || name == b {}
    var one, other := [r, q], [q, r];
    assert one[0] == r && one[1] == q && other[0] == q && other[1] == r;
  }

  /** Two variables whose order is left to chance, for any name a and value v: {name: a, value: v} and
      {name: "a value:v"} print alike, so each order is a result. */
  lemma EntriesTie(h: Heap, r: Resource, q: Resource, a: string, v: string, key: SortKey)
    requires OrdersPrints(h, key) && r in h && q in h
    requires h[r] == map[Name := Str(a), OtherKey("value") := Str(v)]
    requires h[q] == map[Name := Str(a + " value:" + v)]
    ensures !SurvivorsDiffer(h, [Map(r), Map(q)], key)
    ensures Reconciled(h, [Map(r), Map(q)], [r, q], key) && Reconciled(h, [Map(r), Map(q)], [q, r], key)
  {
    hide Reconciled, SurvivorsDiffer, Printed;
    var b := a + " value:" + v;
    var m, n := map["name" := a, "value" := v], map["name" := b];
    assert Name in h[r] && OtherKey("value") in h[r] && Name in h[q];
    assert HoldsStrings(h[r], m) && HoldsStrings(h[q], n);
    PrintAlike(a, v);
    EitherOrder(h, r, q, a, b, key);
  }
}
