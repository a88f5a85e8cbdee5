/** The environment-variable post-renderer: it collects the pod specs of a set of manifests, also of
    manifests embedded in ConfigMaps, and rewrites their containers' env lists in place.

    No shape is assumed of the manifests: an object may be shared by several pod specs, or be reached
    several times, and is then rewritten several times. */
module EnvPostRenderer {
  import opened Manifests
  import opened EmbeddedManifests
  import opened Filters
  import opened Options
  import opened EnvReconcile

  // ---- What the pass has done to an object ---------------------------------------------------

  ghost predicate IsContainer(h: Heap, specs: seq<Resource>, c: Resource) {
    exists p :: p in specs && c in ContainersOf(h, p)
  }

  /** The object's env list, if it had one, is now an admissible reconciliation of what it was. */
  ghost predicate EnvDone(h0: Heap, h: Heap, c: Resource, key: SortKey) {
    match ListAt(h0, c, Env)
    case Some(env) =>
      (match ListAt(h, c, Env)
       case Some(items) => items == AsValues(MapsIn(items)) && Reconciled(h0, env, MapsIn(items), key)
       case None => false)
    case None => Field(h, c, Env) == Field(h0, c, Env)
  }

  /** The object's container list, if it had one, now holds its container objects and nothing else. */
  ghost predicate ContainersDone(h0: Heap, h: Heap, p: Resource) {
    if ListAt(h0, p, Containers).Some? then Field(h, p, Containers) == Some(List(AsValues(ContainersOf(h0, p))))
    else Field(h, p, Containers) == Field(h0, p, Containers)
  }

  ghost predicate SpecDone(h0: Heap, h: Heap, p: Resource, key: SortKey) {
    ContainersDone(h0, h, p) && forall c :: c in ContainersOf(h0, p) ==> EnvDone(h0, h, c, key)
  }

  ghost predicate Kept(h0: Heap, h: Heap, r: Resource) {
    forall k: Key :: !k.Containers? && !k.Env? ==> Field(h, r, k) == Field(h0, r, k)
  }

  /** Nothing but env lists of containers and container lists of pod specs has changed, and those only
      into what they are to become. */
  ghost predicate Progress(h0: Heap, h: Heap, specs: seq<Resource>, key: SortKey) {
    && h.Keys == h0.Keys && Closed(h)
    && (forall r :: r in h0 ==> Kept(h0, h, r))
    && (forall r :: r in h0 ==>
          Field(h, r, Env) == Field(h0, r, Env) || (IsContainer(h0, specs, r) && EnvDone(h0, h, r, key)))
    && (forall r :: r in h0 ==>
          Field(h, r, Containers) == Field(h0, r, Containers) || (r in specs && ContainersDone(h0, h, r)))
  }

  /** What is done stays done. */
  ghost predicate Onwards(h0: Heap, h: Heap, t: Heap, key: SortKey) {
    && (forall r :: r in h0 && EnvDone(h0, h, r, key) ==> EnvDone(h0, t, r, key))
    && (forall r :: r in h0 && ContainersDone(h0, h, r) ==> ContainersDone(h0, t, r))
  }

  ghost predicate AllEnvDone(h0: Heap, h: Heap, cs: seq<Resource>, key: SortKey) {
    forall c :: c in cs ==> c in h0 && EnvDone(h0, h, c, key)
  }

  lemma OneMoreDone(h0: Heap, h: Heap, t: Heap, cs: seq<Resource>, c: Resource, key: SortKey)
    requires Onwards(h0, h, t, key) && AllEnvDone(h0, h, cs, key) && c in h0 && EnvDone(h0, t, c, key)
    ensures AllEnvDone(h0, t, cs + [c], key)
  {
  }

  lemma NothingDoneYet(h0: Heap, h: Heap, key: SortKey)
    ensures Onwards(h0, h, h, key) && AllEnvDone(h0, h, [], key)
  {
  }

  lemma OnwardsTransitive(h0: Heap, h: Heap, t: Heap, u: Heap, key: SortKey)
    requires Onwards(h0, h, t, key) && Onwards(h0, t, u, key)
    ensures Onwards(h0, h, u, key)
  {
  }

  lemma SpecStaysDone(h0: Heap, h: Heap, t: Heap, p: Resource, key: SortKey)
    requires Onwards(h0, h, t, key) && SpecDone(h0, h, p, key) && p in h0
    requires forall c :: c in ContainersOf(h0, p) ==> c in h0
    ensures SpecDone(h0, t, p, key)
  {
  }

  // ---- Facts about lists of maps -------------------------------------------------------------

  lemma {:induction false} MapsInValues(rs: seq<Resource>)
    ensures MapsIn(AsValues(rs)) == rs
  {
    if rs != [] {
      assert AsValues(rs)[1..] == AsValues(rs[1..]);
      MapsInValues(rs[1..]);
    }
  }

  // ---- Reconciliation reads names and valueFrom only -----------------------------------------

  lemma SurvivesSame(h0: Heap, h: Heap, env: seq<Value>, name: string, r: Resource)
    requires forall v :: NameOf(h, v) == NameOf(h0, v) && HasValueFrom(h, v) == HasValueFrom(h0, v)
    ensures Survives(h, env, name, r) <==> Survives(h0, env, name, r)
  {
    forall i ensures Named(h, env, i, name) <==> Named(h0, env, i, name) {}
    forall i ensures FirstFrom(h, env, name, i) <==> FirstFrom(h0, env, name, i) {}
    forall i ensures LastPlain(h, env, name, i) <==> LastPlain(h0, env, name, i) {}
  }

  lemma ReconciledSame(h0: Heap, h: Heap, env: seq<Value>, out: seq<Resource>, key: SortKey)
    requires h.Keys == h0.Keys && forall r :: r in h0 ==> Kept(h0, h, r)
    ensures Reconciled(h, env, out, key) <==> Reconciled(h0, env, out, key)
  {
    forall v ensures NameOf(h, v) == NameOf(h0, v) && HasValueFrom(h, v) == HasValueFrom(h0, v) {
      if v.Map? && v.res in h0 {
        assert Kept(h0, h, v.res);
        assert Field(h, v.res, Name) == Field(h0, v.res, Name);
        assert Field(h, v.res, ValueFrom) == Field(h0, v.res, ValueFrom);
      }
    }
    forall name, r ensures Survives(h, env, name, r) <==> Survives(h0, env, name, r) {
      SurvivesSame(h0, h, env, name, r);
    }
    forall name ensures Occurs(h, env, name) <==> Occurs(h0, env, name) {
      forall i ensures Named(h, env, i, name) <==> Named(h0, env, i, name) {}
    }
  }

  // ---- One container, one pod spec -----------------------------------------------------------

  /** h and t differ at most in the env and container lists of r. */
  ghost predicate SameBut(h: Heap, t: Heap, r: Resource) {
    && t.Keys == h.Keys
    && (forall q, k: Key :: q in h && q != r ==> Field(t, q, k) == Field(h, q, k))
    && (forall k: Key :: !k.Env? && !k.Containers? ==> Field(t, r, k) == Field(h, r, k))
  }

  lemma DoneElsewhere(h0: Heap, h: Heap, t: Heap, r: Resource, q: Resource, key: SortKey)
    requires SameBut(h, t, r) && q in h && q != r
    ensures EnvDone(h0, t, q, key) <==> EnvDone(h0, h, q, key)
    ensures ContainersDone(h0, t, q) <==> ContainersDone(h0, h, q)
  {
    assert Field(t, q, Env) == Field(h, q, Env) && Field(t, q, Containers) == Field(h, q, Containers);
  }

  /** A write to one object makes progress if it does so at that object. */
  lemma WriteProgress(h0: Heap, h: Heap, t: Heap, specs: seq<Resource>, r: Resource, key: SortKey)
    requires Progress(h0, h, specs, key) && Closed(t) && r in h && SameBut(h, t, r)
    requires Field(t, r, Env) == Field(h, r, Env) || (IsContainer(h0, specs, r) && EnvDone(h0, t, r, key))
    requires Field(t, r, Containers) == Field(h, r, Containers) || (r in specs && ContainersDone(h0, t, r))
    ensures Progress(h0, t, specs, key)
  {
    forall q | q in h0 ensures Kept(h0, t, q) {
      assert Kept(h0, h, q);
      forall k: Key | !k.Containers? && !k.Env? ensures Field(t, q, k) == Field(h0, q, k) {
        assert Field(t, q, k) == Field(h, q, k);
      }
    }
    forall q | q in h0 && q != r
      ensures EnvDone(h0, t, q, key) <==> EnvDone(h0, h, q, key)
      ensures ContainersDone(h0, t, q) <==> ContainersDone(h0, h, q)
      ensures Field(t, q, Env) == Field(h, q, Env) && Field(t, q, Containers) == Field(h, q, Containers)
    {
      DoneElsewhere(h0, h, t, r, q, key);
    }
  }

  lemma WriteOnwards(h0: Heap, h: Heap, t: Heap, specs: seq<Resource>, r: Resource, key: SortKey)
    requires Progress(h0, h, specs, key) && r in h && SameBut(h, t, r)
    requires Field(t, r, Env) == Field(h, r, Env) || EnvDone(h0, t, r, key)
    requires Field(t, r, Containers) == Field(h, r, Containers) || ContainersDone(h0, t, r)
    ensures Onwards(h0, h, t, key)
  {
    forall q | q in h0 && q != r
      ensures EnvDone(h0, t, q, key) <==> EnvDone(h0, h, q, key)
      ensures ContainersDone(h0, t, q) <==> ContainersDone(h0, h, q)
    {
      DoneElsewhere(h0, h, t, r, q, key);
    }
  }

  lemma PutSameBut(h: Heap, r: Resource, key: Key, v: Value)
    requires r in h && (key.Env? || key.Containers?)
    ensures SameBut(h, Put(h, r, key, v), r)
    ensures Field(Put(h, r, key, v), r, key) == Some(v)
    ensures key.Env? ==> Field(Put(h, r, key, v), r, Containers) == Field(h, r, Containers)
    ensures key.Containers? ==> Field(Put(h, r, key, v), r, Env) == Field(h, r, Env)
  {
    var t := Put(h, r, key, v);
    forall q, k: Key | q in h && q != r ensures Field(t, q, k) == Field(h, q, k) {}
    forall k: Key | !k.Env? && !k.Containers? ensures Field(t, r, k) == Field(h, r, k) {}
  }

  /** The rewritten list is admissible for the original list too, even if it was rewritten before. */
  lemma ReconciledFromOriginal(h0: Heap, h: Heap, specs: seq<Resource>, c: Resource, out: seq<Resource>, key: SortKey)
    requires Progress(h0, h, specs, key) && c in h
    requires ListAt(h, c, Env).Some? && Reconciled(h, ListAt(h, c, Env).value, out, key)
    ensures ListAt(h0, c, Env).Some? && Reconciled(h0, ListAt(h0, c, Env).value, out, key)
  {
    var items := ListAt(h, c, Env).value;
    ReconciledSame(h0, h, items, out, key);
    if Field(h, c, Env) != Field(h0, c, Env) {
      SecondPass(h0, ListAt(h0, c, Env).value, MapsIn(items), out, key);
    }
  }

  /** Rewriting a container's env list, for the first time or again, makes progress. */
  lemma ContainerStep(h0: Heap, h: Heap, specs: seq<Resource>, c: Resource, out: seq<Resource>, key: SortKey)
    requires Closed(h) && Progress(h0, h, specs, key) && c in h && IsContainer(h0, specs, c)
    requires ListAt(h, c, Env).Some? && Reconciled(h, ListAt(h, c, Env).value, out, key) && AllIn(out, h.Keys)
    ensures var t := Put(h, c, Env, List(AsValues(out)));
            Progress(h0, t, specs, key) && EnvDone(h0, t, c, key) && Onwards(h0, h, t, key)
  {
    hide *;
    var v := List(AsValues(out));
    var t := Put(h, c, Env, v);
    ItemsWithin(out, h.Keys);
    PutClosed(h, c, Env, v);
    PutSameBut(h, c, Env, v);
    ReconciledFromOriginal(h0, h, specs, c, out, key);
    WrittenEnvDone(h0, t, c, out, key);
    WriteProgress(h0, h, t, specs, c, key);
    WriteOnwards(h0, h, t, specs, c, key);
  }

  lemma ItemsWithin(out: seq<Resource>, objs: set<Resource>)
    requires AllIn(out, objs)
    ensures Within(List(AsValues(out)), objs)
  {
  }

  lemma WrittenEnvDone(h0: Heap, t: Heap, c: Resource, out: seq<Resource>, key: SortKey)
    requires Field(t, c, Env) == Some(List(AsValues(out)))
    requires ListAt(h0, c, Env).Some? && Reconciled(h0, ListAt(h0, c, Env).value, out, key)
    ensures EnvDone(h0, t, c, key)
  {
    MapsInValues(out);
  }

  lemma SpecStep(h0: Heap, h: Heap, specs: seq<Resource>, p: Resource, key: SortKey)
    requires Closed(h0) && Progress(h0, h, specs, key) && p in h0 && p in specs
    requires ListAt(h0, p, Containers).Some?
    ensures var t := Put(h, p, Containers, List(AsValues(ContainersOf(h0, p))));
            Progress(h0, t, specs, key) && ContainersDone(h0, t, p) && Onwards(h0, h, t, key)
  {
    var v := List(AsValues(ContainersOf(h0, p)));
    ContainersWithin(h0, p);
    PutClosed(h, p, Containers, v);
    PutSameBut(h, p, Containers, v);
    WriteProgress(h0, h, Put(h, p, Containers, v), specs, p, key);
    WriteOnwards(h0, h, Put(h, p, Containers, v), specs, p, key);
  }

  method UpdateContainer(c: Resource, key: SortKey, ghost h0: Heap, ghost specs: seq<Resource>,
                         ghost objs: set<Resource>)
    requires c in objs && Progress(h0, Snapshot(objs), specs, key) && IsContainer(h0, specs, c)
    modifies c
    ensures Progress(h0, Snapshot(objs), specs, key)
    ensures EnvDone(h0, Snapshot(objs), c, key) && Onwards(h0, old(Snapshot(objs)), Snapshot(objs), key)
  {
    ghost var h := Snapshot(objs);
    if Env !in c.fields || !c.fields[Env].List? {
      return;
    }
    var items := c.fields[Env].items;
    assert Within(h[c][Env], objs);
    var out := ReconcileEnv(items, key, objs);
    ContainerStep(h0, h, specs, c, out, key);
    SetField(c, Env, List(AsValues(out)), objs);
  }

  lemma NoMaps()
    ensures MapsIn([]) == [] && AsValues([]) == []
  {
  }

  lemma ValuesAppend(rs: seq<Resource>, r: Resource)
    ensures AsValues(rs + [r]) == AsValues(rs) + [Map(r)]
  {
  }

  /** The loop over the items of a container list; items that are not maps are dropped. */
  method UpdateContainers(items: seq<Value>, key: SortKey, ghost h0: Heap, ghost specs: seq<Resource>,
                          ghost objs: set<Resource>)
    returns (newContainers: seq<Value>)
    requires Progress(h0, Snapshot(objs), specs, key)
    requires forall c :: c in MapsIn(items) ==> c in objs && IsContainer(h0, specs, c)
    modifies objs
    ensures newContainers == AsValues(MapsIn(items))
    ensures Progress(h0, Snapshot(objs), specs, key) && Onwards(h0, old(Snapshot(objs)), Snapshot(objs), key)
    ensures AllEnvDone(h0, Snapshot(objs), MapsIn(items), key)
  {
    hide *;
    newContainers := [];
    ghost var first := Snapshot(objs);
    NothingDoneYet(h0, first, key);
    NoMaps();
    assert items[..0] == [];
    for i := 0 to |items|
      invariant newContainers == AsValues(MapsIn(items[..i]))
      invariant Progress(h0, Snapshot(objs), specs, key) && Onwards(h0, first, Snapshot(objs), key)
      invariant AllEnvDone(h0, Snapshot(objs), MapsIn(items[..i]), key)
    {
      MapsInOneMore(items, i);
      if !items[i].Map? {
        continue;
      }
      ghost var h := Snapshot(objs);
      MapsInContains(items, i);
      ProgressClosed(h0, h, specs, key);
      ValuesAppend(MapsIn(items[..i]), items[i].res);
      UpdateContainer(items[i].res, key, h0, specs, objs);
      OneMoreDone(h0, h, Snapshot(objs), MapsIn(items[..i]), items[i].res, key);
      OnwardsTransitive(h0, first, h, Snapshot(objs), key);
      newContainers := newContainers + [items[i]];
    }
    assert items[..|items|] == items;
  }

  method UpdatePodSpec(p: Resource, key: SortKey, ghost h0: Heap, ghost specs: seq<Resource>, ghost objs: set<Resource>)
    requires p in objs && p in specs && Closed(h0) && Progress(h0, Snapshot(objs), specs, key)
    modifies objs
    ensures Progress(h0, Snapshot(objs), specs, key)
    ensures SpecDone(h0, Snapshot(objs), p, key) && Onwards(h0, old(Snapshot(objs)), Snapshot(objs), key)
  {
    if Containers !in p.fields || !p.fields[Containers].List? {
      return;
    }
    var containers := p.fields[Containers].items;
    MapsInValues(ContainersOf(h0, p));
    assert MapsIn(containers) == ContainersOf(h0, p);
    ContainersWithin(h0, p);
    assert forall c :: c in MapsIn(containers) ==> c in objs && IsContainer(h0, specs, c);
    var newContainers := UpdateContainers(containers, key, h0, specs, objs);
    SpecStep(h0, Snapshot(objs), specs, p, key);
    SetField(p, Containers, List(newContainers), objs);
  }

  /** One more pod spec. */
  method UpdateNext(podSpecs: seq<Resource>, i: nat, key: SortKey, ghost h0: Heap, ghost specs: seq<Resource>,
                    ghost objs: set<Resource>)
    requires i < |podSpecs| && podSpecs[i] in objs && podSpecs[i] in specs
    requires Closed(h0) && Progress(h0, Snapshot(objs), specs, key)
    requires AllSpecsDone(h0, Snapshot(objs), podSpecs[..i], key)
    modifies objs
    ensures Progress(h0, Snapshot(objs), specs, key) && Onwards(h0, old(Snapshot(objs)), Snapshot(objs), key)
    ensures AllSpecsDone(h0, Snapshot(objs), podSpecs[..i + 1], key)
  {
    hide *;
    ghost var h := Snapshot(objs);
    UpdatePodSpec(podSpecs[i], key, h0, specs, objs);
    ghost var t := Snapshot(objs);
    ProgressClosed(h0, t, specs, key);
    OneSpecDone(h0, t, podSpecs[i], key);
    SpecsStayDone(h0, h, t, podSpecs[..i], [podSpecs[i]], key);
    assert podSpecs[..i + 1] == podSpecs[..i] + [podSpecs[i]];
  }

  method UpdatePodSpecs(podSpecs: seq<Resource>, key: SortKey, ghost h0: Heap, ghost specs: seq<Resource>,
                        ghost objs: set<Resource>)
    requires AllIn(podSpecs, objs) && Closed(h0) && Progress(h0, Snapshot(objs), specs, key)
    requires forall p :: p in podSpecs ==> p in specs
    modifies objs
    ensures Progress(h0, Snapshot(objs), specs, key)
    ensures forall p :: p in podSpecs ==> SpecDone(h0, Snapshot(objs), p, key)
    ensures Onwards(h0, old(Snapshot(objs)), Snapshot(objs), key)
  {
    hide *;
    ghost var before := Snapshot(objs);
    NoSpecs(h0, before, key);
    NothingDoneYet(h0, before, key);
    assert podSpecs[..0] == [];
    for i := 0 to |podSpecs|
      invariant Progress(h0, Snapshot(objs), specs, key) && Onwards(h0, before, Snapshot(objs), key)
      invariant AllSpecsDone(h0, Snapshot(objs), podSpecs[..i], key)
    {
      KnownResource(podSpecs, i, objs);
      ghost var h := Snapshot(objs);
      UpdateNext(podSpecs, i, key, h0, specs, objs);
      OnwardsTransitive(h0, before, h, Snapshot(objs), key);
    }
    assert podSpecs[..|podSpecs|] == podSpecs;
    EachSpecDone(h0, Snapshot(objs), podSpecs, key);
  }

  lemma OneSpecDone(h0: Heap, h: Heap, p: Resource, key: SortKey)
    requires p in h0 && SpecDone(h0, h, p, key)
    ensures AllSpecsDone(h0, h, [p], key)
  {
  }

  lemma EachSpecDone(h0: Heap, h: Heap, specs: seq<Resource>, key: SortKey)
    requires AllSpecsDone(h0, h, specs, key)
    ensures forall p :: p in specs ==> SpecDone(h0, h, p, key)
  {
  }

  // ---- The whole renderer, with embedded manifests -------------------------------------------

  lemma ProgressSameWalk(h0: Heap, h: Heap, specs: seq<Resource>, key: SortKey)
    requires Progress(h0, h, specs, key)
    ensures SameWalk(h0, h)
  {
    forall r, k | r in h0 && Walked(k) ensures Field(h0, r, k) == Field(h, r, k) {
      assert Kept(h0, h, r);
    }
  }

  ghost predicate AllSpecsDone(h0: Heap, h: Heap, specs: seq<Resource>, key: SortKey) {
    forall p :: p in specs ==> p in h0 && SpecDone(h0, h, p, key)
  }

  lemma SpecsStayDone(h0: Heap, h: Heap, t: Heap, specs: seq<Resource>, more: seq<Resource>, key: SortKey)
    requires Closed(h0) && Onwards(h0, h, t, key)
    requires AllSpecsDone(h0, h, specs, key) && AllSpecsDone(h0, t, more, key)
    ensures AllSpecsDone(h0, t, specs + more, key)
  {
    forall p | p in specs ensures SpecDone(h0, t, p, key) {
      ContainersWithin(h0, p);
      SpecStaysDone(h0, h, t, p, key);
    }
  }

  /** One renderer's Run, which runs another renderer on every embedded manifest first. */
  method RunOn(resources: seq<Resource>, key: SortKey, ghost depth: nat, ghost embed: nat,
               ghost h0: Heap, ghost specs: seq<Resource>, ghost objs: set<Resource>)
    requires AllIn(resources, objs) && Closed(h0) && Progress(h0, Snapshot(objs), specs, key)
    requires Bounded(h0, resources, depth, embed)
    requires forall p :: p in AllPodSpecs(h0, resources, depth, embed) ==> p in specs
    modifies objs
    ensures Progress(h0, Snapshot(objs), specs, key) && Onwards(h0, old(Snapshot(objs)), Snapshot(objs), key)
    ensures AllSpecsDone(h0, Snapshot(objs), AllPodSpecs(h0, resources, depth, embed), key)
    decreases embed
  {
    ghost var first := Snapshot(objs);
    NothingDoneYet(h0, first, key);
    RunEmbedded(resources, key, depth, embed, h0, specs, objs);
    ghost var h := Snapshot(objs);
    ProgressSameWalk(h0, h, specs, key);
    PodSpecsSame(h0, h, resources, depth);
    NestedWithinSame(h0, h, resources, depth);
    var podSpecs := GetPodSpecs(resources, depth, objs);
    UpdatePodSpecs(podSpecs, key, h0, specs, objs);
    OnwardsTransitive(h0, first, h, Snapshot(objs), key);
    SpecsStayDone(h0, h, Snapshot(objs), EmbeddedPodSpecs(h0, resources, depth, embed), podSpecs, key);
  }

  method RunEmbedded(resources: seq<Resource>, key: SortKey, ghost depth: nat, ghost embed: nat,
                     ghost h0: Heap, ghost specs: seq<Resource>, ghost objs: set<Resource>)
    requires AllIn(resources, objs) && Closed(h0) && Progress(h0, Snapshot(objs), specs, key)
    requires Bounded(h0, resources, depth, embed)
    requires forall p :: p in EmbeddedPodSpecs(h0, resources, depth, embed) ==> p in specs
    modifies objs
    ensures Progress(h0, Snapshot(objs), specs, key) && Onwards(h0, old(Snapshot(objs)), Snapshot(objs), key)
    ensures AllSpecsDone(h0, Snapshot(objs), EmbeddedPodSpecs(h0, resources, depth, embed), key)
    decreases embed, 0
  {
    hide Progress, Onwards, SpecDone, NestedWithin, Embedded, Closed;
    ghost var first := Snapshot(objs);
    NothingDoneYet(h0, first, key);
    for i := 0 to |resources|
      invariant Progress(h0, Snapshot(objs), specs, key) && Onwards(h0, first, Snapshot(objs), key)
      invariant AllSpecsDone(h0, Snapshot(objs), EmbeddedPodSpecs(h0, resources[..i], depth, embed), key)
    {
      ghost var h := Snapshot(objs);
      assert resources[..i + 1][..i] == resources[..i];
      EmbeddedIncluded(h0, resources, i + 1, depth, embed);
      ProgressSameWalk(h0, h, specs, key);
      EmbeddedSame(h0, h, resources[i]);
      ProgressClosed(h0, h, specs, key);
      var docs := GetEmbedded(resources[i], objs);
      if docs.Some? {
        RunOn(docs.value, key, depth, embed - 1, h0, specs, objs);
        OnwardsTransitive(h0, first, h, Snapshot(objs), key);
        SpecsStayDone(h0, h, Snapshot(objs), EmbeddedPodSpecs(h0, resources[..i], depth, embed),
          AllPodSpecs(h0, docs.value, depth, embed - 1), key);
      }
    }
    assert resources[..|resources|] == resources;
  }

  lemma ProgressClosed(h0: Heap, h: Heap, specs: seq<Resource>, key: SortKey)
    requires Progress(h0, h, specs, key)
    ensures Closed(h) && h.Keys == h0.Keys
  {
  }

  /** The renderer in place.  Afterwards every pod spec it reaches has only its container objects left,
      each with its env list reconciled as specified for the list it had at the start; nothing else in
      the manifests has changed, and walking them finds the same pod specs. */
  method Run(resources: seq<Resource>, key: SortKey, ghost depth: nat, ghost embed: nat, ghost objs: set<Resource>)
    requires AllIn(resources, objs) && Closed(Snapshot(objs)) && Bounded(Snapshot(objs), resources, depth, embed)
    modifies objs
    ensures var h0, h := old(Snapshot(objs)), Snapshot(objs);
            var specs := AllPodSpecs(h0, resources, depth, embed);
            && AllSpecsDone(h0, h, specs, key)
            && Progress(h0, h, specs, key)
            && AllPodSpecs(h, resources, depth, embed) == specs
  {
    ghost var h0 := Snapshot(objs);
    ghost var specs := AllPodSpecs(h0, resources, depth, embed);
    RunOn(resources, key, depth, embed, h0, specs, objs);
    ProgressSameWalk(h0, Snapshot(objs), specs, key);
    AllPodSpecsSame(h0, Snapshot(objs), resources, depth, embed);
  }

  // ---- A second run --------------------------------------------------------------------------

  /** What a run has done to a pod spec, over the fields alone: of its container list the maps are left, in
      order, and the env list of each of them holds exactly the entries to be kept. */
  lemma RunMeaning(h0: Heap, h: Heap, specs: seq<Resource>, p: Resource, items: seq<Value>, key: SortKey)
    requires AllSpecsDone(h0, h, specs, key) && p in specs && Field(h0, p, Containers) == Some(List(items))
    ensures Field(h, p, Containers) == Some(List(Filter(items, IsMap)))
    ensures forall c, env :: Map(c) in items && Field(h0, c, Env) == Some(List(env)) ==>
      Field(h, c, Env).Some? && Field(h, c, Env).value.List? && HoldsKept(h0, env, Field(h, c, Env).value.items, key)
  {
    hide Reconciled, HoldsKept, Filter;
    assert SpecDone(h0, h, p, key);
    assert ContainersOf(h0, p) == MapsIn(items);
    MapsInOrder(items);
    assert AsValues(MapsIn(items)) == Filter(items, IsMap);
    forall c, env | Map(c) in items && Field(h0, c, Env) == Some(List(env))
      ensures Field(h, c, Env).Some? && Field(h, c, Env).value.List?
      ensures HoldsKept(h0, env, Field(h, c, Env).value.items, key)
    {
      var i :| 0 <= i < |items| && items[i] == Map(c);
      MapsInContains(items, i);
      assert EnvDone(h0, h, c, key);
      ReconciledMeaning(h0, env, MapsIn(ListAt(h, c, Env).value), key);
    }
  }

  /** In no container's env list do entries that survive for different names print alike. */
  ghost predicate NoTies(h: Heap, specs: seq<Resource>, key: SortKey) {
    forall c :: c in h && IsContainer(h, specs, c) && ListAt(h, c, Env).Some? ==>
      SurvivorsDiffer(h, ListAt(h, c, Env).value, key)
  }

  /** A container list that is done is left as it is. */
  lemma ContainersAgain(h0: Heap, h: Heap, t: Heap, p: Resource)
    requires ContainersDone(h0, h, p) && ContainersDone(h, t, p)
    ensures Field(t, p, Containers) == Field(h, p, Containers)
  {
    MapsInValues(ContainersOf(h0, p));
  }

  /** And so is an env list without ties. */
  lemma EnvAgain(h0: Heap, h: Heap, t: Heap, c: Resource, key: SortKey)
    requires h.Keys == h0.Keys && forall r :: r in h0 ==> Kept(h0, h, r)
    requires EnvDone(h0, h, c, key) && EnvDone(h, t, c, key)
    requires ListAt(h0, c, Env).Some? ==> SurvivorsDiffer(h0, ListAt(h0, c, Env).value, key)
    ensures Field(t, c, Env) == Field(h, c, Env)
  {
    if ListAt(h0, c, Env).Some? {
      var env, items, again := ListAt(h0, c, Env).value, ListAt(h, c, Env).value, ListAt(t, c, Env).value;
      ReconciledSame(h0, h, items, MapsIn(again), key);
      IdempotentIff(h0, env, key);
      assert Reconciled(h0, env, MapsIn(items), key) && Reconciled(h0, AsValues(MapsIn(items)), MapsIn(again), key);
    }
  }

  lemma ContainerStays(h0: Heap, h: Heap, specs: seq<Resource>, c: Resource, key: SortKey)
    requires Closed(h0) && AllSpecsDone(h0, h, specs, key) && IsContainer(h, specs, c)
    ensures IsContainer(h0, specs, c) && c in h0 && EnvDone(h0, h, c, key)
  {
    var p :| p in specs && c in ContainersOf(h, p);
    assert SpecDone(h0, h, p, key);
    ContainersStay(h0, h, p);
    ContainersWithin(h0, p);
  }

  /** What a second run does to the result of a first: if no env list has ties, it changes no field of any
      object, whatever the orders the two runs iterate in. */
  lemma SecondRunChangesNothing(h0: Heap, h: Heap, t: Heap, specs: seq<Resource>, key: SortKey)
    requires Closed(h0) && NoTies(h0, specs, key)
    requires Progress(h0, h, specs, key) && AllSpecsDone(h0, h, specs, key)
    requires Progress(h, t, specs, key)
    ensures t == h
  {
    forall r, k: Key | r in h ensures Field(t, r, k) == Field(h, r, k) {
      if k.Env? {
        if Field(t, r, Env) != Field(h, r, Env) {
          ContainerStays(h0, h, specs, r, key);
          EnvAgain(h0, h, t, r, key);
        }
      } else if k.Containers? {
        if Field(t, r, Containers) != Field(h, r, Containers) {
          ContainersAgain(h0, h, t, r);
        }
      } else {
        assert Kept(h, t, r);
      }
    }
    SameFields(h, t);
  }

  lemma SameFields(h: Heap, t: Heap)
    requires t.Keys == h.Keys && forall r, k: Key :: r in h ==> Field(t, r, k) == Field(h, r, k)
    ensures t == h
  {
    forall r | r in h ensures t[r] == h[r] {
      forall k: Key ensures k in t[r] <==> k in h[r] { assert Field(t, r, k) == Field(h, r, k); }
      forall k: Key | k in h[r] ensures t[r][k] == h[r][k] { assert Field(t, r, k) == Field(h, r, k); }
    }
  }

  /** A first run's result is one of the results of a second run. */
  lemma DoneAgain(h0: Heap, h: Heap, specs: seq<Resource>, key: SortKey)
    requires Closed(h0) && Progress(h0, h, specs, key) && AllSpecsDone(h0, h, specs, key)
    ensures Progress(h, h, specs, key) && AllSpecsDone(h, h, specs, key)
  {
    forall p | p in specs ensures p in h && SpecDone(h, h, p, key) {
      assert SpecDone(h0, h, p, key) && p in h0;
      MapsInValues(ContainersOf(h0, p));
      forall c | c in ContainersOf(h, p) ensures EnvDone(h, h, c, key) {
        assert IsContainer(h, specs, c);
        ContainerStays(h0, h, specs, c, key);
        EnvDoneAgain(h0, h, c, key);
      }
    }
  }

  lemma EnvDoneAgain(h0: Heap, h: Heap, c: Resource, key: SortKey)
    requires h.Keys == h0.Keys && forall r :: r in h0 ==> Kept(h0, h, r)
    requires EnvDone(h0, h, c, key)
    ensures EnvDone(h, h, c, key)
  {
    if ListAt(h0, c, Env).Some? {
      var env, items := ListAt(h0, c, Env).value, ListAt(h, c, Env).value;
      SecondPass(h0, env, MapsIn(items), MapsIn(items), key);
      ReconciledSame(h0, h, items, MapsIn(items), key);
    }
  }

  /** Where there is a tie, the entries admit another order than the one a run has left them in. */
  lemma OtherOrder(h0: Heap, h: Heap, c: Resource, key: SortKey) returns (other: seq<Resource>)
    requires Closed(h) && h.Keys == h0.Keys && forall r :: r in h0 ==> Kept(h0, h, r)
    requires c in h && EnvDone(h0, h, c, key)
    requires ListAt(h0, c, Env).Some? && !SurvivorsDiffer(h0, ListAt(h0, c, Env).value, key)
    ensures ListAt(h, c, Env).Some? && Reconciled(h, ListAt(h, c, Env).value, other, key) && AllIn(other, h.Keys)
    ensures AsValues(other) != ListAt(h, c, Env).value
  {
    var env, items := ListAt(h0, c, Env).value, ListAt(h, c, Env).value;
    var out := MapsIn(items);
    SurvivorsDifferInResult(h0, env, out, key);
    OnlyResultIff(h0, env, out, key);
    other :| Reconciled(h0, env, other, key) && other != out;
    SecondPass(h0, env, out, other, key);
    ReconciledSame(h0, h, items, other, key);
    SameSurvivors(h0, env, other, out, key);
    assert Within(h[c][Env], h.Keys);
    MapsInWithin(items, h.Keys);
    forall i | 0 <= i < |other| ensures other[i] in h { assert other[i] in out; }
    MapsInValues(other);
  }

  /** Exactly when a second run is sure to change no field of any object. */
  lemma SecondRunIff(h0: Heap, h: Heap, specs: seq<Resource>, key: SortKey)
    requires Closed(h0) && Progress(h0, h, specs, key) && AllSpecsDone(h0, h, specs, key)
    ensures (forall t :: Progress(h, t, specs, key) && AllSpecsDone(h, t, specs, key) ==> t == h) <==>
            NoTies(h0, specs, key)
  {
    if NoTies(h0, specs, key) {
      forall t | Progress(h, t, specs, key) && AllSpecsDone(h, t, specs, key) ensures t == h {
        SecondRunChangesNothing(h0, h, t, specs, key);
      }
    } else {
      var c :| c in h0 && IsContainer(h0, specs, c) && ListAt(h0, c, Env).Some? &&
        !SurvivorsDiffer(h0, ListAt(h0, c, Env).value, key);
      TieMayTurn(h0, h, specs, c, key);
    }
  }

  lemma TieMayTurn(h0: Heap, h: Heap, specs: seq<Resource>, c: Resource, key: SortKey)
    requires Closed(h0) && Progress(h0, h, specs, key) && AllSpecsDone(h0, h, specs, key)
    requires c in h0 && IsContainer(h0, specs, c)
    requires ListAt(h0, c, Env).Some? && !SurvivorsDiffer(h0, ListAt(h0, c, Env).value, key)
    ensures exists t :: Progress(h, t, specs, key) && AllSpecsDone(h, t, specs, key) && t != h
  {
    hide *;
    ContainerWasDone(h0, h, specs, c, key);
    ProgressClosed(h0, h, specs, key);
    ProgressKeeps(h0, h, specs, key);
    var other := OtherOrder(h0, h, c, key);
    DoneAgain(h0, h, specs, key);
    var t := Put(h, c, Env, List(AsValues(other)));
    PutDiffers(h, c, AsValues(other));
    ContainerStep(h, h, specs, c, other, key);
    NoSpecs(h, t, key);
    SpecsStayDone(h, h, t, specs, [], key);
    assert specs + [] == specs;
  }

  lemma ProgressKeeps(h0: Heap, h: Heap, specs: seq<Resource>, key: SortKey)
    requires Progress(h0, h, specs, key)
    ensures forall r :: r in h0 ==> Kept(h0, h, r)
  {
  }

  lemma PutDiffers(h: Heap, c: Resource, items: seq<Value>)
    requires c in h && ListAt(h, c, Env).Some? && ListAt(h, c, Env).value != items
    ensures Put(h, c, Env, List(items)) != h
  {
    assert Field(Put(h, c, Env, List(items)), c, Env) == Some(List(items)) != Field(h, c, Env);
  }

  lemma NoSpecs(h0: Heap, h: Heap, key: SortKey)
    ensures AllSpecsDone(h0, h, [], key)
  {
  }

  lemma ContainersStay(h0: Heap, h: Heap, p: Resource)
    requires ContainersDone(h0, h, p)
    ensures ContainersOf(h, p) == ContainersOf(h0, p)
  {
    MapsInValues(ContainersOf(h0, p));
  }

  lemma ContainerWasDone(h0: Heap, h: Heap, specs: seq<Resource>, c: Resource, key: SortKey)
    requires AllSpecsDone(h0, h, specs, key) && IsContainer(h0, specs, c)
    ensures IsContainer(h, specs, c) && EnvDone(h0, h, c, key)
  {
    hide ContainersDone, EnvDone, ContainersOf;
    var p :| p in specs && c in ContainersOf(h0, p);
    assert SpecDone(h0, h, p, key);
    ContainersStay(h0, h, p);
  }

  /** The renderer run on its own result. */
  method RunTwice(resources: seq<Resource>, key: SortKey, ghost depth: nat, ghost embed: nat,
                  ghost objs: set<Resource>)
    returns (ghost first: Heap)
    requires AllIn(resources, objs) && Closed(Snapshot(objs)) && Bounded(Snapshot(objs), resources, depth, embed)
    modifies objs
    ensures var h0 := old(Snapshot(objs));
            var specs := AllPodSpecs(h0, resources, depth, embed);
            && Progress(h0, first, specs, key) && AllSpecsDone(h0, first, specs, key)
            && (NoTies(h0, specs, key) ==> Snapshot(objs) == first)
  {
    hide NoTies, AllSpecsDone, SpecDone, AllPodSpecs;
    ghost var h0 := Snapshot(objs);
    ghost var specs := AllPodSpecs(h0, resources, depth, embed);
    Run(resources, key, depth, embed, objs);
    first := Snapshot(objs);
    ProgressSameWalk(h0, first, specs, key);
    BoundedSame(h0, first, resources, depth, embed);
    Run(resources, key, depth, embed, objs);
    if NoTies(h0, specs, key) {
      SecondRunChangesNothing(h0, first, Snapshot(objs), specs, key);
    }
  }
}
