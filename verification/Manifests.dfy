/** Decoded Kubernetes manifests as internal/helm/postrenderer.go sees them: maps that refer to one
    another and are rewritten in place, and the recursive walk that collects the pod specs.

    The walk returns references into the manifests, so a later write through a collected pod spec
    changes the manifest it was found in.  Specifications are written over a snapshot of the objects'
    fields, and hold whatever the sharing between objects. */
module Manifests {
  import opened Filters
  import opened Options

  /** The field names the renderers look at; any other name is an OtherKey. */
  datatype Key =
    | Kind | Items | Spec | Template | JobTemplate
    | Metadata | Labels | ManifestLabel | Data | ManifestText
    | Containers | Image | ImagePullSecrets
    | Env | Name | ValueFrom
    | OtherKey(name: string)

  datatype Value =
    | Str(text: string)
    | List(items: seq<Value>)
    | Map(res: Resource)
    | SecretNames(names: seq<string>)    // the pull-secret list the renderer itself builds
    | Manifest(docs: seq<Resource>)      // manifest text, as the documents it decodes to
    | Scalar

  type Fields = map<Key, Value>

  class Resource {
    var fields: Fields

    constructor (fields: Fields)
      ensures this.fields == fields
    {
      this.fields := fields;
    }
  }

  type Heap = map<Resource, Fields>

  ghost function Snapshot(objs: set<Resource>): (h: Heap)
    reads objs
    ensures h.Keys == objs
  {
    map o | o in objs :: o.fields
  }

  ghost function Field(h: Heap, r: Resource, key: Key): Option<Value> {
    if r in h && key in h[r] then Some(h[r][key]) else None
  }

  ghost function Put(h: Heap, r: Resource, key: Key, v: Value): Heap {
    if r in h then h[r := h[r][key := v]] else h
  }

  ghost function ListAt(h: Heap, r: Resource, key: Key): Option<seq<Value>> {
    match Field(h, r, key)
    case Some(List(items)) => Some(items)
    case _ => None
  }

  /** The container objects of a pod spec. */
  ghost function ContainersOf(h: Heap, p: Resource): seq<Resource> {
    match ListAt(h, p, Containers)
    case Some(items) => MapsIn(items)
    case None => []
  }

  // ---- References stay among the known objects -----------------------------------------------

  ghost predicate Within(v: Value, objs: set<Resource>) {
    match v
    case List(items) => forall i :: 0 <= i < |items| ==> Within(items[i], objs)
    case Map(r) => r in objs
    case Manifest(docs) => forall i :: 0 <= i < |docs| ==> docs[i] in objs
    case _ => true
  }

  ghost predicate Closed(h: Heap) {
    forall r, key :: r in h && key in h[r] ==> Within(h[r][key], h.Keys)
  }

  ghost predicate AllIn(rs: seq<Resource>, objs: set<Resource>) {
    forall i :: 0 <= i < |rs| ==> rs[i] in objs
  }

  lemma KnownResource(rs: seq<Resource>, i: nat, objs: set<Resource>)
    requires AllIn(rs, objs) && i < |rs|
    ensures rs[i] in objs
  {
  }

  lemma PutClosed(h: Heap, r: Resource, key: Key, v: Value)
    requires Closed(h) && r in h && Within(v, h.Keys)
    ensures Closed(Put(h, r, key, v)) && Put(h, r, key, v).Keys == h.Keys
  {
    var t := Put(h, r, key, v);
    assert t.Keys == h.Keys;
    forall q, k | q in t && k in t[q] ensures Within(t[q][k], t.Keys) {
      if q != r || k != key { assert k in h[q] && t[q][k] == h[q][k]; }
    }
  }

  /** Writing one field of one object. */
  method SetField(r: Resource, key: Key, v: Value, ghost objs: set<Resource>)
    requires r in objs
    modifies r
    ensures Snapshot(objs) == Put(old(Snapshot(objs)), r, key, v)
  {
    r.fields := r.fields[key := v];
    assert Snapshot(objs) == Put(old(Snapshot(objs)), r, key, v);
  }

  // ---- Nested lookups ------------------------------------------------------------------------

  ghost function Nested(h: Heap, r: Resource, keys: seq<Key>): Option<Resource> {
    if keys == [] then Some(r)
    else match Field(h, r, keys[0])
      case Some(Map(next)) => Nested(h, next, keys[1..])
      case _ => None
  }

  method GetNestedResource(res: Resource, keys: seq<Key>, ghost objs: set<Resource>) returns (r: Option<Resource>)
    requires res in objs && Closed(Snapshot(objs))
    ensures r == Nested(Snapshot(objs), res, keys)
    ensures r.Some? ==> r.value in objs
  {
    ghost var h := Snapshot(objs);
    var curr := res;
    for i := 0 to |keys|
      invariant curr in objs
      invariant Nested(h, curr, keys[i..]) == Nested(h, res, keys)
    {
      assert keys[i..][0] == keys[i] && keys[i..][1..] == keys[i + 1..];
      if keys[i] !in curr.fields || !curr.fields[keys[i]].Map? {
        return None;
      }
      assert Within(h[curr][keys[i]], objs);
      curr := curr.fields[keys[i]].res;
    }
    return Some(curr);
  }

  /** Where a resource of this kind keeps its pod spec. */
  function PodSpecPath(kind: string): Option<seq<Key>> {
    if kind == "Pod" then Some([Spec])
    else if kind in ["DaemonSet", "Deployment", "Job", "ReplicaSet", "ReplicationController", "StatefulSet"]
    then Some([Spec, Template, Spec])
    else if kind == "PodTemplate" then Some([Template, Spec])
    else if kind == "CronJob" then Some([Spec, JobTemplate, Spec, Template, Spec])
    else None
  }

  ghost function PodSpecOf(h: Heap, kind: string, r: Resource): Option<Resource> {
    if PodSpecPath(kind).None? then None else Nested(h, r, PodSpecPath(kind).value)
  }

  // ---- The walk ------------------------------------------------------------------------------

  function MapsIn(items: seq<Value>): seq<Resource> {
    if items == [] then []
    else (if items[0].Map? then [items[0].res] else []) + MapsIn(items[1..])
  }

  /** Lists nest at most `depth` deep; every manifest that is not cyclic has such a depth. */
  ghost predicate NestedWithin(h: Heap, rs: seq<Resource>, depth: nat)
    decreases depth
  {
    forall i :: 0 <= i < |rs| && Field(h, rs[i], Items).Some? && Field(h, rs[i], Items).value.List? ==>
      depth > 0 && NestedWithin(h, MapsIn(Field(h, rs[i], Items).value.items), depth - 1)
  }

  /** The pod specs found in one resource, or in the items of a list of resources. */
  ghost function PodSpecsIn(h: Heap, r: Resource, depth: nat): seq<Resource>
    decreases depth, 0
  {
    match Field(h, r, Kind)
    case Some(Str(kind)) =>
      (match Field(h, r, Items)
       case Some(List(items)) => if depth == 0 then [] else PodSpecs(h, MapsIn(items), depth - 1)
       case Some(_) => []
       case None => if PodSpecOf(h, kind, r).Some? then [PodSpecOf(h, kind, r).value] else [])
    case _ => []
  }

  ghost function PodSpecs(h: Heap, rs: seq<Resource>, depth: nat): seq<Resource>
    decreases depth, 1 + |rs|
  {
    if rs == [] then [] else PodSpecs(h, rs[..|rs| - 1], depth) + PodSpecsIn(h, rs[|rs| - 1], depth)
  }

  lemma {:induction false} MapsInWithin(items: seq<Value>, objs: set<Resource>)
    requires forall i :: 0 <= i < |items| ==> Within(items[i], objs)
    ensures AllIn(MapsIn(items), objs)
  {
    if items != [] {
      assert Within(items[0], objs);
      MapsInWithin(items[1..], objs);
    }
  }

  lemma {:induction false} MapsInConcat(a: seq<Value>, b: seq<Value>)
    ensures MapsIn(a + b) == MapsIn(a) + MapsIn(b)
  {
    if a == [] {
      assert a + b == b;
    } else {
      assert (a + b)[1..] == a[1..] + b && (a + b)[0] == a[0];
      MapsInConcat(a[1..], b);
    }
  }

  lemma {:induction false} MapsInContains(items: seq<Value>, i: nat)
    requires i < |items| && items[i].Map?
    ensures items[i].res in MapsIn(items)
  {
    if i > 0 {
      assert items[1..][i - 1] == items[i];
      MapsInContains(items[1..], i - 1);
    }
  }

  lemma MapsInOneMore(items: seq<Value>, i: nat)
    requires i < |items|
    ensures MapsIn(items[..i + 1]) == if items[i].Map? then MapsIn(items[..i]) + [items[i].res] else MapsIn(items[..i])
  {
    var x := items[i];
    assert items[..i + 1] == items[..i] + [x];
    MapsInConcat(items[..i], [x]);
    assert [x][1..] == [];
    assert MapsIn([x]) == if x.Map? then [x.res] else [];
  }

  lemma ContainersWithin(h: Heap, p: Resource)
    requires Closed(h) && p in h
    ensures AllIn(ContainersOf(h, p), h.Keys)
    ensures forall c :: c in ContainersOf(h, p) ==> c in h
  {
    if ListAt(h, p, Containers).Some? {
      assert Within(h[p][Containers], h.Keys);
      MapsInWithin(ListAt(h, p, Containers).value, h.Keys);
    }
  }

  /** The items that are maps. */
  method ItemMaps(items: seq<Value>) returns (resArr: seq<Resource>)
    ensures resArr == MapsIn(items)
  {
    resArr := [];
    for j := 0 to |items|
      invariant resArr == MapsIn(items[..j])
    {
      MapsInOneMore(items, j);
      if items[j].Map? {
        resArr := resArr + [items[j].res];
      }
    }
    assert items[..|items|] == items;
  }

  lemma ItemsBounded(h: Heap, rs: seq<Resource>, i: nat, items: seq<Value>, depth: nat)
    requires Closed(h) && i < |rs| && Field(h, rs[i], Items) == Some(List(items)) && NestedWithin(h, rs, depth)
    ensures forall j :: 0 <= j < |items| ==> Within(items[j], h.Keys)
    ensures depth > 0 && NestedWithin(h, MapsIn(items), depth - 1)
  {
    assert Within(h[rs[i]][Items], h.Keys);
  }

  /** Collects the pod specs of the resources into `found`. */
  method GetPodSpecs(resources: seq<Resource>, ghost depth: nat, ghost objs: set<Resource>)
    returns (found: seq<Resource>)
    requires AllIn(resources, objs) && Closed(Snapshot(objs))
    requires NestedWithin(Snapshot(objs), resources, depth)
    ensures found == PodSpecs(Snapshot(objs), resources, depth)
    ensures AllIn(found, objs)
    decreases depth
  {
    hide PodSpecPath, Nested, Within, NestedWithin, MapsIn, Closed;
    ghost var h := Snapshot(objs);
    found := [];
    for i := 0 to |resources|
      invariant found == PodSpecs(h, resources[..i], depth)
      invariant AllIn(found, objs)
    {
      var res := resources[i];
      assert resources[..i + 1][..i] == resources[..i];
      if Kind !in res.fields || !res.fields[Kind].Str? {
        continue;
      }
      var kind := res.fields[Kind].text;
      if Items in res.fields {
        if res.fields[Items].List? {
          var items := res.fields[Items].items;
          assert Field(h, res, Items) == Some(List(items));
          ItemsBounded(h, resources, i, items, depth);
          var resArr := ItemMaps(items);
          MapsInWithin(items, objs);
          var inner := GetPodSpecs(resArr, depth - 1, objs);
          found := found + inner;
        }
        continue;
      }
      if PodSpecPath(kind).None? {
        continue;
      }
      var podSpec := GetNestedResource(res, PodSpecPath(kind).value, objs);
      if podSpec.None? {
        continue;
      }
      found := found + [podSpec.value];
    }
    assert resources[..|resources|] == resources;
  }

  // ---- What the walk finds, over the fields alone --------------------------------------------

  /** The map one field further, if there is one. */
  ghost function Via(h: Heap, r: Option<Resource>, key: Key): Option<Resource> {
    if r.Some? && Field(h, r.value, key).Some? && Field(h, r.value, key).value.Map?
    then Some(Field(h, r.value, key).value.res) else None
  }

  lemma {:induction false} NestedVia(h: Heap, r: Resource, keys: seq<Key>)
    requires keys != []
    ensures Nested(h, r, keys) == Via(h, Nested(h, r, keys[..|keys| - 1]), keys[|keys| - 1])
  {
    if |keys| == 1 {
      assert keys[1..] == [] && keys[..0] == [];
    } else {
      var before := keys[..|keys| - 1];
      assert before[1..] == keys[1..][..|keys[1..]| - 1];
      match Field(h, r, keys[0])
      case Some(Map(next)) => NestedVia(h, next, keys[1..]);
      case _ =>
    }
  }

  lemma NestedPaths(h: Heap, r: Resource, a: Key, b: Key, c: Key, d: Key, e: Key)
    ensures Nested(h, r, [a]) == Via(h, Some(r), a)
    ensures Nested(h, r, [a, b]) == Via(h, Via(h, Some(r), a), b)
    ensures Nested(h, r, [a, b, c]) == Via(h, Via(h, Via(h, Some(r), a), b), c)
    ensures Nested(h, r, [a, b, c, d, e]) ==
            Via(h, Via(h, Via(h, Via(h, Via(h, Some(r), a), b), c), d), e)
  {
    hide Via, Nested;
    assert Nested(h, r, []) == Some(r) by { NoPath(h, r); }
    assert [a][..0] == [] && [a, b][..1] == [a] && [a, b, c][..2] == [a, b];
    assert [a, b, c, d][..3] == [a, b, c] && [a, b, c, d, e][..4] == [a, b, c, d];
    NestedVia(h, r, [a]);
    NestedVia(h, r, [a, b]);
    NestedVia(h, r, [a, b, c]);
    NestedVia(h, r, [a, b, c, d]);
    NestedVia(h, r, [a, b, c, d, e]);
  }

  lemma NoPath(h: Heap, r: Resource)
    ensures Nested(h, r, []) == Some(r)
  {
  }

  function OneOrNone(p: Option<Resource>): seq<Resource> { if p.Some? then [p.value] else [] }

  /** The pod spec of a resource that is no list: by its kind, the one its named fields lead to through
      maps; and none if the path is broken, the kind is another one or it has no kind. */
  lemma PodSpecMeaning(h: Heap, r: Resource, depth: nat)
    requires Field(h, r, Items).None?
    ensures PodSpecsIn(h, r, depth) == OneOrNone(
              match Field(h, r, Kind)
              case Some(Str("Pod")) => Via(h, Some(r), Spec)
              case Some(Str("DaemonSet")) => Via(h, Via(h, Via(h, Some(r), Spec), Template), Spec)
              case Some(Str("Deployment")) => Via(h, Via(h, Via(h, Some(r), Spec), Template), Spec)
              case Some(Str("Job")) => Via(h, Via(h, Via(h, Some(r), Spec), Template), Spec)
              case Some(Str("ReplicaSet")) => Via(h, Via(h, Via(h, Some(r), Spec), Template), Spec)
              case Some(Str("ReplicationController")) => Via(h, Via(h, Via(h, Some(r), Spec), Template), Spec)
              case Some(Str("StatefulSet")) => Via(h, Via(h, Via(h, Some(r), Spec), Template), Spec)
              case Some(Str("PodTemplate")) => Via(h, Via(h, Some(r), Template), Spec)
              case Some(Str("CronJob")) =>
                Via(h, Via(h, Via(h, Via(h, Via(h, Some(r), Spec), JobTemplate), Spec), Template), Spec)
              case _ => None)
  {
    NestedPaths(h, r, Spec, Template, Spec, Template, Spec);
    NestedPaths(h, r, Template, Spec, Spec, Spec, Spec);
    NestedPaths(h, r, Spec, JobTemplate, Spec, Template, Spec);
    hide Via, Nested;
  }

  predicate IsMap(v: Value) { v.Map? }

  /** The container objects of a pod spec are the maps in its container list, in order. */
  lemma ContainersMeaning(h: Heap, p: Resource)
    ensures var cs := ContainersOf(h, p);
            match Field(h, p, Containers)
            case Some(List(items)) =>
              |cs| == |Filter(items, IsMap)| && forall i :: 0 <= i < |cs| ==> Filter(items, IsMap)[i] == Map(cs[i])
            case _ => cs == []
  {
    if ListAt(h, p, Containers).Some? {
      MapsInOrder(ListAt(h, p, Containers).value);
    }
  }

  lemma {:induction false} MapsInOrder(items: seq<Value>)
    ensures |MapsIn(items)| == |Filter(items, IsMap)|
    ensures forall i :: 0 <= i < |MapsIn(items)| ==> Filter(items, IsMap)[i] == Map(MapsIn(items)[i])
  {
    if items != [] {
      var n := |items| - 1;
      MapsInOrder(items[..n]);
      MapsInOneMore(items, n);
      assert items[..n + 1] == items;
    }
  }

  /** What the maps among some items contribute, one after another. */
  ghost function ItemsContribute(h: Heap, items: seq<Value>, depth: nat): seq<Resource> {
    if items == [] then []
    else (if items[0].Map? then PodSpecsIn(h, items[0].res, depth) else []) + ItemsContribute(h, items[1..], depth)
  }

  /** A list of resources, of whatever kind, has exactly what the maps among its items contribute, in
      order; anything else under items, or a resource without a kind, has nothing. */
  lemma ListMeaning(h: Heap, r: Resource, depth: nat)
    requires Field(h, r, Items).Some?
    ensures PodSpecsIn(h, r, depth + 1) ==
            if Field(h, r, Kind).Some? && Field(h, r, Kind).value.Str? && Field(h, r, Items).value.List?
            then ItemsContribute(h, Field(h, r, Items).value.items, depth) else []
  {
    if Field(h, r, Items).value.List? {
      ItemsInOrder(h, Field(h, r, Items).value.items, depth);
    }
  }

  lemma {:induction false} ItemsInOrder(h: Heap, items: seq<Value>, depth: nat)
    ensures PodSpecs(h, MapsIn(items), depth) == ItemsContribute(h, items, depth)
  {
    if items != [] {
      ItemsInOrder(h, items[1..], depth);
      var first := if items[0].Map? then [items[0].res] else [];
      assert MapsIn(items) == first + MapsIn(items[1..]);
      assert [] + MapsIn(items[1..]) == MapsIn(items[1..]);
      if items[0].Map? {
        PodSpecsConcat(h, [items[0].res], MapsIn(items[1..]), depth);
        assert [items[0].res][..0] == [];
      }
    }
  }

  lemma {:induction false} PodSpecsConcat(h: Heap, a: seq<Resource>, b: seq<Resource>, depth: nat)
    ensures PodSpecs(h, a + b, depth) == PodSpecs(h, a, depth) + PodSpecs(h, b, depth)
    decreases |b|
  {
    if b == [] {
      assert a + b == a;
    } else {
      var before, whole := b[..|b| - 1], a + b;
      PodSpecsConcat(h, a, before, depth);
      assert whole[..|whole| - 1] == a + before && whole[|whole| - 1] == b[|b| - 1];
    }
  }

  /** The resources of a manifest contribute one after another. */
  lemma {:induction false} PodSpecsMeaning(h: Heap, rs: seq<Resource>, depth: nat)
    ensures PodSpecs(h, rs, depth) == if rs == [] then [] else PodSpecsIn(h, rs[0], depth) + PodSpecs(h, rs[1..], depth)
  {
    if rs != [] {
      assert rs == [rs[0]] + rs[1..] && [rs[0]][..0] == [];
      PodSpecsConcat(h, [rs[0]], rs[1..], depth);
    }
  }

  /** How deep lists may nest does not matter, once it is deep enough. */
  lemma {:induction false} DepthIrrelevant(h: Heap, rs: seq<Resource>, depth: nat)
    requires NestedWithin(h, rs, depth)
    ensures NestedWithin(h, rs, depth + 1) && PodSpecs(h, rs, depth + 1) == PodSpecs(h, rs, depth)
    decreases depth, |rs|
  {
    if rs != [] {
      var n := |rs| - 1;
      assert forall i :: 0 <= i < n ==> rs[..n][i] == rs[i];
      DepthIrrelevant(h, rs[..n], depth);
      match Field(h, rs[n], Items)
      case Some(List(items)) =>
        DepthIrrelevant(h, MapsIn(items), depth - 1);
      case _ =>
    }
  }

  // ---- Rewriting pod specs does not disturb the walk -----------------------------------------

  /** The fields through which manifests are walked; the renderers write none of them. */
  predicate Walked(key: Key) {
    key.Kind? || key.Items? || key.Spec? || key.Template? || key.JobTemplate? ||
    key.Metadata? || key.Labels? || key.ManifestLabel? || key.Data? || key.ManifestText?
  }

  ghost predicate SameWalk(h: Heap, t: Heap) {
    h.Keys == t.Keys && forall r, key :: r in h && Walked(key) ==> Field(h, r, key) == Field(t, r, key)
  }

  lemma {:induction false} NestedSame(h: Heap, t: Heap, r: Resource, keys: seq<Key>)
    requires SameWalk(h, t) && forall i :: 0 <= i < |keys| ==> Walked(keys[i])
    ensures Nested(h, r, keys) == Nested(t, r, keys)
    decreases |keys|
  {
    if keys != [] {
      assert Walked(keys[0]);
      assert Field(h, r, keys[0]) == Field(t, r, keys[0]);
      match Field(h, r, keys[0])
      case Some(Map(next)) => NestedSame(h, t, next, keys[1..]);
      case _ =>
    }
  }

  lemma {:induction false} PodSpecsInSame(h: Heap, t: Heap, r: Resource, depth: nat)
    requires SameWalk(h, t)
    ensures PodSpecsIn(h, r, depth) == PodSpecsIn(t, r, depth)
    decreases depth, 0
  {
    assert Field(h, r, Kind) == Field(t, r, Kind) && Field(h, r, Items) == Field(t, r, Items);
    match Field(h, r, Kind)
    case Some(Str(kind)) =>
      if PodSpecPath(kind).Some? {
        NestedSame(h, t, r, PodSpecPath(kind).value);
      }
      if Field(h, r, Items).Some? && Field(h, r, Items).value.List? && depth > 0 {
        PodSpecsSame(h, t, MapsIn(Field(h, r, Items).value.items), depth - 1);
      }
    case _ =>
  }

  /** Objects that agree on the walked fields are walked alike: the same pod specs are found. */
  lemma {:induction false} PodSpecsSame(h: Heap, t: Heap, rs: seq<Resource>, depth: nat)
    requires SameWalk(h, t)
    ensures PodSpecs(h, rs, depth) == PodSpecs(t, rs, depth)
    decreases depth, 1 + |rs|
  {
    if rs != [] {
      PodSpecsSame(h, t, rs[..|rs| - 1], depth);
      PodSpecsInSame(h, t, rs[|rs| - 1], depth);
    }
  }

  lemma {:induction false} NestedWithinSame(h: Heap, t: Heap, rs: seq<Resource>, depth: nat)
    requires SameWalk(h, t) && NestedWithin(h, rs, depth)
    ensures NestedWithin(t, rs, depth)
    decreases depth
  {
    forall i | 0 <= i < |rs| && Field(t, rs[i], Items).Some? && Field(t, rs[i], Items).value.List?
      ensures depth > 0 && NestedWithin(t, MapsIn(Field(t, rs[i], Items).value.items), depth - 1)
    {
      assert Field(h, rs[i], Items) == Field(t, rs[i], Items);
      NestedWithinSame(h, t, MapsIn(Field(h, rs[i], Items).value.items), depth - 1);
    }
  }
}
