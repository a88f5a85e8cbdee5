/** Manifests embedded in labelled ConfigMaps, which both post-renderers render by running another
    renderer of the same kind on them. */
module EmbeddedManifests {
  import opened Manifests
  import opened Options

  /** The documents of the manifest a labelled ConfigMap carries. */
  ghost function Embedded(h: Heap, r: Resource): Option<seq<Resource>> {
    if Field(h, r, Kind) != Some(Str("ConfigMap")) then None
    else
      match Nested(h, r, [Metadata, Labels])
      case None => None
      case Some(labels) =>
        if Field(h, labels, ManifestLabel) != Some(Str("true")) then None
        else
          match Nested(h, r, [Data])
          case None => None
          case Some(data) =>
            match Field(h, data, ManifestText)
            case Some(Manifest(docs)) => Some(docs)
            case _ => None
  }

  /** Over the fields alone: a resource of kind ConfigMap whose metadata's labels have the manifest label
      "true" and whose data has a manifest text carries it, and no other resource does. */
  lemma EmbeddedMeaning(h: Heap, r: Resource)
    ensures var labels, data := Via(h, Via(h, Some(r), Metadata), Labels), Via(h, Some(r), Data);
            var carries :=
              && Field(h, r, Kind) == Some(Str("ConfigMap"))
              && labels.Some? && Field(h, labels.value, ManifestLabel) == Some(Str("true"))
              && data.Some? && Field(h, data.value, ManifestText).Some?
              && Field(h, data.value, ManifestText).value.Manifest?;
            Embedded(h, r) == if carries then Some(Field(h, data.value, ManifestText).value.docs) else None
  {
    NestedPaths(h, r, Metadata, Labels, Data, Data, Data);
    NestedPaths(h, r, Data, Data, Data, Data, Data);
  }

  /** Lists nest, and manifests are embedded in one another, only finitely deep. */
  ghost predicate Bounded(h: Heap, rs: seq<Resource>, depth: nat, embed: nat)
    decreases embed
  {
    && NestedWithin(h, rs, depth)
    && forall i :: 0 <= i < |rs| && Embedded(h, rs[i]).Some? ==>
         embed > 0 && Bounded(h, Embedded(h, rs[i]).value, depth, embed - 1)
  }

  /** The pod specs of the documents embedded in these resources, and in those embedded in them. */
  ghost function EmbeddedPodSpecs(h: Heap, rs: seq<Resource>, depth: nat, embed: nat): seq<Resource>
    decreases embed, 0, |rs|
  {
    if rs == [] || embed == 0 then []
    else
      EmbeddedPodSpecs(h, rs[..|rs| - 1], depth, embed) +
      (match Embedded(h, rs[|rs| - 1])
       case Some(docs) => AllPodSpecs(h, docs, depth, embed - 1)
       case None => [])
  }

  /** Every pod spec the renderer reaches from these resources. */
  ghost function AllPodSpecs(h: Heap, rs: seq<Resource>, depth: nat, embed: nat): seq<Resource>
    decreases embed, 1
  {
    EmbeddedPodSpecs(h, rs, depth, embed) + PodSpecs(h, rs, depth)
  }

  lemma EmbeddedSame(h: Heap, t: Heap, r: Resource)
    requires SameWalk(h, t)
    ensures Embedded(h, r) == Embedded(t, r)
  {
    NestedSame(h, t, r, [Metadata, Labels]);
    NestedSame(h, t, r, [Data]);
    assert Field(h, r, Kind) == Field(t, r, Kind);
    forall q
      ensures Field(h, q, ManifestLabel) == Field(t, q, ManifestLabel)
      ensures Field(h, q, ManifestText) == Field(t, q, ManifestText)
    {
    }
  }

  /** p is reached from the documents embedded in r. */
  ghost predicate ReachedIn(h: Heap, r: Resource, depth: nat, embed: nat, p: Resource) {
    Embedded(h, r).Some? && p in AllPodSpecs(h, Embedded(h, r).value, depth, embed)
  }

  /** What is reached from some resources: their own pod specs, and what is reached from the documents
      embedded in them. */
  lemma AllPodSpecsMeaning(h: Heap, rs: seq<Resource>, depth: nat, embed: nat, p: Resource)
    ensures p in AllPodSpecs(h, rs, depth, embed + 1) <==>
            p in PodSpecs(h, rs, depth) || exists i :: 0 <= i < |rs| && ReachedIn(h, rs[i], depth, embed, p)
  {
    EmbeddedPodSpecsMeaning(h, rs, depth, embed, p);
  }

  lemma {:induction false} EmbeddedPodSpecsMeaning(h: Heap, rs: seq<Resource>, depth: nat, embed: nat, p: Resource)
    ensures p in EmbeddedPodSpecs(h, rs, depth, embed + 1) <==>
            exists i :: 0 <= i < |rs| && ReachedIn(h, rs[i], depth, embed, p)
  {
    hide *;
    if rs == [] {
      NothingReached(h, depth, embed);
    } else {
      var n := |rs| - 1;
      EmbeddedPodSpecsMeaning(h, rs[..n], depth, embed, p);
      ReachedOneMore(h, rs, depth, embed, p);
      assert forall i :: 0 <= i < n ==> rs[..n][i] == rs[i];
    }
  }

  lemma NothingReached(h: Heap, depth: nat, embed: nat)
    ensures EmbeddedPodSpecs(h, [], depth, embed + 1) == []
  {
  }

  lemma ReachedOneMore(h: Heap, rs: seq<Resource>, depth: nat, embed: nat, p: Resource)
    requires rs != []
    ensures p in EmbeddedPodSpecs(h, rs, depth, embed + 1) <==>
            || p in EmbeddedPodSpecs(h, rs[..|rs| - 1], depth, embed + 1)
            || ReachedIn(h, rs[|rs| - 1], depth, embed, p)
  {
  }

  lemma {:induction false} BoundedSame(h: Heap, t: Heap, rs: seq<Resource>, depth: nat, embed: nat)
    requires SameWalk(h, t) && Bounded(h, rs, depth, embed)
    ensures Bounded(t, rs, depth, embed)
    decreases embed
  {
    NestedWithinSame(h, t, rs, depth);
    forall i | 0 <= i < |rs| && Embedded(t, rs[i]).Some?
      ensures embed > 0 && Bounded(t, Embedded(t, rs[i]).value, depth, embed - 1)
    {
      EmbeddedSame(h, t, rs[i]);
      BoundedSame(h, t, Embedded(h, rs[i]).value, depth, embed - 1);
    }
  }

  lemma {:induction false} AllPodSpecsSame(h: Heap, t: Heap, rs: seq<Resource>, depth: nat, embed: nat)
    requires SameWalk(h, t)
    ensures AllPodSpecs(h, rs, depth, embed) == AllPodSpecs(t, rs, depth, embed)
    decreases embed, 1
  {
    EmbeddedPodSpecsSame(h, t, rs, depth, embed);
    PodSpecsSame(h, t, rs, depth);
  }

  lemma {:induction false} EmbeddedPodSpecsSame(h: Heap, t: Heap, rs: seq<Resource>, depth: nat, embed: nat)
    requires SameWalk(h, t)
    ensures EmbeddedPodSpecs(h, rs, depth, embed) == EmbeddedPodSpecs(t, rs, depth, embed)
    decreases embed, 0, |rs|
  {
    hide Embedded, AllPodSpecs, SameWalk;
    if rs != [] && embed > 0 {
      EmbeddedPodSpecsSame(h, t, rs[..|rs| - 1], depth, embed);
      EmbeddedSame(h, t, rs[|rs| - 1]);
      if Embedded(h, rs[|rs| - 1]).Some? {
        AllPodSpecsSame(h, t, Embedded(h, rs[|rs| - 1]).value, depth, embed - 1);
      }
    }
  }

  method GetEmbedded(res: Resource, ghost objs: set<Resource>) returns (docs: Option<seq<Resource>>)
    requires res in objs && Closed(Snapshot(objs))
    ensures docs == Embedded(Snapshot(objs), res)
    ensures docs.Some? ==> AllIn(docs.value, objs)
  {
    ghost var h := Snapshot(objs);
    if Kind !in res.fields || res.fields[Kind] != Str("ConfigMap") {
      return None;
    }
    var labels := GetNestedResource(res, [Metadata, Labels], objs);
    if labels.None? || ManifestLabel !in labels.value.fields || labels.value.fields[ManifestLabel] != Str("true") {
      return None;
    }
    var data := GetNestedResource(res, [Data], objs);
    if data.None? || ManifestText !in data.value.fields || !data.value.fields[ManifestText].Manifest? {
      return None;
    }
    assert Within(h[data.value][ManifestText], objs);
    return Some(data.value.fields[ManifestText].docs);
  }

  lemma {:induction false} EmbeddedIncluded(h: Heap, rs: seq<Resource>, n: nat, depth: nat, embed: nat)
    requires n <= |rs|
    ensures forall p :: p in EmbeddedPodSpecs(h, rs[..n], depth, embed) ==> p in EmbeddedPodSpecs(h, rs, depth, embed)
    decreases |rs|
  {
    if n < |rs| {
      assert rs[..|rs| - 1][..n] == rs[..n];
      EmbeddedIncluded(h, rs[..|rs| - 1], n, depth, embed);
    } else {
      assert rs[..n] == rs;
    }
  }
}
