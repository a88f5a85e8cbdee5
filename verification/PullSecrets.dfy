/** The docker-secrets post-renderer: one pass works out which registries need a pull secret, the
    cluster is given those secrets, and a second pass attaches them to the pod specs in place. */
module PullSecrets {
  import opened Manifests
  import opened EmbeddedManifests
  import opened Filters
  import opened Options
  import Text

  datatype Registry = Registry(id: nat, service: string)

  /** A docker config, as JSON. */
  type DockerConfig = string

  /** The functions the renderer calls but does not define: the registry an image reference names, or
      None if the reference cannot be parsed; whether the cluster pulls from a registry without a
      secret; and a registry's docker config. */
  type RegNames = string -> Option<string>
  type Natives = string -> bool
  type DockerConfigs = Registry -> DockerConfig

  function SecretName(reg: Registry): (name: string)
    ensures name != ""
  {
    "porter-" + reg.service + "-" + Text.Decimal(reg.id)
  }

  lemma SameLastDash(s: string, t: string, u: string, v: string)
    requires s + "-" + t == u + "-" + v && '-' !in t && '-' !in v
    ensures s == u && t == v
  {
    var whole := s + "-" + t;
    assert whole[|s|] == '-' && whole[|u|] == '-';
    assert whole[..|s|] == s && whole[..|u|] == u;
    assert whole[|s| + 1..] == t && whole[|u| + 1..] == v;
  }

  /** Different registries have secrets of different names. */
  lemma SecretNameInjective(a: Registry, b: Registry)
    ensures SecretName(a) == SecretName(b) <==> a == b
  {
    if SecretName(a) == SecretName(b) {
      Text.DigitsOfDecimal(a.id);
      Text.DigitsOfDecimal(b.id);
      SameLastDash("porter-" + a.service, Text.Decimal(a.id), "porter-" + b.service, Text.Decimal(b.id));
      assert ("porter-" + a.service)[7..] == ("porter-" + b.service)[7..];
    }
  }

  // ---- Images --------------------------------------------------------------------------------

  ghost function ImageOf(h: Heap, c: Resource): seq<string> {
    match Field(h, c, Image)
    case Some(Str(image)) => [image]
    case _ => []
  }

  ghost function Images(h: Heap, cs: seq<Resource>): seq<string> {
    if cs == [] then [] else Images(h, cs[..|cs| - 1]) + ImageOf(h, cs[|cs| - 1])
  }

  /** The images of a pod spec's containers. */
  ghost function ImagesOf(h: Heap, p: Resource): seq<string> { Images(h, ContainersOf(h, p)) }

  lemma ImagesOneMore(h: Heap, cs: seq<Resource>, c: Resource)
    ensures Images(h, cs + [c]) == Images(h, cs) + ImageOf(h, c)
  {
    assert (cs + [c])[..|cs|] == cs;
  }

  /** The container has an image. */
  ghost function HasImage(h: Heap): Value -> bool {
    (v: Value) => v.Map? && Field(h, v.res, Image).Some? && Field(h, v.res, Image).value.Str?
  }

  lemma {:induction false} ImagesInOrder(h: Heap, items: seq<Value>)
    ensures var images, having := Images(h, MapsIn(items)), Filter(items, HasImage(h));
            |images| == |having| && forall i :: 0 <= i < |having| ==>
              having[i].Map? && Field(h, having[i].res, Image) == Some(Str(images[i]))
  {
    if items != [] {
      var n := |items| - 1;
      ImagesInOrder(h, items[..n]);
      MapsInOneMore(items, n);
      assert items[..n + 1] == items;
      if items[n].Map? {
        ImagesOneMore(h, MapsIn(items[..n]), items[n].res);
      }
    }
  }

  /** The images of a pod spec are, in order, the texts under image in the maps of its container list. */
  lemma ImagesMeaning(h: Heap, p: Resource)
    ensures match Field(h, p, Containers)
            case Some(List(items)) =>
              && |ImagesOf(h, p)| == Rank(items, |items|, HasImage(h))
              && forall i :: 0 <= i < |items| && items[i].Map? && Field(h, items[i].res, Image).Some? &&
                             Field(h, items[i].res, Image).value.Str? ==>
                   var k := Rank(items, i, HasImage(h));
                   k < |ImagesOf(h, p)| && Field(h, items[i].res, Image) == Some(Str(ImagesOf(h, p)[k]))
            case _ => ImagesOf(h, p) == []
  {
    if ListAt(h, p, Containers).Some? {
      var items := ListAt(h, p, Containers).value;
      hide Images, MapsIn, Filter, Rank;
      ImagesInOrder(h, items);
      FilterLength(items, HasImage(h));
      forall i | 0 <= i < |items| && HasImage(h)(items[i])
        ensures Rank(items, i, HasImage(h)) < |Filter(items, HasImage(h))|
        ensures Filter(items, HasImage(h))[Rank(items, i, HasImage(h))] == items[i]
      {
        FilterMeaning(items, HasImage(h), i);
      }
    }
  }

  /** A map in the pod spec's container list has this image. */
  ghost predicate Pulls(h: Heap, p: Resource, image: string) {
    exists i :: IsImage(h, p, i, image)
  }

  ghost predicate IsImage(h: Heap, p: Resource, i: nat, image: string) {
    match Field(h, p, Containers)
    case Some(List(items)) => i < |items| && items[i].Map? && Field(h, items[i].res, Image) == Some(Str(image))
    case _ => false
  }

  lemma ImageMembers(h: Heap, p: Resource, image: string)
    ensures image in ImagesOf(h, p) <==> Pulls(h, p, image)
  {
    hide Images, MapsIn, Filter, Rank;
    ImagesMeaning(h, p);
    if ListAt(h, p, Containers).Some? {
      var items := ListAt(h, p, Containers).value;
      ImagesInOrder(h, items);
      if k :| 0 <= k < |ImagesOf(h, p)| && ImagesOf(h, p)[k] == image {
        var j := FilterOrigin(items, HasImage(h), k);
        assert IsImage(h, p, j, image);
      }
    }
  }

  method GetImageList(podSpec: Resource, ghost objs: set<Resource>) returns (images: seq<string>)
    requires podSpec in objs && Closed(Snapshot(objs))
    ensures images == ImagesOf(Snapshot(objs), podSpec)
  {
    ghost var h := Snapshot(objs);
    images := [];
    if Containers !in podSpec.fields || !podSpec.fields[Containers].List? {
      return;
    }
    var items := podSpec.fields[Containers].items;
    assert ContainersOf(h, podSpec) == MapsIn(items);
    ContainersWithin(h, podSpec);
    hide ContainersOf, Closed, MapsIn, Images;
    for i := 0 to |items|
      invariant images == Images(h, MapsIn(items[..i]))
    {
      MapsInOneMore(items, i);
      if !items[i].Map? {
        continue;
      }
      var c := items[i].res;
      MapsInContains(items, i);
      ImagesOneMore(h, MapsIn(items[..i]), c);
      if Image !in c.fields || !c.fields[Image].Str? {
        continue;
      }
      images := images + [c.fields[Image].text];
    }
    assert items[..|items|] == items;
  }

  // ---- Which registries need a secret --------------------------------------------------------

  /** The image comes from a registry of the project that the cluster needs a secret for. */
  predicate NeedsSecret(image: string, reg: string, registries: map<string, Registry>, regName: RegNames,
                        native: Natives) {
    regName(image) == Some(reg) && !native(reg) && reg in registries
  }

  ghost predicate Linked(h: Heap, specs: seq<Resource>, reg: string, registries: map<string, Registry>,
                         regName: RegNames, native: Natives)
  {
    exists p, image :: p in specs && image in ImagesOf(h, p) && NeedsSecret(image, reg, registries, regName, native)
  }

  /** The first pass: a registry is linked exactly when some image of some pod spec needs its secret. */
  method GetRegistriesToLink(podSpecs: seq<Resource>, registries: map<string, Registry>,
                             regName: RegNames, native: Natives, ghost objs: set<Resource>)
    returns (linked: map<string, Registry>)
    requires AllIn(podSpecs, objs) && Closed(Snapshot(objs))
    ensures forall reg :: reg in linked <==> Linked(Snapshot(objs), podSpecs, reg, registries, regName, native)
    ensures forall reg :: reg in linked ==> reg in registries && linked[reg] == registries[reg]
  {
    hide *;
    ghost var h := Snapshot(objs);
    linked := map[];
    NothingLinked(h, registries, regName, native);
    assert podSpecs[..0] == [];
    for i := 0 to |podSpecs|
      invariant forall reg :: reg in linked <==> Linked(h, podSpecs[..i], reg, registries, regName, native)
      invariant forall reg :: reg in linked ==> reg in registries && linked[reg] == registries[reg]
    {
      KnownResource(podSpecs, i, objs);
      var images := GetImageList(podSpecs[i], objs);
      linked := LinkImages(linked, images, registries, regName, native);
      LinkedOneMore(h, podSpecs, i, registries, regName, native);
    }
    assert podSpecs[..|podSpecs|] == podSpecs;
  }

  /** The loop over one pod spec's images. */
  method LinkImages(before: map<string, Registry>, images: seq<string>, registries: map<string, Registry>,
                    regName: RegNames, native: Natives)
    returns (linked: map<string, Registry>)
    requires forall reg :: reg in before ==> reg in registries && before[reg] == registries[reg]
    ensures forall reg :: reg in linked <==>
      reg in before || exists image :: image in images && NeedsSecret(image, reg, registries, regName, native)
    ensures forall reg :: reg in linked ==> reg in registries && linked[reg] == registries[reg]
  {
    linked := before;
    for j := 0 to |images|
      invariant forall reg :: reg in linked <==>
        reg in before || exists image :: image in images[..j] && NeedsSecret(image, reg, registries, regName, native)
      invariant forall reg :: reg in linked ==> reg in registries && linked[reg] == registries[reg]
    {
      var name := regName(images[j]);
      if name.None? || native(name.value) || name.value !in registries {
        continue;
      }
      assert NeedsSecret(images[j], name.value, registries, regName, native);
      assert images[j] in images[..j + 1];
      linked := linked[name.value := registries[name.value]];
    }
    assert images[..|images|] == images;
  }

  lemma NothingLinked(h: Heap, registries: map<string, Registry>, regName: RegNames, native: Natives)
    ensures forall reg :: !Linked(h, [], reg, registries, regName, native)
  {
  }

  lemma LinkedOneMore(h: Heap, specs: seq<Resource>, i: nat, registries: map<string, Registry>,
                      regName: RegNames, native: Natives)
    requires i < |specs|
    ensures forall reg :: Linked(h, specs[..i + 1], reg, registries, regName, native) <==>
      || Linked(h, specs[..i], reg, registries, regName, native)
      || exists image :: image in ImagesOf(h, specs[i]) && NeedsSecret(image, reg, registries, regName, native)
  {
    assert specs[..i + 1] == specs[..i] + [specs[i]];
    forall reg | Linked(h, specs[..i + 1], reg, registries, regName, native)
      ensures || Linked(h, specs[..i], reg, registries, regName, native)
              || exists image :: image in ImagesOf(h, specs[i]) && NeedsSecret(image, reg, registries, regName, native)
    {
      var p, image :| p in specs[..i + 1] && image in ImagesOf(h, p) &&
        NeedsSecret(image, reg, registries, regName, native);
      assert p in specs[..i] || p == specs[i];
    }
    forall reg, image | image in ImagesOf(h, specs[i]) && NeedsSecret(image, reg, registries, regName, native)
      ensures Linked(h, specs[..i + 1], reg, registries, regName, native)
    {
      assert specs[i] in specs[..i + 1];
    }
  }

  // ---- The secrets in the cluster ------------------------------------------------------------

  /** Which calls fail while the secrets for one manifest are made. */
  datatype Failures = Failures(config: set<nat>, get: set<string>, create: set<string>, update: set<string>)

  const NO_FAILURES := Failures({}, {}, {}, {})

  /** The cluster has the registry's secret, with its docker config. */
  ghost predicate Holds(secrets: map<string, DockerConfig>, reg: Registry, configs: DockerConfigs) {
    SecretName(reg) in secrets && secrets[SecretName(reg)] == configs(reg)
  }

  /** The calls for a secret succeed: it is looked up, and created if absent or updated if its data differ. */
  predicate CanEnsure(secrets: map<string, DockerConfig>, name: string, data: DockerConfig, failures: Failures) {
    && name !in failures.get
    && if name !in secrets then name !in failures.create else secrets[name] == data || name !in failures.update
  }

  /** The registry's config can be had, and its secret made. */
  predicate CanHold(secrets: map<string, DockerConfig>, reg: Registry, configs: DockerConfigs, failures: Failures) {
    reg.id !in failures.config && CanEnsure(secrets, SecretName(reg), configs(reg), failures)
  }

  /** Making one registry's secret does not change whether the others can be made. */
  lemma OthersCanHold(secrets: map<string, DockerConfig>, reg: Registry, configs: DockerConfigs, failures: Failures)
    requires CanHold(secrets, reg, configs, failures)
    ensures var more := secrets[SecretName(reg) := configs(reg)];
            forall r :: CanHold(more, r, configs, failures) <==> CanHold(secrets, r, configs, failures)
  {
    hide SecretName;
    forall r ensures SecretName(r) == SecretName(reg) <==> r == reg { SecretNameInjective(r, reg); }
  }

  /** Writing one registry's secret disturbs no other's. */
  lemma OneMoreHeld(secrets: map<string, DockerConfig>, reg: Registry, configs: DockerConfigs)
    ensures var more := secrets[SecretName(reg) := configs(reg)];
            Holds(more, reg, configs) && forall r :: Holds(secrets, r, configs) ==> Holds(more, r, configs)
  {
    hide SecretName;
    forall r ensures SecretName(r) == SecretName(reg) <==> r == reg { SecretNameInjective(r, reg); }
  }

  lemma AllCanHold(secrets: map<string, DockerConfig>, configs: DockerConfigs)
    ensures forall reg :: CanHold(secrets, reg, configs, NO_FAILURES)
  {
  }

  /** The secrets of the namespace, and how often it has been asked to make some. */
  class Agent {
    var secrets: map<string, DockerConfig>
    var creations: nat

    /** Creates or updates one secret per linked registry, in whatever order the map is ranged over.  On
        success every linked registry is mapped to a secret of the cluster that holds its config. */
    method CreateImagePullSecrets(linked: map<string, Registry>, configs: DockerConfigs, failures: Failures)
      returns (ok: bool, res: map<string, string>)
      modifies this
      ensures ok ==> res.Keys == linked.Keys && forall reg :: reg in linked ==> res[reg] == SecretName(linked[reg])
      ensures creations == old(creations) + 1
      ensures ok <==> forall reg :: reg in linked ==> CanHold(old(secrets), linked[reg], configs, failures)
      ensures failures == NO_FAILURES ==> ok
      ensures ok ==> forall reg :: reg in linked ==> Holds(secrets, linked[reg], configs)
      ensures forall reg :: Holds(old(secrets), reg, configs) ==> Holds(secrets, reg, configs)
      ensures forall name | name in old(secrets) && (forall reg :: reg in linked ==> name != SecretName(linked[reg])) ::
        name in secrets && secrets[name] == old(secrets)[name]
    {
      hide SecretName, Holds;
      AllCanHold(secrets, configs);
      hide CanEnsure;
      creations := creations + 1;
      res := map[];
      var left := linked.Keys;
      while left != {}
        invariant left <= linked.Keys && res.Keys == linked.Keys - left
        invariant creations == old(creations) + 1
        invariant forall reg :: reg in res ==> res[reg] == SecretName(linked[reg])
        invariant forall reg :: reg in res ==> Holds(secrets, linked[reg], configs)
        invariant forall reg :: Holds(old(secrets), reg, configs) ==> Holds(secrets, reg, configs)
        invariant forall reg ::
          CanHold(secrets, reg, configs, failures) <==> CanHold(old(secrets), reg, configs, failures)
        invariant forall reg :: reg in res ==> CanHold(old(secrets), linked[reg], configs, failures)
        invariant forall name |
          name in old(secrets) && (forall reg :: reg in linked ==> name != SecretName(linked[reg])) ::
          name in secrets && secrets[name] == old(secrets)[name]
        decreases left
      {
        var key :| key in left;
        left := left - {key};
        var reg := linked[key];
        assert CanHold(secrets, reg, configs, failures) <==> CanHold(old(secrets), reg, configs, failures);
        if reg.id in failures.config {
          return false, map[];
        }
        var data := configs(reg);
        ghost var others := secrets;
        var made := EnsureSecret(SecretName(reg), data, failures);
        if !made {
          return false, map[];
        }
        OneMoreHeld(others, reg, configs);
        OthersCanHold(others, reg, configs, failures);
        res := res[key := SecretName(reg)];
      }
      return true, res;
    }

    /** Creates the secret, or updates it if it has other data. */
    method EnsureSecret(name: string, data: DockerConfig, failures: Failures) returns (ok: bool)
      modifies this`secrets
      ensures secrets == if ok then old(secrets)[name := data] else old(secrets)
      ensures ok <==> CanEnsure(old(secrets), name, data, failures)
    {
      if name in failures.get {
        return false;
      }
      if name !in secrets {
        if name in failures.create {
          return false;
        }
        secrets := secrets[name := data];
      } else if secrets[name] != data {
        if name in failures.update {
          return false;
        }
        secrets := secrets[name := data];
      } else {
        assert secrets == secrets[name := data];
      }
      return true;
    }
  }

  // ---- Attaching the secrets -----------------------------------------------------------------

  /** The pull secrets the renderer has given a pod spec. */
  ghost function PullSecretsOf(h: Heap, p: Resource): seq<string> {
    match Field(h, p, ImagePullSecrets)
    case Some(SecretNames(names)) => names
    case _ => []
  }

  function SecretFor(image: string, secrets: map<string, string>, regName: RegNames): seq<string> {
    match regName(image)
    case Some(reg) => if reg in secrets && secrets[reg] != "" then [secrets[reg]] else []
    case None => []
  }

  function SecretsFor(images: seq<string>, secrets: map<string, string>, regName: RegNames): seq<string> {
    if images == [] then []
    else SecretsFor(images[..|images| - 1], secrets, regName) + SecretFor(images[|images| - 1], secrets, regName)
  }

  lemma {:induction false} SecretsForMember(images: seq<string>, secrets: map<string, string>, regName: RegNames,
                                            name: string)
    ensures name in SecretsFor(images, secrets, regName) <==>
            exists image :: image in images && name in SecretFor(image, secrets, regName)
  {
    if images != [] {
      SecretsForMember(images[..|images| - 1], secrets, regName, name);
      assert images == images[..|images| - 1] + [images[|images| - 1]];
      assert forall image :: image in images <==> image in images[..|images| - 1] || image == images[|images| - 1];
    }
  }

  /** The image's registry has a secret with a name. */
  function HasSecret(secrets: map<string, string>, regName: RegNames): string -> bool {
    (image: string) => regName(image).Some? && regName(image).value in secrets && secrets[regName(image).value] != ""
  }

  lemma {:induction false} SecretsInOrder(images: seq<string>, secrets: map<string, string>, regName: RegNames)
    ensures var names, having := SecretsFor(images, secrets, regName), Filter(images, HasSecret(secrets, regName));
            |names| == |having| && forall i :: 0 <= i < |having| ==>
              HasSecret(secrets, regName)(having[i]) && names[i] == secrets[regName(having[i]).value]
  {
    if images != [] {
      SecretsInOrder(images[..|images| - 1], secrets, regName);
    }
  }

  /** The secrets are, in image order, those of the images whose registry has one. */
  lemma SecretsForMeaning(images: seq<string>, secrets: map<string, string>, regName: RegNames)
    ensures var names := SecretsFor(images, secrets, regName);
            && |names| == Rank(images, |images|, HasSecret(secrets, regName))
            && forall i :: 0 <= i < |images| ==>
                 match regName(images[i])
                 case Some(reg) =>
                   var k := Rank(images, i, HasSecret(secrets, regName));
                   reg in secrets && secrets[reg] != "" ==> k < |names| && names[k] == secrets[reg]
                 case None => true
  {
    hide SecretsFor, Filter, Rank;
    var keep := HasSecret(secrets, regName);
    SecretsInOrder(images, secrets, regName);
    FilterLength(images, keep);
    forall i | 0 <= i < |images| && keep(images[i])
      ensures Rank(images, i, keep) < |Filter(images, keep)| && Filter(images, keep)[Rank(images, i, keep)] == images[i]
    {
      FilterMeaning(images, keep, i);
    }
  }

  /** The name is among the secrets that the images of p call for. */
  ghost predicate Wanted(h: Heap, p: Resource, secrets: map<string, string>, regName: RegNames, name: string) {
    exists image :: image in ImagesOf(h, p) && name in SecretFor(image, secrets, regName)
  }

  /** Only the pull-secret lists of the pod specs differ, and only by secrets their images call for. */
  ghost predicate Attaching(h0: Heap, h: Heap, specs: seq<Resource>, secrets: map<string, string>, regName: RegNames) {
    && h.Keys == h0.Keys && Closed(h)
    && (forall r, k: Key :: r in h0 && !k.ImagePullSecrets? ==> Field(h, r, k) == Field(h0, r, k))
    && (forall r :: r in h0 && r !in specs ==> Field(h, r, ImagePullSecrets) == Field(h0, r, ImagePullSecrets))
    && (forall r, name :: r in h0 && name in PullSecretsOf(h0, r) ==> name in PullSecretsOf(h, r))
    && (forall r, name :: r in h0 && name in PullSecretsOf(h, r) ==>
          name in PullSecretsOf(h0, r) || Wanted(h0, r, secrets, regName, name))
  }

  ghost predicate Attached(h0: Heap, h: Heap, p: Resource, secrets: map<string, string>, regName: RegNames) {
    forall name :: Wanted(h0, p, secrets, regName, name) ==> name in PullSecretsOf(h, p)
  }

  lemma {:induction false} ImagesSame(h0: Heap, h: Heap, cs: seq<Resource>)
    requires forall c :: c in cs ==> Field(h, c, Image) == Field(h0, c, Image)
    ensures Images(h, cs) == Images(h0, cs)
  {
    if cs != [] {
      ImagesSame(h0, h, cs[..|cs| - 1]);
    }
  }

  lemma ImagesOfSame(h0: Heap, h: Heap, specs: seq<Resource>, p: Resource, secrets: map<string, string>,
                     regName: RegNames)
    requires Closed(h0) && Attaching(h0, h, specs, secrets, regName) && p in h0
    ensures ContainersOf(h, p) == ContainersOf(h0, p) && ImagesOf(h, p) == ImagesOf(h0, p)
  {
    assert Field(h, p, Containers) == Field(h0, p, Containers);
    ContainersWithin(h0, p);
    ImagesSame(h0, h, ContainersOf(h0, p));
  }

  /** Setting p's list to its present names and all wanted ones is a step of attaching. */
  lemma AttachStep(h0: Heap, h: Heap, specs: seq<Resource>, p: Resource, names: seq<string>,
                   secrets: map<string, string>, regName: RegNames)
    requires Closed(h0) && Attaching(h0, h, specs, secrets, regName) && p in h0 && p in specs
    requires forall name :: name in names <==> name in PullSecretsOf(h, p) || Wanted(h0, p, secrets, regName, name)
    ensures var t := Put(h, p, ImagePullSecrets, SecretNames(names));
            && PullSecretsOf(t, p) == names
            && Attaching(h0, t, specs, secrets, regName)
            && Attached(h0, t, p, secrets, regName)
            && forall q :: q in h0 && Attached(h0, h, q, secrets, regName) ==> Attached(h0, t, q, secrets, regName)
  {
    var t := Put(h, p, ImagePullSecrets, SecretNames(names));
    PutClosed(h, p, ImagePullSecrets, SecretNames(names));
    forall r, k: Key | r in h0 && (r != p || !k.ImagePullSecrets?) ensures Field(t, r, k) == Field(h, r, k) {}
    assert PullSecretsOf(t, p) == names;
    forall r | r in h0 && r != p ensures PullSecretsOf(t, r) == PullSecretsOf(h, r) {}
  }

  lemma SecretsForAll(h: Heap, p: Resource, secrets: map<string, string>, regName: RegNames)
    ensures forall name :: name in SecretsFor(ImagesOf(h, p), secrets, regName) <==>
                           Wanted(h, p, secrets, regName, name)
  {
    forall name
      ensures name in SecretsFor(ImagesOf(h, p), secrets, regName) <==> Wanted(h, p, secrets, regName, name)
    {
      SecretsForMember(ImagesOf(h, p), secrets, regName, name);
    }
  }

  lemma NothingWanted(h0: Heap, h: Heap, p: Resource, secrets: map<string, string>, regName: RegNames)
    requires forall name :: !Wanted(h0, p, secrets, regName, name)
    ensures Attached(h0, h, p, secrets, regName)
  {
  }

  method CollectSecrets(images: seq<string>, secrets: map<string, string>, regName: RegNames)
    returns (names: seq<string>)
    ensures names == SecretsFor(images, secrets, regName)
  {
    names := [];
    for j := 0 to |images|
      invariant names == SecretsFor(images[..j], secrets, regName)
    {
      assert images[..j + 1][..j] == images[..j];
      var reg := regName(images[j]);
      if reg.Some? && reg.value in secrets && secrets[reg.value] != "" {
        names := names + [secrets[reg.value]];
      }
    }
    assert images[..|images|] == images;
  }

  method UpdatePodSpec(p: Resource, secrets: map<string, string>, regName: RegNames,
                       ghost h0: Heap, ghost specs: seq<Resource>, ghost objs: set<Resource>)
    requires Closed(h0) && p in objs && p in specs && Attaching(h0, Snapshot(objs), specs, secrets, regName)
    modifies p
    ensures PullSecretsOf(Snapshot(objs), p) ==
            PullSecretsOf(old(Snapshot(objs)), p) + SecretsFor(ImagesOf(h0, p), secrets, regName)
    ensures Attaching(h0, Snapshot(objs), specs, secrets, regName)
    ensures Attached(h0, Snapshot(objs), p, secrets, regName)
    ensures forall q :: q in h0 && Attached(h0, old(Snapshot(objs)), q, secrets, regName) ==>
      Attached(h0, Snapshot(objs), q, secrets, regName)
  {
    ghost var h := Snapshot(objs);
    ImagesOfSame(h0, h, specs, p, secrets, regName);
    if Containers !in p.fields || !p.fields[Containers].List? {
      assert ImagesOf(h0, p) == [];
      return;
    }
    var names := [];
    if ImagePullSecrets in p.fields && p.fields[ImagePullSecrets].SecretNames? {
      names := p.fields[ImagePullSecrets].names;
    }
    var images := GetImageList(p, objs);
    var more := CollectSecrets(images, secrets, regName);
    assert names == PullSecretsOf(h, p);
    names := names + more;
    hide ImagesOf, ContainersOf, SecretsFor, SecretFor, Attaching, Attached, Wanted, Closed, Put;
    SecretsForAll(h0, p, secrets, regName);
    if |names| > 0 {
      AttachStep(h0, h, specs, p, names, secrets, regName);
      SetField(p, ImagePullSecrets, SecretNames(names), objs);
    } else {
      NothingWanted(h0, h, p, secrets, regName);
    }
  }

  lemma NothingAttached(h: Heap, specs: seq<Resource>, secrets: map<string, string>, regName: RegNames)
    requires Closed(h)
    ensures Attaching(h, h, specs, secrets, regName)
  {
  }

  /** All of these pod specs have the secrets that their images call for. */
  ghost predicate AllAttached(h0: Heap, h: Heap, specs: seq<Resource>, secrets: map<string, string>,
                              regName: RegNames) {
    forall p :: p in specs ==> p in h0 && Attached(h0, h, p, secrets, regName)
  }

  lemma NoneAttached(h0: Heap, h: Heap, secrets: map<string, string>, regName: RegNames)
    ensures AllAttached(h0, h, [], secrets, regName)
  {
  }

  lemma OneMoreAttached(h0: Heap, h: Heap, t: Heap, specs: seq<Resource>, p: Resource, secrets: map<string, string>,
                        regName: RegNames)
    requires AllAttached(h0, h, specs, secrets, regName) && p in h0 && Attached(h0, t, p, secrets, regName)
    requires forall q :: q in h0 && Attached(h0, h, q, secrets, regName) ==> Attached(h0, t, q, secrets, regName)
    ensures AllAttached(h0, t, specs + [p], secrets, regName)
  {
  }

  lemma EachAttached(h0: Heap, h: Heap, specs: seq<Resource>, secrets: map<string, string>, regName: RegNames)
    requires AllAttached(h0, h, specs, secrets, regName)
    ensures forall p :: p in specs ==> Attached(h0, h, p, secrets, regName)
  {
  }

  /** One more pod spec. */
  method UpdateNext(podSpecs: seq<Resource>, i: nat, secrets: map<string, string>, regName: RegNames,
                    ghost h0: Heap, ghost objs: set<Resource>)
    requires i < |podSpecs| && podSpecs[i] in objs && Closed(h0) && objs == h0.Keys
    requires Attaching(h0, Snapshot(objs), podSpecs, secrets, regName)
    requires AllAttached(h0, Snapshot(objs), podSpecs[..i], secrets, regName)
    modifies objs
    ensures Attaching(h0, Snapshot(objs), podSpecs, secrets, regName)
    ensures AllAttached(h0, Snapshot(objs), podSpecs[..i + 1], secrets, regName)
  {
    hide *;
    ghost var h := Snapshot(objs);
    UpdatePodSpec(podSpecs[i], secrets, regName, h0, podSpecs, objs);
    OneMoreAttached(h0, h, Snapshot(objs), podSpecs[..i], podSpecs[i], secrets, regName);
    assert podSpecs[..i + 1] == podSpecs[..i] + [podSpecs[i]];
  }

  method UpdatePodSpecs(podSpecs: seq<Resource>, secrets: map<string, string>, regName: RegNames,
                        ghost objs: set<Resource>)
    requires AllIn(podSpecs, objs) && Closed(Snapshot(objs))
    modifies objs
    ensures Attaching(old(Snapshot(objs)), Snapshot(objs), podSpecs, secrets, regName)
    ensures forall p :: p in podSpecs ==> Attached(old(Snapshot(objs)), Snapshot(objs), p, secrets, regName)
  {
    hide *;
    ghost var h0 := Snapshot(objs);
    NothingAttached(h0, podSpecs, secrets, regName);
    NoneAttached(h0, h0, secrets, regName);
    assert podSpecs[..0] == [];
    for i := 0 to |podSpecs|
      invariant Attaching(h0, Snapshot(objs), podSpecs, secrets, regName)
      invariant AllAttached(h0, Snapshot(objs), podSpecs[..i], secrets, regName)
    {
      KnownResource(podSpecs, i, objs);
      UpdateNext(podSpecs, i, secrets, regName, h0, objs);
    }
    assert podSpecs[..|podSpecs|] == podSpecs;
    EachAttached(h0, Snapshot(objs), podSpecs, secrets, regName);
  }

  // ---- Both passes together ------------------------------------------------------------------

  /** The name is the secret of a registry that some image of p needs a secret for. */
  ghost predicate Needed(h: Heap, p: Resource, name: string, registries: map<string, Registry>, regName: RegNames,
                         native: Natives) {
    exists image, reg :: image in ImagesOf(h, p) && NeedsSecret(image, reg, registries, regName, native) &&
      name == SecretName(registries[reg])
  }

  /** The two passes agree: with the secrets made for the linked registries, what the attach pass wants
      for a pod spec is exactly what its images need. */
  lemma PassesAgree(h: Heap, specs: seq<Resource>, p: Resource, linked: map<string, Registry>,
                    secrets: map<string, string>, registries: map<string, Registry>,
                    regName: RegNames, native: Natives, name: string)
    requires p in specs
    requires forall reg :: reg in linked <==> Linked(h, specs, reg, registries, regName, native)
    requires forall reg :: reg in linked ==> reg in registries && linked[reg] == registries[reg]
    requires secrets.Keys == linked.Keys && forall reg :: reg in linked ==> secrets[reg] == SecretName(linked[reg])
    ensures Wanted(h, p, secrets, regName, name) <==> Needed(h, p, name, registries, regName, native)
  {
    hide SecretName, ImagesOf, Linked;
    if Wanted(h, p, secrets, regName, name) {
      var image :| image in ImagesOf(h, p) && name in SecretFor(image, secrets, regName);
      WantedIsNeeded(h, specs, image, linked, secrets, registries, regName, native, name);
    }
    if Needed(h, p, name, registries, regName, native) {
      var image, reg :| image in ImagesOf(h, p) && NeedsSecret(image, reg, registries, regName, native) &&
        name == SecretName(registries[reg]);
      NeededIsWanted(h, specs, p, image, reg, linked, secrets, registries, regName, native);
    }
  }

  lemma WantedIsNeeded(h: Heap, specs: seq<Resource>, image: string, linked: map<string, Registry>,
                       secrets: map<string, string>, registries: map<string, Registry>,
                       regName: RegNames, native: Natives, name: string)
    requires forall reg :: reg in linked <==> Linked(h, specs, reg, registries, regName, native)
    requires forall reg :: reg in linked ==> reg in registries && linked[reg] == registries[reg]
    requires secrets.Keys == linked.Keys && forall reg :: reg in linked ==> secrets[reg] == SecretName(linked[reg])
    requires name in SecretFor(image, secrets, regName)
    ensures regName(image).Some? && regName(image).value in registries
    ensures NeedsSecret(image, regName(image).value, registries, regName, native)
    ensures name == SecretName(registries[regName(image).value])
  {
    hide SecretName;
    LinkedMeansNeeded(h, specs, image, regName(image).value, registries, regName, native);
  }

  lemma NeededIsWanted(h: Heap, specs: seq<Resource>, p: Resource, image: string, reg: string,
                       linked: map<string, Registry>, secrets: map<string, string>,
                       registries: map<string, Registry>, regName: RegNames, native: Natives)
    requires forall reg :: reg in linked <==> Linked(h, specs, reg, registries, regName, native)
    requires forall reg :: reg in linked ==> reg in registries && linked[reg] == registries[reg]
    requires secrets.Keys == linked.Keys && forall reg :: reg in linked ==> secrets[reg] == SecretName(linked[reg])
    requires p in specs && image in ImagesOf(h, p) && NeedsSecret(image, reg, registries, regName, native)
    ensures reg in registries && SecretFor(image, secrets, regName) == [SecretName(registries[reg])]
  {
    assert Linked(h, specs, reg, registries, regName, native);
    assert SecretName(linked[reg]) != "";
  }

  /** Whether an image needs a secret depends only on its registry. */
  lemma LinkedMeansNeeded(h: Heap, specs: seq<Resource>, image: string, reg: string, registries: map<string, Registry>,
                          regName: RegNames, native: Natives)
    requires Linked(h, specs, reg, registries, regName, native) && regName(image) == Some(reg)
    ensures NeedsSecret(image, reg, registries, regName, native)
  {
  }

  // ---- The whole renderer, with embedded manifests -------------------------------------------

  /** What has become of a manifest: it was left as it was, or its pod specs were given their secrets
      and this has become of the manifests embedded in its resources. */
  datatype Report = Unchanged | Rendered(embedded: seq<Report>)

  /** The pod specs that were given their secrets. */
  ghost function Covered(h: Heap, rs: seq<Resource>, depth: nat, embed: nat, report: Report): seq<Resource>
    decreases embed, 1
  {
    match report
    case Unchanged => []
    case Rendered(reports) => CoveredEmbedded(h, rs, depth, embed, reports) + PodSpecs(h, rs, depth)
  }

  ghost function CoveredEmbedded(h: Heap, rs: seq<Resource>, depth: nat, embed: nat, reports: seq<Report>)
    : seq<Resource>
    decreases embed, 0, |rs|
  {
    if rs == [] || embed == 0 || |reports| != |rs| then []
    else
      var n := |rs| - 1;
      CoveredEmbedded(h, rs[..n], depth, embed, reports[..n]) +
      (match Embedded(h, rs[n])
       case Some(docs) => Covered(h, docs, depth, embed - 1, reports[n])
       case None => [])
  }

  /** The covered pod specs have the renderer's former pull secrets and exactly those their images need;
      nothing else differs. */
  ghost predicate Settled(h0: Heap, h: Heap, covered: seq<Resource>, registries: map<string, Registry>,
                          regName: RegNames, native: Natives) {
    && h.Keys == h0.Keys && Closed(h)
    && (forall r, k: Key :: r in h0 && (!k.ImagePullSecrets? || r !in covered) ==> Field(h, r, k) == Field(h0, r, k))
    && (forall p, name :: p in h0 && p in covered ==>
          (name in PullSecretsOf(h, p) <==>
             name in PullSecretsOf(h0, p) || Needed(h0, p, name, registries, regName, native)))
  }

  /** The cluster has every secret that an image of the covered pod specs needs. */
  ghost predicate AllHeld(h: Heap, covered: seq<Resource>, secrets: map<string, DockerConfig>, configs: DockerConfigs,
                          registries: map<string, Registry>, regName: RegNames, native: Natives) {
    forall p, image, reg ::
      p in covered && image in ImagesOf(h, p) && NeedsSecret(image, reg, registries, regName, native) ==>
        Holds(secrets, registries[reg], configs)
  }

  /** What the renderer is for, in terms of the fields: a covered pod spec lists the secret of every registry
      of the project that one of its images comes from and the cluster cannot pull from without one, the
      cluster holds it with the registry's config, and nothing else was added to the list. */
  lemma CoverageMeaning(h0: Heap, h: Heap, covered: seq<Resource>, secrets: map<string, DockerConfig>,
                        configs: DockerConfigs, registries: map<string, Registry>, regName: RegNames,
                        native: Natives, p: Resource)
    requires Settled(h0, h, covered, registries, regName, native) && p in h0 && p in covered
    requires AllHeld(h0, covered, secrets, configs, registries, regName, native)
    ensures forall image, reg ::
      Pulls(h0, p, image) && regName(image) == Some(reg) && !native(reg) && reg in registries ==>
        var name := "porter-" + registries[reg].service + "-" + Text.Decimal(registries[reg].id);
        ListsSecret(h, p, name) && name in secrets && secrets[name] == configs(registries[reg])
    ensures forall name :: ListsSecret(h, p, name) && !ListsSecret(h0, p, name) ==>
      exists image, reg ::
        && Pulls(h0, p, image) && regName(image) == Some(reg) && !native(reg) && reg in registries
        && name == "porter-" + registries[reg].service + "-" + Text.Decimal(registries[reg].id)
  {
    hide Pulls, ImagesOf, Closed;
    forall image ensures image in ImagesOf(h0, p) <==> Pulls(h0, p, image) { ImageMembers(h0, p, image); }
    forall name
      ensures ListsSecret(h, p, name) <==>
              ListsSecret(h0, p, name) || Needed(h0, p, name, registries, regName, native)
    {
      assert name in PullSecretsOf(h, p) <==> ListsSecret(h, p, name);
      assert name in PullSecretsOf(h0, p) <==> ListsSecret(h0, p, name);
    }
    forall image, reg | Pulls(h0, p, image) && NeedsSecret(image, reg, registries, regName, native)
      ensures ListsSecret(h, p, SecretName(registries[reg])) && Holds(secrets, registries[reg], configs)
    {
      assert Needed(h0, p, SecretName(registries[reg]), registries, regName, native);
    }
  }

  /** The name is in the pod spec's list of pull secrets, as the renderer writes it. */
  ghost predicate ListsSecret(h: Heap, p: Resource, name: string) {
    match Field(h, p, ImagePullSecrets)
    case Some(SecretNames(names)) => name in names
    case _ => false
  }

  lemma SettledSame(h0: Heap, h: Heap, covered: seq<Resource>, registries: map<string, Registry>,
                    regName: RegNames, native: Natives)
    requires Closed(h0) && Settled(h0, h, covered, registries, regName, native)
    ensures SameWalk(h0, h) && Closed(h) && h.Keys == h0.Keys
    ensures forall p :: p in h0 ==> ImagesOf(h, p) == ImagesOf(h0, p)
  {
    forall p | p in h0 ensures ImagesOf(h, p) == ImagesOf(h0, p) {
      assert Field(h, p, Containers) == Field(h0, p, Containers);
      ContainersWithin(h0, p);
      ImagesSame(h0, h, ContainersOf(h0, p));
    }
  }

  lemma LinkedSame(h0: Heap, h: Heap, specs: seq<Resource>, registries: map<string, Registry>, regName: RegNames,
                   native: Natives)
    requires forall p :: p in specs ==> ImagesOf(h, p) == ImagesOf(h0, p)
    ensures forall reg :: Linked(h, specs, reg, registries, regName, native) <==>
                          Linked(h0, specs, reg, registries, regName, native)
  {
  }

  /** Attaching the secrets of more pod specs settles them as well. */
  lemma SettleMore(h0: Heap, h: Heap, t: Heap, covered: seq<Resource>, specs: seq<Resource>,
                   secrets: map<string, string>, registries: map<string, Registry>, regName: RegNames, native: Natives)
    requires Settled(h0, h, covered, registries, regName, native)
    requires Attaching(h, t, specs, secrets, regName) && forall p :: p in specs ==> Attached(h, t, p, secrets, regName)
    requires forall p, name :: p in specs ==>
      (Wanted(h, p, secrets, regName, name) <==> Needed(h0, p, name, registries, regName, native))
    requires forall p :: p in specs ==> p in h0
    ensures Settled(h0, t, covered + specs, registries, regName, native)
  {
    hide Wanted, Needed, Closed;
    forall r, k: Key | r in h0 && (!k.ImagePullSecrets? || r !in covered + specs)
      ensures Field(t, r, k) == Field(h0, r, k)
    {
      assert Field(t, r, k) == Field(h, r, k) == Field(h0, r, k);
    }
    forall p, name | p in h0 && p in covered + specs
      ensures name in PullSecretsOf(t, p) <==>
              name in PullSecretsOf(h0, p) || Needed(h0, p, name, registries, regName, native)
    {
      if p !in covered { assert Field(h, p, ImagePullSecrets) == Field(h0, p, ImagePullSecrets); }
      if p !in specs { assert Field(t, p, ImagePullSecrets) == Field(h, p, ImagePullSecrets); }
    }
  }

  lemma HeldTogether(h: Heap, a: seq<Resource>, b: seq<Resource>, before: map<string, DockerConfig>,
                     secrets: map<string, DockerConfig>, configs: DockerConfigs, registries: map<string, Registry>,
                     regName: RegNames, native: Natives)
    requires AllHeld(h, a, before, configs, registries, regName, native)
    requires AllHeld(h, b, secrets, configs, registries, regName, native)
    requires forall reg :: Holds(before, reg, configs) ==> Holds(secrets, reg, configs)
    ensures AllHeld(h, a + b, secrets, configs, registries, regName, native)
  {
    hide Holds, ImagesOf;
    forall p, image, reg |
      p in a + b && image in ImagesOf(h, p) && NeedsSecret(image, reg, registries, regName, native)
      ensures Holds(secrets, registries[reg], configs)
    {
      assert p in a ==> Holds(before, registries[reg], configs);
    }
  }

  /** Decoding has happened: the pod specs, and the registries to link. */
  method LinkPass(resources: seq<Resource>, registries: map<string, Registry>, regName: RegNames, native: Natives,
                  ghost depth: nat, ghost h0: Heap, ghost before: seq<Resource>, ghost objs: set<Resource>)
    returns (podSpecs: seq<Resource>, linked: map<string, Registry>)
    requires AllIn(resources, objs) && Closed(h0) && NestedWithin(h0, resources, depth)
    requires Settled(h0, Snapshot(objs), before, registries, regName, native)
    ensures podSpecs == PodSpecs(h0, resources, depth) && AllIn(podSpecs, objs)
    ensures forall reg :: reg in linked <==> Linked(h0, podSpecs, reg, registries, regName, native)
    ensures forall reg :: reg in linked ==> reg in registries && linked[reg] == registries[reg]
  {
    hide Settled, Linked, ImagesOf, NestedWithin, Closed;
    ghost var h := Snapshot(objs);
    SettledSame(h0, h, before, registries, regName, native);
    PodSpecsSame(h0, h, resources, depth);
    NestedWithinSame(h0, h, resources, depth);
    podSpecs := GetPodSpecs(resources, depth, objs);
    linked := GetRegistriesToLink(podSpecs, registries, regName, native, objs);
    LinkedSame(h0, h, podSpecs, registries, regName, native);
  }

  method Save(objs: set<Resource>) returns (saved: Heap)
    ensures saved == Snapshot(objs)
  {
    saved := map o | o in objs :: o.fields;
  }

  method Restore(objs: set<Resource>, saved: Heap)
    requires saved.Keys == objs
    modifies objs
    ensures Snapshot(objs) == saved
  {
    forall o | o in objs { o.fields := saved[o]; }
  }

  /** One renderer's Run.  It works on a decoded copy, which it throws away if its own secrets cannot be
      made; here that is undoing what it has done to the objects. */
  method RunOn(resources: seq<Resource>, registries: map<string, Registry>, regName: RegNames, native: Natives,
               agent: Agent, configs: DockerConfigs, failures: nat -> Failures, ghost depth: nat, ghost embed: nat,
               ghost h0: Heap, ghost before: seq<Resource>, objs: set<Resource>)
    returns (ok: bool, ghost report: Report)
    requires AllIn(resources, objs) && Closed(h0) && Bounded(h0, resources, depth, embed)
    requires Settled(h0, Snapshot(objs), before, registries, regName, native)
    modifies objs, agent
    ensures ok <==> report.Rendered?
    ensures !ok ==> Snapshot(objs) == old(Snapshot(objs))
    ensures var covered := Covered(h0, resources, depth, embed, report);
            && Settled(h0, Snapshot(objs), before + covered, registries, regName, native)
            && AllHeld(h0, covered, agent.secrets, configs, registries, regName, native)
            && ((forall n :: failures(n) == NO_FAILURES) ==> covered == AllPodSpecs(h0, resources, depth, embed))
    ensures forall reg :: Holds(old(agent.secrets), reg, configs) ==> Holds(agent.secrets, reg, configs)
    decreases embed, 2
  {
    hide *;
    BoundedNested(h0, resources, depth, embed);
    var saved := Save(objs);
    ghost var specs := PodSpecs(h0, resources, depth);
    var podSpecs, linked := LinkPass(resources, registries, regName, native, depth, h0, before, objs);
    ghost var reports, inner := RunEmbedded(resources, registries, regName, native, agent, configs, failures,
                                            depth, embed, h0, before, objs);
    ghost var h := Snapshot(objs);
    ghost var held := agent.secrets;
    var secrets: map<string, string>;
    ok, secrets := agent.CreateImagePullSecrets(linked, configs, failures(agent.creations));
    if !ok {
      Restore(objs, saved);
      report := Unchanged;
      Regroup(before, [], []);
      NothingHeld(h0, agent.secrets, configs, registries, regName, native);
      NothingCovered(h0, resources, depth, embed);
      return;
    }
    SettledSame(h0, h, before + inner, registries, regName, native);
    UpdatePodSpecs(podSpecs, secrets, regName, objs);
    AttachedSettles(h0, h, Snapshot(objs), before + inner, specs, linked, secrets, registries, regName, native);
    LinkedHeld(h0, specs, linked, agent.secrets, configs, registries, regName, native);
    HeldTogether(h0, inner, specs, held, agent.secrets, configs, registries, regName, native);
    report := Rendered(reports);
    RenderedCovers(h0, resources, depth, embed, reports);
    Regroup(before, inner, specs);
  }

  lemma BoundedNested(h: Heap, rs: seq<Resource>, depth: nat, embed: nat)
    requires Bounded(h, rs, depth, embed)
    ensures NestedWithin(h, rs, depth)
  {
  }

  lemma NothingCovered(h: Heap, rs: seq<Resource>, depth: nat, embed: nat)
    ensures Covered(h, rs, depth, embed, Unchanged) == []
  {
  }

  lemma RenderedCovers(h: Heap, rs: seq<Resource>, depth: nat, embed: nat, reports: seq<Report>)
    ensures Covered(h, rs, depth, embed, Rendered(reports)) ==
            CoveredEmbedded(h, rs, depth, embed, reports) + PodSpecs(h, rs, depth)
    ensures AllPodSpecs(h, rs, depth, embed) == EmbeddedPodSpecs(h, rs, depth, embed) + PodSpecs(h, rs, depth)
  {
  }

  lemma NothingEmbedded(h: Heap, depth: nat, embed: nat)
    ensures CoveredEmbedded(h, [], depth, embed, []) == [] == EmbeddedPodSpecs(h, [], depth, embed)
  {
  }

  /** One more resource: what its report covers, and what there is to cover. */
  lemma CoveredOneMore(h: Heap, rs: seq<Resource>, i: nat, depth: nat, embed: nat, reports: seq<Report>, report: Report)
    requires i < |rs| && |reports| == i && Bounded(h, rs, depth, embed)
    ensures Embedded(h, rs[i]).Some? ==> embed > 0 && Bounded(h, Embedded(h, rs[i]).value, depth, embed - 1)
    ensures CoveredEmbedded(h, rs[..i + 1], depth, embed, reports + [report]) ==
            CoveredEmbedded(h, rs[..i], depth, embed, reports) +
              if Embedded(h, rs[i]).Some? then Covered(h, Embedded(h, rs[i]).value, depth, embed - 1, report) else []
    ensures EmbeddedPodSpecs(h, rs[..i + 1], depth, embed) ==
            EmbeddedPodSpecs(h, rs[..i], depth, embed) +
              if Embedded(h, rs[i]).Some? then AllPodSpecs(h, Embedded(h, rs[i]).value, depth, embed - 1) else []
  {
    assert rs[..i + 1][..i] == rs[..i] && (reports + [report])[..i] == reports;
  }

  lemma Regroup<T>(a: seq<T>, b: seq<T>, c: seq<T>)
    ensures a + b + c == a + (b + c) && a + [] == a
  {
  }

  lemma NothingHeld(h: Heap, secrets: map<string, DockerConfig>, configs: DockerConfigs,
                    registries: map<string, Registry>, regName: RegNames, native: Natives)
    ensures AllHeld(h, [], secrets, configs, registries, regName, native)
  {
  }

  lemma LinkedHeld(h: Heap, specs: seq<Resource>, linked: map<string, Registry>, secrets: map<string, DockerConfig>,
                   configs: DockerConfigs, registries: map<string, Registry>, regName: RegNames, native: Natives)
    requires forall reg :: reg in linked <==> Linked(h, specs, reg, registries, regName, native)
    requires forall reg :: reg in linked ==> reg in registries && linked[reg] == registries[reg]
    requires forall reg :: reg in linked ==> Holds(secrets, linked[reg], configs)
    ensures AllHeld(h, specs, secrets, configs, registries, regName, native)
  {
    hide Holds, ImagesOf;
    forall p, image, reg |
      p in specs && image in ImagesOf(h, p) && NeedsSecret(image, reg, registries, regName, native)
      ensures Holds(secrets, registries[reg], configs)
    {
      assert Linked(h, specs, reg, registries, regName, native);
    }
  }

  lemma AttachedSettles(h0: Heap, h: Heap, t: Heap, covered: seq<Resource>, specs: seq<Resource>,
                        linked: map<string, Registry>, secrets: map<string, string>,
                        registries: map<string, Registry>, regName: RegNames, native: Natives)
    requires Closed(h0) && Settled(h0, h, covered, registries, regName, native) && AllIn(specs, h0.Keys)
    requires Attaching(h, t, specs, secrets, regName) && forall p :: p in specs ==> Attached(h, t, p, secrets, regName)
    requires forall reg :: reg in linked <==> Linked(h0, specs, reg, registries, regName, native)
    requires forall reg :: reg in linked ==> reg in registries && linked[reg] == registries[reg]
    requires secrets.Keys == linked.Keys && forall reg :: reg in linked ==> secrets[reg] == SecretName(linked[reg])
    ensures Settled(h0, t, covered + specs, registries, regName, native)
  {
    hide Settled, Attaching, Attached, Linked, ImagesOf, SecretName;
    SettledSame(h0, h, covered, registries, regName, native);
    forall p, name | p in specs
      ensures Wanted(h, p, secrets, regName, name) <==> Needed(h0, p, name, registries, regName, native)
    {
      assert ImagesOf(h, p) == ImagesOf(h0, p);
      PassesAgree(h0, specs, p, linked, secrets, registries, regName, native, name);
    }
    SettleMore(h0, h, t, covered, specs, secrets, registries, regName, native);
  }

  /** Runs another renderer on the manifest a resource may carry. */
  method RenderEmbedded(resource: Resource, registries: map<string, Registry>, regName: RegNames, native: Natives,
                        agent: Agent, configs: DockerConfigs, failures: nat -> Failures, ghost depth: nat,
                        ghost embed: nat, ghost h0: Heap, ghost before: seq<Resource>, objs: set<Resource>)
    returns (ghost report: Report, ghost covered: seq<Resource>)
    requires resource in objs && Closed(h0) && Settled(h0, Snapshot(objs), before, registries, regName, native)
    requires Embedded(h0, resource).Some? ==>
      embed > 0 && Bounded(h0, Embedded(h0, resource).value, depth, embed - 1)
    modifies objs, agent
    ensures covered ==
            if Embedded(h0, resource).Some? then Covered(h0, Embedded(h0, resource).value, depth, embed - 1, report)
            else []
    ensures Settled(h0, Snapshot(objs), before + covered, registries, regName, native)
    ensures AllHeld(h0, covered, agent.secrets, configs, registries, regName, native)
    ensures (forall n :: failures(n) == NO_FAILURES) ==>
      covered ==
      if Embedded(h0, resource).Some? then AllPodSpecs(h0, Embedded(h0, resource).value, depth, embed - 1) else []
    ensures forall reg :: Holds(old(agent.secrets), reg, configs) ==> Holds(agent.secrets, reg, configs)
    decreases embed, 0
  {
    hide *;
    SettledSame(h0, Snapshot(objs), before, registries, regName, native);
    EmbeddedSame(h0, Snapshot(objs), resource);
    var docs := GetEmbedded(resource, objs);
    report, covered := Unchanged, [];
    if docs.Some? {
      var ok;
      ok, report := RunOn(docs.value, registries, regName, native, agent, configs, failures, depth, embed - 1,
                          h0, before, objs);
      covered := Covered(h0, docs.value, depth, embed - 1, report);
    } else {
      Regroup(before, [], []);
      NothingHeld(h0, agent.secrets, configs, registries, regName, native);
    }
  }

  /** The loop over the resources. */
  method RunEmbedded(resources: seq<Resource>, registries: map<string, Registry>, regName: RegNames, native: Natives,
                     agent: Agent, configs: DockerConfigs, failures: nat -> Failures, ghost depth: nat,
                     ghost embed: nat, ghost h0: Heap, ghost before: seq<Resource>, objs: set<Resource>)
    returns (ghost reports: seq<Report>, ghost covered: seq<Resource>)
    requires AllIn(resources, objs) && Closed(h0) && Bounded(h0, resources, depth, embed)
    requires Settled(h0, Snapshot(objs), before, registries, regName, native)
    modifies objs, agent
    ensures |reports| == |resources| && covered == CoveredEmbedded(h0, resources, depth, embed, reports)
    ensures Settled(h0, Snapshot(objs), before + covered, registries, regName, native)
    ensures AllHeld(h0, covered, agent.secrets, configs, registries, regName, native)
    ensures (forall n :: failures(n) == NO_FAILURES) ==> covered == EmbeddedPodSpecs(h0, resources, depth, embed)
    ensures forall reg :: Holds(old(agent.secrets), reg, configs) ==> Holds(agent.secrets, reg, configs)
    decreases embed, 1
  {
    hide *;
    reports, covered := [], [];
    NothingEmbedded(h0, depth, embed);
    Regroup(before, [], []);
    NothingHeld(h0, agent.secrets, configs, registries, regName, native);
    assert resources[..0] == [];
    for i := 0 to |resources|
      invariant |reports| == i && covered == CoveredEmbedded(h0, resources[..i], depth, embed, reports)
      invariant Settled(h0, Snapshot(objs), before + covered, registries, regName, native)
      invariant AllHeld(h0, covered, agent.secrets, configs, registries, regName, native)
      invariant (forall n :: failures(n) == NO_FAILURES) ==>
        covered == EmbeddedPodSpecs(h0, resources[..i], depth, embed)
      invariant forall reg :: Holds(old(agent.secrets), reg, configs) ==> Holds(agent.secrets, reg, configs)
    {
      ghost var held := agent.secrets;
      KnownResource(resources, i, objs);
      CoveredOneMore(h0, resources, i, depth, embed, reports, Unchanged);
      ghost var report, inner := RenderEmbedded(resources[i], registries, regName, native, agent, configs, failures,
                                                depth, embed, h0, before + covered, objs);
      HeldTogether(h0, covered, inner, held, agent.secrets, configs, registries, regName, native);
      Regroup(before, covered, inner);
      CoveredOneMore(h0, resources, i, depth, embed, reports, report);
      reports := reports + [report];
      covered := covered + inner;
    }
    assert resources[..|resources|] == resources;
  }

  /** The renderer.  Every manifest, the outer one and those embedded in ConfigMaps to any depth, is
      either left as it was or rendered: then in each of its pod specs, reached through nested list
      items, the pull secrets are the renderer's former ones and exactly those of the registries its
      images need a secret for, and each of these exists in the cluster with its registry's config.
      No other field of any object changes, walking the manifests finds the same pod specs, and
      without failures every one of them is covered. */
  method Run(resources: seq<Resource>, registries: map<string, Registry>, regName: RegNames, native: Natives,
             agent: Agent, configs: DockerConfigs, failures: nat -> Failures, ghost depth: nat, ghost embed: nat,
             objs: set<Resource>)
    returns (ok: bool, ghost report: Report)
    requires AllIn(resources, objs) && Closed(Snapshot(objs)) && Bounded(Snapshot(objs), resources, depth, embed)
    modifies objs, agent
    ensures ok <==> report.Rendered?
    ensures !ok ==> Snapshot(objs) == old(Snapshot(objs))
    ensures var h0, h := old(Snapshot(objs)), Snapshot(objs);
            var covered := Covered(h0, resources, depth, embed, report);
            && Settled(h0, h, covered, registries, regName, native)
            && AllHeld(h0, covered, agent.secrets, configs, registries, regName, native)
            && (ok ==> forall p :: p in PodSpecs(h0, resources, depth) ==> p in covered)
            && ((forall n :: failures(n) == NO_FAILURES) ==> covered == AllPodSpecs(h0, resources, depth, embed))
            && AllPodSpecs(h, resources, depth, embed) == AllPodSpecs(h0, resources, depth, embed)
  {
    hide AllHeld, Bounded, Needed, AllPodSpecs;
    ghost var h0 := Snapshot(objs);
    assert Settled(h0, h0, [], registries, regName, native);
    ok, report := RunOn(resources, registries, regName, native, agent, configs, failures, depth, embed, h0, [], objs);
    ghost var covered := Covered(h0, resources, depth, embed, report);
    assert [] + covered == covered;
    SettledSame(h0, Snapshot(objs), covered, registries, regName, native);
    AllPodSpecsSame(h0, Snapshot(objs), resources, depth, embed);
  }
}
