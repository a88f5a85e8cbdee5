/** Stack revisions and how they are cloned: internal/stacks/helpers.go and the reference resolution of
    internal/models/stack.go.  Database row IDs and timestamps are not modelled. */
module Stacks {
  import opened Options

  datatype SourceConfig = SourceConfig(
    uid: string, name: string, displayName: string, imageRepo: string, imageTag: string)

  datatype Template = Template(repoURL: string, name: string, version: string)

  datatype AppResource = AppResource(
    uid: string, name: string, sourceUID: string, template: Template, helmRevision: nat, values: string)

  datatype EnvGroup = EnvGroup(
    uid: string, name: string, version: nat, namespace: string, projectID: nat, clusterID: nat)

  datatype Outcome<+T> =
    | Done(value: T)
    | NoUID         // the random source failed
    | Dangling      // a resource refers to no source config of the list

  /** The UIDs the random source delivers to one call, in order; None is a failure. */
  type UIDs = nat -> Option<string>

  const NO_CONFIG := SourceConfig("", "", "", "", "")

  // ---- Resolving a resource's source config --------------------------------------------------

  /** The index of the first config with this UID, or |configs|. */
  function FirstUID(configs: seq<SourceConfig>, uid: string): (i: nat)
    ensures i <= |configs|
    ensures i < |configs| ==> configs[i].uid == uid
    ensures forall j :: 0 <= j < i ==> configs[j].uid != uid
  {
    if configs == [] || configs[0].uid == uid then 0 else 1 + FirstUID(configs[1..], uid)
  }

  /** The config a resource is shown with: the first one with its UID, or an empty one. */
  function Resolve(r: AppResource, configs: seq<SourceConfig>): SourceConfig {
    var i := FirstUID(configs, r.sourceUID);
    if i < |configs| then configs[i] else NO_CONFIG
  }

  method ToStackResource(r: AppResource, configs: seq<SourceConfig>) returns (linked: SourceConfig)
    ensures linked == Resolve(r, configs)
  {
    linked := NO_CONFIG;
    for i := 0 to |configs|
      invariant linked == NO_CONFIG
      invariant forall j :: 0 <= j < i ==> configs[j].uid != r.sourceUID
    {
      if configs[i].uid == r.sourceUID {
        linked := configs[i];
        break;
      }
    }
  }

  // ---- Cloning -------------------------------------------------------------------------------

  function CloneConfig(c: SourceConfig, uid: string): SourceConfig { c.(uid := uid) }

  function CloneSources(configs: seq<SourceConfig>, uids: UIDs): Outcome<seq<SourceConfig>>
  {
    if configs == [] then Done([])
    else
      var n := |configs| - 1;
      match CloneSources(configs[..n], uids)
      case Done(res) => if uids(n).None? then NoUID else Done(res + [CloneConfig(configs[n], uids(n).value)])
      case error => error
  }

  function LastNamed(configs: seq<SourceConfig>, name: string): Option<SourceConfig> {
    if configs == [] then None
    else if configs[|configs| - 1].name == name then Some(configs[|configs| - 1])
    else LastNamed(configs[..|configs| - 1], name)
  }

  /** The UID the two nested loops leave in linkedSourceConfigUID. */
  function LinkedUID(prev: seq<SourceConfig>, next: seq<SourceConfig>, uid: string): string {
    if prev == [] then ""
    else
      var last := prev[|prev| - 1];
      if last.uid == uid && LastNamed(next, last.name).Some? then LastNamed(next, last.name).value.uid
      else LinkedUID(prev[..|prev| - 1], next, uid)
  }

  /** The template is copied and the values are not. */
  function CloneApp(r: AppResource, uid: string, sourceUID: string): AppResource {
    AppResource(uid, r.name, sourceUID, r.template, r.helmRevision, "")
  }

  function CloneApps(apps: seq<AppResource>, prev: seq<SourceConfig>, next: seq<SourceConfig>, uids: UIDs)
    : Outcome<seq<AppResource>>
  {
    if apps == [] then Done([])
    else
      var n := |apps| - 1;
      match CloneApps(apps[..n], prev, next, uids)
      case Done(res) =>
        var linked := LinkedUID(prev, next, apps[n].sourceUID);
        if uids(n).None? then NoUID
        else if linked == "" then Dangling
        else Done(res + [CloneApp(apps[n], uids(n).value, linked)])
      case error => error
  }

  function CloneEnvGroups(groups: seq<EnvGroup>, uids: UIDs): Outcome<seq<EnvGroup>>
  {
    if groups == [] then Done([])
    else
      var n := |groups| - 1;
      match CloneEnvGroups(groups[..n], uids)
      case Done(res) => if uids(n).None? then NoUID else Done(res + [groups[n].(uid := uids(n).value)])
      case error => error
  }

  /** An outcome that is not Done is final: more elements do not change it. */
  lemma {:induction false} CloneSourcesFails(configs: seq<SourceConfig>, n: nat, uids: UIDs)
    requires n <= |configs| && !CloneSources(configs[..n], uids).Done?
    ensures CloneSources(configs, uids) == CloneSources(configs[..n], uids)
    decreases |configs|
  {
    if n < |configs| {
      assert configs[..|configs| - 1][..n] == configs[..n];
      CloneSourcesFails(configs[..|configs| - 1], n, uids);
    } else {
      assert configs[..n] == configs;
    }
  }

  lemma {:induction false} CloneAppsFails(apps: seq<AppResource>, n: nat, prev: seq<SourceConfig>,
                                          next: seq<SourceConfig>, uids: UIDs)
    requires n <= |apps| && !CloneApps(apps[..n], prev, next, uids).Done?
    ensures CloneApps(apps, prev, next, uids) == CloneApps(apps[..n], prev, next, uids)
    decreases |apps|
  {
    if n < |apps| {
      assert apps[..|apps| - 1][..n] == apps[..n];
      CloneAppsFails(apps[..|apps| - 1], n, prev, next, uids);
    } else {
      assert apps[..n] == apps;
    }
  }

  lemma {:induction false} CloneEnvGroupsFails(groups: seq<EnvGroup>, n: nat, uids: UIDs)
    requires n <= |groups| && !CloneEnvGroups(groups[..n], uids).Done?
    ensures CloneEnvGroups(groups, uids) == CloneEnvGroups(groups[..n], uids)
    decreases |groups|
  {
    if n < |groups| {
      assert groups[..|groups| - 1][..n] == groups[..n];
      CloneEnvGroupsFails(groups[..|groups| - 1], n, uids);
    } else {
      assert groups[..n] == groups;
    }
  }

  // ---- The clone loops -----------------------------------------------------------------------

  method CloneSourceConfigs(configs: seq<SourceConfig>, uids: UIDs) returns (r: Outcome<seq<SourceConfig>>)
    ensures r == CloneSources(configs, uids)
  {
    var res := [];
    for i := 0 to |configs|
      invariant CloneSources(configs[..i], uids) == Done(res)
    {
      assert configs[..i + 1][..i] == configs[..i];
      if uids(i).None? {
        CloneSourcesFails(configs, i + 1, uids);
        return NoUID;
      }
      var c := configs[i];
      res := res + [SourceConfig(uids(i).value, c.name, c.displayName, c.imageRepo, c.imageTag)];
    }
    assert configs[..|configs|] == configs;
    return Done(res);
  }

  method LinkSourceConfig(prev: seq<SourceConfig>, next: seq<SourceConfig>, uid: string) returns (linked: string)
    ensures linked == LinkedUID(prev, next, uid)
  {
    linked := "";
    for i := 0 to |prev|
      invariant linked == LinkedUID(prev[..i], next, uid)
    {
      assert prev[..i + 1][..i] == prev[..i];
      if prev[i].uid == uid {
        ghost var before := linked;
        for j := 0 to |next|
          invariant linked == if LastNamed(next[..j], prev[i].name).Some?
                              then LastNamed(next[..j], prev[i].name).value.uid else before
        {
          assert next[..j + 1][..j] == next[..j];
          if next[j].name == prev[i].name {
            linked := next[j].uid;
          }
        }
        assert next[..|next|] == next;
      }
    }
    assert prev[..|prev|] == prev;
  }

  method CloneAppResources(apps: seq<AppResource>, prev: seq<SourceConfig>, next: seq<SourceConfig>, uids: UIDs)
    returns (r: Outcome<seq<AppResource>>)
    ensures r == CloneApps(apps, prev, next, uids)
  {
    var res := [];
    for i := 0 to |apps|
      invariant CloneApps(apps[..i], prev, next, uids) == Done(res)
    {
      assert apps[..i + 1][..i] == apps[..i];
      if uids(i).None? {
        CloneAppsFails(apps, i + 1, prev, next, uids);
        return NoUID;
      }
      var linked := LinkSourceConfig(prev, next, apps[i].sourceUID);
      if linked == "" {
        CloneAppsFails(apps, i + 1, prev, next, uids);
        return Dangling;
      }
      res := res + [CloneApp(apps[i], uids(i).value, linked)];
    }
    assert apps[..|apps|] == apps;
    return Done(res);
  }

  method CloneStackEnvGroups(groups: seq<EnvGroup>, uids: UIDs) returns (r: Outcome<seq<EnvGroup>>)
    ensures r == CloneEnvGroups(groups, uids)
  {
    var res := [];
    for i := 0 to |groups|
      invariant CloneEnvGroups(groups[..i], uids) == Done(res)
    {
      assert groups[..i + 1][..i] == groups[..i];
      if uids(i).None? {
        CloneEnvGroupsFails(groups, i + 1, uids);
        return NoUID;
      }
      var g := groups[i];
      res := res + [EnvGroup(uids(i).value, g.name, g.version, g.namespace, g.projectID, g.clusterID)];
    }
    assert groups[..|groups|] == groups;
    return Done(res);
  }

  // ---- What a clone means --------------------------------------------------------------------

  /** The random source delivers the first n UIDs: none is empty and no two are equal. */
  ghost predicate FreshUIDs(uids: UIDs, n: nat) {
    && (forall i :: 0 <= i < n ==> uids(i).Some? && uids(i).value != "")
    && (forall i, j :: 0 <= i < j < n ==> uids(i) != uids(j))
  }

  ghost predicate UniqueUIDs(configs: seq<SourceConfig>) {
    forall i, j :: 0 <= i < j < |configs| ==> configs[i].uid != configs[j].uid
  }

  /** Everything about a config but its UID. */
  function Content(c: SourceConfig): SourceConfig { c.(uid := "") }

  predicate Refers(r: AppResource, configs: seq<SourceConfig>) {
    exists j :: 0 <= j < |configs| && configs[j].uid == r.sourceUID
  }

  /** The resource refers to a config, and to the last one of its name. */
  ghost predicate LinksToLast(r: AppResource, configs: seq<SourceConfig>) {
    exists j :: 0 <= j < |configs| && configs[j].uid == r.sourceUID && LastWithName(configs, configs[j].name, j)
  }

  lemma {:induction false} CloneSourcesMeaning(configs: seq<SourceConfig>, uids: UIDs)
    requires FreshUIDs(uids, |configs|)
    ensures var r := CloneSources(configs, uids);
            r.Done? && |r.value| == |configs| &&
            forall i :: 0 <= i < |configs| ==> r.value[i] == CloneConfig(configs[i], uids(i).value)
  {
    if configs != [] {
      CloneSourcesMeaning(configs[..|configs| - 1], uids);
    }
  }

  /** The last index with this UID. */
  ghost predicate LastWithUID(configs: seq<SourceConfig>, uid: string, j: int) {
    0 <= j < |configs| && configs[j].uid == uid && forall k :: j < k < |configs| ==> configs[k].uid != uid
  }

  ghost predicate LastWithName(configs: seq<SourceConfig>, name: string, j: int) {
    0 <= j < |configs| && configs[j].name == name && forall k :: j < k < |configs| ==> configs[k].name != name
  }

  ghost predicate HasName(configs: seq<SourceConfig>, name: string) {
    exists k :: 0 <= k < |configs| && configs[k].name == name
  }

  lemma {:induction false} LastNamedMeaning(configs: seq<SourceConfig>, name: string)
    ensures LastNamed(configs, name).Some? <==> HasName(configs, name)
    ensures LastNamed(configs, name).Some? ==>
            exists k :: LastWithName(configs, name, k) && LastNamed(configs, name) == Some(configs[k])
    ensures forall k :: LastWithName(configs, name, k) ==> LastNamed(configs, name) == Some(configs[k])
  {
    if configs != [] {
      var before, last := configs[..|configs| - 1], |configs| - 1;
      LastNamedMeaning(before, name);
      if configs[last].name == name {
        assert LastWithName(configs, name, last);
      } else {
        forall k ensures LastWithName(configs, name, k) <==> LastWithName(before, name, k) {}
        assert HasName(configs, name) ==> HasName(before, name);
      }
    }
  }

  /** Entry j of the previous configs has this UID and a namesake in the new list. */
  ghost predicate Linkable(prev: seq<SourceConfig>, next: seq<SourceConfig>, uid: string, j: int) {
    0 <= j < |prev| && prev[j].uid == uid && HasName(next, prev[j].name)
  }

  /** There is no such entry. */
  ghost predicate Strays(prev: seq<SourceConfig>, next: seq<SourceConfig>, uid: string) {
    forall j :: !Linkable(prev, next, uid, j)
  }

  /** The last such entry. */
  ghost predicate LastLinkable(prev: seq<SourceConfig>, next: seq<SourceConfig>, uid: string, j: int) {
    Linkable(prev, next, uid, j) && forall l :: j < l ==> !Linkable(prev, next, uid, l)
  }

  lemma {:induction false} LinkMissing(prev: seq<SourceConfig>, next: seq<SourceConfig>, uid: string)
    requires Strays(prev, next, uid)
    ensures LinkedUID(prev, next, uid) == ""
  {
    if prev != [] {
      var before, last := prev[..|prev| - 1], |prev| - 1;
      forall j ensures !Linkable(before, next, uid, j) { assert !Linkable(prev, next, uid, j); }
      LinkMissing(before, next, uid);
      LastNamedMeaning(next, prev[last].name);
      assert !Linkable(prev, next, uid, last);
    }
  }

  lemma {:induction false} LinkLast(prev: seq<SourceConfig>, next: seq<SourceConfig>, uid: string, j: int)
    requires LastLinkable(prev, next, uid, j)
    ensures LastNamed(next, prev[j].name).Some? && LinkedUID(prev, next, uid) == LastNamed(next, prev[j].name).value.uid
  {
    var before, last := prev[..|prev| - 1], |prev| - 1;
    LastNamedMeaning(next, prev[last].name);
    if j < last {
      assert !Linkable(prev, next, uid, last);
      forall l ensures Linkable(before, next, uid, l) <==> l != last && Linkable(prev, next, uid, l) {}
      LinkLast(before, next, uid, j);
    }
  }

  lemma SomeLastLinkable(prev: seq<SourceConfig>, next: seq<SourceConfig>, uid: string, i: int) returns (j: int)
    requires Linkable(prev, next, uid, i)
    ensures LastLinkable(prev, next, uid, j)
  {
    j := |prev| - 1;
    while !Linkable(prev, next, uid, j)
      invariant i <= j < |prev| && forall l :: j < l ==> !Linkable(prev, next, uid, l)
      decreases j
    {
      j := j - 1;
    }
  }

  /** The link a clone gets, whatever the two lists: none exactly when no previous config with the old
      link's UID has a namesake in the new list; else the last namesake of the last such config. */
  lemma LinkMeaning(prev: seq<SourceConfig>, next: seq<SourceConfig>, uid: string)
    requires forall k :: 0 <= k < |next| ==> next[k].uid != ""
    ensures LinkedUID(prev, next, uid) == "" <==> Strays(prev, next, uid)
    ensures forall j, k :: LastLinkable(prev, next, uid, j) && LastWithName(next, prev[j].name, k) ==>
      LinkedUID(prev, next, uid) == next[k].uid
  {
    if i :| Linkable(prev, next, uid, i) {
      var j := SomeLastLinkable(prev, next, uid, i);
      LinkLast(prev, next, uid, j);
      LastNamedMeaning(next, prev[j].name);
    } else {
      LinkMissing(prev, next, uid);
    }
    forall j, k | LastLinkable(prev, next, uid, j) && LastWithName(next, prev[j].name, k)
      ensures LinkedUID(prev, next, uid) == next[k].uid
    {
      LinkLast(prev, next, uid, j);
      LastNamedMeaning(next, prev[j].name);
    }
  }

  /** Whatever the lists, a link that is made goes to the last config of its name in the new list. */
  lemma {:induction false} LinkGoesToLast(prev: seq<SourceConfig>, next: seq<SourceConfig>, uid: string)
    ensures LinkedUID(prev, next, uid) != "" ==>
            exists k :: 0 <= k < |next| && next[k].uid == LinkedUID(prev, next, uid) &&
              LastWithName(next, next[k].name, k)
  {
    if prev != [] {
      LinkGoesToLast(prev[..|prev| - 1], next, uid);
      LastNamedMeaning(next, prev[|prev| - 1].name);
    }
  }

  /** If the new list has the same names, the clone of the last config bearing the name of the last one
      with the old UID; and no link exactly when the old link dangles. */
  lemma CloneLinkMeaning(prev: seq<SourceConfig>, next: seq<SourceConfig>, uid: string)
    requires |next| == |prev| && forall i :: 0 <= i < |prev| ==> next[i].name == prev[i].name && next[i].uid != ""
    ensures LinkedUID(prev, next, uid) == "" <==> forall j :: 0 <= j < |prev| ==> prev[j].uid != uid
    ensures forall j, k :: LastWithUID(prev, uid, j) && LastWithName(prev, prev[j].name, k) ==>
      LinkedUID(prev, next, uid) == next[k].uid
  {
    LinkMeaning(prev, next, uid);
    forall j ensures Linkable(prev, next, uid, j) <==> 0 <= j < |prev| && prev[j].uid == uid {
      assert 0 <= j < |prev| ==> next[j].name == prev[j].name;
    }
    forall j, k | LastWithUID(prev, uid, j) && LastWithName(prev, prev[j].name, k)
      ensures LinkedUID(prev, next, uid) == next[k].uid
    {
      assert LastLinkable(prev, next, uid, j) && LastWithName(next, prev[j].name, k);
    }
  }

  lemma {:induction false} CloneAppsMeaning(apps: seq<AppResource>, prev: seq<SourceConfig>, next: seq<SourceConfig>,
                                            uids: UIDs)
    requires FreshUIDs(uids, |apps|)
    ensures var r := CloneApps(apps, prev, next, uids);
            && (r.Done? <==> forall i :: 0 <= i < |apps| ==> LinkedUID(prev, next, apps[i].sourceUID) != "")
            && (!r.Done? ==> r == Dangling)
            && (r.Done? ==> |r.value| == |apps| && forall i :: 0 <= i < |apps| ==>
                  r.value[i] == CloneApp(apps[i], uids(i).value, LinkedUID(prev, next, apps[i].sourceUID)))
  {
    if apps != [] {
      var n := |apps| - 1;
      CloneAppsMeaning(apps[..n], prev, next, uids);
      assert forall i :: 0 <= i < n ==> apps[..n][i] == apps[i];
    }
  }

  /** Cloning the resources of a revision fails exactly when some resource refers to no source config. */
  lemma CloneFailsIffDangling(apps: seq<AppResource>, configs: seq<SourceConfig>, sourceUIDs: UIDs, appUIDs: UIDs)
    requires FreshUIDs(sourceUIDs, |configs|) && FreshUIDs(appUIDs, |apps|)
    ensures var next := CloneSources(configs, sourceUIDs);
            && next.Done?
            && CloneApps(apps, configs, next.value, appUIDs) != NoUID
            && (CloneApps(apps, configs, next.value, appUIDs) == Dangling <==>
                  exists i :: 0 <= i < |apps| && !Refers(apps[i], configs))
  {
    CloneSourcesMeaning(configs, sourceUIDs);
    var next := CloneSources(configs, sourceUIDs).value;
    CloneAppsMeaning(apps, configs, next, appUIDs);
    forall i | 0 <= i < |apps|
      ensures LinkedUID(configs, next, apps[i].sourceUID) == "" <==> !Refers(apps[i], configs)
    {
      CloneLinkMeaning(configs, next, apps[i].sourceUID);
    }
  }

  /** Cloning resources for any new list of configs fails exactly when some resource's config has no
      namesake in it. */
  lemma CloneFailsIff(apps: seq<AppResource>, prev: seq<SourceConfig>, next: seq<SourceConfig>, uids: UIDs)
    requires FreshUIDs(uids, |apps|) && forall k :: 0 <= k < |next| ==> next[k].uid != ""
    ensures CloneApps(apps, prev, next, uids) != NoUID
    ensures CloneApps(apps, prev, next, uids) == Dangling <==>
            exists i :: 0 <= i < |apps| && Strays(prev, next, apps[i].sourceUID)
  {
    CloneAppsMeaning(apps, prev, next, uids);
    forall i | 0 <= i < |apps|
      ensures LinkedUID(prev, next, apps[i].sourceUID) == "" <==> Strays(prev, next, apps[i].sourceUID)
    {
      LinkMeaning(prev, next, apps[i].sourceUID);
    }
  }

  lemma ClonedUIDsDiffer(configs: seq<SourceConfig>, next: seq<SourceConfig>, uids: UIDs)
    requires FreshUIDs(uids, |configs|) && |next| == |configs|
    requires forall i :: 0 <= i < |configs| ==> next[i] == CloneConfig(configs[i], uids(i).value)
    ensures UniqueUIDs(next)
  {
    forall i, j | 0 <= i < j < |next| ensures next[i].uid != next[j].uid {
      assert uids(i) != uids(j);
    }
  }

  lemma ResolvesToUnique(r: AppResource, configs: seq<SourceConfig>, k: int)
    requires UniqueUIDs(configs) && 0 <= k < |configs| && configs[k].uid == r.sourceUID
    ensures Resolve(r, configs) == configs[k]
  {
    assert FirstUID(configs, r.sourceUID) == k;
  }

  lemma ResolvesToFirst(r: AppResource, configs: seq<SourceConfig>, j: int)
    requires 0 <= j < |configs| && configs[j].uid == r.sourceUID
    ensures FirstUID(configs, r.sourceUID) <= j
    ensures Resolve(r, configs) == configs[FirstUID(configs, r.sourceUID)]
  {
  }

  /** What a cloned resource resolves to, whatever the configs: the clone of the last config bearing the
      name of the last config with the old UID.  So a clone is shown with the same content exactly when
      that config and the first one with the old UID have the same content. */
  lemma CloneResolves(apps: seq<AppResource>, configs: seq<SourceConfig>, sourceUIDs: UIDs, appUIDs: UIDs, i: nat,
                      j: int, k: int)
    requires FreshUIDs(sourceUIDs, |configs|) && FreshUIDs(appUIDs, |apps|) && i < |apps|
    requires forall a :: 0 <= a < |apps| ==> Refers(apps[a], configs)
    requires LastWithUID(configs, apps[i].sourceUID, j) && LastWithName(configs, configs[j].name, k)
    ensures var next := CloneSources(configs, sourceUIDs);
            next.Done? &&
            var clone := CloneApps(apps, configs, next.value, appUIDs);
            && clone.Done? && |clone.value| == |apps| && |next.value| == |configs|
            && Resolve(clone.value[i], next.value) == next.value[k] == CloneConfig(configs[k], sourceUIDs(k).value)
            && (Content(Resolve(clone.value[i], next.value)) == Content(Resolve(apps[i], configs)) <==>
                  Content(configs[k]) == Content(configs[FirstUID(configs, apps[i].sourceUID)]))
  {
    CloneSourcesMeaning(configs, sourceUIDs);
    var next := CloneSources(configs, sourceUIDs).value;
    CloneFailsIffDangling(apps, configs, sourceUIDs, appUIDs);
    CloneAppsMeaning(apps, configs, next, appUIDs);
    CloneLinkMeaning(configs, next, apps[i].sourceUID);
    var clone := CloneApps(apps, configs, next, appUIDs).value;
    hide CloneApps, CloneSources, LinkedUID, Refers, FirstUID, Resolve;
    assert clone[i].sourceUID == next[k].uid;
    ClonedUIDsDiffer(configs, next, sourceUIDs);
    ResolvesToUnique(clone[i], next, k);
    ResolvesToFirst(apps[i], configs, j);
  }

  /** Whatever the lists, every resource that is cloned refers to the last config of a name. */
  lemma {:induction false} CloneLinksToLast(apps: seq<AppResource>, prev: seq<SourceConfig>, next: seq<SourceConfig>,
                                            uids: UIDs)
    requires CloneApps(apps, prev, next, uids).Done?
    ensures var res := CloneApps(apps, prev, next, uids).value;
            |res| == |apps| && forall i :: 0 <= i < |res| ==> LinksToLast(res[i], next)
  {
    if apps != [] {
      CloneLinksToLast(apps[..|apps| - 1], prev, next, uids);
      LinkGoesToLast(prev, next, apps[|apps| - 1].sourceUID);
    }
  }

  /** If UIDs are unique and resources refer to the last config of a name, a clone keeps the meaning of
      every reference: it resolves to the clone of what the original resolved to. */
  lemma ClonePreservesMeaning(apps: seq<AppResource>, configs: seq<SourceConfig>, sourceUIDs: UIDs, appUIDs: UIDs,
                              i: nat)
    requires FreshUIDs(sourceUIDs, |configs|) && FreshUIDs(appUIDs, |apps|) && i < |apps|
    requires UniqueUIDs(configs) && forall a :: 0 <= a < |apps| ==> LinksToLast(apps[a], configs)
    ensures var next := CloneSources(configs, sourceUIDs);
            next.Done? &&
            var clone := CloneApps(apps, configs, next.value, appUIDs);
            && clone.Done? && |clone.value| == |apps|
            && clone.value[i] ==
                 apps[i].(uid := clone.value[i].uid, sourceUID := clone.value[i].sourceUID, values := "")
            && Content(Resolve(clone.value[i], next.value)) == Content(Resolve(apps[i], configs))
  {
    forall a | 0 <= a < |apps| ensures Refers(apps[a], configs) { assert LinksToLast(apps[a], configs); }
    var j :| 0 <= j < |configs| && configs[j].uid == apps[i].sourceUID && LastWithName(configs, configs[j].name, j);
    assert LastWithUID(configs, apps[i].sourceUID, j);
    CloneResolves(apps, configs, sourceUIDs, appUIDs, i, j, j);
    CloneAppsMeaning(apps, configs, CloneSources(configs, sourceUIDs).value, appUIDs);
    ResolvesToUnique(apps[i], configs, j);
  }

  /** A resource linked to an earlier config of a name that occurs twice, which neither creating nor
      cloning a stack makes, would be moved to the later one. */
  lemma EarlierNamesakeMoves(a: SourceConfig, b: SourceConfig, r: AppResource, sourceUIDs: UIDs, appUIDs: UIDs)
    requires FreshUIDs(sourceUIDs, 2) && FreshUIDs(appUIDs, 1)
    requires a.name == b.name && a.uid != b.uid && r.sourceUID == a.uid && Content(a) != Content(b)
    ensures var next := CloneSources([a, b], sourceUIDs);
            next.Done? &&
            var clone := CloneApps([r], [a, b], next.value, appUIDs);
            && clone.Done? && |clone.value| == 1
            && Content(Resolve(clone.value[0], next.value)) == Content(b) != Content(Resolve(r, [a, b]))
  {
    assert [a, b][0].uid == r.sourceUID;
    CloneResolves([r], [a, b], sourceUIDs, appUIDs, 0, 0, 1);
  }
}
