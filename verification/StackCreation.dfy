/** Where stacks come from: the resources and source configs that api/server/handlers/stack makes from a
    client's request.  Names of source configs are not checked for duplicates there. */
module StackCreation {
  import opened Filters
  import opened Options
  import opened Stacks
  import opened StackHistory

  datatype SourceRequest = SourceRequest(
    name: string, displayName: string, imageRepo: string, imageTag: string, isBuild: bool)

  datatype AppRequest = AppRequest(name: string, sourceName: string, template: Template)

  // ---- Source configs ------------------------------------------------------------------------

  /** Configs that are built from source are not created. */
  function CreateSources(requests: seq<SourceRequest>, uids: UIDs): Outcome<seq<SourceConfig>> {
    if requests == [] then Done([])
    else
      var last := requests[|requests| - 1];
      match CreateSources(requests[..|requests| - 1], uids)
      case Done(res) =>
        if last.isBuild then Done(res)
        else if uids(|res|).None? then NoUID
        else Done(res + [SourceConfig(uids(|res|).value, last.name, last.displayName, last.imageRepo, last.imageTag)])
      case error => error
  }

  lemma {:induction false} CreateSourcesFails(requests: seq<SourceRequest>, n: nat, uids: UIDs)
    requires n <= |requests| && !CreateSources(requests[..n], uids).Done?
    ensures CreateSources(requests, uids) == CreateSources(requests[..n], uids)
    decreases |requests|
  {
    if n < |requests| {
      assert requests[..|requests| - 1][..n] == requests[..n];
      CreateSourcesFails(requests[..|requests| - 1], n, uids);
    } else {
      assert requests[..n] == requests;
    }
  }

  method GetSourceConfigModels(requests: seq<SourceRequest>, uids: UIDs) returns (r: Outcome<seq<SourceConfig>>)
    ensures r == CreateSources(requests, uids)
  {
    var res := [];
    for i := 0 to |requests|
      invariant CreateSources(requests[..i], uids) == Done(res)
    {
      assert requests[..i + 1][..i] == requests[..i];
      var c := requests[i];
      if !c.isBuild {
        if uids(|res|).None? {
          CreateSourcesFails(requests, i + 1, uids);
          return NoUID;
        }
        res := res + [SourceConfig(uids(|res|).value, c.name, c.displayName, c.imageRepo, c.imageTag)];
      }
    }
    assert requests[..|requests|] == requests;
    return Done(res);
  }

  lemma {:induction false} CreatedUIDs(requests: seq<SourceRequest>, uids: UIDs)
    requires CreateSources(requests, uids).Done?
    ensures var configs := CreateSources(requests, uids).value;
            forall i :: 0 <= i < |configs| ==> uids(i) == Some(configs[i].uid)
  {
    if requests != [] {
      CreatedUIDs(requests[..|requests| - 1], uids);
    }
  }

  predicate NotBuilt(q: SourceRequest) { !q.isBuild }

  /** The config is what the request asks for, under this UID. */
  ghost predicate Makes(q: SourceRequest, uid: Option<string>, c: SourceConfig) {
    && c.name == q.name && c.displayName == q.displayName
    && c.imageRepo == q.imageRepo && c.imageTag == q.imageTag
    && uid == Some(c.uid)
  }

  lemma {:induction false} CreatedInOrder(requests: seq<SourceRequest>, uids: UIDs)
    ensures var r, asked := CreateSources(requests, uids), Filter(requests, NotBuilt);
            && (r.Done? <==> forall i :: 0 <= i < |asked| ==> uids(i).Some?)
            && r != Dangling
            && (r.Done? ==>
                  |r.value| == |asked| && forall i :: 0 <= i < |asked| ==> Makes(asked[i], uids(i), r.value[i]))
  {
    if requests != [] {
      CreatedInOrder(requests[..|requests| - 1], uids);
    }
  }

  /** The configs are, in order, exactly what the requests that are not built ask for: each such request's
      config comes after as many as there are such requests before it. */
  ghost predicate AreRequested(configs: seq<SourceConfig>, requests: seq<SourceRequest>, uids: UIDs) {
    && |configs| == Rank(requests, |requests|, NotBuilt)
    && forall j :: 0 <= j < |requests| && !requests[j].isBuild ==>
         var k := Rank(requests, j, NotBuilt);
         k < |configs| && Makes(requests[j], uids(k), configs[k])
  }

  /** The created configs are those requested, and creation fails exactly if a UID cannot be made. */
  lemma CreatedSourcesMeaning(requests: seq<SourceRequest>, uids: UIDs)
    ensures var r := CreateSources(requests, uids);
            && (r.Done? <==> forall i :: 0 <= i < Rank(requests, |requests|, NotBuilt) ==> uids(i).Some?)
            && (r.Done? ==> AreRequested(r.value, requests, uids))
            && (!r.Done? ==> r == NoUID)
  {
    hide Rank, Makes;
    CreatedInOrder(requests, uids);
    FilterLength(requests, NotBuilt);
    forall j | 0 <= j < |requests| && !requests[j].isBuild
      ensures Rank(requests, j, NotBuilt) < |Filter(requests, NotBuilt)|
      ensures Filter(requests, NotBuilt)[Rank(requests, j, NotBuilt)] == requests[j]
    {
      FilterMeaning(requests, NotBuilt, j);
    }
  }

  /** Request j is the last one for a source of this name that is not built. */
  ghost predicate LastRequest(requests: seq<SourceRequest>, name: string, j: int) {
    && 0 <= j < |requests| && !requests[j].isBuild && requests[j].name == name
    && forall l :: j < l < |requests| && !requests[l].isBuild ==> requests[l].name != name
  }

  /** The last config of a name is what the last request for it asks for. */
  lemma LastConfigRequested(requests: seq<SourceRequest>, uids: UIDs, name: string, k: nat) returns (j: nat)
    requires CreateSources(requests, uids).Done? && LastWithName(CreateSources(requests, uids).value, name, k)
    ensures LastRequest(requests, name, j) && Makes(requests[j], uids(k), CreateSources(requests, uids).value[k])
  {
    hide Rank;
    var configs := CreateSources(requests, uids).value;
    CreatedInOrder(requests, uids);
    CreatedSourcesMeaning(requests, uids);
    j := FilterOrigin(requests, NotBuilt, k);
    forall l | j < l < |requests| && !requests[l].isBuild ensures requests[l].name != name {
      RankMonotone(requests, j, l, NotBuilt);
      assert configs[Rank(requests, l, NotBuilt)].name == requests[l].name;
    }
  }

  /** Some request that is not built is for a source of this name. */
  ghost predicate Requests(requests: seq<SourceRequest>, name: string) {
    exists j :: 0 <= j < |requests| && !requests[j].isBuild && requests[j].name == name
  }

  lemma NamesRequested(requests: seq<SourceRequest>, uids: UIDs, name: string)
    requires CreateSources(requests, uids).Done?
    ensures HasName(CreateSources(requests, uids).value, name) <==> Requests(requests, name)
  {
    hide Rank;
    var configs := CreateSources(requests, uids).value;
    CreatedInOrder(requests, uids);
    CreatedSourcesMeaning(requests, uids);
    if k :| 0 <= k < |configs| && configs[k].name == name {
      var j := FilterOrigin(requests, NotBuilt, k);
    }
    if j :| 0 <= j < |requests| && !requests[j].isBuild && requests[j].name == name {
      assert configs[Rank(requests, j, NotBuilt)].name == name;
    }
  }

  lemma CreatedUnique(requests: seq<SourceRequest>, uids: UIDs)
    requires Honest(uids) && CreateSources(requests, uids).Done?
    ensures var configs := CreateSources(requests, uids).value;
            UniqueUIDs(configs) && forall k :: 0 <= k < |configs| ==> configs[k].uid != ""
  {
    CreatedUIDs(requests, uids);
    var configs := CreateSources(requests, uids).value;
    forall i, j | 0 <= i < j < |configs| ensures configs[i].uid != configs[j].uid {
      assert uids(i) != uids(j);
    }
  }

  // ---- Resources -----------------------------------------------------------------------------

  /** The UID the loop over the configs leaves behind. */
  function NamedUID(configs: seq<SourceConfig>, name: string): string {
    match LastNamed(configs, name)
    case Some(c) => c.uid
    case None => ""
  }

  function WithDefault(t: Template, defaultRepoURL: string): Template {
    if t.repoURL == "" then t.(repoURL := defaultRepoURL) else t
  }

  function CreateApps(requests: seq<AppRequest>, configs: seq<SourceConfig>, defaultRepoURL: string, uids: UIDs)
    : Outcome<seq<AppResource>>
  {
    if requests == [] then Done([])
    else
      var n := |requests| - 1;
      match CreateApps(requests[..n], configs, defaultRepoURL, uids)
      case Done(res) =>
        var linked := NamedUID(configs, requests[n].sourceName);
        if uids(n).None? then NoUID
        else if linked == "" then Dangling
        else
          var template := WithDefault(requests[n].template, defaultRepoURL);
          Done(res + [AppResource(uids(n).value, requests[n].name, linked, template, 1, "")])
      case error => error
  }

  lemma {:induction false} CreateAppsFails(requests: seq<AppRequest>, configs: seq<SourceConfig>, n: nat,
                                           defaultRepoURL: string, uids: UIDs)
    requires n <= |requests| && !CreateApps(requests[..n], configs, defaultRepoURL, uids).Done?
    ensures CreateApps(requests, configs, defaultRepoURL, uids) ==
            CreateApps(requests[..n], configs, defaultRepoURL, uids)
    decreases |requests|
  {
    if n < |requests| {
      assert requests[..|requests| - 1][..n] == requests[..n];
      CreateAppsFails(requests[..|requests| - 1], configs, n, defaultRepoURL, uids);
    } else {
      assert requests[..n] == requests;
    }
  }

  method FindNamed(configs: seq<SourceConfig>, name: string) returns (linked: string)
    ensures linked == NamedUID(configs, name)
  {
    linked := "";
    for i := 0 to |configs|
      invariant linked == NamedUID(configs[..i], name)
    {
      assert configs[..i + 1][..i] == configs[..i];
      if configs[i].name == name {
        linked := configs[i].uid;
      }
    }
    assert configs[..|configs|] == configs;
  }

  method GetResourceModels(requests: seq<AppRequest>, configs: seq<SourceConfig>, defaultRepoURL: string, uids: UIDs)
    returns (r: Outcome<seq<AppResource>>)
    ensures r == CreateApps(requests, configs, defaultRepoURL, uids)
  {
    var res := [];
    for i := 0 to |requests|
      invariant CreateApps(requests[..i], configs, defaultRepoURL, uids) == Done(res)
    {
      assert requests[..i + 1][..i] == requests[..i];
      var template := WithDefault(requests[i].template, defaultRepoURL);
      if uids(i).None? {
        CreateAppsFails(requests, configs, i + 1, defaultRepoURL, uids);
        return NoUID;
      }
      var linked := FindNamed(configs, requests[i].sourceName);
      if linked == "" {
        CreateAppsFails(requests, configs, i + 1, defaultRepoURL, uids);
        return Dangling;
      }
      res := res + [AppResource(uids(i).value, requests[i].name, linked, template, 1, "")];
    }
    assert requests[..|requests|] == requests;
    return Done(res);
  }

  /** The resource refers to the last config of this name. */
  ghost predicate LinksToNamed(r: AppResource, configs: seq<SourceConfig>, name: string) {
    exists k :: LastWithName(configs, name, k) && configs[k].uid == r.sourceUID
  }

  lemma NamedUIDLinks(r: AppResource, configs: seq<SourceConfig>, name: string)
    requires NamedUID(configs, name) != "" && r.sourceUID == NamedUID(configs, name)
    ensures LinksToNamed(r, configs, name) && LinksToLast(r, configs)
  {
    LastNamedMeaning(configs, name);
  }

  /** Every resource that is created refers to the last config of the name it asked for. */
  lemma {:induction false} CreatedLinksToLast(requests: seq<AppRequest>, configs: seq<SourceConfig>,
                                              defaultRepoURL: string, uids: UIDs)
    requires CreateApps(requests, configs, defaultRepoURL, uids).Done?
    ensures var res := CreateApps(requests, configs, defaultRepoURL, uids).value;
            |res| == |requests| && forall i :: 0 <= i < |res| ==>
              LinksToLast(res[i], configs) && LinksToNamed(res[i], configs, requests[i].sourceName)
  {
    hide LinksToLast, LinksToNamed, NamedUID;
    if requests != [] {
      var n := |requests| - 1;
      CreatedLinksToLast(requests[..n], configs, defaultRepoURL, uids);
      assert forall i :: 0 <= i < n ==> requests[..n][i] == requests[i];
      NamedUIDLinks(CreateApps(requests, configs, defaultRepoURL, uids).value[n], configs, requests[n].sourceName);
    }
  }

  /** The created resources are, in order, what the requests ask for: with the default repository where
      they name none, at Helm revision 1 and without values. */
  lemma {:induction false} CreatedAppsMeaning(requests: seq<AppRequest>, configs: seq<SourceConfig>,
                                              defaultRepoURL: string, uids: UIDs)
    requires CreateApps(requests, configs, defaultRepoURL, uids).Done?
    ensures var res := CreateApps(requests, configs, defaultRepoURL, uids).value;
            |res| == |requests| && forall i :: 0 <= i < |res| ==>
              && uids(i) == Some(res[i].uid) && res[i].name == requests[i].name
              && res[i].template.name == requests[i].template.name
              && res[i].template.version == requests[i].template.version
              && res[i].template.repoURL ==
                   (if requests[i].template.repoURL == "" then defaultRepoURL else requests[i].template.repoURL)
              && res[i].helmRevision == 1 && res[i].values == ""
  {
    if requests != [] {
      CreatedAppsMeaning(requests[..|requests| - 1], configs, defaultRepoURL, uids);
    }
  }

  /** Creating resources succeeds exactly if every one gets a UID and names one of the configs. */
  lemma {:induction false} CreatedAppsIff(requests: seq<AppRequest>, configs: seq<SourceConfig>,
                                          defaultRepoURL: string, uids: UIDs)
    requires forall k :: 0 <= k < |configs| ==> configs[k].uid != ""
    ensures CreateApps(requests, configs, defaultRepoURL, uids).Done? <==>
            forall i :: 0 <= i < |requests| ==> uids(i).Some? && HasName(configs, requests[i].sourceName)
  {
    hide HasName;
    if requests != [] {
      var n := |requests| - 1;
      CreatedAppsIff(requests[..n], configs, defaultRepoURL, uids);
      LastNamedMeaning(configs, requests[n].sourceName);
      assert forall i :: 0 <= i < n ==> requests[..n][i] == requests[i];
      NamedUIDIff(configs, requests[n].sourceName);
    }
  }

  lemma NamedUIDIff(configs: seq<SourceConfig>, name: string)
    requires forall k :: 0 <= k < |configs| ==> configs[k].uid != ""
    ensures NamedUID(configs, name) != "" <==> HasName(configs, name)
  {
    LastNamedMeaning(configs, name);
  }

  // ---- Stacks over their whole life ----------------------------------------------------------

  /** The first revision of a stack. */
  function Created(sources: seq<SourceRequest>, apps: seq<AppRequest>, groups: seq<EnvGroup>, defaultRepoURL: string,
                   sourceUIDs: UIDs, appUIDs: UIDs): Outcome<View>
  {
    match CreateSources(sources, sourceUIDs)
    case Done(configs) =>
      (match CreateApps(apps, configs, defaultRepoURL, appUIDs)
       case Done(resources) => Done(View(1, "deploying", "", resources, configs, groups))
       case NoUID => NoUID
       case Dangling => Dangling)
    case NoUID => NoUID
    case Dangling => Dangling
  }

  /** A stack is created exactly if the random source delivers and every application names a source that
      the client requests and that is not built. */
  lemma CreatedIff(sources: seq<SourceRequest>, apps: seq<AppRequest>, groups: seq<EnvGroup>,
                   defaultRepoURL: string, sourceUIDs: UIDs, appUIDs: UIDs)
    requires Honest(sourceUIDs)
    ensures Created(sources, apps, groups, defaultRepoURL, sourceUIDs, appUIDs).Done? <==>
            && (forall i :: 0 <= i < Rank(sources, |sources|, NotBuilt) ==> sourceUIDs(i).Some?)
            && forall i :: 0 <= i < |apps| ==> appUIDs(i).Some? && Requests(sources, apps[i].sourceName)
  {
    hide Rank, CreateSources, CreateApps, Requests, HasName, AreRequested;
    CreatedSourcesMeaning(sources, sourceUIDs);
    if CreateSources(sources, sourceUIDs).Done? {
      var configs := CreateSources(sources, sourceUIDs).value;
      CreatedUnique(sources, sourceUIDs);
      CreatedAppsIff(apps, configs, defaultRepoURL, appUIDs);
      forall i | 0 <= i < |apps|
        ensures HasName(configs, apps[i].sourceName) <==> Requests(sources, apps[i].sourceName)
      {
        NamesRequested(sources, sourceUIDs, apps[i].sourceName);
      }
    }
  }

  /** Every stack that is created is well-formed, duplicate names of source configs included. */
  lemma CreatedWellFormed(sources: seq<SourceRequest>, apps: seq<AppRequest>, groups: seq<EnvGroup>,
                          defaultRepoURL: string, sourceUIDs: UIDs, appUIDs: UIDs)
    requires Honest(sourceUIDs) && Created(sources, apps, groups, defaultRepoURL, sourceUIDs, appUIDs).Done?
    ensures WellFormed(Created(sources, apps, groups, defaultRepoURL, sourceUIDs, appUIDs).value)
  {
    var configs := CreateSources(sources, sourceUIDs).value;
    CreatedUnique(sources, sourceUIDs);
    CreatedLinksToLast(apps, configs, defaultRepoURL, appUIDs);
  }

  /** Replacing the source configs by a client's unrelated list keeps a stack well-formed, and a resource
      then shows the last namesake, in the new list, of the last of its configs that has one. */
  lemma PutWellFormed(v: View, sources: seq<SourceRequest>, sourceUIDs: UIDs, appUIDs: UIDs)
    requires Honest(sourceUIDs) && Honest(appUIDs) && CreateSources(sources, sourceUIDs).Done?
    requires CloneApps(v.resources, v.sources, CreateSources(sources, sourceUIDs).value, appUIDs).Done?
    ensures var configs := CreateSources(sources, sourceUIDs).value;
            var res := CloneApps(v.resources, v.sources, configs, appUIDs).value;
            && WellFormed(v.(number := v.number + 1, sources := configs, resources := res))
            && |res| == |v.resources|
            && forall i, j, k |
                 && 0 <= i < |res| && LastLinkable(v.sources, configs, v.resources[i].sourceUID, j)
                 && LastWithName(configs, v.sources[j].name, k) ::
                 Resolve(res[i], configs) == configs[k]
  {
    var configs := CreateSources(sources, sourceUIDs).value;
    var res := CloneApps(v.resources, v.sources, configs, appUIDs).value;
    CreatedUnique(sources, sourceUIDs);
    CloneLinksToLast(v.resources, v.sources, configs, appUIDs);
    AppsDelivered(v.resources, v.sources, configs, appUIDs);
    CloneAppsMeaning(v.resources, v.sources, configs, appUIDs);
    hide CloneApps, CreateSources, Resolve, LinkedUID;
    forall i, j, k | 0 <= i < |res| && LastLinkable(v.sources, configs, v.resources[i].sourceUID, j) &&
        LastWithName(configs, v.sources[j].name, k)
      ensures Resolve(res[i], configs) == configs[k]
    {
      LinkMeaning(v.sources, configs, v.resources[i].sourceUID);
      ResolvesToUnique(res[i], configs, k);
    }
  }

  /** Revision v shows application i with the last config of this name. */
  ghost predicate Shows(v: View, i: nat, configs: seq<SourceConfig>, name: string) {
    i < |v.resources| &&
    exists k :: LastWithName(configs, name, k) && Content(Resolve(v.resources[i], v.sources)) == Content(configs[k])
  }

  lemma FirstShows(sources: seq<SourceRequest>, apps: seq<AppRequest>, groups: seq<EnvGroup>,
                   defaultRepoURL: string, sourceUIDs: UIDs, appUIDs: UIDs)
    requires Honest(sourceUIDs) && Created(sources, apps, groups, defaultRepoURL, sourceUIDs, appUIDs).Done?
    ensures var first := Created(sources, apps, groups, defaultRepoURL, sourceUIDs, appUIDs).value;
            && |first.resources| == |apps|
            && forall i :: 0 <= i < |apps| ==> Shows(first, i, first.sources, apps[i].sourceName)
  {
    var first := Created(sources, apps, groups, defaultRepoURL, sourceUIDs, appUIDs).value;
    CreatedWellFormed(sources, apps, groups, defaultRepoURL, sourceUIDs, appUIDs);
    CreatedLinksToLast(apps, first.sources, defaultRepoURL, appUIDs);
    forall i | 0 <= i < |apps| ensures Shows(first, i, first.sources, apps[i].sourceName) {
      assert LinksToNamed(first.resources[i], first.sources, apps[i].sourceName);
      var k :| LastWithName(first.sources, apps[i].sourceName, k) &&
        first.sources[k].uid == first.resources[i].sourceUID;
      ResolvesToUnique(first.resources[i], first.sources, k);
    }
  }

  /** Revision v shows application i with what the last request for a source of this name asks for. */
  ghost predicate ShowsRequested(v: View, i: nat, requests: seq<SourceRequest>, name: string) {
    i < |v.resources| &&
    exists j :: LastRequest(requests, name, j) &&
      var shown := Resolve(v.resources[i], v.sources);
      && shown.name == name && shown.displayName == requests[j].displayName
      && shown.imageRepo == requests[j].imageRepo && shown.imageTag == requests[j].imageTag
  }

  lemma ShownIsRequested(v: View, i: nat, requests: seq<SourceRequest>, uids: UIDs, name: string)
    requires CreateSources(requests, uids).Done? && Shows(v, i, CreateSources(requests, uids).value, name)
    ensures ShowsRequested(v, i, requests, name)
  {
    hide Resolve, CreateSources;
    var configs := CreateSources(requests, uids).value;
    var k :| LastWithName(configs, name, k) &&
      Content(Resolve(v.resources[i], v.sources)) == Content(configs[k]);
    var j := LastConfigRequested(requests, uids, name, k);
    var shown := Resolve(v.resources[i], v.sources);
    assert shown.(uid := "") == configs[k].(uid := "");
    assert shown.name == shown.(uid := "").name && shown.displayName == shown.(uid := "").displayName;
    assert shown.imageRepo == shown.(uid := "").imageRepo && shown.imageTag == shown.(uid := "").imageTag;
  }

  /** The resource has the name and the template of the request. */
  ghost predicate Requested(r: AppResource, app: AppRequest, defaultRepoURL: string) {
    && r.name == app.name && r.template.name == app.template.name && r.template.version == app.template.version
    && r.template.repoURL == (if app.template.repoURL == "" then defaultRepoURL else app.template.repoURL)
  }

  /** Whatever a client asks for: from creation on, over any sequence of hook calls, earlier revisions
      never change, numbers count up from one, and every revision shows each application with the source
      the client named for it: the last one, if the client used the name more than once. */
  lemma CreatedHistory(sources: seq<SourceRequest>, apps: seq<AppRequest>, groups: seq<EnvGroup>,
                       defaultRepoURL: string, sourceUIDs: UIDs, appUIDs: UIDs, calls: seq<(Call, Context)>)
    requires Honest(sourceUIDs) && Created(sources, apps, groups, defaultRepoURL, sourceUIDs, appUIDs).Done?
    requires forall i :: 0 <= i < |calls| ==> HonestContext(calls[i].1)
    ensures var first := Created(sources, apps, groups, defaultRepoURL, sourceUIDs, appUIDs).value;
            var t := AfterCalls([first], calls);
            && CreateSources(sources, sourceUIDs) == Done(first.sources)
            && first.status == "deploying" && first.reason == "" && first.envGroups == groups
            && |t| >= 1 && t[0] == first
            && forall k :: 0 <= k < |t| ==>
                 && t[k].number == k + 1 && |t[k].resources| == |apps|
                 && forall i :: 0 <= i < |apps| ==>
                      && Shows(t[k], i, first.sources, apps[i].sourceName)
                      && ShowsRequested(t[k], i, sources, apps[i].sourceName)
                      && Requested(t[k].resources[i], apps[i], defaultRepoURL)
                      && (k == 0 ==> t[k].resources[i].helmRevision == 1)
  {
    var first := Created(sources, apps, groups, defaultRepoURL, sourceUIDs, appUIDs).value;
    assert first.number == 1 && CreateSources(sources, sourceUIDs) == Done(first.sources);
    CreatedAppsMeaning(apps, first.sources, defaultRepoURL, appUIDs);
    hide Created, WellFormed, AfterCalls, Resolve, CreateSources, CreateApps, ShowsRequested;
    CreatedWellFormed(sources, apps, groups, defaultRepoURL, sourceUIDs, appUIDs);
    FirstShows(sources, apps, groups, defaultRepoURL, sourceUIDs, appUIDs);
    RevisionHistory([first], calls);
    var t := AfterCalls([first], calls);
    assert t[0] == t[..1][0];
    forall k, i | 0 <= k < |t| && 0 <= i < |apps|
      ensures |t[k].resources| == |apps| && Shows(t[k], i, first.sources, apps[i].sourceName)
      ensures ShowsRequested(t[k], i, sources, apps[i].sourceName)
      ensures Requested(t[k].resources[i], apps[i], defaultRepoURL)
    {
      assert Shows(first, i, first.sources, apps[i].sourceName);
      assert k > 0 ==> SameShape(first, t[k]);
      ShownIsRequested(t[k], i, sources, sourceUIDs, apps[i].sourceName);
    }
    forall k | 0 <= k < |t| ensures |t[k].resources| == |apps| { assert k > 0 ==> SameShape(first, t[k]); }
  }
}
