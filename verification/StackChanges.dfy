/** All the ways in which a stack gets a new revision: the two hooks, and the handlers of
    api/server/handlers/stack that replace sources, roll back, and add or remove an application or an
    env group.  What deploying to the cluster then writes into the new revision is not modelled. */
module StackChanges {
  import opened Filters
  import opened Options
  import opened Stacks
  import opened StackHistory
  import opened StackCreation

  datatype Change =
    | Hook(call: Call)
    | PutSources(sources: seq<SourceRequest>)
    | Rollback(target: nat)    // a revision number
    | AddApp(app: AppRequest, defaultRepoURL: string, newUIDs: UIDs)
    | RemoveApp(name: string)
    | AddGroup(group: EnvGroup)
    | RemoveGroup(name: string)

  // ---- The new revision ----------------------------------------------------------------------

  /** The three lists of a revision, cloned. */
  function CloneView(v: View, number: nat, status: string, ctx: Context): Outcome<View> {
    match CloneSources(v.sources, ctx.sourceUIDs)
    case Done(sources) =>
      (match CloneApps(v.resources, v.sources, sources, ctx.appUIDs)
       case Done(apps) =>
         (match CloneEnvGroups(v.envGroups, ctx.groupUIDs)
          case Done(groups) => Done(View(number, status, "", apps, sources, groups))
          case NoUID => NoUID
          case Dangling => Dangling)
       case NoUID => NoUID
       case Dangling => Dangling)
    case NoUID => NoUID
    case Dangling => Dangling
  }

  function WithoutApp(rs: seq<AppResource>, name: string): seq<AppResource> {
    if rs == [] then []
    else WithoutApp(rs[..|rs| - 1], name) + if rs[|rs| - 1].name == name then [] else [rs[|rs| - 1]]
  }

  function WithoutGroup(gs: seq<EnvGroup>, name: string): seq<EnvGroup> {
    if gs == [] then []
    else WithoutGroup(gs[..|gs| - 1], name) + if gs[|gs| - 1].name == name then [] else [gs[|gs| - 1]]
  }

  predicate DuplicateApps(rs: seq<AppResource>) {
    exists i, j :: 0 <= i < j < |rs| && rs[i].name == rs[j].name
  }

  predicate DuplicateGroups(gs: seq<EnvGroup>) {
    exists i, j :: 0 <= i < j < |gs| && gs[i].name == gs[j].name
  }

  /** The index of the revision of this number, or |h|. */
  function IndexOf(h: seq<View>, number: nat): (i: nat)
    ensures i <= |h| && (i < |h| ==> h[i].number == number)
    ensures forall j :: 0 <= j < i ==> h[j].number != number
  {
    if h == [] || h[0].number == number then 0 else 1 + IndexOf(h[1..], number)
  }

  // Each of these is the revision a handler appends, or None if it fails before it gets that far.

  function HookView(latest: View, call: Call, ctx: Context): Option<View> {
    if !ctx.lookup.InStack? then None
    else match Derive(latest, call, ctx)
      case Done(v) => Some(v)
      case _ => None
  }

  function PutView(latest: View, requests: seq<SourceRequest>, ctx: Context): Option<View> {
    match CreateSources(requests, ctx.sourceUIDs)
    case Done(sources) =>
      (match CloneApps(latest.resources, latest.sources, sources, ctx.appUIDs)
       case Done(apps) =>
         Some(View(latest.number + 1, "deploying", latest.reason, apps, sources, latest.envGroups))
       case _ => None)
    case _ => None
  }

  /** The reason stays the target's. */
  function RollbackView(h: seq<View>, latest: View, target: nat, ctx: Context): Option<View> {
    if IndexOf(h, target) == |h| then None
    else match CloneView(h[IndexOf(h, target)], latest.number + 1, "deploying", ctx)
      case Done(v) => Some(v.(reason := h[IndexOf(h, target)].reason))
      case _ => None
  }

  function AddAppView(latest: View, app: AppRequest, defaultRepoURL: string, newUIDs: UIDs, ctx: Context)
    : Option<View>
  {
    match CloneView(latest, latest.number + 1, "deploying", ctx)
    case Done(v) =>
      (match CreateApps([app], v.sources, defaultRepoURL, newUIDs)
       case Done(apps) =>
         if DuplicateApps(v.resources + apps) then None else Some(v.(resources := v.resources + apps))
       case _ => None)
    case _ => None
  }

  function RemoveAppView(latest: View, name: string, ctx: Context): Option<View> {
    match CloneView(latest, latest.number + 1, "deploying", ctx)
    case Done(v) => Some(v.(resources := WithoutApp(v.resources, name)))
    case _ => None
  }

  function AddGroupView(latest: View, group: EnvGroup, ctx: Context): Option<View> {
    match (CloneView(latest, latest.number + 1, "deployed", ctx), ctx.groupUIDs(|latest.envGroups|))
    case (Done(v), Some(uid)) =>
      var groups := v.envGroups + [group.(uid := uid, version := 1)];
      if DuplicateGroups(groups) then None else Some(v.(envGroups := groups))
    case _ => None
  }

  function RemoveGroupView(latest: View, name: string, ctx: Context): Option<View> {
    match CloneView(latest, latest.number + 1, "deploying", ctx)
    case Done(v) => Some(v.(envGroups := WithoutGroup(v.envGroups, name)))
    case _ => None
  }

  function NewView(h: seq<View>, change: Change, ctx: Context): Option<View>
    requires h != []
  {
    var latest := h[Latest(h)];
    match change
    case Hook(call) => HookView(latest, call, ctx)
    case PutSources(sources) => PutView(latest, sources, ctx)
    case Rollback(target) => RollbackView(h, latest, target, ctx)
    case AddApp(app, defaultRepoURL, newUIDs) => AddAppView(latest, app, defaultRepoURL, newUIDs, ctx)
    case RemoveApp(name) => RemoveAppView(latest, name, ctx)
    case AddGroup(group) => AddGroupView(latest, group, ctx)
    case RemoveGroup(name) => RemoveGroupView(latest, name, ctx)
  }

  function Changed(h: seq<View>, change: Change, ctx: Context): seq<View>
    requires h != []
  {
    if NewView(h, change, ctx).None? || !ctx.appendOk then h else h + [NewView(h, change, ctx).value]
  }

  // ---- The handlers' loops -------------------------------------------------------------------

  /** The loop that keeps the other applications. */
  method RemoveAppResource(appResources: seq<AppResource>, name: string) returns (newResources: seq<AppResource>)
    ensures newResources == WithoutApp(appResources, name)
  {
    newResources := [];
    for i := 0 to |appResources|
      invariant newResources == WithoutApp(appResources[..i], name)
    {
      assert appResources[..i + 1][..i] == appResources[..i];
      if appResources[i].name != name {
        newResources := newResources + [appResources[i]];
      }
    }
    assert appResources[..|appResources|] == appResources;
  }

  /** The loop that looks for a name that occurs twice. */
  method HasDuplicateApps(appResources: seq<AppResource>) returns (found: bool)
    ensures found <==> DuplicateApps(appResources)
  {
    var names: set<string> := {};
    for i := 0 to |appResources|
      invariant forall name :: name in names <==> exists k :: 0 <= k < i && appResources[k].name == name
      invariant forall k, l :: 0 <= k < l < i ==> appResources[k].name != appResources[l].name
    {
      if appResources[i].name in names {
        return true;
      }
      names := names + {appResources[i].name};
    }
    return false;
  }

  // ---- What every change keeps ---------------------------------------------------------------

  lemma ClonedLists(v: View, number: nat, status: string, ctx: Context)
    requires HonestContext(ctx) && CloneView(v, number, status, ctx).Done?
    ensures var w := CloneView(v, number, status, ctx).value;
            && w.number == number && w.status == status && w.reason == ""
            && CloneSources(v.sources, ctx.sourceUIDs) == Done(w.sources) && FreshUIDs(ctx.sourceUIDs, |v.sources|)
            && CloneApps(v.resources, v.sources, w.sources, ctx.appUIDs) == Done(w.resources)
            && FreshUIDs(ctx.appUIDs, |v.resources|)
            && CloneEnvGroups(v.envGroups, ctx.groupUIDs) == Done(w.envGroups)
  {
    var w := CloneView(v, number, status, ctx).value;
    SourcesDelivered(v.sources, ctx.sourceUIDs);
    AppsDelivered(v.resources, v.sources, w.sources, ctx.appUIDs);
  }

  /** What a source config says, whatever its UID. */
  ghost predicate SameConfig(c: SourceConfig, d: SourceConfig) {
    c.name == d.name && c.displayName == d.displayName && c.imageRepo == d.imageRepo && c.imageTag == d.imageTag
  }

  /** Resource k of w is resource i of v, at the same Helm revision and showing the same source. */
  ghost predicate KeepsApp(v: View, i: nat, w: View, k: nat) {
    && i < |v.resources| && k < |w.resources|
    && w.resources[k].name == v.resources[i].name && w.resources[k].template == v.resources[i].template
    && w.resources[k].helmRevision == v.resources[i].helmRevision && w.resources[k].values == ""
    && SameConfig(Resolve(w.resources[k], w.sources), Resolve(v.resources[i], v.sources))
  }

  ghost predicate KeepsGroup(v: View, i: nat, w: View, k: nat) {
    && i < |v.envGroups| && k < |w.envGroups|
    && SameGroup(v.envGroups[i], w.envGroups[k]) && w.envGroups[k].version == v.envGroups[i].version
  }

  ghost predicate KeepsSources(v: View, w: View) {
    |w.sources| == |v.sources| && forall i :: 0 <= i < |v.sources| ==> SameConfig(w.sources[i], v.sources[i])
  }

  ghost predicate KeepsApps(v: View, w: View) {
    |w.resources| == |v.resources| && forall i :: 0 <= i < |v.resources| ==> KeepsApp(v, i, w, i)
  }

  ghost predicate KeepsGroups(v: View, w: View) {
    |w.envGroups| == |v.envGroups| && forall i :: 0 <= i < |v.envGroups| ==> KeepsGroup(v, i, w, i)
  }

  lemma ClonedGroups(v: View, number: nat, status: string, ctx: Context)
    requires HonestContext(ctx) && CloneView(v, number, status, ctx).Done?
    ensures var w := CloneView(v, number, status, ctx).value;
            KeepsGroups(v, w) && forall i :: 0 <= i < |w.envGroups| ==> ctx.groupUIDs(i) == Some(w.envGroups[i].uid)
  {
    hide CloneView, HonestContext;
    ClonedLists(v, number, status, ctx);
    GroupsCloned(v.envGroups, ctx.groupUIDs);
  }

  lemma SameContent(c: SourceConfig, d: SourceConfig)
    requires Content(c) == Content(d)
    ensures SameConfig(c, d)
  {
    assert c.name == Content(c).name && c.displayName == Content(c).displayName;
    assert c.imageRepo == Content(c).imageRepo && c.imageTag == Content(c).imageTag;
    assert d.name == Content(d).name && d.displayName == Content(d).displayName;
    assert d.imageRepo == Content(d).imageRepo && d.imageTag == Content(d).imageTag;
  }

  lemma ClonedApp(v: View, number: nat, status: string, ctx: Context, i: nat)
    requires WellFormed(v) && HonestContext(ctx) && CloneView(v, number, status, ctx).Done? && i < |v.resources|
    ensures var w := CloneView(v, number, status, ctx).value;
            && |w.resources| == |v.resources| && KeepsApp(v, i, w, i)
            && ctx.appUIDs(i) == Some(w.resources[i].uid)
  {
    hide CloneView, CloneApps, CloneSources, CloneEnvGroups, Resolve, HonestContext, LinksToLast, FirstUID, Content,
      SameConfig;
    var w := CloneView(v, number, status, ctx).value;
    ClonedLists(v, number, status, ctx);
    ClonePreservesMeaning(v.resources, v.sources, ctx.sourceUIDs, ctx.appUIDs, i);
    CloneAppsMeaning(v.resources, v.sources, w.sources, ctx.appUIDs);
    SameContent(Resolve(w.resources[i], w.sources), Resolve(v.resources[i], v.sources));
  }

  /** Cloning a revision keeps its resources with their Helm revisions and the sources they show, its
      sources, and its env groups with their versions, all under new UIDs. */
  lemma CloneViewMeaning(v: View, number: nat, status: string, ctx: Context)
    requires WellFormed(v) && HonestContext(ctx) && CloneView(v, number, status, ctx).Done?
    ensures var w := CloneView(v, number, status, ctx).value;
            && w.number == number && w.status == status && w.reason == ""
            && WellFormed(w) && KeepsApps(v, w) && KeepsSources(v, w) && KeepsGroups(v, w) && HasNewUIDs(w, ctx)
  {
    hide CloneView, CloneApps, CloneSources, CloneEnvGroups, Resolve, HonestContext, LinksToLast, FreshUIDs, KeepsApp,
      KeepsGroup;
    var w := CloneView(v, number, status, ctx).value;
    ClonedLists(v, number, status, ctx);
    CloneSourcesMeaning(v.sources, ctx.sourceUIDs);
    CloneLinksToLast(v.resources, v.sources, w.sources, ctx.appUIDs);
    ClonedUIDsDiffer(v.sources, w.sources, ctx.sourceUIDs);
    ClonedGroups(v, number, status, ctx);
    forall i | 0 <= i < |v.resources|
      ensures KeepsApp(v, i, w, i) && ctx.appUIDs(i) == Some(w.resources[i].uid)
    {
      ClonedApp(v, number, status, ctx, i);
    }
  }

  /** And it fails exactly when the random source fails. */
  lemma ClonesIff(v: View, number: nat, status: string, ctx: Context)
    requires WellFormed(v) && HonestContext(ctx)
    ensures CloneView(v, number, status, ctx).Done? <==> Delivered(v, ctx)
  {
    if CloneView(v, number, status, ctx).Done? {
      SourcesDelivered(v.sources, ctx.sourceUIDs);
      AppsDelivered(v.resources, v.sources, CloneSources(v.sources, ctx.sourceUIDs).value, ctx.appUIDs);
      GroupsCloned(v.envGroups, ctx.groupUIDs);
    }
    if Delivered(v, ctx) {
      AllClone(v, ctx);
    }
  }

  lemma WithoutAppKeeps(rs: seq<AppResource>, name: string, configs: seq<SourceConfig>)
    requires forall i :: 0 <= i < |rs| ==> LinksToLast(rs[i], configs)
    ensures var res := WithoutApp(rs, name); forall i :: 0 <= i < |res| ==> LinksToLast(res[i], configs)
  {
    hide LinksToLast, WithoutApp, Filter;
    WithoutAppFilters(rs, name);
    FilterMembers(rs, OtherApp(name));
    var res := WithoutApp(rs, name);
    forall i | 0 <= i < |res| ensures LinksToLast(res[i], configs) { assert res[i] in res; }
  }

  /** Every revision of the history is well-formed, and the last one has the highest number. */
  ghost predicate SoundHistory(h: seq<View>) {
    Growing(h) && forall k :: 0 <= k < |h| ==> WellFormed(h[k])
  }

  lemma CloneKeeps(v: View, number: nat, status: string, ctx: Context)
    requires WellFormed(v) && HonestContext(ctx) && CloneView(v, number, status, ctx).Done?
    ensures WellFormed(CloneView(v, number, status, ctx).value)
    ensures CloneView(v, number, status, ctx).value.number == number
  {
    hide *;
    CloneViewMeaning(v, number, status, ctx);
  }

  lemma HookKeeps(v: View, call: Call, ctx: Context)
    requires WellFormed(v) && HonestContext(ctx) && HookView(v, call, ctx).Some?
    ensures WellFormed(HookView(v, call, ctx).value) && HookView(v, call, ctx).value.number == v.number + 1
  {
    hide Derive, WellFormed, HonestContext, SameShape;
    DeriveMeaning(v, call, ctx);
  }

  lemma PutKeeps(v: View, requests: seq<SourceRequest>, ctx: Context)
    requires HonestContext(ctx) && PutView(v, requests, ctx).Some?
    ensures WellFormed(PutView(v, requests, ctx).value) && PutView(v, requests, ctx).value.number == v.number + 1
  {
    PutWellFormed(v, requests, ctx.sourceUIDs, ctx.appUIDs);
  }

  lemma ReasonDoesNotMatter(v: View, reason: string)
    requires WellFormed(v)
    ensures WellFormed(v.(reason := reason))
  {
  }

  lemma RollbackKeeps(h: seq<View>, v: View, target: nat, ctx: Context)
    requires (forall k :: 0 <= k < |h| ==> WellFormed(h[k])) && HonestContext(ctx)
    requires RollbackView(h, v, target, ctx).Some?
    ensures WellFormed(RollbackView(h, v, target, ctx).value)
    ensures RollbackView(h, v, target, ctx).value.number == v.number + 1
  {
    hide WellFormed, HonestContext, CloneView;
    CloneKeeps(h[IndexOf(h, target)], v.number + 1, "deploying", ctx);
    ReasonDoesNotMatter(CloneView(h[IndexOf(h, target)], v.number + 1, "deploying", ctx).value,
                        h[IndexOf(h, target)].reason);
  }

  lemma AddAppKeeps(v: View, app: AppRequest, defaultRepoURL: string, newUIDs: UIDs, ctx: Context)
    requires WellFormed(v) && HonestContext(ctx) && AddAppView(v, app, defaultRepoURL, newUIDs, ctx).Some?
    ensures WellFormed(AddAppView(v, app, defaultRepoURL, newUIDs, ctx).value)
    ensures AddAppView(v, app, defaultRepoURL, newUIDs, ctx).value.number == v.number + 1
  {
    hide CloneView, HonestContext, CreateApps, DuplicateApps;
    CloneKeeps(v, v.number + 1, "deploying", ctx);
    CreatedLinksToLast([app], CloneView(v, v.number + 1, "deploying", ctx).value.sources, defaultRepoURL, newUIDs);
  }

  lemma RemoveAppKeeps(v: View, name: string, ctx: Context)
    requires WellFormed(v) && HonestContext(ctx) && RemoveAppView(v, name, ctx).Some?
    ensures WellFormed(RemoveAppView(v, name, ctx).value) && RemoveAppView(v, name, ctx).value.number == v.number + 1
  {
    hide CloneView, HonestContext;
    CloneKeeps(v, v.number + 1, "deploying", ctx);
    var w := CloneView(v, v.number + 1, "deploying", ctx).value;
    hide LinksToLast, WithoutApp;
    WithoutAppKeeps(w.resources, name, w.sources);
    assert RemoveAppView(v, name, ctx).value == w.(resources := WithoutApp(w.resources, name));
  }

  lemma GroupChangesKeep(v: View, group: EnvGroup, name: string, ctx: Context)
    requires WellFormed(v) && HonestContext(ctx)
    ensures var w := AddGroupView(v, group, ctx); w.Some? ==> WellFormed(w.value) && w.value.number == v.number + 1
    ensures var w := RemoveGroupView(v, name, ctx); w.Some? ==> WellFormed(w.value) && w.value.number == v.number + 1
  {
    hide CloneView, HonestContext, DuplicateGroups;
    if CloneView(v, v.number + 1, "deployed", ctx).Done? {
      CloneKeeps(v, v.number + 1, "deployed", ctx);
    }
    if CloneView(v, v.number + 1, "deploying", ctx).Done? {
      CloneKeeps(v, v.number + 1, "deploying", ctx);
    }
  }

  /** Whatever the change: the new revision is well-formed and numbered one higher than the latest. */
  lemma NewViewMeaning(h: seq<View>, change: Change, ctx: Context)
    requires SoundHistory(h) && HonestContext(ctx) && NewView(h, change, ctx).Some?
    ensures WellFormed(NewView(h, change, ctx).value)
    ensures NewView(h, change, ctx).value.number == h[|h| - 1].number + 1
  {
    hide WellFormed, HonestContext, HookView, PutView, RollbackView, AddAppView, RemoveAppView, AddGroupView,
      RemoveGroupView;
    LatestIsLast(h);
    var latest := h[|h| - 1];
    match change
    case Hook(call) => HookKeeps(latest, call, ctx);
    case PutSources(sources) => PutKeeps(latest, sources, ctx);
    case Rollback(target) => RollbackKeeps(h, latest, target, ctx);
    case AddApp(app, defaultRepoURL, newUIDs) => AddAppKeeps(latest, app, defaultRepoURL, newUIDs, ctx);
    case RemoveApp(name) => RemoveAppKeeps(latest, name, ctx);
    case AddGroup(group) => GroupChangesKeep(latest, group, "", ctx);
    case RemoveGroup(name) => GroupChangesKeep(latest, EnvGroup("", "", 0, "", 0, 0), name, ctx);
  }

  // ---- What each change does -----------------------------------------------------------------

  function OtherApp(name: string): AppResource -> bool { (r: AppResource) => r.name != name }

  function OtherGroup(name: string): EnvGroup -> bool { (g: EnvGroup) => g.name != name }

  /** The sources are those requested, and every application is kept and shows the last requested source
      of the name it showed. */
  ghost predicate SourcesPut(v: View, w: View, requests: seq<SourceRequest>, ctx: Context) {
    && w.status == "deploying" && w.reason == v.reason && w.envGroups == v.envGroups
    && AreRequested(w.sources, requests, ctx.sourceUIDs)
    && |w.resources| == |v.resources|
    && forall i :: 0 <= i < |v.resources| ==>
         && PutsApp(v.resources[i], w.resources[i], ctx.appUIDs(i))
         && ShowsRequested(w, i, requests, Resolve(v.resources[i], v.sources).name)
  }

  ghost predicate PutsApp(r: AppResource, s: AppResource, uid: Option<string>) {
    && s.name == r.name && s.template == r.template && s.helmRevision == r.helmRevision && s.values == ""
    && uid == Some(s.uid)
  }

  ghost predicate RolledBack(v: View, w: View, ctx: Context) {
    && w.status == "deploying" && w.reason == v.reason
    && KeepsApps(v, w) && KeepsSources(v, w) && KeepsGroups(v, w) && HasNewUIDs(w, ctx)
  }

  /** The last application is a new one, as requested and showing the last source of the name it asks for. */
  ghost predicate AppAdded(v: View, w: View, app: AppRequest, defaultRepoURL: string, newUIDs: UIDs) {
    && w.status == "deploying" && w.reason == "" && KeepsSources(v, w) && KeepsGroups(v, w)
    && |w.resources| == |v.resources| + 1
    && (forall i :: 0 <= i < |v.resources| ==> KeepsApp(v, i, w, i))
    && var added := w.resources[|v.resources|];
       && Requested(added, app, defaultRepoURL)
       && added.helmRevision == 1 && added.values == "" && newUIDs(0) == Some(added.uid)
       && ShowsNamed(v, app.sourceName, Resolve(added, w.sources))
  }

  /** The config says what the last one of this name says. */
  ghost predicate ShowsNamed(v: View, name: string, shown: SourceConfig) {
    exists k :: LastWithName(v.sources, name, k) && SameConfig(shown, v.sources[k])
  }

  /** The applications of other names are kept, in order, and no others. */
  ghost predicate AppRemoved(v: View, w: View, name: string) {
    && w.status == "deploying" && w.reason == "" && KeepsSources(v, w) && KeepsGroups(v, w)
    && |w.resources| == Rank(v.resources, |v.resources|, OtherApp(name))
    && (forall k :: 0 <= k < |w.resources| ==> w.resources[k].name != name)
    && forall i :: 0 <= i < |v.resources| && v.resources[i].name != name ==>
         KeepsApp(v, i, w, Rank(v.resources, i, OtherApp(name)))
  }

  ghost predicate GroupAdded(v: View, w: View, group: EnvGroup, ctx: Context) {
    && w.status == "deployed" && w.reason == "" && KeepsApps(v, w) && KeepsSources(v, w)
    && |w.envGroups| == |v.envGroups| + 1
    && (forall i :: 0 <= i < |v.envGroups| ==> KeepsGroup(v, i, w, i))
    && var added := w.envGroups[|v.envGroups|];
       SameGroup(group, added) && added.version == 1 && ctx.groupUIDs(|v.envGroups|) == Some(added.uid)
  }

  ghost predicate GroupRemoved(v: View, w: View, name: string) {
    && w.status == "deploying" && w.reason == "" && KeepsApps(v, w) && KeepsSources(v, w)
    && |w.envGroups| == Rank(v.envGroups, |v.envGroups|, OtherGroup(name))
    && (forall k :: 0 <= k < |w.envGroups| ==> w.envGroups[k].name != name)
    && forall i :: 0 <= i < |v.envGroups| && v.envGroups[i].name != name ==>
         KeepsGroup(v, i, w, Rank(v.envGroups, i, OtherGroup(name)))
  }

  /** What the change makes of the history: w compared with the latest revision, or with the target of
      a rollback. */
  ghost predicate IsMadeBy(h: seq<View>, w: View, change: Change, ctx: Context)
    requires h != []
  {
    var v := h[|h| - 1];
    match change
    case Hook(call) => SameShape(v, w) && HasEffect(v, w, call) && HasNewUIDs(w, ctx)
    case PutSources(requests) => SourcesPut(v, w, requests, ctx)
    case Rollback(target) => exists k :: 0 <= k < |h| && h[k].number == target && RolledBack(h[k], w, ctx)
    case AddApp(app, defaultRepoURL, newUIDs) => AppAdded(v, w, app, defaultRepoURL, newUIDs)
    case RemoveApp(name) => AppRemoved(v, w, name)
    case AddGroup(group) => GroupAdded(v, w, group, ctx)
    case RemoveGroup(name) => GroupRemoved(v, w, name)
  }

  /** The change can be made: the random source delivers, and the client asks for what there is. */
  ghost predicate CanMake(h: seq<View>, change: Change, ctx: Context)
    requires h != []
  {
    var v := h[|h| - 1];
    match change
    case Hook(_) => ctx.lookup.InStack? && Delivered(v, ctx)
    case PutSources(requests) =>
      && (forall i :: 0 <= i < Rank(requests, |requests|, NotBuilt) ==> ctx.sourceUIDs(i).Some?)
      && forall i :: 0 <= i < |v.resources| ==>
           ctx.appUIDs(i).Some? && Requests(requests, Resolve(v.resources[i], v.sources).name)
    case Rollback(target) => exists k :: 0 <= k < |h| && h[k].number == target && Delivered(h[k], ctx)
    case AddApp(app, _, newUIDs) =>
      && Delivered(v, ctx) && newUIDs(0).Some? && HasName(v.sources, app.sourceName)
      && !DuplicateApps(v.resources) && forall i :: 0 <= i < |v.resources| ==> v.resources[i].name != app.name
    case AddGroup(group) =>
      && Delivered(v, ctx) && ctx.groupUIDs(|v.envGroups|).Some?
      && !DuplicateGroups(v.envGroups) && forall i :: 0 <= i < |v.envGroups| ==> v.envGroups[i].name != group.name
    case _ => Delivered(v, ctx)
  }

  lemma {:induction false} WithoutAppFilters(rs: seq<AppResource>, name: string)
    ensures WithoutApp(rs, name) == Filter(rs, OtherApp(name))
  {
    if rs != [] {
      WithoutAppFilters(rs[..|rs| - 1], name);
    }
  }

  lemma {:induction false} WithoutGroupFilters(gs: seq<EnvGroup>, name: string)
    ensures WithoutGroup(gs, name) == Filter(gs, OtherGroup(name))
  {
    if gs != [] {
      WithoutGroupFilters(gs[..|gs| - 1], name);
    }
  }

  lemma KeptNames(v: View, w: View)
    requires KeepsApps(v, w) && KeepsGroups(v, w)
    ensures forall i :: 0 <= i < |v.resources| ==> w.resources[i].name == v.resources[i].name
    ensures forall i :: 0 <= i < |v.envGroups| ==> w.envGroups[i].name == v.envGroups[i].name
  {
    forall i | 0 <= i < |v.resources| ensures w.resources[i].name == v.resources[i].name {
      assert KeepsApp(v, i, w, i);
    }
    forall i | 0 <= i < |v.envGroups| ensures w.envGroups[i].name == v.envGroups[i].name {
      assert KeepsGroup(v, i, w, i);
    }
  }

  /** What a clone keeps is kept in a revision that has it in another place. */
  lemma AppStays(v: View, i: nat, c: View, w: View, k: nat)
    requires KeepsApps(v, c) && i < |v.resources|
    requires w.sources == c.sources && k < |w.resources| && w.resources[k] == c.resources[i]
    ensures KeepsApp(v, i, w, k)
  {
    assert KeepsApp(v, i, c, i);
  }

  lemma GroupStays(v: View, i: nat, c: View, w: View, k: nat)
    requires KeepsGroups(v, c) && i < |v.envGroups| && k < |w.envGroups| && w.envGroups[k] == c.envGroups[i]
    ensures KeepsGroup(v, i, w, k)
  {
    assert KeepsGroup(v, i, c, i);
  }

  lemma AppsStay(v: View, c: View, w: View)
    requires KeepsApps(v, c) && w.sources == c.sources && |c.resources| <= |w.resources|
    requires w.resources[..|c.resources|] == c.resources
    ensures forall i :: 0 <= i < |v.resources| ==> KeepsApp(v, i, w, i)
  {
    forall i | 0 <= i < |v.resources| ensures KeepsApp(v, i, w, i) {
      assert w.resources[i] == w.resources[..|c.resources|][i];
      AppStays(v, i, c, w, i);
    }
  }

  lemma GroupsStay(v: View, c: View, w: View)
    requires KeepsGroups(v, c) && |c.envGroups| <= |w.envGroups| && w.envGroups[..|c.envGroups|] == c.envGroups
    ensures forall i :: 0 <= i < |v.envGroups| ==> KeepsGroup(v, i, w, i)
  {
    forall i | 0 <= i < |v.envGroups| ensures KeepsGroup(v, i, w, i) {
      assert w.envGroups[i] == w.envGroups[..|c.envGroups|][i];
      GroupStays(v, i, c, w, i);
    }
  }

  lemma SourcesStay(v: View, c: View, w: View)
    requires KeepsSources(v, c) && w.sources == c.sources
    ensures KeepsSources(v, w)
  {
  }

  lemma RemovesApp(v: View, name: string, ctx: Context)
    requires WellFormed(v) && HonestContext(ctx) && RemoveAppView(v, name, ctx).Some?
    ensures AppRemoved(v, RemoveAppView(v, name, ctx).value, name)
  {
    hide CloneView, WellFormed, HonestContext, WithoutApp, Rank, Filter, KeepsApp, KeepsApps, KeepsSources;
    CloneViewMeaning(v, v.number + 1, "deploying", ctx);
    var c := CloneView(v, v.number + 1, "deploying", ctx).value;
    var w := RemoveAppView(v, name, ctx).value;
    var rs := c.resources;
    KeptNames(v, c);
    SourcesStay(v, c, w);
    GroupsStay(v, c, w);
    WithoutAppFilters(rs, name);
    FilterLength(rs, OtherApp(name));
    FilterMembers(rs, OtherApp(name));
    assert |rs| == |v.resources| by { KeptCount(v, c); }
    SameRank(v.resources, rs, |rs|, OtherApp(name));
    forall k | 0 <= k < |w.resources| ensures w.resources[k].name != name {
      assert w.resources[k] in w.resources;
    }
    forall i | 0 <= i < |v.resources| && v.resources[i].name != name
      ensures KeepsApp(v, i, w, Rank(v.resources, i, OtherApp(name)))
    {
      SameRank(v.resources, rs, i, OtherApp(name));
      FilterMeaning(rs, OtherApp(name), i);
      AppStays(v, i, c, w, Rank(v.resources, i, OtherApp(name)));
    }
  }

  lemma KeptCount(v: View, w: View)
    requires KeepsApps(v, w)
    ensures |w.resources| == |v.resources|
  {
  }

  lemma RemovesGroup(v: View, name: string, ctx: Context)
    requires WellFormed(v) && HonestContext(ctx) && RemoveGroupView(v, name, ctx).Some?
    ensures GroupRemoved(v, RemoveGroupView(v, name, ctx).value, name)
  {
    hide CloneView, WellFormed, HonestContext, WithoutGroup, Rank, Filter, KeepsGroup, KeepsApp, KeepsSources;
    CloneViewMeaning(v, v.number + 1, "deploying", ctx);
    var c := CloneView(v, v.number + 1, "deploying", ctx).value;
    var w := RemoveGroupView(v, name, ctx).value;
    var gs := c.envGroups;
    KeptNames(v, c);
    SourcesStay(v, c, w);
    AppsStay(v, c, w);
    WithoutGroupFilters(gs, name);
    FilterLength(gs, OtherGroup(name));
    FilterMembers(gs, OtherGroup(name));
    SameRank(v.envGroups, gs, |gs|, OtherGroup(name));
    forall k | 0 <= k < |w.envGroups| ensures w.envGroups[k].name != name {
      assert w.envGroups[k] in w.envGroups;
    }
    forall i | 0 <= i < |v.envGroups| && v.envGroups[i].name != name
      ensures KeepsGroup(v, i, w, Rank(v.envGroups, i, OtherGroup(name)))
    {
      SameRank(v.envGroups, gs, i, OtherGroup(name));
      FilterMeaning(gs, OtherGroup(name), i);
      GroupStays(v, i, c, w, Rank(v.envGroups, i, OtherGroup(name)));
    }
  }

  lemma SameNames(v: View, w: View, name: string)
    requires KeepsSources(v, w)
    ensures HasName(v.sources, name) <==> HasName(w.sources, name)
    ensures forall k :: LastWithName(v.sources, name, k) <==> LastWithName(w.sources, name, k)
  {
  }

  lemma AddsApp(v: View, app: AppRequest, defaultRepoURL: string, newUIDs: UIDs, ctx: Context)
    requires WellFormed(v) && HonestContext(ctx) && AddAppView(v, app, defaultRepoURL, newUIDs, ctx).Some?
    ensures AppAdded(v, AddAppView(v, app, defaultRepoURL, newUIDs, ctx).value, app, defaultRepoURL, newUIDs)
  {
    hide CloneView, HonestContext, CreateApps, DuplicateApps, KeepsApp, KeepsGroup, KeepsSources, ShowsNamed,
      LinksToNamed, LinksToLast;
    var c := CloneView(v, v.number + 1, "deploying", ctx).value;
    CloneViewMeaning(v, v.number + 1, "deploying", ctx);
    CreatedAppsMeaning([app], c.sources, defaultRepoURL, newUIDs);
    CreatedLinksToLast([app], c.sources, defaultRepoURL, newUIDs);
    var w := AddAppView(v, app, defaultRepoURL, newUIDs, ctx).value;
    AppsStay(v, c, w);
    GroupsStay(v, c, w);
    SourcesStay(v, c, w);
    ShowsLastNamed(v, w, w.resources[|v.resources|], app.sourceName);
  }

  lemma ShowsLastNamed(v: View, w: View, r: AppResource, name: string)
    requires KeepsSources(v, w) && UniqueUIDs(w.sources) && LinksToNamed(r, w.sources, name)
    ensures ShowsNamed(v, name, Resolve(r, w.sources))
  {
    var k :| LastWithName(w.sources, name, k) && w.sources[k].uid == r.sourceUID;
    hide Resolve;
    ResolvesToUnique(r, w.sources, k);
    SameNames(v, w, name);
  }

  lemma AddsAppIff(v: View, app: AppRequest, defaultRepoURL: string, newUIDs: UIDs, ctx: Context)
    requires WellFormed(v) && HonestContext(ctx)
    ensures AddAppView(v, app, defaultRepoURL, newUIDs, ctx).Some? <==>
            && Delivered(v, ctx) && newUIDs(0).Some? && HasName(v.sources, app.sourceName)
            && !DuplicateApps(v.resources) && forall i :: 0 <= i < |v.resources| ==> v.resources[i].name != app.name
  {
    hide CloneView, Delivered, CreateApps, HasName, DuplicateApps, KeepsApp, KeepsGroup;
    ClonesIff(v, v.number + 1, "deploying", ctx);
    if Delivered(v, ctx) {
      CloneViewMeaning(v, v.number + 1, "deploying", ctx);
      var c := CloneView(v, v.number + 1, "deploying", ctx).value;
      CreatedAppsIff([app], c.sources, defaultRepoURL, newUIDs);
      SameNames(v, c, app.sourceName);
      KeptNames(v, c);
      if CreateApps([app], c.sources, defaultRepoURL, newUIDs).Done? {
        CreatedAppsMeaning([app], c.sources, defaultRepoURL, newUIDs);
        OneMoreApp(v.resources, c.resources, CreateApps([app], c.sources, defaultRepoURL, newUIDs).value, app.name);
      }
    }
  }

  lemma OneMoreApp(before: seq<AppResource>, rs: seq<AppResource>, added: seq<AppResource>, name: string)
    requires |rs| == |before| && forall i :: 0 <= i < |rs| ==> rs[i].name == before[i].name
    requires |added| == 1 && added[0].name == name
    ensures DuplicateApps(rs + added) <==>
            DuplicateApps(before) || exists i :: 0 <= i < |before| && before[i].name == name
  {
    var all := rs + added;
    if i, j :| 0 <= i < j < |before| && before[i].name == before[j].name {
      assert all[i].name == all[j].name;
    }
    if i :| 0 <= i < |before| && before[i].name == name {
      assert all[i].name == all[|rs|].name;
    }
  }

  lemma OneMoreGroup(before: seq<EnvGroup>, gs: seq<EnvGroup>, added: EnvGroup, name: string)
    requires |gs| == |before| && forall i :: 0 <= i < |gs| ==> gs[i].name == before[i].name
    requires added.name == name
    ensures DuplicateGroups(gs + [added]) <==>
            DuplicateGroups(before) || exists i :: 0 <= i < |before| && before[i].name == name
  {
    var all := gs + [added];
    if i, j :| 0 <= i < j < |before| && before[i].name == before[j].name {
      assert all[i].name == all[j].name;
    }
    if i :| 0 <= i < |before| && before[i].name == name {
      assert all[i].name == all[|gs|].name;
    }
  }

  lemma AddsGroup(v: View, group: EnvGroup, ctx: Context)
    requires WellFormed(v) && HonestContext(ctx)
    ensures AddGroupView(v, group, ctx).Some? ==> GroupAdded(v, AddGroupView(v, group, ctx).value, group, ctx)
    ensures AddGroupView(v, group, ctx).Some? <==>
            && Delivered(v, ctx) && ctx.groupUIDs(|v.envGroups|).Some?
            && !DuplicateGroups(v.envGroups) && forall i :: 0 <= i < |v.envGroups| ==> v.envGroups[i].name != group.name
  {
    hide CloneView, Delivered, WellFormed, HonestContext, DuplicateGroups, KeepsApp, KeepsGroup, KeepsSources;
    ClonesIff(v, v.number + 1, "deployed", ctx);
    if Delivered(v, ctx) && ctx.groupUIDs(|v.envGroups|).Some? {
      CloneViewMeaning(v, v.number + 1, "deployed", ctx);
      var c := CloneView(v, v.number + 1, "deployed", ctx).value;
      var added := group.(uid := ctx.groupUIDs(|v.envGroups|).value, version := 1);
      KeptNames(v, c);
      OneMoreGroup(v.envGroups, c.envGroups, added, group.name);
      if AddGroupView(v, group, ctx).Some? {
        var w := AddGroupView(v, group, ctx).value;
        AppsStay(v, c, w);
        GroupsStay(v, c, w);
        SourcesStay(v, c, w);
      }
    }
  }

  lemma OnlyLinkable(prev: seq<SourceConfig>, next: seq<SourceConfig>, uid: string, j: int)
    requires UniqueUIDs(prev) && 0 <= j < |prev| && prev[j].uid == uid
    ensures Strays(prev, next, uid) <==> !HasName(next, prev[j].name)
    ensures HasName(next, prev[j].name) ==> LastLinkable(prev, next, uid, j)
  {
    hide HasName;
    assert Linkable(prev, next, uid, j) <==> HasName(next, prev[j].name);
  }

  /** A resource is linked to a new list exactly if the list has a namesake of the source it showed, and
      the link is to the last one. */
  lemma {:induction false} LinksNamesake(v: View, next: seq<SourceConfig>, i: nat)
    requires WellFormed(v) && i < |v.resources| && forall k :: 0 <= k < |next| ==> next[k].uid != ""
    ensures var name, linked := Resolve(v.resources[i], v.sources).name,
                                LinkedUID(v.sources, next, v.resources[i].sourceUID);
            && (linked != "" <==> HasName(next, name))
            && (linked != "" ==> exists k :: LastWithName(next, name, k) && next[k].uid == linked)
  {
    hide Resolve, LinkedUID, FirstUID, LastNamed, HasName, LastLinkable, Strays;
    var r := v.resources[i];
    assert LinksToLast(r, v.sources);
    var j :| 0 <= j < |v.sources| && v.sources[j].uid == r.sourceUID;
    ResolvesToUnique(r, v.sources, j);
    OnlyLinkable(v.sources, next, r.sourceUID, j);
    LinkMeaning(v.sources, next, r.sourceUID);
    LastNamedMeaning(next, v.sources[j].name);
  }

  lemma {:induction false} PutsIff(v: View, requests: seq<SourceRequest>, uids: UIDs, i: nat)
    requires WellFormed(v) && i < |v.resources| && Honest(uids) && CreateSources(requests, uids).Done?
    ensures LinkedUID(v.sources, CreateSources(requests, uids).value, v.resources[i].sourceUID) != "" <==>
            Requests(requests, Resolve(v.resources[i], v.sources).name)
  {
    hide *;
    CreatedUnique(requests, uids);
    LinksNamesake(v, CreateSources(requests, uids).value, i);
    NamesRequested(requests, uids, Resolve(v.resources[i], v.sources).name);
  }

  /** A resource with such a link shows what the last request for the source asks for. */
  lemma {:induction false} PutShows(v: View, w: View, requests: seq<SourceRequest>, uids: UIDs, i: nat)
    requires WellFormed(v) && i < |v.resources| && Honest(uids) && CreateSources(requests, uids) == Done(w.sources)
    requires i < |w.resources| && w.resources[i].sourceUID != ""
    requires w.resources[i].sourceUID == LinkedUID(v.sources, w.sources, v.resources[i].sourceUID)
    ensures ShowsRequested(w, i, requests, Resolve(v.resources[i], v.sources).name)
  {
    hide Resolve, LinkedUID, CreateSources, Honest, WellFormed, LastRequest;
    CreatedUnique(requests, uids);
    LinksNamesake(v, w.sources, i);
    var name := Resolve(v.resources[i], v.sources).name;
    var k :| LastWithName(w.sources, name, k) && w.sources[k].uid == w.resources[i].sourceUID;
    ResolvesToUnique(w.resources[i], w.sources, k);
    var j := LastConfigRequested(requests, uids, name, k);
  }

  lemma {:induction false} PutLists(v: View, requests: seq<SourceRequest>, ctx: Context)
    requires HonestContext(ctx) && PutView(v, requests, ctx).Some?
    ensures var w := PutView(v, requests, ctx).value;
            && w.status == "deploying" && w.reason == v.reason && w.envGroups == v.envGroups
            && CreateSources(requests, ctx.sourceUIDs) == Done(w.sources)
            && |w.resources| == |v.resources|
            && forall i :: 0 <= i < |v.resources| ==>
                 var linked := LinkedUID(v.sources, w.sources, v.resources[i].sourceUID);
                 && linked != "" && ctx.appUIDs(i).Some?
                 && w.resources[i] == CloneApp(v.resources[i], ctx.appUIDs(i).value, linked)
  {
    hide CreateSources, LinkedUID;
    var w := PutView(v, requests, ctx).value;
    AppsDelivered(v.resources, v.sources, w.sources, ctx.appUIDs);
    CloneAppsMeaning(v.resources, v.sources, w.sources, ctx.appUIDs);
  }

  lemma {:induction false} PutsSources(v: View, requests: seq<SourceRequest>, ctx: Context)
    requires WellFormed(v) && HonestContext(ctx) && PutView(v, requests, ctx).Some?
    ensures SourcesPut(v, PutView(v, requests, ctx).value, requests, ctx)
  {
    hide PutView, AreRequested, CreateSources, ShowsRequested, LinkedUID, WellFormed, Resolve, Honest;
    var w := PutView(v, requests, ctx).value;
    CreatedSourcesMeaning(requests, ctx.sourceUIDs);
    PutLists(v, requests, ctx);
    forall i | 0 <= i < |v.resources|
      ensures ShowsRequested(w, i, requests, Resolve(v.resources[i], v.sources).name)
    {
      PutShows(v, w, requests, ctx.sourceUIDs, i);
    }
  }

  lemma {:induction false} PutsSourcesIff(v: View, requests: seq<SourceRequest>, ctx: Context)
    requires WellFormed(v) && HonestContext(ctx)
    ensures PutView(v, requests, ctx).Some? <==>
            && (forall i :: 0 <= i < Rank(requests, |requests|, NotBuilt) ==> ctx.sourceUIDs(i).Some?)
            && forall i :: 0 <= i < |v.resources| ==>
                 ctx.appUIDs(i).Some? && Requests(requests, Resolve(v.resources[i], v.sources).name)
  {
    CreatedSourcesMeaning(requests, ctx.sourceUIDs);
    hide AreRequested, CreateSources, CloneApps, Rank, LinkedUID, Requests, Resolve, WellFormed;
    if CreateSources(requests, ctx.sourceUIDs).Done? {
      var configs := CreateSources(requests, ctx.sourceUIDs).value;
      if CloneApps(v.resources, v.sources, configs, ctx.appUIDs).Done? {
        AppsDelivered(v.resources, v.sources, configs, ctx.appUIDs);
      }
      if forall i :: 0 <= i < |v.resources| ==> ctx.appUIDs(i).Some? {
        CloneAppsMeaning(v.resources, v.sources, configs, ctx.appUIDs);
      }
      forall i | 0 <= i < |v.resources|
        ensures LinkedUID(v.sources, configs, v.resources[i].sourceUID) != "" <==>
                Requests(requests, Resolve(v.resources[i], v.sources).name)
      {
        PutsIff(v, requests, ctx.sourceUIDs, i);
      }
    }
  }

  lemma RollsBack(h: seq<View>, target: nat, ctx: Context)
    requires SoundHistory(h) && HonestContext(ctx)
    ensures var w := RollbackView(h, h[|h| - 1], target, ctx);
            && (w.Some? <==> exists k :: 0 <= k < |h| && h[k].number == target && Delivered(h[k], ctx))
            && (w.Some? ==> exists k :: 0 <= k < |h| && h[k].number == target && RolledBack(h[k], w.value, ctx))
  {
    var k := IndexOf(h, target);
    hide CloneView, Delivered, WellFormed, HonestContext, KeepsApp, KeepsGroup, SameConfig;
    if k < |h| {
      ClonesIff(h[k], h[|h| - 1].number + 1, "deploying", ctx);
      if CloneView(h[k], h[|h| - 1].number + 1, "deploying", ctx).Done? {
        CloneViewMeaning(h[k], h[|h| - 1].number + 1, "deploying", ctx);
        var c := CloneView(h[k], h[|h| - 1].number + 1, "deploying", ctx).value;
        var w := RollbackView(h, h[|h| - 1], target, ctx).value;
        AppsStay(h[k], c, w);
        GroupsStay(h[k], c, w);
        SourcesStay(h[k], c, w);
      }
    }
  }

  lemma HookMakes(v: View, call: Call, ctx: Context)
    requires WellFormed(v) && HonestContext(ctx)
    ensures HookView(v, call, ctx).Some? <==> ctx.lookup.InStack? && Delivered(v, ctx)
    ensures var w := HookView(v, call, ctx);
            w.Some? ==> SameShape(v, w.value) && HasEffect(v, w.value, call) && HasNewUIDs(w.value, ctx)
  {
    hide Derive, WellFormed, HonestContext, Delivered, SameShape, HasEffect, HasNewUIDs;
    DerivesIff(v, call, ctx);
    if Derive(v, call, ctx).Done? {
      DeriveMeaning(v, call, ctx);
    }
  }

  lemma RemovalsIff(v: View, name: string, ctx: Context)
    requires WellFormed(v) && HonestContext(ctx)
    ensures RemoveAppView(v, name, ctx).Some? <==> Delivered(v, ctx)
    ensures RemoveGroupView(v, name, ctx).Some? <==> Delivered(v, ctx)
  {
    hide CloneView, WellFormed, HonestContext, Delivered;
    ClonesIff(v, v.number + 1, "deploying", ctx);
  }

  /** A change is made exactly if it can be, and makes what it should. */
  lemma MakesChange(h: seq<View>, change: Change, ctx: Context)
    requires SoundHistory(h) && HonestContext(ctx)
    ensures NewView(h, change, ctx).Some? <==> CanMake(h, change, ctx)
    ensures NewView(h, change, ctx).Some? ==> IsMadeBy(h, NewView(h, change, ctx).value, change, ctx)
  {
    LatestIsLast(h);
    var v := h[|h| - 1];
    hide WellFormed, HonestContext, HookView, PutView, RollbackView, AddAppView, RemoveAppView, AddGroupView,
      RemoveGroupView, Delivered, SameShape, HasEffect, HasNewUIDs, SourcesPut, RolledBack, AppAdded, AppRemoved,
      GroupAdded, GroupRemoved, Resolve, Requests, Rank, DuplicateApps, DuplicateGroups, HasName, Growing;
    match change
    case Hook(call) =>
      HookMakes(v, call, ctx);
    case PutSources(requests) =>
      PutsSourcesIff(v, requests, ctx);
      if PutView(v, requests, ctx).Some? { PutsSources(v, requests, ctx); }
    case Rollback(target) =>
      RollsBack(h, target, ctx);
    case AddApp(app, defaultRepoURL, newUIDs) =>
      AddsAppIff(v, app, defaultRepoURL, newUIDs, ctx);
      if AddAppView(v, app, defaultRepoURL, newUIDs, ctx).Some? { AddsApp(v, app, defaultRepoURL, newUIDs, ctx); }
    case RemoveApp(name) =>
      RemovalsIff(v, name, ctx);
      if RemoveAppView(v, name, ctx).Some? { RemovesApp(v, name, ctx); }
    case AddGroup(group) =>
      AddsGroup(v, group, ctx);
    case RemoveGroup(name) =>
      RemovalsIff(v, name, ctx);
      if RemoveGroupView(v, name, ctx).Some? { RemovesGroup(v, name, ctx); }
  }

  /** One change: a history grows by one revision, numbered one higher than the latest, which holds exactly
      what the change makes of it, if the change can be made and the repository succeeds; else it stays. */
  lemma ChangeMeaning(h: seq<View>, change: Change, ctx: Context)
    requires SoundHistory(h) && HonestContext(ctx)
    ensures var t := Changed(h, change, ctx);
            if CanMake(h, change, ctx) && ctx.appendOk then
              && |t| == |h| + 1 && t[..|h|] == h
              && t[|h|].number == h[|h| - 1].number + 1 && WellFormed(t[|h|])
              && IsMadeBy(h, t[|h|], change, ctx)
            else t == h
  {
    MakesChange(h, change, ctx);
    if NewView(h, change, ctx).Some? {
      NewViewMeaning(h, change, ctx);
    }
    hide NewView, CanMake, IsMadeBy, WellFormed, SoundHistory, HonestContext;
  }

  // ---- Any sequence of changes ---------------------------------------------------------------

  function AfterChanges(h: seq<View>, changes: seq<(Change, Context)>): seq<View>
    requires h != []
    decreases |changes|
  {
    if changes == [] then h else AfterChanges(Changed(h, changes[0].0, changes[0].1), changes[1..])
  }

  /** Some of the changes makes this revision of the history before it. */
  ghost predicate MadeBySome(h: seq<View>, w: View, changes: seq<(Change, Context)>)
    requires h != []
  {
    exists m :: 0 <= m < |changes| && IsMadeBy(h, w, changes[m].0, changes[m].1)
  }

  lemma MadeByLater(h: seq<View>, w: View, changes: seq<(Change, Context)>)
    requires h != [] && changes != [] && MadeBySome(h, w, changes[1..])
    ensures MadeBySome(h, w, changes)
  {
    var m :| 0 <= m < |changes[1..]| && IsMadeBy(h, w, changes[1..][m].0, changes[1..][m].1);
    assert changes[m + 1] == changes[1..][m];
  }

  /** Over any sequence of hooks, source replacements, rollbacks, additions and removals, failing or not:
      earlier revisions never change, numbers are consecutive, every revision is well-formed, so that
      every application of it is shown with the last source config of some name, and every new one is
      what one of the changes makes of the revisions before it. */
  lemma {:induction false} ChangeHistory(h: seq<View>, changes: seq<(Change, Context)>)
    requires SoundHistory(h) && forall i :: 0 <= i < |changes| ==> HonestContext(changes[i].1)
    ensures var t := AfterChanges(h, changes);
            && SoundHistory(t) && |h| <= |t| && t[..|h|] == h
            && forall k :: |h| <= k < |t| ==>
                 t[k].number == h[|h| - 1].number + (k - |h| + 1) && MadeBySome(t[..k], t[k], changes)
    decreases |changes|
  {
    hide WellFormed, Changed, HonestContext, Honest, CanMake, IsMadeBy, MadeBySome;
    if changes != [] {
      ChangeMeaning(h, changes[0].0, changes[0].1);
      var next := Changed(h, changes[0].0, changes[0].1);
      NextIsSound(h, changes[0].0, changes[0].1);
      ChangeHistory(next, changes[1..]);
      var t := AfterChanges(h, changes);
      forall k | |next| <= k < |t| ensures MadeBySome(t[..k], t[k], changes) {
        MadeByLater(t[..k], t[k], changes);
      }
      if next != h {
        assert t[..|h|] == t[..|next|][..|h|];
        assert t[|h|] == next[|h|];
        MadeByFirst(h, t[|h|], changes);
      }
    }
  }

  lemma MadeByFirst(h: seq<View>, w: View, changes: seq<(Change, Context)>)
    requires h != [] && changes != [] && IsMadeBy(h, w, changes[0].0, changes[0].1)
    ensures MadeBySome(h, w, changes)
  {
  }

  lemma NextIsSound(h: seq<View>, change: Change, ctx: Context)
    requires SoundHistory(h) && HonestContext(ctx)
    ensures SoundHistory(Changed(h, change, ctx))
  {
    hide WellFormed, Changed, HonestContext, CanMake, IsMadeBy;
    ChangeMeaning(h, change, ctx);
    var t := Changed(h, change, ctx);
    forall k | 0 <= k < |t| ensures WellFormed(t[k]) && (k < |h| ==> t[k] == h[k]) {
      if k < |h| { assert |t| == |h| + 1 ==> t[k] == t[..|h|][k]; }
    }
  }

  /** A rollback shows again what its target showed: the same resources with their Helm revisions, the
      same sources and the same env groups with their versions. */
  lemma RollbackRestores(h: seq<View>, target: nat, ctx: Context)
    requires SoundHistory(h) && HonestContext(ctx) && NewView(h, Rollback(target), ctx).Some?
    ensures exists k :: 0 <= k < |h| && h[k].number == target &&
              var v, w := h[k], NewView(h, Rollback(target), ctx).value;
              && w.number == h[|h| - 1].number + 1 && w.status == "deploying" && w.reason == v.reason
              && KeepsApps(v, w) && KeepsSources(v, w) && KeepsGroups(v, w)
  {
    hide RollbackView, HonestContext, WellFormed, KeepsApps, KeepsSources, KeepsGroups;
    LatestIsLast(h);
    RollbackKeeps(h, h[|h| - 1], target, ctx);
    RollsBack(h, target, ctx);
  }

  /** So from creation on: whatever a client asks for, and over any sequence of changes after it. */
  lemma CreatedChangeHistory(sources: seq<SourceRequest>, apps: seq<AppRequest>, groups: seq<EnvGroup>,
                             defaultRepoURL: string, sourceUIDs: UIDs, appUIDs: UIDs,
                             changes: seq<(Change, Context)>)
    requires Honest(sourceUIDs) && Created(sources, apps, groups, defaultRepoURL, sourceUIDs, appUIDs).Done?
    requires forall i :: 0 <= i < |changes| ==> HonestContext(changes[i].1)
    ensures var first := Created(sources, apps, groups, defaultRepoURL, sourceUIDs, appUIDs).value;
            var t := AfterChanges([first], changes);
            && |t| >= 1 && t[0] == first
            && forall k :: 0 <= k < |t| ==>
                 t[k].number == k + 1 && WellFormed(t[k]) && (k > 0 ==> MadeBySome(t[..k], t[k], changes))
  {
    var first := Created(sources, apps, groups, defaultRepoURL, sourceUIDs, appUIDs).value;
    CreatedWellFormed(sources, apps, groups, defaultRepoURL, sourceUIDs, appUIDs);
    ChangeHistory([first], changes);
    var t := AfterChanges([first], changes);
    assert t[0] == t[..1][0];
  }

  // ---- Creation, with the checks of names ----------------------------------------------------

  function CreateGroups(requests: seq<EnvGroup>, uids: UIDs): Outcome<seq<EnvGroup>> {
    if requests == [] then Done([])
    else
      var n := |requests| - 1;
      match CreateGroups(requests[..n], uids)
      case Done(res) =>
        if uids(n).None? then NoUID else Done(res + [requests[n].(uid := uids(n).value, version := 1)])
      case error => error
  }

  /** Creating a stack; None if a UID cannot be made, a source is missing or a name occurs twice. */
  function CreateStack(sources: seq<SourceRequest>, apps: seq<AppRequest>, groups: seq<EnvGroup>,
                       defaultRepoURL: string, ctx: Context): Option<View>
  {
    match CreateGroups(groups, ctx.groupUIDs)
    case Done(made) =>
      (match Created(sources, apps, made, defaultRepoURL, ctx.sourceUIDs, ctx.appUIDs)
       case Done(v) => if DuplicateApps(v.resources) || DuplicateGroups(made) then None else Some(v)
       case _ => None)
    case _ => None
  }

  lemma {:induction false} GroupsCreated(requests: seq<EnvGroup>, uids: UIDs)
    ensures var r := CreateGroups(requests, uids);
            && (r.Done? <==> forall i :: 0 <= i < |requests| ==> uids(i).Some?)
            && (r.Done? ==> |r.value| == |requests| && forall i :: 0 <= i < |requests| ==>
                  && SameGroup(requests[i], r.value[i]) && r.value[i].version == 1 && uids(i) == Some(r.value[i].uid))
  {
    if requests != [] {
      GroupsCreated(requests[..|requests| - 1], uids);
    }
  }

  lemma SameDuplicates(apps: seq<AppRequest>, rs: seq<AppResource>, groups: seq<EnvGroup>, made: seq<EnvGroup>)
    requires |rs| == |apps| && forall i :: 0 <= i < |apps| ==> rs[i].name == apps[i].name
    requires |made| == |groups| && forall i :: 0 <= i < |groups| ==> made[i].name == groups[i].name
    ensures DuplicateApps(rs) <==> exists i, j :: 0 <= i < j < |apps| && apps[i].name == apps[j].name
    ensures DuplicateGroups(made) <==> exists i, j :: 0 <= i < j < |groups| && groups[i].name == groups[j].name
  {
    if i, j :| 0 <= i < j < |apps| && apps[i].name == apps[j].name {
      assert rs[i].name == rs[j].name;
    }
    if i, j :| 0 <= i < j < |groups| && groups[i].name == groups[j].name {
      assert made[i].name == made[j].name;
    }
  }

  /** A stack is created exactly if UIDs can be made, every application names a source that is requested and
      not built, and no application or env-group name occurs twice.  It then has the requested groups at
      version 1, and otherwise is what the histories above start with. */
  lemma CreatesStackIff(sources: seq<SourceRequest>, apps: seq<AppRequest>, groups: seq<EnvGroup>,
                        defaultRepoURL: string, ctx: Context)
    requires HonestContext(ctx)
    ensures var v := CreateStack(sources, apps, groups, defaultRepoURL, ctx);
            && (v.Some? <==>
                  && (forall i :: 0 <= i < Rank(sources, |sources|, NotBuilt) ==> ctx.sourceUIDs(i).Some?)
                  && (forall i :: 0 <= i < |apps| ==> ctx.appUIDs(i).Some? && Requests(sources, apps[i].sourceName))
                  && (forall i :: 0 <= i < |groups| ==> ctx.groupUIDs(i).Some?)
                  && (forall i, j :: 0 <= i < j < |apps| ==> apps[i].name != apps[j].name)
                  && (forall i, j :: 0 <= i < j < |groups| ==> groups[i].name != groups[j].name))
            && (v.Some? ==>
                  && Done(v.value) == Created(sources, apps, v.value.envGroups, defaultRepoURL, ctx.sourceUIDs,
                                              ctx.appUIDs)
                  && |v.value.envGroups| == |groups|
                  && forall i :: 0 <= i < |groups| ==>
                       && SameGroup(groups[i], v.value.envGroups[i]) && v.value.envGroups[i].version == 1
                       && ctx.groupUIDs(i) == Some(v.value.envGroups[i].uid))
  {
    GroupsCreated(groups, ctx.groupUIDs);
    hide CreateGroups, Rank, Requests, DuplicateApps, DuplicateGroups;
    if CreateGroups(groups, ctx.groupUIDs).Done? {
      var made := CreateGroups(groups, ctx.groupUIDs).value;
      CreatedIff(sources, apps, made, defaultRepoURL, ctx.sourceUIDs, ctx.appUIDs);
      var first := Created(sources, apps, made, defaultRepoURL, ctx.sourceUIDs, ctx.appUIDs);
      if first.Done? {
        assert first.value.envGroups == made;
        CreatedAppsMeaning(apps, first.value.sources, defaultRepoURL, ctx.appUIDs);
        SameDuplicates(apps, first.value.resources, groups, made);
      }
    }
  }
}
