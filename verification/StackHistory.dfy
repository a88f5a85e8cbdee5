/** The history of a stack's revisions under the two hooks of internal/stacks/hooks.go. */
module StackHistory {
  import opened Options
  import opened Stacks

  /** A revision as the repository holds it: its lists are slices.  The message text is not modelled. */
  datatype Revision = Revision(
    number: nat, status: string, reason: string,
    resources: array<AppResource>, sources: array<SourceConfig>, envGroups: array<EnvGroup>)

  /** A revision with the contents of its slices. */
  datatype View = View(
    number: nat, status: string, reason: string,
    resources: seq<AppResource>, sources: seq<SourceConfig>, envGroups: seq<EnvGroup>)

  ghost function ViewOf(r: Revision): View
    reads r.resources, r.sources, r.envGroups
  {
    View(r.number, r.status, r.reason, r.resources[..], r.sources[..], r.envGroups[..])
  }

  ghost function ViewsOf(rs: seq<Revision>): (vs: seq<View>)
    reads set r | r in rs :: r.resources, set r | r in rs :: r.sources, set r | r in rs :: r.envGroups
    ensures |vs| == |rs| && forall i :: 0 <= i < |rs| ==> vs[i] == ViewOf(rs[i])
  {
    if rs == [] then [] else ViewsOf(rs[..|rs| - 1]) + [ViewOf(rs[|rs| - 1])]
  }

  /** Whether the release or env group a hook is called for leads to a stack. */
  datatype Lookup = LookupFails | NotInStack | InStack

  datatype Call =
    | HelmUpgrade(app: string, revision: nat)
    | EnvGroupUpgrade(group: string, version: nat, applications: seq<string>)

  datatype Context = Context(lookup: Lookup, sourceUIDs: UIDs, appUIDs: UIDs, groupUIDs: UIDs, appendOk: bool)

  // ---- The new revision ----------------------------------------------------------------------

  function UpdateApp(call: Call, r: AppResource): AppResource {
    match call
    case HelmUpgrade(app, revision) => if r.name == app then r.(helmRevision := revision) else r
    case EnvGroupUpgrade(_, _, apps) => if r.name in apps then r.(helmRevision := r.helmRevision + 1) else r
  }

  function UpdateGroup(call: Call, g: EnvGroup): EnvGroup {
    if call.EnvGroupUpgrade? && g.name == call.group then g.(version := call.version) else g
  }

  function Reason(call: Call): string {
    if call.HelmUpgrade? then "ApplicationUpgrade" else "EnvGroupUpgrade"
  }

  function MapApps(call: Call, rs: seq<AppResource>): seq<AppResource> {
    seq(|rs|, i requires 0 <= i < |rs| => UpdateApp(call, rs[i]))
  }

  function MapGroups(call: Call, gs: seq<EnvGroup>): seq<EnvGroup> {
    seq(|gs|, i requires 0 <= i < |gs| => UpdateGroup(call, gs[i]))
  }

  /** The revision a hook derives from the latest one, if the clones succeed. */
  function Derive(latest: View, call: Call, ctx: Context): Outcome<View> {
    match CloneSources(latest.sources, ctx.sourceUIDs)
    case Done(sources) =>
      (match CloneApps(latest.resources, latest.sources, sources, ctx.appUIDs)
       case Done(apps) =>
         (match CloneEnvGroups(latest.envGroups, ctx.groupUIDs)
          case Done(groups) =>
            Done(View(latest.number + 1, "deployed", Reason(call),
                      MapApps(call, apps), sources, MapGroups(call, groups)))
          case NoUID => NoUID
          case Dangling => Dangling)
       case NoUID => NoUID
       case Dangling => Dangling)
    case NoUID => NoUID
    case Dangling => Dangling
  }

  /** The index of the revision with the highest number, the first one the repository returns. */
  function Latest(h: seq<View>): (k: nat)
    requires h != []
    ensures k < |h| && forall i :: 0 <= i < |h| ==> h[i].number <= h[k].number
  {
    if |h| == 1 then 0
    else
      var k := Latest(h[..|h| - 1]);
      if h[|h| - 1].number > h[k].number then |h| - 1 else k
  }

  /** The history after a hook, and whether the hook returned an error. */
  function After(h: seq<View>, call: Call, ctx: Context): (seq<View>, bool) {
    if ctx.lookup.LookupFails? then (h, true)
    else if ctx.lookup.NotInStack? then (h, false)
    else if h == [] then (h, true)
    else
      match Derive(h[Latest(h)], call, ctx)
      case Done(v) => if ctx.appendOk then (h + [v], false) else (h, true)
      case _ => (h, true)
  }

  // ---- The hooks -----------------------------------------------------------------------------

  class StackRepository {
    var revisions: seq<Revision>

    ghost function History(): seq<View>
      reads this
      reads set r | r in revisions :: r.resources, set r | r in revisions :: r.sources
      reads set r | r in revisions :: r.envGroups
    {
      ViewsOf(revisions)
    }

    /** The first revision of the list ordered by descending number. */
    method ReadLatest() returns (r: Revision)
      requires revisions != []
      ensures History() != [] && r in revisions && ViewOf(r) == History()[Latest(History())]
    {
      ghost var h := History();
      r := revisions[0];
      ghost var k := 0;
      assert h[..1][0] == h[0];
      for i := 1 to |revisions|
        invariant k < i && r == revisions[k] && k == Latest(h[..i])
      {
        assert h[..i + 1][..i] == h[..i];
        if revisions[i].number > r.number {
          r := revisions[i];
          k := i;
        }
      }
      assert h[..|revisions|] == h;
    }

    /** Derives the next revision; nothing that exists is written. */
    method DeriveNext(call: Call, ctx: Context) returns (r: Outcome<Revision>)
      requires revisions != []
      ensures History() == old(History()) && History() != []
      ensures r.Done? ==>
        && fresh(r.value.resources) && fresh(r.value.sources) && fresh(r.value.envGroups)
        && Derive(History()[Latest(History())], call, ctx) == Done(ViewOf(r.value))
      ensures !r.Done? ==> !Derive(History()[Latest(History())], call, ctx).Done?
    {
      hide Derive, ViewsOf;
      var latest := ReadLatest();
      r := NewRevision(latest, call, ctx);
      assert forall i :: 0 <= i < |revisions| ==> ViewOf(revisions[i]) == old(ViewOf(revisions[i]));
    }

    /** Both hooks: derive a new revision from the latest one and append it.  No slice of an earlier
        revision is written. */
    method Update(call: Call, ctx: Context) returns (failed: bool)
      modifies this
      ensures (History(), failed) == After(old(History()), call, ctx)
      ensures revisions == old(revisions) ||
        exists r :: revisions == old(revisions) + [r] && fresh(r.resources) && fresh(r.sources) && fresh(r.envGroups)
    {
      hide Derive, ViewsOf, ViewOf;
      if ctx.lookup.LookupFails? {
        return true;
      }
      if ctx.lookup.NotInStack? {
        return false;
      }
      if revisions == [] {
        return true;
      }
      var derived := DeriveNext(call, ctx);
      if !derived.Done? || !ctx.appendOk {
        return true;
      }
      AppendNewRevision(derived.value);
      return false;
    }

    method AppendNewRevision(r: Revision)
      modifies this
      ensures revisions == old(revisions) + [r] && History() == old(History()) + [ViewOf(r)]
    {
      revisions := revisions + [r];
      assert revisions[..|revisions| - 1] == old(revisions);
    }
  }

  method NewSlice<T>(s: seq<T>) returns (slice: array<T>)
    ensures fresh(slice) && slice[..] == s
  {
    slice := new T[|s|](i requires 0 <= i < |s| => s[i]);
  }

  /** Clones the latest revision's lists into new slices and changes elements of the new slices. */
  method NewRevision(latest: Revision, call: Call, ctx: Context) returns (r: Outcome<Revision>)
    ensures match r
            case Done(rev) =>
              && fresh(rev.resources) && fresh(rev.sources) && fresh(rev.envGroups)
              && Derive(ViewOf(latest), call, ctx) == Done(ViewOf(rev))
            case NoUID => Derive(ViewOf(latest), call, ctx) == NoUID
            case Dangling => Derive(ViewOf(latest), call, ctx) == Dangling
  {
    var sources := CloneSourceConfigs(latest.sources[..], ctx.sourceUIDs);
    if !sources.Done? {
      return if sources.NoUID? then NoUID else Dangling;
    }
    var apps := CloneAppResources(latest.resources[..], latest.sources[..], sources.value, ctx.appUIDs);
    if !apps.Done? {
      return if apps.NoUID? then NoUID else Dangling;
    }
    var groups := CloneStackEnvGroups(latest.envGroups[..], ctx.groupUIDs);
    if !groups.Done? {
      return if groups.NoUID? then NoUID else Dangling;
    }
    hide CloneSources, CloneApps, CloneEnvGroups, MapApps, MapGroups;
    var sourceSlice := NewSlice(sources.value);
    var appSlice := NewSlice(apps.value);
    var groupSlice := NewSlice(groups.value);
    UpdateApps(call, appSlice);
    UpdateGroups(call, groupSlice);
    return Done(Revision(latest.number + 1, "deployed", Reason(call), appSlice, sourceSlice, groupSlice));
  }

  /** The loop over the cloned resources.  Each iteration works on a copy of the element taken when it
      starts, so listing an application twice bumps it once. */
  method UpdateApps(call: Call, slice: array<AppResource>)
    modifies slice
    ensures slice[..] == MapApps(call, old(slice[..]))
  {
    for i := 0 to slice.Length
      invariant forall k :: 0 <= k < i ==> slice[k] == UpdateApp(call, old(slice[k]))
      invariant forall k :: i <= k < slice.Length ==> slice[k] == old(slice[k])
    {
      var app := slice[i];
      match call
      case HelmUpgrade(name, revision) =>
        if app.name == name {
          slice[i] := slice[i].(helmRevision := revision);
        }
      case EnvGroupUpgrade(_, _, applications) =>
        for j := 0 to |applications|
          invariant slice[i] ==
                    if app.name in applications[..j] then app.(helmRevision := app.helmRevision + 1) else app
          invariant forall k :: 0 <= k < slice.Length && k != i ==>
            slice[k] == if k < i then UpdateApp(call, old(slice[k])) else old(slice[k])
        {
          assert applications[..j + 1] == applications[..j] + [applications[j]];
          if app.name == applications[j] {
            slice[i] := slice[i].(helmRevision := app.helmRevision + 1);
          }
        }
        assert applications[..|applications|] == applications;
    }
  }

  method UpdateGroups(call: Call, slice: array<EnvGroup>)
    modifies slice
    ensures slice[..] == MapGroups(call, old(slice[..]))
  {
    if call.EnvGroupUpgrade? {
      for i := 0 to slice.Length
        invariant forall k :: 0 <= k < i ==> slice[k] == UpdateGroup(call, old(slice[k]))
        invariant forall k :: i <= k < slice.Length ==> slice[k] == old(slice[k])
      {
        if slice[i].name == call.group {
          slice[i] := slice[i].(version := call.version);
        }
      }
    }
  }

  // ---- Histories -----------------------------------------------------------------------------

  /** The UIDs of the source configs are unique, and every resource refers to one of them: to the last
      one of its name, as names may occur twice. */
  ghost predicate WellFormed(v: View) {
    UniqueUIDs(v.sources) && forall i :: 0 <= i < |v.resources| ==> LinksToLast(v.resources[i], v.sources)
  }

  ghost predicate Growing(h: seq<View>) {
    h != [] && forall i, j :: 0 <= i < j < |h| ==> h[i].number < h[j].number
  }

  /** What the random source delivers, if it delivers at all, is not empty and not delivered twice. */
  ghost predicate Honest(uids: UIDs) {
    && (forall i :: uids(i).Some? ==> uids(i).value != "")
    && (forall i, j :: i < j && uids(i).Some? ==> uids(i) != uids(j))
  }

  ghost predicate HonestContext(ctx: Context) {
    Honest(ctx.sourceUIDs) && Honest(ctx.appUIDs) && Honest(ctx.groupUIDs)
  }

  /** The same env group, in whatever version. */
  ghost predicate SameGroup(g: EnvGroup, c: EnvGroup) {
    c.name == g.name && c.namespace == g.namespace && c.projectID == g.projectID && c.clusterID == g.clusterID
  }

  /** w is v with the same resources, sources and env groups by name, and every resource showing the
      same source content. */
  ghost predicate SameShape(v: View, w: View) {
    && |w.resources| == |v.resources| && |w.sources| == |v.sources| && |w.envGroups| == |v.envGroups|
    && (forall i :: 0 <= i < |v.sources| ==> Content(w.sources[i]) == Content(v.sources[i]))
    && (forall i :: 0 <= i < |v.envGroups| ==> SameGroup(v.envGroups[i], w.envGroups[i]))
    && (forall i :: 0 <= i < |v.resources| ==>
          && w.resources[i].name == v.resources[i].name && w.resources[i].template == v.resources[i].template
          && Content(Resolve(w.resources[i], w.sources)) == Content(Resolve(v.resources[i], v.sources)))
  }

  lemma {:induction false} SourcesDelivered(configs: seq<SourceConfig>, uids: UIDs)
    requires CloneSources(configs, uids).Done?
    ensures forall i :: 0 <= i < |configs| ==> uids(i).Some?
  {
    if configs != [] {
      SourcesDelivered(configs[..|configs| - 1], uids);
    }
  }

  lemma {:induction false} AppsDelivered(apps: seq<AppResource>, prev: seq<SourceConfig>, next: seq<SourceConfig>,
                                         uids: UIDs)
    requires CloneApps(apps, prev, next, uids).Done?
    ensures forall i :: 0 <= i < |apps| ==> uids(i).Some?
  {
    if apps != [] {
      AppsDelivered(apps[..|apps| - 1], prev, next, uids);
    }
  }

  lemma {:induction false} GroupsCloned(groups: seq<EnvGroup>, uids: UIDs)
    ensures var r := CloneEnvGroups(groups, uids);
            r.Done? ==> |r.value| == |groups| && forall i :: 0 <= i < |groups| ==>
              && SameGroup(groups[i], r.value[i]) && r.value[i].version == groups[i].version
              && uids(i) == Some(r.value[i].uid)
    ensures CloneEnvGroups(groups, uids).Done? <==> forall i :: 0 <= i < |groups| ==> uids(i).Some?
    ensures CloneEnvGroups(groups, uids) != Dangling
  {
    if groups != [] {
      GroupsCloned(groups[..|groups| - 1], uids);
    }
  }

  /** The Helm revisions and env-group versions of w are those of v, updated by the call; w has the call's
      status and reason, and no values of its own. */
  ghost predicate HasEffect(v: View, w: View, call: Call) {
    && w.status == "deployed"
    && w.reason == (match call
                    case HelmUpgrade(_, _) => "ApplicationUpgrade"
                    case EnvGroupUpgrade(_, _, _) => "EnvGroupUpgrade")
    && (forall i :: 0 <= i < |w.resources| ==> w.resources[i].values == "")
    && |w.resources| == |v.resources| && |w.envGroups| == |v.envGroups|
    && (forall i :: 0 <= i < |v.resources| ==> w.resources[i].helmRevision == NewHelmRevision(call, v.resources[i]))
    && (forall i :: 0 <= i < |v.envGroups| ==> w.envGroups[i].version == NewVersion(call, v.envGroups[i]))
  }

  /** An upgraded release gets its new revision; a synced application goes up by exactly one, however
      often the env group lists it. */
  function NewHelmRevision(call: Call, r: AppResource): nat {
    match call
    case HelmUpgrade(app, revision) => if r.name == app then revision else r.helmRevision
    case EnvGroupUpgrade(_, _, applications) => r.helmRevision + if r.name in applications then 1 else 0
  }

  function NewVersion(call: Call, g: EnvGroup): nat {
    if call.EnvGroupUpgrade? && g.name == call.group then call.version else g.version
  }

  lemma DeriveSources(v: View, call: Call, ctx: Context)
    requires WellFormed(v) && HonestContext(ctx) && Derive(v, call, ctx).Done?
    ensures FreshUIDs(ctx.sourceUIDs, |v.sources|)
    ensures var w := Derive(v, call, ctx).value;
            && CloneSources(v.sources, ctx.sourceUIDs) == Done(w.sources) && |w.sources| == |v.sources|
            && forall i :: 0 <= i < |v.sources| ==> w.sources[i] == CloneConfig(v.sources[i], ctx.sourceUIDs(i).value)
  {
    SourcesDelivered(v.sources, ctx.sourceUIDs);
    CloneSourcesMeaning(v.sources, ctx.sourceUIDs);
  }

  lemma DeriveApps(v: View, call: Call, ctx: Context)
    requires WellFormed(v) && HonestContext(ctx) && Derive(v, call, ctx).Done?
    ensures FreshUIDs(ctx.appUIDs, |v.resources|)
    ensures var w := Derive(v, call, ctx).value;
            var apps := CloneApps(v.resources, v.sources, w.sources, ctx.appUIDs);
            && apps.Done? && w.resources == MapApps(call, apps.value) && |w.resources| == |v.resources|
            && (forall i :: 0 <= i < |v.resources| ==>
                  apps.value[i]
                  == CloneApp(v.resources[i], ctx.appUIDs(i).value,
                              LinkedUID(v.sources, w.sources, v.resources[i].sourceUID)))
  {
    var w := Derive(v, call, ctx).value;
    AppsDelivered(v.resources, v.sources, w.sources, ctx.appUIDs);
    CloneAppsMeaning(v.resources, v.sources, w.sources, ctx.appUIDs);
  }

  /** A derived resource refers to the clone of what it referred to. */
  lemma DerivedReference(v: View, call: Call, ctx: Context, i: nat)
    requires WellFormed(v) && HonestContext(ctx) && Derive(v, call, ctx).Done? && i < |v.resources|
    ensures var w := Derive(v, call, ctx).value;
            && |w.resources| == |v.resources|
            && LinksToLast(w.resources[i], w.sources)
            && Content(Resolve(w.resources[i], w.sources)) == Content(Resolve(v.resources[i], v.sources))
  {
    var w := Derive(v, call, ctx).value;
    DeriveSources(v, call, ctx);
    DeriveApps(v, call, ctx);
    ClonePreservesMeaning(v.resources, v.sources, ctx.sourceUIDs, ctx.appUIDs, i);
    CloneLinksToLast(v.resources, v.sources, w.sources, ctx.appUIDs);
    var clone := CloneApps(v.resources, v.sources, w.sources, ctx.appUIDs).value;
    hide Derive, CloneApps, CloneSources, FirstUID, WellFormed, HonestContext;
    assert w.resources[i].sourceUID == clone[i].sourceUID;
  }

  lemma DerivedWellFormed(v: View, call: Call, ctx: Context)
    requires WellFormed(v) && HonestContext(ctx) && Derive(v, call, ctx).Done?
    ensures WellFormed(Derive(v, call, ctx).value)
  {
    var w := Derive(v, call, ctx).value;
    DeriveSources(v, call, ctx);
    DeriveApps(v, call, ctx);
    ClonedUIDsDiffer(v.sources, w.sources, ctx.sourceUIDs);
    forall i | 0 <= i < |w.resources| ensures LinksToLast(w.resources[i], w.sources) {
      DerivedReference(v, call, ctx, i);
    }
  }

  lemma DeriveGroups(v: View, call: Call, ctx: Context)
    requires Derive(v, call, ctx).Done?
    ensures var w := Derive(v, call, ctx).value;
            && |w.envGroups| == |v.envGroups|
            && forall i :: 0 <= i < |v.envGroups| ==>
                 && SameGroup(v.envGroups[i], w.envGroups[i])
                 && w.envGroups[i].version == NewVersion(call, v.envGroups[i])
                 && ctx.groupUIDs(i) == Some(w.envGroups[i].uid)
  {
    GroupsCloned(v.envGroups, ctx.groupUIDs);
  }

  lemma DerivedShape(v: View, call: Call, ctx: Context)
    requires WellFormed(v) && HonestContext(ctx) && Derive(v, call, ctx).Done?
    ensures SameShape(v, Derive(v, call, ctx).value)
  {
    hide Derive, Resolve, WellFormed, LinkedUID, CloneApps, CloneSources;
    var w := Derive(v, call, ctx).value;
    DeriveSources(v, call, ctx);
    DeriveApps(v, call, ctx);
    DeriveGroups(v, call, ctx);
    forall i | 0 <= i < |v.resources|
      ensures Content(Resolve(w.resources[i], w.sources)) == Content(Resolve(v.resources[i], v.sources))
    {
      DerivedReference(v, call, ctx, i);
    }
  }

  lemma DerivedEffect(v: View, call: Call, ctx: Context)
    requires WellFormed(v) && HonestContext(ctx) && Derive(v, call, ctx).Done?
    ensures HasEffect(v, Derive(v, call, ctx).value, call)
  {
    hide Derive, WellFormed, LinkedUID, CloneApps;
    DeriveLabels(v, call, ctx);
    DeriveApps(v, call, ctx);
    DeriveGroups(v, call, ctx);
  }

  lemma DeriveLabels(v: View, call: Call, ctx: Context)
    requires Derive(v, call, ctx).Done?
    ensures var w := Derive(v, call, ctx).value;
            w.number == v.number + 1 && w.status == "deployed" && w.reason == Reason(call)
  {
  }

  /** The elements of the revision's lists have the UIDs that the random source delivers. */
  ghost predicate HasNewUIDs(w: View, ctx: Context) {
    && (forall i :: 0 <= i < |w.sources| ==> ctx.sourceUIDs(i) == Some(w.sources[i].uid))
    && (forall i :: 0 <= i < |w.resources| ==> ctx.appUIDs(i) == Some(w.resources[i].uid))
    && (forall i :: 0 <= i < |w.envGroups| ==> ctx.groupUIDs(i) == Some(w.envGroups[i].uid))
  }

  lemma DerivedUIDs(v: View, call: Call, ctx: Context)
    requires WellFormed(v) && HonestContext(ctx) && Derive(v, call, ctx).Done?
    ensures HasNewUIDs(Derive(v, call, ctx).value, ctx)
  {
    hide Derive, WellFormed, LinkedUID, CloneApps;
    DeriveSources(v, call, ctx);
    DeriveApps(v, call, ctx);
    DeriveGroups(v, call, ctx);
  }

  /** What one hook makes of the latest revision: the next number, the same shape under new UIDs, and
      exactly the updated Helm revisions and env-group versions. */
  lemma DeriveMeaning(v: View, call: Call, ctx: Context)
    requires WellFormed(v) && HonestContext(ctx) && Derive(v, call, ctx).Done?
    ensures var w := Derive(v, call, ctx).value;
            w.number == v.number + 1 && WellFormed(w) && SameShape(v, w) && HasEffect(v, w, call) && HasNewUIDs(w, ctx)
  {
    hide *;
    DeriveLabels(v, call, ctx);
    DerivedUIDs(v, call, ctx);
    DerivedWellFormed(v, call, ctx);
    DerivedShape(v, call, ctx);
    DerivedEffect(v, call, ctx);
  }

  /** The random source delivers as many UIDs as the revision has elements. */
  ghost predicate Delivered(v: View, ctx: Context) {
    && (forall i :: 0 <= i < |v.sources| ==> ctx.sourceUIDs(i).Some?)
    && (forall i :: 0 <= i < |v.resources| ==> ctx.appUIDs(i).Some?)
    && (forall i :: 0 <= i < |v.envGroups| ==> ctx.groupUIDs(i).Some?)
  }

  lemma AllClone(v: View, ctx: Context)
    requires WellFormed(v) && HonestContext(ctx) && Delivered(v, ctx)
    ensures CloneSources(v.sources, ctx.sourceUIDs).Done?
    ensures CloneApps(v.resources, v.sources, CloneSources(v.sources, ctx.sourceUIDs).value, ctx.appUIDs).Done?
    ensures CloneEnvGroups(v.envGroups, ctx.groupUIDs).Done?
  {
    forall i | 0 <= i < |v.resources| ensures Refers(v.resources[i], v.sources) {
      assert LinksToLast(v.resources[i], v.sources);
    }
    CloneFailsIffDangling(v.resources, v.sources, ctx.sourceUIDs, ctx.appUIDs);
    GroupsCloned(v.envGroups, ctx.groupUIDs);
    CloneAppsMeaning(v.resources, v.sources, CloneSources(v.sources, ctx.sourceUIDs).value, ctx.appUIDs);
  }

  /** A hook fails to derive a revision exactly when the random source fails. */
  lemma DerivesIff(v: View, call: Call, ctx: Context)
    requires WellFormed(v) && HonestContext(ctx)
    ensures Derive(v, call, ctx).Done? <==> Delivered(v, ctx)
  {
    if Derive(v, call, ctx).Done? {
      SourcesDelivered(v.sources, ctx.sourceUIDs);
      AppsDelivered(v.resources, v.sources, CloneSources(v.sources, ctx.sourceUIDs).value, ctx.appUIDs);
      GroupsCloned(v.envGroups, ctx.groupUIDs);
    }
    if Delivered(v, ctx) {
      AllClone(v, ctx);
    }
  }

  function AfterCalls(h: seq<View>, calls: seq<(Call, Context)>): seq<View>
    decreases |calls|
  {
    if calls == [] then h else AfterCalls(After(h, calls[0].0, calls[0].1).0, calls[1..])
  }

  lemma LatestIsLast(h: seq<View>)
    requires Growing(h)
    ensures Latest(h) == |h| - 1
  {
    assert h[|h| - 1].number <= h[Latest(h)].number;
  }

  lemma SameShapeTransitive(u: View, v: View, w: View)
    requires SameShape(u, v) && SameShape(v, w)
    ensures SameShape(u, w)
  {
  }

  ghost predicate GoodHistory(h: seq<View>) { Growing(h) && WellFormed(h[|h| - 1]) }

  /** One hook: nothing is appended, or one revision, numbered one higher than the latest, of the same
      shape and with the call's effect.  It is appended exactly if the lookups, the random source and the
      repository all succeed; otherwise the hook fails, unless the release or group is in no stack. */
  lemma HookAppendsNext(h: seq<View>, call: Call, ctx: Context)
    requires GoodHistory(h) && HonestContext(ctx)
    ensures var (t, failed) := After(h, call, ctx);
            var last := h[|h| - 1];
            && GoodHistory(t)
            && (if ctx.lookup.InStack? && Delivered(last, ctx) && ctx.appendOk then
                  && !failed && |t| == |h| + 1 && t[..|h|] == h && t[|h|].number == last.number + 1
                  && SameShape(last, t[|h|]) && HasEffect(last, t[|h|], call)
                else
                  t == h && (failed <==> !ctx.lookup.NotInStack?))
    ensures After([], call, ctx) == ([], !ctx.lookup.NotInStack?)
  {
    hide WellFormed, SameShape, HasEffect, Derive, HonestContext, Delivered;
    LatestIsLast(h);
    var v := h[|h| - 1];
    DerivesIff(v, call, ctx);
    if Derive(v, call, ctx).Done? {
      DeriveMeaning(v, call, ctx);
    }
  }

  /** Some of the calls has this effect. */
  ghost predicate MadeByCall(v: View, w: View, calls: seq<(Call, Context)>) {
    exists m :: 0 <= m < |calls| && HasEffect(v, w, calls[m].0)
  }

  lemma MadeByLaterCall(v: View, w: View, calls: seq<(Call, Context)>)
    requires calls != [] && MadeByCall(v, w, calls[1..])
    ensures MadeByCall(v, w, calls)
  {
    var m :| 0 <= m < |calls[1..]| && HasEffect(v, w, calls[1..][m].0);
    assert calls[m + 1] == calls[1..][m];
  }

  /** Over any sequence of hook calls, failing or not: earlier revisions are never modified, numbers are
      consecutive from the old latest one on, and every new revision is well-formed, has the same
      resources, source contents and env groups by name, and shows every resource with the source
      content it had in the revision the history started with.  It differs from the one before it by
      exactly the effect of one of the calls. */
  lemma {:induction false} RevisionHistory(h: seq<View>, calls: seq<(Call, Context)>)
    requires GoodHistory(h) && forall i :: 0 <= i < |calls| ==> HonestContext(calls[i].1)
    ensures var t := AfterCalls(h, calls);
            && GoodHistory(t) && |h| <= |t| && t[..|h|] == h
            && forall k :: |h| <= k < |t| ==>
                 && t[k].number == h[|h| - 1].number + (k - |h| + 1)
                 && WellFormed(t[k]) && SameShape(h[|h| - 1], t[k]) && MadeByCall(t[k - 1], t[k], calls)
    decreases |calls|
  {
    hide After, WellFormed, SameShape, HasEffect, HonestContext, Delivered;
    if calls != [] {
      var next := After(h, calls[0].0, calls[0].1).0;
      HookAppendsNext(h, calls[0].0, calls[0].1);
      RevisionHistory(next, calls[1..]);
      var t := AfterCalls(h, calls);
      if next != h {
        assert |next| == |h| + 1 && next[..|h|] == h;
        assert t[..|h|] == t[..|next|][..|h|];
        assert t[|h|] == next[|h|];
        assert t[|h| - 1] == h[|h| - 1];
        forall k | |next| <= k < |t| ensures SameShape(h[|h| - 1], t[k]) {
          SameShapeTransitive(h[|h| - 1], next[|h|], t[k]);
        }
      }
      forall k | |next| <= k < |t| ensures MadeByCall(t[k - 1], t[k], calls) {
        MadeByLaterCall(t[k - 1], t[k], calls);
      }
    }
  }
}
