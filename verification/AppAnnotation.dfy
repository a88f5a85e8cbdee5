/** The set of applications synced with an env group, kept as a comma-joined annotation of a versioned
    ConfigMap: internal/kubernetes/agent.go. */
module AppAnnotation {
  import opened Filters
  import opened Text
  import opened Options

  const ANNOTATION := "porter.run/apps"

  const COMMA := ','

  // ---- The annotation's text -----------------------------------------------------------------

  function Added(annotation: string, app: string): string {
    if annotation == "" then app
    else if app in Split(annotation, COMMA) then annotation
    else annotation + [COMMA] + app
  }

  function Without(apps: seq<string>, app: string): seq<string> {
    if apps == [] then []
    else Without(apps[..|apps| - 1], app) + if apps[|apps| - 1] == app then [] else [apps[|apps| - 1]]
  }

  function Removed(annotation: string, app: string): string {
    Join(Without(Split(annotation, COMMA), app), COMMA)
  }

  class ConfigMap {
    var annotations: Option<map<string, string>>    // None is a nil map

    method AddApplication(app: string)
      modifies this
      ensures annotations.Some? && ANNOTATION in annotations.value
      ensures var before := if old(annotations).Some? then old(annotations).value else map[];
              annotations.value ==
                before[ANNOTATION := Added(if ANNOTATION in before then before[ANNOTATION] else "", app)]
    {
      var annons := if annotations.Some? then annotations.value else map[];
      if ANNOTATION !in annons || annons[ANNOTATION] == "" {
        annons := annons[ANNOTATION := app];
      } else {
        var appAnnon := annons[ANNOTATION];
        var apps := Split(appAnnon, COMMA);
        var found := false;
        for i := 0 to |apps|
          invariant found <==> app in apps[..i]
        {
          if apps[i] == app {
            found := true;
          }
        }
        assert apps[..|apps|] == apps;
        if !found {
          annons := annons[ANNOTATION := appAnnon + [COMMA] + app];
        }
      }
      annotations := Some(annons);
    }

    /** Fails, and changes nothing, when the annotation is absent. */
    method RemoveApplication(app: string) returns (found: bool)
      modifies this
      ensures found <==> old(annotations).Some? && ANNOTATION in old(annotations).value
      ensures !found ==> annotations == old(annotations)
      ensures found ==>
        annotations == Some(old(annotations).value[ANNOTATION := Removed(old(annotations).value[ANNOTATION], app)])
    {
      if annotations.None? || ANNOTATION !in annotations.value {
        return false;
      }
      var annons := annotations.value;
      var apps := Split(annons[ANNOTATION], COMMA);
      var kept := [];
      for i := 0 to |apps|
        invariant kept == Without(apps[..i], app)
      {
        assert apps[..i + 1][..i] == apps[..i];
        if apps[i] != app {
          kept := kept + [apps[i]];
        }
      }
      assert apps[..|apps|] == apps;
      annotations := Some(annons[ANNOTATION := Join(kept, COMMA)]);
      return true;
    }
  }

  // ---- The set it stands for -----------------------------------------------------------------

  /** The applications an annotation lists; the empty text lists none. */
  function Apps(annotation: string): seq<string> {
    if annotation == "" then [] else Split(annotation, COMMA)
  }

  predicate GoodName(app: string) { app != "" && COMMA !in app }

  /** No application has an empty name. */
  ghost predicate WellFormed(annotation: string) {
    forall i :: 0 <= i < |Apps(annotation)| ==> Apps(annotation)[i] != ""
  }

  function AddTo(apps: seq<string>, app: string): seq<string> {
    if app in apps then apps else apps + [app]
  }

  ghost predicate NoDuplicates(apps: seq<string>) {
    forall i, j :: 0 <= i < j < |apps| ==> apps[i] != apps[j]
  }

  lemma AddRefines(annotation: string, app: string)
    requires GoodName(app)
    ensures Apps(Added(annotation, app)) == AddTo(Apps(annotation), app)
    ensures WellFormed(annotation) ==> WellFormed(Added(annotation, app))
  {
    SplitWhole(app, COMMA);
    SplitConcat(annotation, app, COMMA);
  }

  lemma {:induction false} WithoutMeaning(apps: seq<string>, app: string)
    ensures forall x :: x in Without(apps, app) <==> x in apps && x != app
    ensures app !in apps ==> Without(apps, app) == apps
    ensures NoDuplicates(apps) ==> NoDuplicates(Without(apps, app))
  {
    if apps != [] {
      var before, last := apps[..|apps| - 1], apps[|apps| - 1];
      WithoutMeaning(before, app);
      assert apps == before + [last];
      if NoDuplicates(apps) {
        assert last !in before;
      }
    }
  }

  function OtherThan(app: string): string -> bool { (x: string) => x != app }

  lemma {:induction false} WithoutFilters(apps: seq<string>, app: string)
    ensures Without(apps, app) == Filter(apps, OtherThan(app))
  {
    if apps != [] {
      WithoutFilters(apps[..|apps| - 1], app);
    }
  }

  /** The other names stay, in order. */
  lemma WithoutInOrder(apps: seq<string>, app: string)
    ensures var rest := Without(apps, app);
            && |rest| == Rank(apps, |apps|, OtherThan(app)) && app !in rest
            && forall i :: 0 <= i < |apps| && apps[i] != app ==>
                 var k := Rank(apps, i, OtherThan(app)); k < |rest| && rest[k] == apps[i]
  {
    hide Rank, Filter, Without;
    WithoutFilters(apps, app);
    WithoutMeaning(apps, app);
    FilterLength(apps, OtherThan(app));
    forall i | 0 <= i < |apps| && apps[i] != app
      ensures var k := Rank(apps, i, OtherThan(app)); k < |Without(apps, app)| && Without(apps, app)[k] == apps[i]
    {
      FilterMeaning(apps, OtherThan(app), i);
    }
  }

  /** Two names are kept as the one, a comma and the other. */
  lemma TextOfTwo(a: string, b: string)
    requires GoodName(a) && GoodName(b) && a != b
    ensures Added("", a) == a && Added(a, b) == a + "," + b
    ensures Removed(a + "," + b, b) == a && Removed(a + "," + b, a) == b
  {
    SplitWhole(a, COMMA);
    SplitWhole(b, COMMA);
    SplitConcat(a, b, COMMA);
    assert [a, b][..1] == [a] && [a][..0] == [];
    assert Split(a + "," + b, COMMA) == [a, b];
    assert Without([a], b) == [a] && Without([a], a) == [];
  }

  /** Whatever the annotation: removing from the text is removing from the set exactly unless a single
      empty name would be left, which the text cannot say. */
  lemma RemoveRefinesIff(annotation: string, app: string)
    ensures Apps(Removed(annotation, app)) == Without(Apps(annotation), app) <==>
            Without(Apps(annotation), app) != [""]
  {
    var parts := Split(annotation, COMMA);
    var kept := Without(parts, app);
    WithoutMeaning(parts, app);
    if annotation == "" {
      assert parts == [""];
      assert Without(parts[..0], app) == [] && kept == if app == "" then [] else [""];
    } else if kept != [] {
      SplitPartsClean(annotation, COMMA);
      forall i | 0 <= i < |kept| ensures COMMA !in kept[i] { assert kept[i] in kept && kept[i] in parts; }
      SplitJoin(kept, COMMA);
    }
  }

  lemma RemoveRefines(annotation: string, app: string)
    requires WellFormed(annotation)
    ensures Apps(Removed(annotation, app)) == Without(Apps(annotation), app)
    ensures WellFormed(Removed(annotation, app))
  {
    var parts := Split(annotation, COMMA);
    var kept := Without(parts, app);
    WithoutMeaning(parts, app);
    if annotation == "" {
      assert parts == [""];
      assert Without(parts[..0], app) == [] && kept == if app == "" then [] else [""];
    } else {
      SplitPartsClean(annotation, COMMA);
      forall i | 0 <= i < |kept| ensures COMMA !in kept[i] && kept[i] != "" {
        assert kept[i] in kept;
        assert kept[i] in parts;
        assert parts == Apps(annotation);
      }
      if kept != [] {
        SplitJoin(kept, COMMA);
        JoinOfNonEmpty(kept);
      }
    }
  }

  lemma JoinOfNonEmpty(parts: seq<string>)
    requires parts != [] && parts[0] != ""
    ensures Join(parts, COMMA) != ""
  {
  }

  /** The text refines the set operation for every annotation exactly when the name is not empty and has
      no comma. */
  lemma AddRefinesIff(app: string)
    ensures (forall annotation :: Apps(Added(annotation, app)) == AddTo(Apps(annotation), app)) <==> GoodName(app)
  {
    if GoodName(app) {
      forall annotation ensures Apps(Added(annotation, app)) == AddTo(Apps(annotation), app) {
        AddRefines(annotation, app);
      }
    } else {
      assert AddTo(Apps(""), app) == [app];
      SplitLength(app, COMMA);
      CountZero(app, COMMA);
      assert Apps(Added("", app)) != [app];
    }
  }

  /** Adding twice is adding once, and removing a name just added to a well-formed annotation gives the
      very same text back. */
  lemma AddLaws(annotation: string, app: string)
    requires GoodName(app) && WellFormed(annotation)
    ensures Added(Added(annotation, app), app) == Added(annotation, app)
    ensures app !in Apps(annotation) ==> Removed(Added(annotation, app), app) == annotation
  {
    AddRefines(annotation, app);
    var text := Added(annotation, app);
    SplitWhole(app, COMMA);
    if app !in Apps(annotation) {
      if annotation == "" {
        assert Split(text, COMMA) == [app];
        assert Without([app][..0], app) == [];
      } else {
        var parts := Split(annotation, COMMA);
        SplitConcat(annotation, app, COMMA);
        WithoutAppended(parts, app);
        JoinSplit(annotation, COMMA);
        calc {
          Removed(text, app);
          Join(Without(Split(text, COMMA), app), COMMA);
          Join(Without(parts + [app], app), COMMA);
          Join(parts, COMMA);
          annotation;
        }
      }
    }
  }

  lemma WithoutAppended(apps: seq<string>, app: string)
    requires app !in apps
    ensures Without(apps + [app], app) == apps
  {
    var more := apps + [app];
    assert more[..|more| - 1] == apps && more[|more| - 1] == app;
    WithoutMeaning(apps, app);
  }

  // ---- Any sequence of operations ------------------------------------------------------------

  datatype Op = Add(app: string) | Remove(app: string)

  function Next(annotation: string, op: Op): string {
    match op
    case Add(app) => Added(annotation, app)
    case Remove(app) => Removed(annotation, app)
  }

  function NextSet(apps: seq<string>, op: Op): seq<string> {
    match op
    case Add(app) => AddTo(apps, app)
    case Remove(app) => Without(apps, app)
  }

  function AfterOps(annotation: string, ops: seq<Op>): string {
    if ops == [] then annotation else Next(AfterOps(annotation, ops[..|ops| - 1]), ops[|ops| - 1])
  }

  function SetAfterOps(apps: seq<string>, ops: seq<Op>): seq<string> {
    if ops == [] then apps else NextSet(SetAfterOps(apps, ops[..|ops| - 1]), ops[|ops| - 1])
  }

  ghost predicate ReadsAsSet(annotation: string) { WellFormed(annotation) && NoDuplicates(Apps(annotation)) }

  lemma OpRefines(annotation: string, op: Op)
    requires ReadsAsSet(annotation) && (op.Add? ==> GoodName(op.app))
    ensures Apps(Next(annotation, op)) == NextSet(Apps(annotation), op) && ReadsAsSet(Next(annotation, op))
  {
    if op.Add? {
      AddRefines(annotation, op.app);
    } else {
      RemoveRefines(annotation, op.app);
      WithoutMeaning(Apps(annotation), op.app);
    }
  }

  /** Over any sequence of adds of such names, and removes of any name, the annotation is read as the
      ordered set without duplicates that the same operations make of the set it started with. */
  lemma {:induction false} RefinesSet(annotation: string, ops: seq<Op>)
    requires ReadsAsSet(annotation) && forall i :: 0 <= i < |ops| && ops[i].Add? ==> GoodName(ops[i].app)
    ensures Apps(AfterOps(annotation, ops)) == SetAfterOps(Apps(annotation), ops)
    ensures ReadsAsSet(AfterOps(annotation, ops))
    decreases |ops|
  {
    if ops != [] {
      hide ReadsAsSet, Apps, Next, NextSet;
      RefinesSet(annotation, ops[..|ops| - 1]);
      OpRefines(AfterOps(annotation, ops[..|ops| - 1]), ops[|ops| - 1]);
    }
  }
}
