/** Trimming a release's revisions to the newest 100, with a backup of each before it is deleted: the
    per-release loop of workers/jobs/helm_revisions_count_tracker.go. */
module RevisionTrim {
  import opened FiniteSets
  import opened Sorting

  const KEEP: nat := 100

  /** A revision's contents, as stored in the cluster and in the bucket. */
  type Data = string

  /** The revisions of one release by number: those in the cluster and those in the bucket. */
  datatype Store = Store(live: map<nat, Data>, bucket: map<nat, Data>)

  /** What fails during one pass.  A write to the bucket or a deletion that reports an error may still
      have taken effect; of the deletions it matters only which have none. */
  datatype Failures = Failures(
    history: bool, marshal: set<nat>,
    writeErrors: set<nat>, writesLost: set<nat>,
    deletesLost: set<nat>)

  const NO_FAILURES := Failures(false, {}, {}, {}, {})

  // ---- Which revisions a pass selects --------------------------------------------------------

  /** The revisions newer than v. */
  function Newer(live: map<nat, Data>, v: nat): set<nat> { set w | w in live && w > v }

  /** v is not among the newest 100. */
  predicate Selected(live: map<nat, Data>, v: nat) { v in live && |Newer(live, v)| >= KEEP }

  /** The pass copies v to the bucket. */
  predicate BacksUp(s: Store, f: Failures, v: nat) {
    !f.history && Selected(s.live, v) && v !in f.marshal && v !in f.writesLost
  }

  /** The pass deletes v: its backup reported no error, and the deletion takes effect. */
  predicate Deletes(s: Store, f: Failures, v: nat) {
    BacksUp(s, f, v) && v !in f.writeErrors && v !in f.deletesLost
  }

  /** A lost write always reports its error. */
  ghost predicate Consistent(f: Failures) { f.writesLost <= f.writeErrors }

  /** What has happened once the pass has been over these revisions. */
  function PassOver(s: Store, f: Failures, done: set<nat>): Store {
    Store(map v | v in s.live && !(v in done && Deletes(s, f, v)) :: s.live[v],
          map v | v in s.bucket.Keys + s.live.Keys && (v in s.bucket || (v in done && BacksUp(s, f, v))) ::
            if v in done && BacksUp(s, f, v) then s.live[v] else s.bucket[v])
  }

  /** What one pass does, revision by revision. */
  function Pass(s: Store, f: Failures): Store { PassOver(s, f, s.live.Keys) }

  lemma PassOverOneMore(s: Store, f: Failures, done: set<nat>, v: nat)
    requires Selected(s.live, v) && !f.history && Consistent(f) && v !in done
    ensures var t := PassOver(s, f, done);
            && v in t.live && t.live[v] == s.live[v]
            && PassOver(s, f, done + {v}) ==
                 Store(if Deletes(s, f, v) then t.live - {v} else t.live,
                       if BacksUp(s, f, v) then t.bucket[v := s.live[v]] else t.bucket)
  {
    var t, u := PassOver(s, f, done), PassOver(s, f, done + {v});
    assert u.live == if Deletes(s, f, v) then t.live - {v} else t.live;
    assert u.bucket == if BacksUp(s, f, v) then t.bucket[v := s.live[v]] else t.bucket;
  }

  /** Only selected revisions matter. */
  lemma PassOverSelected(s: Store, f: Failures, done: set<nat>)
    requires f.history || forall v :: Selected(s.live, v) ==> v in done
    ensures PassOver(s, f, done) == Pass(s, f)
  {
    assert PassOver(s, f, done).live == Pass(s, f).live;
    assert PassOver(s, f, done).bucket == Pass(s, f).bucket;
  }

  // ---- The loop ------------------------------------------------------------------------------

  function Number(v: nat): int { v }

  /** The cluster lists the revisions in some order. */
  ghost predicate Lists(history: seq<nat>, live: map<nat, Data>) {
    && (forall i :: 0 <= i < |history| ==> history[i] in live)
    && (forall v :: v in live ==> v in history)
    && (forall i, j :: 0 <= i < j < |history| ==> history[i] != history[j])
  }

  lemma SortedLists(history: seq<nat>, live: map<nat, Data>)
    requires Lists(history, live)
    ensures Lists(StableSort(history, Number), live)
    ensures |StableSort(history, Number)| == |history|
    ensures var r := StableSort(history, Number); forall i, j :: 0 <= i < j < |r| ==> r[i] > r[j]
  {
    hide StableSort;
    var r := StableSort(history, Number);
    SortSorts(history, Number);
    forall v ensures v in r <==> v in history { assert v in multiset(r) <==> v in multiset(history); }
    forall v ensures multiset(r)[v] <= 1 { CountsFromDistinct(history, v); }
    DistinctFromCounts(r);
    forall i | 0 <= i < |r| ensures r[i] in live { assert r[i] in history; }
    forall i, j | 0 <= i < j < |r| ensures r[i] > r[j] { assert Number(r[i]) >= Number(r[j]); }
    assert |multiset(r)| == |multiset(history)|;
  }

  /** In descending order, a revision's index is the number of newer ones. */
  lemma IndexIsRank(r: seq<nat>, live: map<nat, Data>, i: nat)
    requires Lists(r, live) && i < |r| && forall j, k :: 0 <= j < k < |r| ==> r[j] > r[k]
    ensures |Newer(live, r[i])| == i
  {
    var newer := Elements(r[..i]);
    forall v ensures v in Newer(live, r[i]) <==> v in newer {
      if v in Newer(live, r[i]) {
        var k :| 0 <= k < |r| && r[k] == v;
        assert k < i;
        assert r[..i][k] == v;
      }
    }
    assert Newer(live, r[i]) == newer;
  }

  class Release {
    var live: map<nat, Data>
    var bucket: map<nat, Data>

    constructor (s: Store)
      ensures Current() == s
    {
      live, bucket := s.live, s.bucket;
    }

    ghost function Current(): Store
      reads this
    {
      Store(live, bucket)
    }

    /** Backs up one revision and deletes it. */
    method TrimOne(rev: nat, f: Failures, ghost s: Store, ghost done: set<nat>)
      requires Selected(s.live, rev) && !f.history && Consistent(f) && rev !in done
      requires Current() == PassOver(s, f, done)
      modifies this
      ensures Current() == PassOver(s, f, done + {rev})
    {
      PassOverOneMore(s, f, done, rev);
      if rev in f.marshal {
        return;
      }
      var data := live[rev];
      if rev !in f.writesLost {
        bucket := bucket[rev := data];
      }
      if rev in f.writeErrors {
        return;
      }
      if rev !in f.deletesLost {
        live := live - {rev};
      }
    }

    /** One pass over the release. */
    method Trim(history: seq<nat>, f: Failures)
      requires Lists(history, live) && Consistent(f)
      modifies this
      ensures Current() == Pass(old(Current()), f)
    {
      hide PassOver;
      ghost var s := Current();
      var revisions := StableSort(history, Number);
      SortedLists(history, live);
      SelectedByIndex(revisions, s.live);
      NothingPassedOver(s, f);
      if f.history || |history| <= KEEP {
        PassOverSelected(s, f, {});
        return;
      }
      TrimFrom(revisions, f, s);
    }

    /** The loop over the revisions after the newest 100. */
    method TrimFrom(revisions: seq<nat>, f: Failures, ghost s: Store)
      requires Current() == s && !f.history && Consistent(f) && |revisions| > KEEP
      requires forall i, j :: 0 <= i < j < |revisions| ==> revisions[i] != revisions[j]
      requires forall i :: KEEP <= i < |revisions| ==> Selected(s.live, revisions[i])
      requires forall v :: Selected(s.live, v) ==> exists i :: KEEP <= i < |revisions| && revisions[i] == v
      modifies this
      ensures Current() == Pass(s, f)
    {
      hide PassOver, Selected;
      NothingPassedOver(s, f);
      ghost var done: set<nat> := {};
      for i := KEEP to |revisions|
        invariant forall v :: v in done <==> v in revisions[KEEP..i]
        invariant Current() == PassOver(s, f, done)
      {
        var rev := revisions[i];
        assert rev !in revisions[KEEP..i];
        assert revisions[KEEP..i + 1] == revisions[KEEP..i] + [rev];
        TrimOne(rev, f, s, done);
        done := done + {rev};
      }
      forall v | Selected(s.live, v) ensures v in done {
        var i :| KEEP <= i < |revisions| && revisions[i] == v;
        assert revisions[KEEP..|revisions|][i - KEEP] == v;
      }
      PassOverSelected(s, f, done);
    }
  }

  lemma NothingPassedOver(s: Store, f: Failures)
    ensures PassOver(s, f, {}) == s
  {
    assert PassOver(s, f, {}).live == s.live && PassOver(s, f, {}).bucket == s.bucket;
  }

  /** In descending order the selected revisions are those from index 100 on. */
  lemma SelectedByIndex(r: seq<nat>, live: map<nat, Data>)
    requires Lists(r, live) && forall j, k :: 0 <= j < k < |r| ==> r[j] > r[k]
    ensures forall i :: 0 <= i < |r| ==> (Selected(live, r[i]) <==> i >= KEEP)
    ensures forall v :: Selected(live, v) ==> exists i :: KEEP <= i < |r| && r[i] == v
  {
    forall i | 0 <= i < |r| ensures Selected(live, r[i]) <==> i >= KEEP { IndexIsRank(r, live, i); }
    forall v | Selected(live, v) ensures exists i :: KEEP <= i < |r| && r[i] == v {
      var i :| 0 <= i < |r| && r[i] == v;
    }
  }

  // ---- What trimming guarantees --------------------------------------------------------------

  /** One revision after a pass.  With at least 100 newer ones, if the history is read and the revision
      marshalled, it is written to the bucket under its number, and then deleted if no error was reported. */
  lemma PassMeaning(s: Store, f: Failures, v: nat)
    ensures var t, tried := Pass(s, f), v in s.live && |set w | w in s.live && w > v| >= 100 && !f.history &&
                                        v !in f.marshal;
            && (v in t.bucket <==> v in s.bucket || (tried && v !in f.writesLost))
            && (v in t.bucket ==> t.bucket[v] == if tried && v !in f.writesLost then s.live[v] else s.bucket[v])
            && (v in t.live <==> v in s.live && !(tried && v !in f.writesLost + f.writeErrors + f.deletesLost))
            && (v in t.live ==> t.live[v] == s.live[v])
  {
    assert Newer(s.live, v) == set w | w in s.live && w > v;
  }

  /** The 100 newest revisions are never deleted, whatever fails; and a pass changes a backup exactly
      when it backs up other contents under a number already in the bucket. */
  lemma PassKeeps(s: Store, f: Failures)
    ensures forall v | v in s.live && |Newer(s.live, v)| < KEEP ::
      v in Pass(s, f).live && Pass(s, f).live[v] == s.live[v]
    ensures (forall v :: v in s.bucket ==> v in Pass(s, f).bucket && Pass(s, f).bucket[v] == s.bucket[v]) <==>
            forall v :: v in s.bucket && BacksUp(s, f, v) ==> s.live[v] == s.bucket[v]
  {
    var t := Pass(s, f);
    forall v | v in s.bucket
      ensures v in t.bucket
      ensures t.bucket[v] == s.bucket[v] <==> (BacksUp(s, f, v) ==> s.live[v] == s.bucket[v])
    {
    }
  }

  /** A failure-free pass leaves exactly the newest 100, or all if there are fewer; and a second one
      then finds nothing to do. */
  lemma CleanPass(s: Store, history: seq<nat>)
    requires Lists(history, s.live)
    ensures var t := Pass(s, NO_FAILURES);
            && (forall v :: v in t.live <==> v in s.live && |Newer(s.live, v)| < KEEP)
            && |t.live| == (if |s.live| <= KEEP then |s.live| else KEEP)
            && Pass(t, NO_FAILURES) == t
  {
    var t := Pass(s, NO_FAILURES);
    assert forall v :: v in t.live <==> v in s.live && |Newer(s.live, v)| < KEEP;
    SortedLists(history, s.live);
    NewestCount(s.live, t.live.Keys, StableSort(history, Number));
    forall v | v in t.live ensures !Selected(t.live, v) {
      SubsetCount(Newer(t.live, v), Newer(s.live, v));
    }
    PassOverSelected(t, NO_FAILURES, {});
    NothingPassedOver(t, NO_FAILURES);
  }

  lemma NewestCount(live: map<nat, Data>, newest: set<nat>, r: seq<nat>)
    requires Lists(r, live) && forall j, k :: 0 <= j < k < |r| ==> r[j] > r[k]
    requires forall v :: v in newest <==> v in live && !Selected(live, v)
    ensures |newest| == (if |live| <= KEEP then |live| else KEEP)
  {
    hide Selected, Newer;
    SelectedByIndex(r, live);
    var all := Elements(r);
    assert all == live.Keys;
    var n := if |r| <= KEEP then |r| else KEEP;
    var first := Elements(r[..n]);
    forall v ensures v in first <==> v in newest {
      if v in newest {
        var i :| 0 <= i < |r| && r[i] == v;
        assert r[..n][i] == v;
      }
      if v in first {
        var k :| 0 <= k < n && r[..n][k] == v;
        assert !Selected(live, r[k]);
      }
    }
    assert first == newest;
  }

  datatype Event =
    | Trimmed(failures: Failures)
    | NewRevision(number: nat, data: Data)

  function Next(s: Store, e: Event): Store {
    match e
    case Trimmed(f) => Pass(s, f)
    case NewRevision(v, data) => s.(live := s.live[v := data])
  }

  /** Every revision that ever existed, by number. */
  function Ever(initial: map<nat, Data>, events: seq<Event>): map<nat, Data> {
    if events == [] then initial
    else
      var before := Ever(initial, events[..|events| - 1]);
      match events[|events| - 1]
      case NewRevision(v, data) => before[v := data]
      case Trimmed(_) => before
  }

  function AfterAll(s: Store, events: seq<Event>): Store {
    if events == [] then s else Next(AfterAll(s, events[..|events| - 1]), events[|events| - 1])
  }

  /** Numbers are not used again, and lost writes are reported. */
  ghost predicate Proper(initial: map<nat, Data>, events: seq<Event>) {
    forall i :: 0 <= i < |events| ==>
      match events[i]
      case NewRevision(v, _) => v !in Ever(initial, events[..i])
      case Trimmed(f) => Consistent(f)
  }

  /** Each revision that ever existed is in the cluster or in the bucket, with its contents, and neither
      holds anything else. */
  ghost predicate AllKept(s: Store, ever: map<nat, Data>) {
    && (forall v :: v in ever ==> v in s.live || v in s.bucket)
    && (forall v :: v in s.live ==> v in ever && s.live[v] == ever[v])
    && (forall v :: v in s.bucket ==> v in ever && s.bucket[v] == ever[v])
  }

  /** From any start with all revisions kept, backups included, and over any sequence of passes and
      upgrades, with any failures, every revision that ever existed is still in the cluster or backed up
      in the bucket. */
  lemma {:induction false} RevisionsConserved(s: Store, ever: map<nat, Data>, events: seq<Event>)
    requires AllKept(s, ever) && Proper(ever, events)
    ensures AllKept(AfterAll(s, events), Ever(ever, events))
    decreases |events|
  {
    if events != [] {
      var before := events[..|events| - 1];
      forall i | 0 <= i < |before| ensures events[..i] == before[..i] {}
      assert Proper(ever, before) by {
        forall i | 0 <= i < |before|
          ensures match before[i]
                  case NewRevision(v, _) => v !in Ever(ever, before[..i])
                  case Trimmed(f) => Consistent(f)
        {
          assert before[i] == events[i] && before[..i] == events[..i];
        }
      }
      RevisionsConserved(s, ever, before);
      assert match events[|before|]
             case NewRevision(v, _) => v !in Ever(ever, before)
             case Trimmed(f) => Consistent(f);
    }
  }

  /** A number used again, as after uninstalling and reinstalling a release, costs the old backup: the
      next pass that trims it writes the new contents over it. */
  lemma ReusedNumberLosesBackup(s: Store, v: nat)
    requires v in s.bucket && Selected(s.live, v) && s.live[v] != s.bucket[v]
    ensures var t := Pass(s, NO_FAILURES);
            v !in t.live && v in t.bucket && t.bucket[v] == s.live[v] && t.bucket[v] != s.bucket[v]
  {
  }
}
