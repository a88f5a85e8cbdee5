/** What vault migration guarantees: no credential is lost over any sequence of runs, a failure-free
    finalizing run completes the job, and exactly when a run does lose a credential. */
module VaultMigrationProofs {
  import opened VaultMigration

  // ---- The pages partition the table ---------------------------------------------------------

  /** The pages one after another, as a pass reads them. */
  ghost function Pages(rows: seq<Row>, n: nat): seq<Row> {
    if n == 0 then [] else Pages(rows, n - 1) + Page(rows, n - 1)
  }

  lemma {:induction false} PagesArePrefix(rows: seq<Row>, n: nat)
    ensures Pages(rows, n) == FirstPages(rows, n)
  {
    if n > 0 {
      PagesArePrefix(rows, n - 1);
      PageExtends(rows, n - 1);
    }
  }

  /** Whatever the count, the (count / 100) + 1 pages read every row once, in order, and the last of
      them always has room for at least one row that was not counted. */
  lemma PagesPartition(rows: seq<Row>, inserted: seq<Row>)
    ensures Pages(rows, PageCount(|rows|)) == rows
    ensures forall i: nat :: |Page(rows, i)| <= STEP_SIZE
    ensures inserted != [] ==> |FirstPages(rows + inserted, PageCount(|rows|))| > |rows|
  {
    PagesArePrefix(rows, PageCount(|rows|));
    assert |rows| < PageCount(|rows|) * STEP_SIZE;
  }

  // ---- The copy pass, row by row -------------------------------------------------------------

  /** The vault after copying, seen at one row's ID and elsewhere. */
  lemma {:induction false} CopyMeaning(vault: map<nat, Credential>, rows: seq<Row>, env: Environment, j: nat)
    requires Ordered(rows) && j < |rows|
    ensures var id := rows[j].id;
            var after := CopyRows(vault, rows, env);
            && (id in after <==> id in vault || Outcome(env, id) != Refused)
            && (id in after ==>
                  after[id] == if id in vault && (Skipped(vault, env, id) || Outcome(env, id) == Refused)
                               then vault[id] else rows[j].credential)
            && (id in CopyErrors(vault, rows, env) <==>
                  !Skipped(vault, env, id) && Outcome(env, id) != Written)
  {
    var before, last := rows[..|rows| - 1], rows[|rows| - 1];
    assert rows == before + [last];
    CopyOneMore(vault, before, last, env);
    if j == |rows| - 1 {
      CopyElsewhere(vault, before, env, last.id);
    } else {
      CopyMeaning(vault, before, env, j);
    }
  }

  lemma {:induction false} CopyElsewhere(vault: map<nat, Credential>, rows: seq<Row>, env: Environment, id: nat)
    requires forall i :: 0 <= i < |rows| ==> rows[i].id != id
    ensures id in CopyRows(vault, rows, env) <==> id in vault
    ensures id in vault ==> CopyRows(vault, rows, env)[id] == vault[id]
    ensures id !in CopyErrors(vault, rows, env)
  {
    if rows != [] {
      CopyElsewhere(vault, rows[..|rows| - 1], env, id);
    }
  }

  // ---- The fate of one row -------------------------------------------------------------------

  /** The credential by which the program can still serve row j: its vault entry if it has one, else
      what the table holds. */
  function Effective(s: State, j: nat): Credential
    requires j < |s.rows|
  {
    if s.rows[j].id in s.vault then s.vault[s.rows[j].id] else s.rows[j].credential
  }

  /** The credential clients have written for row j last.  A server without the vault writes and reads
      the table only; one with the vault strips the row whenever it writes an entry.  So it is what the
      table holds, and the vault's entry for a row without a credential. */
  function Newest(s: State, j: nat): Credential
    requires j < |s.rows|
  {
    if s.rows[j].credential != CLEARED then s.rows[j].credential else Effective(s, j)
  }

  /** The vault has an older credential of row j than the table. */
  predicate Stale(s: State, j: nat)
    requires j < |s.rows|
  {
    var row := s.rows[j];
    row.credential != CLEARED && row.id in s.vault && s.vault[row.id] != row.credential
  }

  /** The rows the copy pass reads. */
  function Copied(s: State, env: Environment): nat {
    if env.countFails then 0
    else |FirstPages(s.rows, FirstFailure(env.copyPageFails, 0, PageCount(|s.rows|)))|
  }

  /** The copy pass reads all its pages. */
  predicate CopyCompletes(s: State, env: Environment) {
    !env.countFails && FirstFailure(env.copyPageFails, 0, PageCount(|s.rows|)) == PageCount(|s.rows|)
  }

  /** The clearing pass reads row j of the table as it then is. */
  predicate Revisited(s: State, finalize: bool, env: Environment, j: nat) {
    && finalize && CopyCompletes(s, env)
    && j < |FirstPages(s.rows + env.inserted, FirstFailure(env.clearPageFails, 0, PageCount(|s.rows|)))|
  }

  /** The table the run ends with, up to clearing. */
  function TableAfter(s: State, env: Environment): seq<Row> {
    if CopyCompletes(s, env) then s.rows + env.inserted else s.rows
  }

  /** An existing entry is written over: Get hid it, and the write took effect. */
  predicate Overwritten(s: State, env: Environment, j: nat)
    requires j < |s.rows|
  {
    var id := s.rows[j].id;
    j < Copied(s, env) && id in s.vault && id in env.getFails && Outcome(env, id) != Refused
  }

  /** The row was inserted too late to be copied and is cleared all the same. */
  predicate ClearedUncopied(s: State, finalize: bool, env: Environment, j: nat)
    requires j < |TableAfter(s, env)|
  {
    var id := TableAfter(s, env)[j].id;
    j >= |s.rows| && Revisited(s, finalize, env, j) && id !in env.saveFails && id !in s.vault
  }

  lemma OrderedPrefix(rows: seq<Row>, n: nat)
    requires Ordered(rows) && n <= |rows|
    ensures Ordered(rows[..n])
  {
    forall i, j | 0 <= i < j < n ensures rows[..n][i].id < rows[..n][j].id {
      assert rows[i].id < rows[j].id;
    }
  }

  lemma AllRowsRead(s: State, env: Environment)
    requires CopyCompletes(s, env)
    ensures FirstPages(s.rows, PageCount(|s.rows|)) == s.rows
  {
    PagesArePrefix(s.rows, PageCount(|s.rows|));
    PagesPartition(s.rows, []);
  }

  lemma VaultAfter(s: State, finalize: bool, env: Environment)
    ensures Run(s, finalize, env).0.vault == CopyRows(s.vault, s.rows[..Copied(s, env)], env)
    ensures |Run(s, finalize, env).0.rows| == |TableAfter(s, env)|
  {
    assert s.rows[..0] == [];
    if !env.countFails {
      var seen := FirstPages(s.rows, FirstFailure(env.copyPageFails, 0, PageCount(|s.rows|)));
      assert s.rows[..Copied(s, env)] == seen;
    }
  }

  /** A run returns an error exactly if counting the rows fails, or reading one of the pages of 100, in the
      copy pass or in the clearing pass of a finalizing run; failed writes and saves are no errors. */
  lemma RunFailsIff(s: State, finalize: bool, env: Environment)
    ensures Run(s, finalize, env).1 <==>
            || env.countFails
            || (exists p: nat :: 100 * p <= |s.rows| && p in env.copyPageFails)
            || (finalize && exists p: nat :: 100 * p <= |s.rows| && p in env.clearPageFails)
  {
    var pages := PageCount(|s.rows|);
    assert forall p: nat :: 100 * p <= |s.rows| <==> p < pages;
  }

  /** The row's vault entry after a run. */
  lemma EntryAfter(s: State, finalize: bool, env: Environment, j: nat)
    requires Ordered(TableAfter(s, env)) && j < |TableAfter(s, env)|
    ensures var row := TableAfter(s, env)[j];
            var vault := Run(s, finalize, env).0.vault;
            && (row.id in vault <==> row.id in s.vault || (j < Copied(s, env) && Outcome(env, row.id) != Refused))
            && (row.id in vault ==>
                  vault[row.id] == if row.id in s.vault && (j >= |s.rows| || !Overwritten(s, env, j))
                                   then s.vault[row.id] else row.credential)
  {
    var seen := s.rows[..Copied(s, env)];
    var table := TableAfter(s, env);
    VaultAfter(s, finalize, env);
    assert seen == table[..Copied(s, env)];
    OrderedPrefix(table, Copied(s, env));
    if j < Copied(s, env) {
      CopyMeaning(s.vault, seen, env, j);
    } else {
      forall i | 0 <= i < |seen| ensures seen[i].id != table[j].id { assert seen[i] == table[i]; }
      CopyElsewhere(s.vault, seen, env, table[j].id);
    }
  }

  /** The row itself after a run: cleared exactly when the clearing pass reads it, its copy reported no
      error, and the save succeeds. */
  lemma RowAfter(s: State, finalize: bool, env: Environment, j: nat)
    requires Ordered(TableAfter(s, env)) && j < |TableAfter(s, env)|
    ensures |Run(s, finalize, env).0.rows| == |TableAfter(s, env)|
    ensures var row := TableAfter(s, env)[j];
            var reported := j < |s.rows| && !Skipped(s.vault, env, row.id) && Outcome(env, row.id) != Written;
            Run(s, finalize, env).0.rows[j] ==
              if Revisited(s, finalize, env, j) && !reported && row.id !in env.saveFails
              then row.(credential := CLEARED) else row
  {
    if CopyCompletes(s, env) && finalize {
      AllRowsRead(s, env);
      var row := TableAfter(s, env)[j];
      if j < |s.rows| {
        assert s.rows == TableAfter(s, env)[..|s.rows|];
        OrderedPrefix(TableAfter(s, env), |s.rows|);
        CopyMeaning(s.vault, s.rows, env, j);
      } else {
        forall i | 0 <= i < |s.rows| ensures s.rows[i].id != row.id { assert s.rows[i] == TableAfter(s, env)[i]; }
        CopyElsewhere(s.vault, s.rows, env, row.id);
      }
    }
  }

  /** Exactly when a run changes what a server with the vault serves row j by, its entry or else the
      table: when Get hides its entry and another credential is written over it, or when it was inserted
      between the two passes of a finalizing run and is cleared uncopied. */
  lemma ServedChangesIff(s: State, finalize: bool, env: Environment, j: nat)
    requires Ordered(TableAfter(s, env)) && j < |TableAfter(s, env)|
    ensures var before := State(TableAfter(s, env), s.vault);
            var row := before.rows[j];
            var after := Run(s, finalize, env).0;
            && |after.rows| == |before.rows| && after.rows[j].id == row.id
            && (Effective(after, j) != Effective(before, j) <==>
                  || (j < |s.rows| && Overwritten(s, env, j) && row.credential != s.vault[row.id])
                  || (ClearedUncopied(s, finalize, env, j) && row.credential != CLEARED))
  {
    EntryAfter(s, finalize, env, j);
    RowAfter(s, finalize, env, j);
    if Revisited(s, finalize, env, j) && j < |s.rows| {
      AllRowsRead(s, env);
    }
  }

  /** A cleared row's entry is hidden by Get and its empty credential written over it. */
  predicate EntryWipedOut(s: State, env: Environment, j: nat)
    requires j < |s.rows|
  {
    s.rows[j].credential == CLEARED && Overwritten(s, env, j) && s.vault[s.rows[j].id] != CLEARED
  }

  /** The row is cleared although the vault's entry, which the copy pass left alone, is an older one. */
  predicate ClearedWhileStale(s: State, finalize: bool, env: Environment, j: nat)
    requires j < |TableAfter(s, env)|
  {
    var id := TableAfter(s, env)[j].id;
    && Stale(State(TableAfter(s, env), s.vault), j)
    && Revisited(s, finalize, env, j) && (j < |s.rows| ==> id !in env.getFails) && id !in env.saveFails
  }

  /** Exactly when a run loses the credential clients have written last, so that it is in neither place:
      when Get hides the entry of a cleared row and the entry is wiped out; when the row is cleared while
      the vault's entry is an older one; or when the row was inserted between the two passes and is
      cleared uncopied. */
  lemma LossIff(s: State, finalize: bool, env: Environment, j: nat)
    requires Ordered(TableAfter(s, env)) && j < |TableAfter(s, env)|
    ensures var before := State(TableAfter(s, env), s.vault);
            var row := before.rows[j];
            var after := Run(s, finalize, env).0;
            && |after.rows| == |before.rows| && after.rows[j].id == row.id
            && (Newest(after, j) != Newest(before, j) <==>
                  || (j < |s.rows| && EntryWipedOut(s, env, j))
                  || ClearedWhileStale(s, finalize, env, j)
                  || (ClearedUncopied(s, finalize, env, j) && row.credential != CLEARED))
  {
    EntryAfter(s, finalize, env, j);
    RowAfter(s, finalize, env, j);
    if Revisited(s, finalize, env, j) && j < |s.rows| {
      AllRowsRead(s, env);
    }
  }

  // ---- Any sequence of runs and updates ------------------------------------------------------

  /** Clients update a row's credential in the table, on a server without the vault, or in the vault. */
  datatype Event =
    | Migration(finalize: bool, env: Environment)
    | NewRows(rows: seq<Row>)
    | Update(row: nat, credential: Credential, inVault: bool)

  function Next(s: State, e: Event): State {
    match e
    case Migration(finalize, env) => Run(s, finalize, env).0
    case NewRows(rows) => s.(rows := s.rows + rows)
    case Update(j, c, inVault) =>
      if j >= |s.rows| then s
      else if inVault
      then State(s.rows[j := s.rows[j].(credential := CLEARED)], s.vault[s.rows[j].id := c])
      else s.(rows := s.rows[j := s.rows[j].(credential := c)])
  }

  /** Get answers nil only for IDs without an entry, rows are inserted between runs only, and an update
      sets a credential.  Every other failure may happen. */
  ghost predicate Reliable(s: State, e: Event) {
    match e
    case Migration(_, env) => env.inserted == [] && forall id :: id in env.getFails ==> id !in s.vault
    case NewRows(rows) => Ordered(s.rows + rows)
    case Update(_, c, _) => c != CLEARED
  }

  ghost predicate ReliableHistory(s: State, events: seq<Event>)
    decreases |events|
  {
    events == [] || (Reliable(s, events[0]) && ReliableHistory(Next(s, events[0]), events[1..]))
  }

  function AfterAll(s: State, events: seq<Event>): State
    decreases |events|
  {
    if events == [] then s else AfterAll(Next(s, events[0]), events[1..])
  }

  predicate Updates(e: Event, j: nat) { e.Update? && e.row == j }

  /** The event updates row j in the table while the vault has another credential for it. */
  predicate Masked(s: State, e: Event, j: nat)
    requires j < |s.rows|
  {
    Updates(e, j) && !e.inVault && s.rows[j].id in s.vault && s.vault[s.rows[j].id] != e.credential
  }

  /** No update of row j is masked when it happens. */
  ghost predicate NeverMasked(s: State, events: seq<Event>, j: nat)
    requires j < |s.rows|
    decreases |events|
  {
    events == [] || (!Masked(s, events[0], j) &&
                     (j < |Next(s, events[0]).rows| ==> NeverMasked(Next(s, events[0]), events[1..], j)))
  }

  /** What clients have written for row j last, given c from before the events. */
  function Latest(c: Credential, events: seq<Event>, j: nat): Credential
    decreases |events|
  {
    if events == [] then c else Latest(if Updates(events[0], j) then events[0].credential else c, events[1..], j)
  }

  ghost predicate NotUpdated(events: seq<Event>, j: nat) { forall i :: 0 <= i < |events| ==> !Updates(events[i], j) }

  /** One event, seen at row j: what the row is served by changes by an update of it only, and unless an
      update is masked, its newest credential is the one written last and the vault has no older one. */
  lemma NextAtRow(s: State, e: Event, j: nat)
    requires Ordered(s.rows) && Reliable(s, e) && j < |s.rows|
    ensures var t := Next(s, e);
            && Ordered(t.rows) && |s.rows| <= |t.rows| && t.rows[j].id == s.rows[j].id
            && (!Updates(e, j) ==> Effective(t, j) == Effective(s, j))
            && (!Stale(s, j) && !Masked(s, e, j) ==>
                  !Stale(t, j) && Newest(t, j) == if Updates(e, j) then e.credential else Newest(s, j))
  {
    if e.Migration? {
      assert TableAfter(s, e.env) == s.rows;
      VaultAfter(s, e.finalize, e.env);
      ServedChangesIff(s, e.finalize, e.env, j);
      EntryAfter(s, e.finalize, e.env, j);
      RowAfter(s, e.finalize, e.env, j);
      assert Next(s, e).rows[j].id == s.rows[j].id;
      forall a, b | 0 <= a < b < |s.rows| ensures Next(s, e).rows[a].id < Next(s, e).rows[b].id {
        RowAfter(s, e.finalize, e.env, a);
        RowAfter(s, e.finalize, e.env, b);
      }
    } else if e.Update? && e.row < |s.rows| && e.row != j {
      assert s.rows[e.row].id != s.rows[j].id;
    }
  }

  /** One event, seen at a vault entry: only an update in the vault changes it. */
  lemma NextAtEntry(s: State, e: Event, id: nat)
    requires Ordered(s.rows) && Reliable(s, e) && id in s.vault
    ensures id in Next(s, e).vault
    ensures (e.Update? ==> !e.inVault || e.row >= |s.rows| || s.rows[e.row].id != id) ==>
      Next(s, e).vault[id] == s.vault[id]
  {
    if e.Migration? {
      var env := e.env;
      VaultAfter(s, e.finalize, env);
      var seen := s.rows[..Copied(s, env)];
      OrderedPrefix(s.rows, Copied(s, env));
      if j :| 0 <= j < |seen| && seen[j].id == id {
        CopyMeaning(s.vault, seen, env, j);
      } else {
        CopyElsewhere(s.vault, seen, env, id);
      }
    }
  }

  /** No event of the history updates an entry in the vault. */
  ghost predicate NoVaultUpdates(events: seq<Event>) {
    forall i :: 0 <= i < |events| ==> events[i].Update? ==> !events[i].inVault
  }

  /** t serves every row of s that is not updated by the same credential, has for every row whose updates
      are never masked the one written last, and has kept every vault entry unless one is updated. */
  ghost predicate Keeps(s: State, events: seq<Event>, t: State) {
    && |s.rows| <= |t.rows|
    && (forall j :: 0 <= j < |s.rows| ==>
          && t.rows[j].id == s.rows[j].id
          && (NotUpdated(events, j) ==> Effective(t, j) == Effective(s, j))
          && (!Stale(s, j) && NeverMasked(s, events, j) ==>
                !Stale(t, j) && Newest(t, j) == Effective(t, j) == Latest(Newest(s, j), events, j)))
    && (forall id :: id in s.vault ==> id in t.vault && (NoVaultUpdates(events) ==> t.vault[id] == s.vault[id]))
  }

  /** Migration safety: over any sequence of runs, inserts and updates, with any failures of counts, page
      reads, vault writes and saves, no run changes a vault entry, every row that is not updated is
      served by its original credential throughout, and a row whose updates are never masked by another
      vault entry always has the credential written last.  So none of these is ever in neither place. */
  lemma {:induction false} MigrationSafety(s: State, events: seq<Event>)
    requires Ordered(s.rows) && ReliableHistory(s, events)
    ensures Ordered(AfterAll(s, events).rows) && Keeps(s, events, AfterAll(s, events))
    decreases |events|
  {
    if events != [] {
      var e, rest := events[0], events[1..];
      var u, t := Next(s, e), AfterAll(s, events);
      assert Ordered(u.rows) && |s.rows| <= |u.rows| by { NextOrdered(s, e); }
      MigrationSafety(u, rest);
      forall j | 0 <= j < |s.rows|
        ensures t.rows[j].id == s.rows[j].id
        ensures NotUpdated(events, j) ==> Effective(t, j) == Effective(s, j)
        ensures !Stale(s, j) && NeverMasked(s, events, j) ==>
          !Stale(t, j) && Newest(t, j) == Effective(t, j) == Latest(Newest(s, j), events, j)
      {
        NextAtRow(s, e, j);
        RestNotUpdated(events, j);
      }
      forall id | id in s.vault
        ensures id in t.vault && (NoVaultUpdates(events) ==> t.vault[id] == s.vault[id])
      {
        NextAtEntry(s, e, id);
        assert NoVaultUpdates(events) ==> NoVaultUpdates(rest) && (e.Update? ==> !e.inVault);
      }
    }
  }

  lemma RestNotUpdated(events: seq<Event>, j: nat)
    requires events != []
    ensures NotUpdated(events, j) <==> !Updates(events[0], j) && NotUpdated(events[1..], j)
  {
    assert forall i :: 0 <= i < |events[1..]| ==> events[1..][i] == events[i + 1];
    assert forall i :: 0 < i < |events| ==> events[i] == events[1..][i - 1];
  }

  lemma NextOrdered(s: State, e: Event)
    requires Ordered(s.rows) && Reliable(s, e)
    ensures Ordered(Next(s, e).rows) && |s.rows| <= |Next(s, e).rows|
  {
    if s.rows != [] {
      NextAtRow(s, e, 0);
    } else if e.Migration? {
      assert TableAfter(s, e.env) == s.rows;
      VaultAfter(s, e.finalize, e.env);
    }
  }

  /** Migration completeness: after any such history, one failure-free finalizing run leaves every row
      cleared and the vault holding the credential it was served by: of the rows the history started
      with, the original one if they were not updated, and the one written last if never masked. */
  lemma MigrationCompletes(s: State, events: seq<Event>)
    requires Ordered(s.rows) && ReliableHistory(s, events)
    ensures var u := AfterAll(s, events);
            var (t, failed) := Run(u, true, NO_FAILURES);
            && !failed
            && |s.rows| <= |t.rows| == |u.rows|
            && (forall j :: 0 <= j < |t.rows| ==>
                  && t.rows[j] == u.rows[j].(credential := CLEARED)
                  && t.rows[j].id in t.vault && t.vault[t.rows[j].id] == Effective(u, j))
            && (forall j :: 0 <= j < |s.rows| && NotUpdated(events, j) ==> Effective(u, j) == Effective(s, j))
            && (forall j :: 0 <= j < |s.rows| && !Stale(s, j) && NeverMasked(s, events, j) ==>
                  Effective(u, j) == Latest(Newest(s, j), events, j))
  {
    MigrationSafety(s, events);
    CleanRun(AfterAll(s, events));
  }

  // ---- Updates in the table ------------------------------------------------------------------

  /** An update in the table survives every history that does not update the row again exactly when the
      vault has no other credential for it at that time. */
  lemma UpdateSurvivesIff(s: State, j: nat, c: Credential)
    requires Ordered(s.rows) && j < |s.rows| && c != CLEARED
    ensures var u := Next(s, Update(j, c, false));
            (forall events | ReliableHistory(u, events) && NotUpdated(events, j) && j < |AfterAll(u, events).rows| ::
               Newest(AfterAll(u, events), j) == c)
            <==> !Masked(s, Update(j, c, false), j)
  {
    var u := Next(s, Update(j, c, false));
    if Masked(s, Update(j, c, false), j) {
      MaskedUpdateLost(s, j, c);
      var clean := Migration(true, NO_FAILURES);
      assert ReliableHistory(u, [clean]) && NotUpdated([clean], j) by { assert [clean][1..] == []; }
      assert AfterAll(u, [clean]) == Next(u, clean) by { assert [clean][1..] == []; }
    } else {
      forall events | ReliableHistory(u, events) && NotUpdated(events, j) && j < |AfterAll(u, events).rows|
        ensures Newest(AfterAll(u, events), j) == c
      {
        MigrationSafety(u, events);
        NotUpdatedNeverMasked(u, events, j);
        NotUpdatedLatest(c, events, j);
      }
    }
  }

  lemma {:induction false} NotUpdatedLatest(c: Credential, events: seq<Event>, j: nat)
    requires NotUpdated(events, j)
    ensures Latest(c, events, j) == c
  {
    if events != [] {
      RestNotUpdated(events, j);
      NotUpdatedLatest(c, events[1..], j);
    }
  }

  lemma {:induction false} NotUpdatedNeverMasked(s: State, events: seq<Event>, j: nat)
    requires j < |s.rows| && NotUpdated(events, j)
    ensures NeverMasked(s, events, j)
    decreases |events|
  {
    if events != [] {
      RestNotUpdated(events, j);
      if j < |Next(s, events[0]).rows| {
        NotUpdatedNeverMasked(Next(s, events[0]), events[1..], j);
      }
    }
  }

  /** A masked update is lost by the next failure-free finalizing run: the row is skipped, as the vault
      has an entry, and then cleared all the same. */
  lemma MaskedUpdateLost(s: State, j: nat, c: Credential)
    requires Ordered(s.rows) && j < |s.rows| && c != CLEARED && Masked(s, Update(j, c, false), j)
    ensures var t := Run(Next(s, Update(j, c, false)), true, NO_FAILURES).0;
            var id := s.rows[j].id;
            && |t.rows| == |s.rows| && t.rows[j] == Row(id, CLEARED)
            && id in t.vault && t.vault[id] == s.vault[id] != c && Newest(t, j) != c
  {
    CleanRun(Next(s, Update(j, c, false)));
  }

  /** So an update between a clean initial run and a clean finalizing one is lost, for every row. */
  lemma UpdateBetweenRunsLost(s: State, j: nat, c: Credential)
    requires Ordered(s.rows) && j < |s.rows| && c != CLEARED && c != Effective(s, j)
    ensures var copied := Run(s, false, NO_FAILURES).0;
            var t := Run(Next(copied, Update(j, c, false)), true, NO_FAILURES).0;
            var id := s.rows[j].id;
            && |t.rows| == |s.rows| && t.rows[j] == Row(id, CLEARED)
            && id in t.vault && t.vault[id] == Effective(s, j)
  {
    assert TableAfter(s, NO_FAILURES) == s.rows;
    assert CopyCompletes(s, NO_FAILURES);
    AllRowsRead(s, NO_FAILURES);
    VaultAfter(s, false, NO_FAILURES);
    EntryAfter(s, false, NO_FAILURES, j);
    RowAfter(s, false, NO_FAILURES, j);
    NextOrdered(s, Migration(false, NO_FAILURES));
    MaskedUpdateLost(Run(s, false, NO_FAILURES).0, j, c);
  }

  lemma CleanRun(u: State)
    requires Ordered(u.rows)
    ensures var (t, failed) := Run(u, true, NO_FAILURES);
            && !failed
            && |t.rows| == |u.rows|
            && forall j :: 0 <= j < |u.rows| ==>
                 && t.rows[j] == u.rows[j].(credential := CLEARED)
                 && t.rows[j].id in t.vault && t.vault[t.rows[j].id] == Effective(u, j)
  {
    assert TableAfter(u, NO_FAILURES) == u.rows;
    assert CopyCompletes(u, NO_FAILURES);
    AllRowsRead(u, NO_FAILURES);
    VaultAfter(u, true, NO_FAILURES);
    assert u.rows + NO_FAILURES.inserted == u.rows;
    var t := Run(u, true, NO_FAILURES).0;
    forall j | 0 <= j < |u.rows|
      ensures t.rows[j] == u.rows[j].(credential := CLEARED)
      ensures t.rows[j].id in t.vault && t.vault[t.rows[j].id] == Effective(u, j)
    {
      RowAfter(u, true, NO_FAILURES, j);
      EntryAfter(u, true, NO_FAILURES, j);
    }
  }

  // ---- Why the assumptions are needed --------------------------------------------------------

  /** The code drops the error Get returns.  If Get fails for a row in a run after a clean finalizing
      one, the cleared row is written over its vault entry: the credential is then in neither place. */
  lemma FailedGetLosesCredential(s: State, finalize: bool, j: nat)
    requires Ordered(s.rows) && j < |s.rows|
    ensures var done := Run(s, true, NO_FAILURES).0;
            var t := Run(done, finalize, NO_FAILURES.(getFails := {s.rows[j].id})).0;
            var id := s.rows[j].id;
            && id in done.vault && done.vault[id] == Effective(s, j)
            && |t.rows| == |s.rows| && t.rows[j].credential == CLEARED
            && id in t.vault && t.vault[id] == CLEARED
  {
    CleanRun(s);
    var env := NO_FAILURES.(getFails := {s.rows[j].id});
    var done := Run(s, true, NO_FAILURES).0;
    assert TableAfter(done, env) == done.rows;
    assert CopyCompletes(done, env);
    AllRowsRead(done, env);
    EntryAfter(done, finalize, env, j);
    RowAfter(done, finalize, env, j);
  }

  /** A row inserted between the two passes of a failure-free finalizing run loses its credential. */
  lemma InsertedRowLosesCredential(s: State, row: Row)
    requires Ordered(s.rows + [row]) && row.id !in s.vault
    ensures var t := Run(s, true, NO_FAILURES.(inserted := [row])).0;
            && |t.rows| == |s.rows| + 1
            && t.rows[|s.rows|] == Row(row.id, CLEARED)
            && row.id !in t.vault
  {
    var env := NO_FAILURES.(inserted := [row]);
    assert CopyCompletes(s, env);
    PagesPartition(s.rows, [row]);
    EntryAfter(s, true, env, |s.rows|);
    RowAfter(s, true, env, |s.rows|);
  }
}
