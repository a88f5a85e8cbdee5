/** The two-phase vault migration of ee/migrate, for one generic integration table.

    A run copies the credential of every row that has no vault entry into the vault, reading the table
    in pages of 100; a finalizing run then reads the pages a second time and clears the credential of
    every row whose copy reported no error.  The four migrations of the source differ only in the
    columns that make up the credential. */
module VaultMigration {
  /** The columns that make up a credential, encoded as one byte string; a cleared row has none. */
  type Credential = seq<bv8>

  const CLEARED: Credential := []

  const STEP_SIZE: nat := 100

  datatype Row = Row(id: nat, credential: Credential)

  datatype WriteOutcome =
    | Written
    | Refused            // an error is reported and nothing is written
    | WrittenButError    // the entry is written, yet an error is reported

  /** What the environment does during one run: which calls fail, and which rows other clients insert
      between the two passes. */
  datatype Environment = Environment(
    countFails: bool,
    getFails: set<nat>,                // IDs for which the vault's Get answers nil whatever it holds
    writes: map<nat, WriteOutcome>,    // IDs not listed are Written
    copyPageFails: set<nat>,
    inserted: seq<Row>,
    clearPageFails: set<nat>,
    saveFails: set<nat>)

  const NO_FAILURES := Environment(false, {}, map[], {}, [], {}, {})

  datatype State = State(rows: seq<Row>, vault: map<nat, Credential>)

  /** Tables are read in ascending ID order. */
  ghost predicate Ordered(rows: seq<Row>) {
    forall i, j :: 0 <= i < j < |rows| ==> rows[i].id < rows[j].id
  }

  // ---- Paging --------------------------------------------------------------------------------

  function Min(a: nat, b: nat): nat { if a <= b then a else b }

  function PageCount(count: nat): nat { count / STEP_SIZE + 1 }

  /** The rows a query with this offset and limit returns. */
  function Page(rows: seq<Row>, i: nat): seq<Row> {
    rows[Min(i * STEP_SIZE, |rows|)..Min((i + 1) * STEP_SIZE, |rows|)]
  }

  /** The rows of the first `i` pages. */
  function FirstPages(rows: seq<Row>, i: nat): seq<Row> { rows[..Min(i * STEP_SIZE, |rows|)] }

  lemma PageExtends(rows: seq<Row>, i: nat)
    ensures FirstPages(rows, i + 1) == FirstPages(rows, i) + Page(rows, i)
  {
    assert i * STEP_SIZE <= (i + 1) * STEP_SIZE;
  }

  /** The first page from `i` on whose read fails, or `pages` if none does. */
  function FirstFailure(fails: set<nat>, i: nat, pages: nat): (k: nat)
    requires i <= pages
    ensures i <= k <= pages
    ensures forall p :: i <= p < k ==> p !in fails
    ensures k < pages ==> k in fails
    decreases pages - i
  {
    if i == pages || i in fails then i else FirstFailure(fails, i + 1, pages)
  }

  // ---- What a run does, row by row -----------------------------------------------------------

  function Outcome(env: Environment, id: nat): WriteOutcome {
    if id in env.writes then env.writes[id] else Written
  }

  predicate Skipped(vault: map<nat, Credential>, env: Environment, id: nat) {
    id in vault && id !in env.getFails
  }

  function CopyRow(vault: map<nat, Credential>, row: Row, env: Environment): map<nat, Credential> {
    if Skipped(vault, env, row.id) || Outcome(env, row.id) == Refused then vault
    else vault[row.id := row.credential]
  }

  function CopyRows(vault: map<nat, Credential>, rows: seq<Row>, env: Environment): map<nat, Credential> {
    if rows == [] then vault
    else CopyRow(CopyRows(vault, rows[..|rows| - 1], env), rows[|rows| - 1], env)
  }

  /** The IDs whose write reported an error. */
  function CopyErrors(vault: map<nat, Credential>, rows: seq<Row>, env: Environment): set<nat> {
    if rows == [] then {}
    else
      var before := rows[..|rows| - 1];
      var id := rows[|rows| - 1].id;
      if Skipped(CopyRows(vault, before, env), env, id) || Outcome(env, id) == Written
      then CopyErrors(vault, before, env)
      else CopyErrors(vault, before, env) + {id}
  }

  function ClearRow(row: Row, errors: set<nat>, env: Environment): Row {
    if row.id in errors || row.id in env.saveFails then row else row.(credential := CLEARED)
  }

  /** The table after the first `n` rows have been through the clearing pass. */
  function ClearRows(rows: seq<Row>, n: nat, errors: set<nat>, env: Environment): (r: seq<Row>)
    ensures |r| == |rows|
    ensures forall i :: 0 <= i < |rows| ==>
      r[i] == if i < n then ClearRow(rows[i], errors, env) else rows[i]
  {
    seq(|rows|, i requires 0 <= i < |rows| => if i < n then ClearRow(rows[i], errors, env) else rows[i])
  }

  /** One run, and whether it returns an error. */
  function Run(s: State, finalize: bool, env: Environment): (State, bool) {
    if env.countFails then (s, true)
    else
      var pages := PageCount(|s.rows|);
      var k := FirstFailure(env.copyPageFails, 0, pages);
      var seen := FirstPages(s.rows, k);
      var vault := CopyRows(s.vault, seen, env);
      if k < pages then (State(s.rows, vault), true)
      else
        var rows := s.rows + env.inserted;
        if !finalize then (State(rows, vault), false)
        else
          var m := FirstFailure(env.clearPageFails, 0, pages);
          var errors := CopyErrors(s.vault, seen, env);
          (State(ClearRows(rows, |FirstPages(rows, m)|, errors, env), vault), m < pages)
  }

  lemma CopyOneMore(vault: map<nat, Credential>, rows: seq<Row>, row: Row, env: Environment)
    ensures CopyRows(vault, rows + [row], env) == CopyRow(CopyRows(vault, rows, env), row, env)
    ensures CopyErrors(vault, rows + [row], env) ==
            if Skipped(CopyRows(vault, rows, env), env, row.id) || Outcome(env, row.id) == Written
            then CopyErrors(vault, rows, env) else CopyErrors(vault, rows, env) + {row.id}
  {
    assert (rows + [row])[..|rows + [row]| - 1] == rows;
  }

  // ---- The migration as the program performs it ----------------------------------------------

  class Migration {
    var rows: seq<Row>
    var vault: map<nat, Credential>

    constructor (rows: seq<Row>, vault: map<nat, Credential>)
      ensures this.rows == rows && this.vault == vault
    {
      this.rows, this.vault := rows, vault;
    }

    ghost function Current(): State
      reads this
    {
      State(rows, vault)
    }

    /** Saves a row under its ID. */
    method Save(row: Row, ghost i: nat)
      requires Ordered(rows) && i < |rows| && rows[i].id == row.id
      modifies this`rows
      ensures rows == old(rows)[i := row]
    {
      var table := rows;
      rows := seq(|table|, j requires 0 <= j < |table| => if table[j].id == row.id then row else table[j]);
      assert rows == table[i := row];
    }

    /** The copy pass over one page. */
    method CopyPage(i: nat, env: Environment, errors: set<nat>, ghost vault0: map<nat, Credential>)
      returns (newErrors: set<nat>)
      requires vault == CopyRows(vault0, FirstPages(rows, i), env)
      requires errors == CopyErrors(vault0, FirstPages(rows, i), env)
      modifies this`vault
      ensures vault == CopyRows(vault0, FirstPages(rows, i + 1), env)
      ensures newErrors == CopyErrors(vault0, FirstPages(rows, i + 1), env)
    {
      var page := Page(rows, i);
      ghost var before := FirstPages(rows, i);
      newErrors := errors;
      assert before + page[..0] == before;
      for j := 0 to |page|
        invariant vault == CopyRows(vault0, before + page[..j], env)
        invariant newErrors == CopyErrors(vault0, before + page[..j], env)
      {
        var row := page[j];
        CopyOneMore(vault0, before + page[..j], row, env);
        assert before + page[..j + 1] == before + page[..j] + [row];
        if !(row.id in vault && row.id !in env.getFails) {
          var outcome := Outcome(env, row.id);
          if outcome != Refused {
            vault := vault[row.id := row.credential];
          }
          if outcome != Written {
            newErrors := newErrors + {row.id};
          }
        }
      }
      assert page[..|page|] == page;
      PageExtends(rows, i);
    }

    /** The clearing pass over one page. */
    method ClearPage(i: nat, env: Environment, errors: set<nat>, ghost rows0: seq<Row>)
      requires Ordered(rows0) && rows == ClearRows(rows0, |FirstPages(rows0, i)|, errors, env)
      modifies this`rows
      ensures rows == ClearRows(rows0, |FirstPages(rows0, i + 1)|, errors, env)
    {
      var page := Page(rows, i);
      ghost var start := |FirstPages(rows0, i)|;
      for j := 0 to |page|
        invariant start + |page| <= |rows0|
        invariant rows == ClearRows(rows0, start + j, errors, env)
      {
        var row := page[j];
        assert row == rows0[start + j];
        if row.id !in errors {
          row := row.(credential := CLEARED);
          if row.id !in env.saveFails {
            Save(row, start + j);
          }
        }
        assert rows == ClearRows(rows0, start + j + 1, errors, env);
      }
    }

    /** One migration run is Run. */
    method Migrate(finalize: bool, env: Environment) returns (failed: bool)
      requires Ordered(rows + env.inserted)
      modifies this
      ensures (Current(), failed) == Run(old(Current()), finalize, env)
    {
      if env.countFails {
        return true;
      }
      var pages := PageCount(|rows|);
      ghost var vault0 := vault;
      ghost var rows0 := rows;
      var errors := {};
      var i := 0;
      assert FirstPages(rows, 0) == [] && CopyRows(vault0, [], env) == vault0 && CopyErrors(vault0, [], env) == {};
      hide CopyRows, CopyErrors, FirstPages;
      while i < pages
        invariant 0 <= i <= pages && rows == rows0
        invariant forall p :: 0 <= p < i ==> p !in env.copyPageFails
        invariant vault == CopyRows(vault0, FirstPages(rows, i), env)
        invariant errors == CopyErrors(vault0, FirstPages(rows, i), env)
      {
        if i in env.copyPageFails {
          assert FirstFailure(env.copyPageFails, 0, pages) == i;
          return true;
        }
        errors := CopyPage(i, env, errors, vault0);
        i := i + 1;
      }
      assert FirstFailure(env.copyPageFails, 0, pages) == pages;
      rows := rows + env.inserted;
      if finalize {
        ghost var rows1 := rows;
        i := 0;
        assert rows == ClearRows(rows1, 0, errors, env);
        while i < pages
          invariant 0 <= i <= pages
          invariant forall p :: 0 <= p < i ==> p !in env.clearPageFails
          invariant vault == CopyRows(vault0, FirstPages(rows0, pages), env)
          invariant rows == ClearRows(rows1, |FirstPages(rows1, i)|, errors, env)
        {
          if i in env.clearPageFails {
            assert FirstFailure(env.clearPageFails, 0, pages) == i;
            return true;
          }
          ClearPage(i, env, errors, rows1);
          i := i + 1;
        }
        assert FirstFailure(env.clearPageFails, 0, pages) == pages;
      }
      return false;
    }
  }
}
