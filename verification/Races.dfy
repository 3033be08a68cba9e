/** Saves racing for one name, over whole runs: what a refusal and a second
    success say about what happened before. */
module Races {
  import opened Options
  import opened Strings
  import opened Reservation

  // ----- what one step changes -----

  /** Transaction `t` commits what it wrote on row `id`, between the states `k`
      and `k + 1`. */
  ghost predicate CommitsAt(run: seq<State>, k: nat, t: nat, id: nat) {
    && k + 1 < |run| && Formed(run[k]) && t < |run[k].phases| && t < |run[k + 1].phases|
    && run[k].phases[t] == Written(id) && run[k + 1].phases[t].Committed?
    && run[k + 1].rows == RowsAfter(run[k].rows, run[k].requests[t], id)
  }

  lemma StepAt(run: seq<State>, k: nat, hash: string -> int) returns (t: nat)
    requires IsRun(run, hash) && k + 1 < |run|
    ensures Formed(run[k]) && Step(run[k], run[k + 1], t, hash)
  {
    hide Step, Start;
    assert Steps(run[k], run[k + 1], hash);
    t :| Step(run[k], run[k + 1], t, hash);
  }

  lemma StepMovesOne(s: State, after: State, t: nat, u: nat, hash: string -> int)
    requires Formed(s) && Step(s, after, t, hash) && u < |s.phases|
    ensures after.requests == s.requests && |after.phases| == |s.phases|
    ensures after.phases[u] != s.phases[u] ==> u == t && !s.phases[u].Over()
  {
    hide Ready, Taken, Owned, RowsAfter;
    if Ready(s, t, hash) {
      ReadyIsActive(s, t, hash);
    }
  }

  lemma ReadyIsActive(s: State, t: nat, hash: string -> int)
    requires Formed(s) && Ready(s, t, hash)
    ensures Active(s, t)
  {
  }

  /** A transaction keeps its request, and its place in the list. */
  lemma {:induction false} RequestsStay(run: seq<State>, i: nat, hash: string -> int)
    requires IsRun(run, hash) && i < |run|
    ensures Formed(run[i]) && run[i].requests == run[0].requests
  {
    hide IsRun, Step;
    if i == 0 {
      StartFormed(run, hash);
    } else {
      RequestsStay(run, i - 1, hash);
      var t := StepAt(run, i - 1, hash);
      StepKeepsRequests(run[i - 1], run[i], t, hash);
    }
  }

  lemma StartFormed(run: seq<State>, hash: string -> int)
    requires IsRun(run, hash)
    ensures run != [] && Formed(run[0])
  {
  }

  lemma StepKeepsRequests(s: State, after: State, t: nat, hash: string -> int)
    requires Formed(s) && Step(s, after, t, hash)
    ensures Formed(after) && after.requests == s.requests
  {
    hide Taken, Owned, RowsAfter, NameFree, RowFree;
  }

  /** What is over stays as it ended. */
  lemma {:induction false} OverStays(run: seq<State>, i: nat, j: nat, t: nat, hash: string -> int)
    requires IsRun(run, hash) && i <= j < |run| && t < |run[i].phases| && run[i].phases[t].Over()
    ensures t < |run[j].phases| && run[j].phases[t] == run[i].phases[t]
    decreases j
  {
    hide IsRun, Step;
    if i < j {
      OverStays(run, i, j - 1, t, hash);
      var u := StepAt(run, j - 1, hash);
      StepMovesOne(run[j - 1], run[j], u, t, hash);
    }
  }

  /** Row `id` is committed, and is `row`. */
  predicate Holds(rows: map<nat, Row>, id: nat, row: Row) {
    id in rows && rows[id] == row
  }

  /** A row only changes when a transaction that wrote it commits. */
  lemma RowChanged(run: seq<State>, k: nat, id: nat, row: Row, hash: string -> int) returns (t: nat)
    requires IsRun(run, hash) && k + 1 < |run|
    requires Holds(run[k].rows, id, row) != Holds(run[k + 1].rows, id, row)
    ensures CommitsAt(run, k, t, id)
  {
    hide IsRun;
    t := StepAt(run, k, hash);
    CommitIs(run[k], run[k + 1], t, hash);
    assert run[k].rows != run[k + 1].rows;
  }

  lemma CommitIs(s: State, after: State, t: nat, hash: string -> int)
    requires Formed(s) && Step(s, after, t, hash) && s.rows != after.rows
    ensures t < |s.phases| && |after.phases| == |s.phases| && s.phases[t].Written? && after.phases[t].Committed?
    ensures after.rows == RowsAfter(s.rows, s.requests[t], s.phases[t].row)
  {
    hide Taken, Owned, RowsAfter, NameFree, RowFree;
  }

  // ----- where a row came from -----

  /** The row stands as `t` saved it, committed before the state `i`. */
  ghost predicate SavedBy(run: seq<State>, i: nat, id: nat, k: nat, t: nat)
    requires i < |run|
  {
    && k < i && CommitsAt(run, k, t, id) && !run[k].requests[t].Delete?
    && Holds(run[i].rows, id, Row(run[k].requests[t].owner, run[k].requests[t].name))
  }

  ghost predicate WasThere(run: seq<State>, i: nat, id: nat)
    requires 0 < |run| && i < |run|
  {
    id in run[0].rows && Holds(run[i].rows, id, run[0].rows[id])
  }

  /** Every committed row was there from the start or is what some save wrote. */
  lemma {:induction false} RowHasSource(run: seq<State>, i: nat, id: nat, hash: string -> int)
    requires IsRun(run, hash) && i < |run| && id in run[i].rows
    ensures WasThere(run, i, id) || exists k: nat, t: nat :: SavedBy(run, i, id, k, t)
  {
    hide IsRun, CommitsAt;
    if i > 0 {
      var row := run[i].rows[id];
      if Holds(run[i - 1].rows, id, row) {
        RowHasSource(run, i - 1, id, hash);
        if !WasThere(run, i - 1, id) {
          var k: nat, t: nat :| SavedBy(run, i - 1, id, k, t);
          assert SavedBy(run, i, id, k, t);
        }
      } else {
        var t := RowChanged(run, i - 1, id, row, hash);
        CommittedRow(run, i - 1, t, id);
        assert SavedBy(run, i, id, i - 1, t);
      }
    }
  }

  lemma CommittedRow(run: seq<State>, k: nat, t: nat, id: nat)
    requires CommitsAt(run, k, t, id)
    ensures var r := run[k].requests[t];
            if r.Delete? then id !in run[k + 1].rows else Holds(run[k + 1].rows, id, Row(r.owner, r.name))
  {
  }

  // ----- a refusal -----

  /** A committed schema of the owner has the name, and is not the very schema
      that is being replaced. */
  predicate Clashes(rows: map<nat, Row>, r: Request, id: nat) {
    !r.Delete? && id in rows && rows[id].owner == r.owner && Same(rows[id].name, r.name) && !(r.Replace? && id == r.id)
  }

  lemma TakenIff(rows: map<nat, Row>, r: Request)
    requires !r.Delete?
    ensures Taken(rows, r.owner, r.name, Except(r)) <==> exists id :: Clashes(rows, r, id)
  {
    hide Same;
    if Taken(rows, r.owner, r.name, Except(r)) {
      var id :| id in rows && rows[id].owner == r.owner && Same(rows[id].name, r.name) && Some(id) != Except(r);
      assert Clashes(rows, r, id);
    }
    if id: nat :| Clashes(rows, r, id) {
      assert Some(id) != Except(r);
    }
  }

  /** Row `id` has a source other than transaction `t`. */
  ghost predicate FromAnother(run: seq<State>, i: nat, id: nat, t: nat)
    requires 0 < |run| && i < |run|
  {
    WasThere(run, i, id) || exists k: nat, u: nat :: u != t && SavedBy(run, i, id, k, u)
  }

  /** What the name check of a save comes to: refused exactly when a committed
      schema clashes, and let through otherwise, unless the save breaks off. */
  lemma RefusedIff(s: State, after: State, u: nat, t: nat, hash: string -> int)
    requires Formed(s) && Step(s, after, u, hash) && t < |s.phases| && t < |after.phases|
    requires !s.requests[t].Delete? && s.phases[t].Locked? && !after.phases[t].Locked? && !after.phases[t].Aborted?
    ensures after.phases[t].Conflicted? <==> exists id :: Clashes(s.rows, s.requests[t], id)
    ensures after.phases[t].Checked? <==> !exists id :: Clashes(s.rows, s.requests[t], id)
  {
    hide Clashes, Taken, NameFree, RowFree, Owned, RowsAfter;
    TakenIff(s.rows, s.requests[t]);
  }

  lemma OwnSaveIsOver(run: seq<State>, i: nat, id: nat, k: nat, t: nat, hash: string -> int)
    requires IsRun(run, hash) && i < |run| && SavedBy(run, i, id, k, t)
    ensures t < |run[i].phases| && run[i].phases[t].Committed?
  {
    hide IsRun;
    OverStays(run, k + 1, i, t, hash);
  }

  /** A save is only refused because another schema of its owner, committed at
      that moment, has the name: one there from the start, or one another
      transaction saved. */
  lemma RefusedForAnother(run: seq<State>, i: nat, t: nat, hash: string -> int) returns (id: nat)
    requires IsRun(run, hash) && i + 1 < |run| && Formed(run[i]) && t < |run[i].phases| && t < |run[i + 1].phases|
    requires !run[i].requests[t].Delete? && run[i].phases[t].Locked? && run[i + 1].phases[t].Conflicted?
    ensures Clashes(run[i].rows, run[i].requests[t], id) && FromAnother(run, i, id, t)
  {
    hide IsRun, Step, SavedBy, WasThere, Same;
    var u := StepAt(run, i, hash);
    RefusedIff(run[i], run[i + 1], u, t, hash);
    id :| Clashes(run[i].rows, run[i].requests[t], id);
    RowHasSource(run, i, id, hash);
    if !WasThere(run, i, id) {
      var k: nat, v: nat :| SavedBy(run, i, id, k, v);
      OwnSaveIsOver(run, i, id, k, v, hash);
      assert v != t;
    }
  }

  /** A save found free of clashes stays so until it is over, whatever other
      transactions commit meanwhile. */
  lemma PassedStaysFree(run: seq<State>, i: nat, t: nat, id: nat, hash: string -> int)
    requires IsRun(run, hash) && i < |run| && Formed(run[i]) && t < |run[i].phases| && Past(run[i].phases[t])
    ensures !Clashes(run[i].rows, run[i].requests[t], id)
  {
    hide IsRun, Same, Taken, NamesUnique, NamesHeldOnce, RowsHeldOnce;
    RunKeepsInv(run, i, hash);
    assert StillFree(run[i], t);
    if !run[i].requests[t].Delete? {
      TakenIff(run[i].rows, run[i].requests[t]);
    }
  }

  // ----- a second success -----

  predicate NamedLike(rows: map<nat, Row>, id: nat, owner: string, name: string) {
    id in rows && rows[id].owner == owner && Same(rows[id].name, name)
  }

  /** Where a row last had the name it has lost. */
  lemma {:induction false} LosesName(run: seq<State>, id: nat, owner: string, name: string, i: nat, j: nat) returns (m: nat)
    requires i <= j < |run| && NamedLike(run[i].rows, id, owner, name) && !NamedLike(run[j].rows, id, owner, name)
    ensures i <= m < j && NamedLike(run[m].rows, id, owner, name) && !NamedLike(run[m + 1].rows, id, owner, name)
    decreases j
  {
    hide NamedLike;
    if NamedLike(run[j - 1].rows, id, owner, name) {
      m := j - 1;
    } else {
      m := LosesName(run, id, owner, name, i, j - 1);
    }
  }

  /** Row `a` was deleted, or saved under another name. */
  ghost predicate Freed(run: seq<State>, m: nat, t: nat, a: nat, name: string) {
    CommitsAt(run, m, t, a) && (run[m].requests[t].Delete? || !Same(run[m].requests[t].name, name))
  }

  lemma LostMeansFreed(run: seq<State>, m: nat, a: nat, owner: string, name: string, hash: string -> int) returns (t: nat)
    requires IsRun(run, hash) && m + 1 < |run|
    requires NamedLike(run[m].rows, a, owner, name) && !NamedLike(run[m + 1].rows, a, owner, name)
    ensures Freed(run, m, t, a, name)
  {
    hide IsRun, Same, NamesUnique, NamesHeldOnce, RowsHeldOnce;
    t := RowChanged(run, m, a, run[m].rows[a], hash);
    CommittedRow(run, m, t, a);
    RunKeepsInv(run, m, hash);
    assert WritesOwn(run[m], t);
  }

  /** When two saves of one owner commit the same name to different rows, the
      first row was deleted or renamed in between, by a transaction that
      committed after the first save and before the second. */
  lemma SecondSaveMeansFreed(run: seq<State>, j: nat, u: nat, a: nat, k: nat, v: nat, b: nat, hash: string -> int)
    returns (m: nat, t: nat)
    requires IsRun(run, hash) && j < k && a != b && CommitsAt(run, j, u, a) && CommitsAt(run, k, v, b)
    requires !run[j].requests[u].Delete? && !run[k].requests[v].Delete?
    requires run[j].requests[u].owner == run[k].requests[v].owner && Same(run[j].requests[u].name, run[k].requests[v].name)
    ensures j < m < k && Freed(run, m, t, a, run[j].requests[u].name)
  {
    hide IsRun, CommitsAt, Freed;
    CommitInRun(run, j, u, a);
    CommitInRun(run, k, v, b);
    var owner, name := run[j].requests[u].owner, run[j].requests[u].name;
    CommittedRow(run, j, u, a);
    NotTakenAtCommit(run, k, v, b, a, name, hash);
    m := LosesName(run, a, owner, name, j + 1, k);
    t := LostMeansFreed(run, m, a, owner, name, hash);
  }

  lemma CommitInRun(run: seq<State>, k: nat, t: nat, id: nat)
    requires CommitsAt(run, k, t, id)
    ensures k + 1 < |run| && Formed(run[k]) && t < |run[k].requests|
  {
  }

  lemma NotTakenAtCommit(run: seq<State>, k: nat, v: nat, b: nat, a: nat, name: string, hash: string -> int)
    requires IsRun(run, hash) && CommitsAt(run, k, v, b) && a != b && !run[k].requests[v].Delete?
    requires Same(name, run[k].requests[v].name)
    ensures !NamedLike(run[k].rows, a, run[k].requests[v].owner, name)
  {
    hide IsRun, Clashes;
    RunKeepsInv(run, k, hash);
    PassedStaysFree(run, k, v, a, hash);
    NotClashing(run[k], v, b, a, name, hash);
  }

  lemma NotClashing(s: State, v: nat, b: nat, a: nat, name: string, hash: string -> int)
    requires Inv(s, hash) && v < |s.phases| && s.phases[v] == Written(b) && a != b && !s.requests[v].Delete?
    requires Same(name, s.requests[v].name) && !Clashes(s.rows, s.requests[v], a)
    ensures !NamedLike(s.rows, a, s.requests[v].owner, name)
  {
    hide NamesUnique, NamesHeldOnce, RowsHeldOnce;
    assert WritesOwn(s, v);
  }

  /** So two such saves never both stand. */
  lemma NeverBothStand(run: seq<State>, j: nat, u: nat, a: nat, k: nat, v: nat, b: nat, i: nat, hash: string -> int)
    requires IsRun(run, hash) && i < |run| && a != b && SavedBy(run, i, a, j, u)
    requires CommitsAt(run, k, v, b) && !run[k].requests[v].Delete?
    requires run[j].requests[u].owner == run[k].requests[v].owner && Same(run[j].requests[u].name, run[k].requests[v].name)
    ensures !SavedBy(run, i, b, k, v)
  {
    hide IsRun, CommitsAt, Same;
    NamesStayUnique(run, i, hash);
  }
}
