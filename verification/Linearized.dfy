/** What a caller is answered: however the transactions interleave, each answer
    is the one the request would get alone on the rows committed at that moment. */
module Linearized {
  import opened Strings
  import opened Reservation
  import opened Races

  // ----- a request on its own -----

  datatype Answer = Done | NameTaken | NotFound

  ghost predicate NameClashes(rows: map<nat, Row>, r: Request) {
    exists id :: Clashes(rows, r, id)
  }

  /** A create needs no row; a replace or a delete needs one of its owner's. */
  predicate FindsRow(rows: map<nat, Row>, r: Request) {
    r.Create? || (r.id in rows && rows[r.id].owner == r.owner)
  }

  /** One row is written or removed: a new one by a create, the one named by a
      replace or a delete. All others are as they were. */
  ghost predicate Takes(before: map<nat, Row>, r: Request, id: nat, after: map<nat, Row>) {
    && (if r.Create? then id !in before else id == r.id)
    && (if r.Delete? then id !in after else id in after && after[id] == Row(r.owner, r.name))
    && forall j :: j != id ==> (j in after <==> j in before) && (j in before && j in after ==> after[j] == before[j])
  }

  ghost predicate Alone(before: map<nat, Row>, r: Request, answer: Answer, id: nat, after: map<nat, Row>) {
    match answer
    case NameTaken => NameClashes(before, r) && after == before
    case NotFound => !NameClashes(before, r) && !FindsRow(before, r) && after == before
    case Done => !NameClashes(before, r) && FindsRow(before, r) && Takes(before, r, id, after)
  }

  /** Alone, a request gets one answer, and leaves one set of rows but for the
      number a create is given. */
  lemma AloneOnce(before: map<nat, Row>, r: Request, a: Answer, id: nat, after: map<nat, Row>, a': Answer, id': nat, after': map<nat, Row>)
    requires Alone(before, r, a, id, after) && Alone(before, r, a', id', after')
    ensures a == a' && (id == id' || !r.Create? ==> after == after')
  {
    hide NameClashes;
    if a == Done && (id == id' || !r.Create?) {
      assert id == id';
      assert forall j :: j in after <==> j in after';
    }
  }

  // ----- how far a request can come -----

  /** Only saves take the name lock, and a create looks for no row. */
  predicate Fits(s: State, t: nat)
    requires Formed(s)
  {
    t < |s.phases| ==>
      && (s.phases[t].Locked? || s.phases[t].Checked? || s.phases[t].Conflicted? ==> !s.requests[t].Delete?)
      && (s.phases[t].Found? || s.phases[t].Missing? ==> !s.requests[t].Create?)
  }

  lemma StepKeepsFits(s: State, after: State, u: nat, t: nat, hash: string -> int)
    requires Formed(s) && Step(s, after, u, hash) && Fits(s, t)
    ensures Formed(after) && Fits(after, t)
  {
    hide Taken, Owned, NameFree, RowFree, RowsAfter;
  }

  lemma {:induction false} RunFits(run: seq<State>, i: nat, t: nat, hash: string -> int)
    requires IsRun(run, hash) && i < |run|
    ensures Formed(run[i]) && Fits(run[i], t)
  {
    hide IsRun, Step, Fits;
    if i == 0 {
      StartFits(run, t, hash);
    } else {
      RunFits(run, i - 1, t, hash);
      var u := StepAt(run, i - 1, hash);
      StepKeepsFits(run[i - 1], run[i], u, t, hash);
    }
  }

  lemma StartFits(run: seq<State>, t: nat, hash: string -> int)
    requires IsRun(run, hash)
    ensures run != [] && Formed(run[0]) && Fits(run[0], t)
  {
  }

  // ----- the answer -----

  predicate Answers(phase: Phase, answer: Answer) {
    match answer
    case Done => phase.Committed?
    case NameTaken => phase.Conflicted?
    case NotFound => phase.Missing?
  }

  lemma NoClashPast(s: State, t: nat, hash: string -> int)
    requires Inv(s, hash) && Formed(s) && t < |s.phases| && (Past(s.phases[t]) || s.requests[t].Delete?)
    ensures !NameClashes(s.rows, s.requests[t])
  {
    hide Taken, Clashes, NamesUnique, NamesHeldOnce, RowsHeldOnce, WritesOwn, Same;
    if s.requests[t].Delete? {
      NoClashOfDelete(s.rows, s.requests[t]);
    } else {
      assert StillFree(s, t);
      TakenIff(s.rows, s.requests[t]);
    }
  }

  lemma NoClashOfDelete(rows: map<nat, Row>, r: Request)
    requires r.Delete?
    ensures !NameClashes(rows, r)
  {
  }

  /** The row a transaction has in hand is the one it may take. */
  lemma WrittenTakes(s: State, t: nat, hash: string -> int)
    requires Inv(s, hash) && Formed(s) && t < |s.phases| && s.phases[t].Written?
    ensures FindsRow(s.rows, s.requests[t])
    ensures Takes(s.rows, s.requests[t], s.phases[t].row, RowsAfter(s.rows, s.requests[t], s.phases[t].row))
  {
    hide NamesUnique, NamesHeldOnce, RowsHeldOnce, StillFree;
    assert WritesOwn(s, t);
  }

  lemma MissingFindsNone(s: State, after: State, t: nat, hash: string -> int)
    requires Formed(s) && t < |s.phases| && Ready(s, t, hash) && after == Advanced(s, t) && after.phases[t].Missing?
    requires Fits(s, t) && Fits(after, t)
    ensures !FindsRow(s.rows, s.requests[t]) && after.rows == s.rows && (Past(s.phases[t]) || s.requests[t].Delete?)
  {
    hide Taken, NameFree, RowFree, RowsAfter;
  }

  lemma AnsweredAlone(s: State, after: State, t: nat, hash: string -> int) returns (answer: Answer, id: nat)
    requires Inv(s, hash) && Formed(s) && Fits(s, t) && t < |s.phases| && !s.phases[t].Over()
    requires Ready(s, t, hash) && after == Advanced(s, t) && after.phases[t].Over()
    ensures Answers(after.phases[t], answer) && Alone(s.rows, s.requests[t], answer, id, after.rows)
  {
    hide Inv, Clashes, NameClashes, FindsRow, Takes, Taken, Owned, RowsAfter, NameFree, RowFree;
    answer, id := NameTaken, 0;
    match after.phases[t] {
      case Committed =>
        answer, id := Done, s.phases[t].row;
        NoClashPast(s, t, hash);
        WrittenTakes(s, t, hash);
      case Conflicted =>
        TakenIff(s.rows, s.requests[t]);
        ClashIs(s.rows, s.requests[t]);
      case _ =>
        answer := NotFound;
        StepKeepsFits(s, after, t, t, hash);
        MissingFindsNone(s, after, t, hash);
        NoClashPast(s, t, hash);
    }
  }

  lemma ClashIs(rows: map<nat, Row>, r: Request)
    ensures NameClashes(rows, r) <==> exists id :: Clashes(rows, r, id)
  {
  }

  /** The store is linearizable. In every interleaving, whatever the hash of the
      lock, a transaction that comes to an end without breaking off does so at
      one instant, with the answer and the rows it would have alone there. */
  lemma AnswersAsAlone(run: seq<State>, i: nat, t: nat, hash: string -> int) returns (answer: Answer, id: nat)
    requires IsRun(run, hash) && i + 1 < |run| && Formed(run[i]) && t < |run[i].phases| && t < |run[i + 1].phases|
    requires !run[i].phases[t].Over() && run[i + 1].phases[t].Over() && !run[i + 1].phases[t].Aborted?
    ensures Answers(run[i + 1].phases[t], answer) && Alone(run[i].rows, run[i].requests[t], answer, id, run[i + 1].rows)
  {
    hide IsRun, Alone, Advanced, Ready, Fits, Inv;
    var u := StepAt(run, i, hash);
    StepMovesOne(run[i], run[i + 1], u, t, hash);
    RunKeepsInv(run, i, hash);
    RunFits(run, i, t, hash);
    answer, id := AnsweredAlone(run[i], run[i + 1], t, hash);
  }

  /** Transaction `t` commits between the states `i` and `i + 1`. */
  predicate Commits(run: seq<State>, i: nat, t: nat) {
    && i + 1 < |run| && t < |run[i].phases| && t < |run[i + 1].phases|
    && !run[i].phases[t].Over() && run[i + 1].phases[t].Committed?
  }

  /** Between those instants the rows stay as they are. */
  lemma QuietOtherwise(run: seq<State>, i: nat, hash: string -> int)
    requires IsRun(run, hash) && i + 1 < |run| && Formed(run[i]) && run[i].rows != run[i + 1].rows
    ensures exists t :: Commits(run, i, t)
  {
    hide IsRun, Step;
    var t := StepAt(run, i, hash);
    CommitIs(run[i], run[i + 1], t, hash);
    assert Commits(run, i, t);
  }

  // ----- an answer is reached -----

  /** How many statements a transaction has before it at most. */
  function Ahead(phase: Phase): nat {
    match phase
    case Begun => 5
    case Locked => 4
    case Checked => 3
    case Found => 2
    case Written(_) => 1
    case _ => 0
  }

  /** Each own step brings a transaction nearer its end, and never breaks it
      off; so with the waits over an answer is reached in five of them. */
  lemma OwnStepsEnd(s: State, t: nat, hash: string -> int)
    requires Formed(s) && Ready(s, t, hash)
    ensures t < |s.phases| && Formed(Advanced(s, t))
    ensures Ahead(Advanced(s, t).phases[t]) < Ahead(s.phases[t]) <= 5 && !Advanced(s, t).phases[t].Aborted?
  {
    hide Taken, Owned, NameFree, RowFree, RowsAfter;
  }

  /** Nothing is left ahead of a transaction exactly when it is over. */
  lemma OverIff(phase: Phase)
    ensures phase.Over() <==> Ahead(phase) == 0
  {
  }
}
