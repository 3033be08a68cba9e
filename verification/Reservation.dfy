/** Creating, replacing and deleting schemas as transactions that run side by
    side: a lock on the owner and the name, held to the end, keeps names unique
    among one owner's schemas.

    Each statement sees what was committed when it ran. A row that another
    transaction has written is waited for, and looked at again after. */
module Reservation {
  import opened Options
  import opened Strings

  /** A stored schema and the user it belongs to. */
  datatype Row = Row(owner: string, name: string)

  datatype Request =
    | Create(owner: string, name: string)
    | Replace(owner: string, id: nat, name: string)
    | Delete(owner: string, id: nat)

  datatype Phase =
    | Begun
    | Locked
    | Checked
    | Found
    | Written(row: nat)
    | Committed
    | Conflicted
    | Missing
    | Aborted
  {
    predicate Over() {
      Committed? || Conflicted? || Missing? || Aborted?
    }
  }

  /** What is committed, and how far each transaction is. `minted` counts the
      ids handed out. */
  datatype State = State(rows: map<nat, Row>, minted: nat, requests: seq<Request>, phases: seq<Phase>)

  predicate Formed(s: State) {
    |s.requests| == |s.phases|
  }

  // ----- locks -----

  /** What a save locks; the number is the hash of this text. */
  function LockText(r: Request): string
    requires !r.Delete?
  {
    r.owner + ":" + Lower(r.name)
  }

  predicate HoldsName(s: State, t: nat)
    requires Formed(s)
  {
    t < |s.phases| && !s.requests[t].Delete?
    && (s.phases[t].Locked? || s.phases[t].Checked? || s.phases[t].Found? || s.phases[t].Written?)
  }

  predicate NameFree(s: State, t: nat, hash: string -> int)
    requires Formed(s) && t < |s.requests| && !s.requests[t].Delete?
  {
    forall u :: 0 <= u < |s.phases| && HoldsName(s, u) ==> hash(LockText(s.requests[u])) != hash(LockText(s.requests[t]))
  }

  predicate RowFree(s: State, id: nat)
    requires Formed(s)
  {
    forall u :: 0 <= u < |s.phases| ==> s.phases[u] != Written(id)
  }

  // ----- statements -----

  predicate Owned(rows: map<nat, Row>, owner: string, id: nat) {
    id in rows && rows[id].owner == owner
  }

  function Except(r: Request): Option<nat> {
    if r.Replace? then Some(r.id) else None
  }

  /** Another schema of this owner has this name, up to case. */
  ghost predicate Taken(rows: map<nat, Row>, owner: string, name: string, except: Option<nat>) {
    exists id :: id in rows && rows[id].owner == owner && Same(rows[id].name, name) && Some(id) != except
  }

  predicate Active(s: State, t: nat)
    requires Formed(s)
  {
    t < |s.phases| && !s.phases[t].Over()
  }

  /** Nothing keeps the transaction waiting. */
  predicate Ready(s: State, t: nat, hash: string -> int)
    requires Formed(s)
  {
    && Active(s, t)
    && (s.phases[t].Begun? && !s.requests[t].Delete? ==> NameFree(s, t, hash))
    && (s.phases[t].Found? && !s.requests[t].Create? ==> RowFree(s, s.requests[t].id))
  }

  function To(s: State, t: nat, phase: Phase): State
    requires t < |s.phases|
  {
    s.(phases := s.phases[t := phase])
  }

  /** The committed rows once the transaction commits. */
  function RowsAfter(rows: map<nat, Row>, r: Request, id: nat): map<nat, Row> {
    match r
    case Create(owner, name) => rows[id := Row(owner, name)]
    case Replace(owner, _, name) => rows[id := Row(owner, name)]
    case Delete(_, _) => rows - {id}
  }

  /** The next statement of transaction `t`. */
  ghost function Advanced(s: State, t: nat): State
    requires Formed(s) && t < |s.phases|
  {
    var r := s.requests[t];
    match s.phases[t]
    case Begun =>
      if !r.Delete? then To(s, t, Locked)
      else if Owned(s.rows, r.owner, r.id) then To(s, t, Found) else To(s, t, Missing)
    case Locked =>
      if r.Delete? || Taken(s.rows, r.owner, r.name, Except(r)) then To(s, t, Conflicted) else To(s, t, Checked)
    case Checked =>
      if r.Create? then To(s, t, Written(s.minted)).(minted := s.minted + 1)
      else if Owned(s.rows, r.owner, r.id) then To(s, t, Found) else To(s, t, Missing)
    case Found =>
      if !r.Create? && Owned(s.rows, r.owner, r.id) then To(s, t, Written(r.id)) else To(s, t, Missing)
    case Written(id) => To(s, t, Committed).(rows := RowsAfter(s.rows, r, id))
    case _ => s
  }

  ghost predicate Step(s: State, after: State, t: nat, hash: string -> int)
    requires Formed(s)
  {
    (Ready(s, t, hash) && after == Advanced(s, t)) || (Active(s, t) && after == To(s, t, Aborted))
  }

  // ----- what every step keeps -----

  /** No owner has two schemas whose names agree up to case. */
  ghost predicate NamesUnique(rows: map<nat, Row>) {
    forall i, j :: i in rows && j in rows && i != j && rows[i].owner == rows[j].owner ==> !Same(rows[i].name, rows[j].name)
  }

  /** Locks on one hash are held one at a time. */
  ghost predicate NamesHeldOnce(s: State, hash: string -> int)
    requires Formed(s)
  {
    forall t: nat, u: nat :: HoldsName(s, t) && HoldsName(s, u) && hash(LockText(s.requests[t])) == hash(LockText(s.requests[u])) ==> t == u
  }

  predicate Past(phase: Phase) {
    phase.Checked? || phase.Found? || phase.Written?
  }

  /** A name found free stays free until its transaction ends. */
  ghost predicate StillFree(s: State, t: nat)
    requires Formed(s)
  {
    HoldsName(s, t) && Past(s.phases[t]) ==>
      !Taken(s.rows, s.requests[t].owner, s.requests[t].name, Except(s.requests[t]))
  }

  /** A written row is the transaction's own: new to the table, or one it locked. */
  predicate WritesOwn(s: State, t: nat)
    requires Formed(s)
  {
    t < |s.phases| && s.phases[t].Written? ==>
      var id := s.phases[t].row;
      && id < s.minted
      && (s.requests[t].Create? ==> id !in s.rows)
      && (!s.requests[t].Create? ==> id == s.requests[t].id && Owned(s.rows, s.requests[t].owner, id))
  }

  ghost predicate RowsHeldOnce(s: State)
    requires Formed(s)
  {
    forall t, u :: 0 <= t < |s.phases| && 0 <= u < |s.phases| && s.phases[t].Written? && s.phases[t] == s.phases[u] ==> t == u
  }

  ghost predicate Inv(s: State, hash: string -> int) {
    && Formed(s)
    && NamesUnique(s.rows)
    && (forall id :: id in s.rows ==> id < s.minted)
    && NamesHeldOnce(s, hash)
    && (forall t: nat :: StillFree(s, t))
    && (forall t: nat :: WritesOwn(s, t))
    && RowsHeldOnce(s)
  }

  lemma CommitKeepsUnique(s: State, t: nat, hash: string -> int)
    requires Inv(s, hash) && t < |s.phases| && s.phases[t].Written?
    ensures NamesUnique(RowsAfter(s.rows, s.requests[t], s.phases[t].row))
  {
    hide Same;
    var r, id := s.requests[t], s.phases[t].row;
    assert WritesOwn(s, t) && StillFree(s, t);
    if !r.Delete? {
      assert HoldsName(s, t);
      forall j | j in s.rows && j != id && s.rows[j].owner == r.owner
        ensures !Same(s.rows[j].name, r.name) && !Same(r.name, s.rows[j].name)
      {
        SameBack(s.rows[j].name, r.name);
        assert Some(j) != Except(r);
      }
    }
  }

  lemma SameBack(a: string, b: string)
    ensures Same(a, b) == Same(b, a)
  {
  }

  lemma SameLock(r: Request, q: Request)
    requires !r.Delete? && !q.Delete? && r.owner == q.owner && Same(r.name, q.name)
    ensures LockText(r) == LockText(q)
  {
  }

  /** A commit under another lock leaves a name found free as free as it was. */
  lemma CommitKeepsFree(s: State, t: nat, u: nat, hash: string -> int)
    requires Inv(s, hash) && t < |s.phases| && s.phases[t].Written? && u != t && HoldsName(s, u) && Past(s.phases[u])
    ensures var q := s.requests[u];
            !Taken(RowsAfter(s.rows, s.requests[t], s.phases[t].row), q.owner, q.name, Except(q))
  {
    hide Same, NamesUnique, RowsHeldOnce;
    var r, q, id := s.requests[t], s.requests[u], s.phases[t].row;
    var after := RowsAfter(s.rows, r, id);
    assert StillFree(s, u);
    forall j | j in after && after[j].owner == q.owner && Some(j) != Except(q)
      ensures !Same(after[j].name, q.name)
    {
      if !r.Delete? && j == id {
        assert HoldsName(s, t);
        if Same(r.name, q.name) {
          SameLock(r, q);
        }
      } else {
        assert j in s.rows && s.rows[j] == after[j];
      }
    }
  }

  lemma CommitKeepsOwn(s: State, t: nat, u: nat, hash: string -> int)
    requires Inv(s, hash) && t < |s.phases| && s.phases[t].Written? && u != t
    ensures WritesOwn(To(s, t, Committed).(rows := RowsAfter(s.rows, s.requests[t], s.phases[t].row)), u)
  {
    hide NamesUnique, NamesHeldOnce, StillFree;
    assert WritesOwn(s, t) && WritesOwn(s, u);
  }

  lemma CommitKeepsInv(s: State, t: nat, hash: string -> int)
    requires Inv(s, hash) && t < |s.phases| && s.phases[t].Written?
    ensures Inv(Advanced(s, t), hash)
  {
    hide NamesUnique, StillFree, WritesOwn, Taken, LockText, RowsAfter;
    var after := Advanced(s, t);
    CommitKeepsUnique(s, t, hash);
    assert forall u: nat :: HoldsName(after, u) ==> HoldsName(s, u);
    forall u: nat
      ensures StillFree(after, u) && WritesOwn(after, u)
    {
      CommitKeepsEach(s, t, u, hash);
    }
    CommittedIds(s, t, hash);
  }

  lemma CommittedIds(s: State, t: nat, hash: string -> int)
    requires Inv(s, hash) && t < |s.phases| && s.phases[t].Written?
    ensures forall id :: id in Advanced(s, t).rows ==> id < Advanced(s, t).minted
  {
    hide NamesUnique, NamesHeldOnce, StillFree, RowsHeldOnce;
    assert WritesOwn(s, t);
  }

  lemma CommitKeepsEach(s: State, t: nat, u: nat, hash: string -> int)
    requires Inv(s, hash) && t < |s.phases| && s.phases[t].Written?
    ensures StillFree(Advanced(s, t), u) && WritesOwn(Advanced(s, t), u)
  {
    hide NamesUnique, NamesHeldOnce, RowsHeldOnce, Taken, RowsAfter, Inv;
    InvFormed(s, hash);
    if u != t {
      CommitKeepsOwn(s, t, u, hash);
      if HoldsName(s, u) && Past(s.phases[u]) {
        CommitKeepsFree(s, t, u, hash);
      }
    }
  }

  lemma InvFormed(s: State, hash: string -> int)
    requires Inv(s, hash)
    ensures Formed(s)
  {
  }

  /** A step that commits nothing changes one transaction's phase. */
  lemma QuietKeepsInv(s: State, t: nat, phase: Phase, hash: string -> int)
    requires Inv(s, hash) && t < |s.phases| && !phase.Written?
    requires phase.Locked? ==> !s.requests[t].Delete? && (HoldsName(s, t) || NameFree(s, t, hash))
    requires Past(phase) && !s.requests[t].Delete? ==>
      HoldsName(s, t) && !Taken(s.rows, s.requests[t].owner, s.requests[t].name, Except(s.requests[t]))
    ensures Inv(To(s, t, phase), hash)
  {
    hide NamesUnique, Taken, LockText, Owned;
    var after := To(s, t, phase);
    forall u: nat
      ensures StillFree(after, u) && WritesOwn(after, u)
    {
      assert StillFree(s, u) && WritesOwn(s, u);
    }
    forall u: nat, v: nat | HoldsName(after, u) && HoldsName(after, v) && hash(LockText(s.requests[u])) == hash(LockText(s.requests[v]))
      ensures u == v
    {
      assert u != t ==> HoldsName(s, u);
      assert v != t ==> HoldsName(s, v);
    }
  }

  lemma WriteKeepsInv(s: State, t: nat, id: nat, minted: nat, hash: string -> int)
    requires Inv(s, hash) && t < |s.phases| && Past(s.phases[t]) && !s.phases[t].Written? && s.minted <= minted
    requires id < minted && RowFree(s, id)
    requires s.requests[t].Create? ==> id !in s.rows
    requires !s.requests[t].Create? ==> id == s.requests[t].id && Owned(s.rows, s.requests[t].owner, id)
    ensures Inv(To(s, t, Written(id)).(minted := minted), hash)
  {
    hide NamesUnique, Taken, LockText, Owned;
    var after := To(s, t, Written(id)).(minted := minted);
    forall u: nat
      ensures StillFree(after, u) && WritesOwn(after, u)
    {
      assert StillFree(s, u) && WritesOwn(s, u);
    }
    forall u: nat, v: nat | HoldsName(after, u) && HoldsName(after, v) && hash(LockText(s.requests[u])) == hash(LockText(s.requests[v]))
      ensures u == v
    {
      assert HoldsName(s, u) && HoldsName(s, v);
    }
  }

  /** No row number not yet handed out is being written. */
  lemma NewRowIsFree(s: State, hash: string -> int)
    requires Inv(s, hash)
    ensures Formed(s) && RowFree(s, s.minted) && s.minted !in s.rows
  {
    forall u | 0 <= u < |s.phases|
      ensures s.phases[u] != Written(s.minted)
    {
      assert WritesOwn(s, u);
    }
  }

  lemma StepKeepsInv(s: State, after: State, t: nat, hash: string -> int)
    requires Inv(s, hash) && Formed(s) && Step(s, after, t, hash)
    ensures Inv(after, hash)
  {
    hide Inv, NameFree, RowFree, Taken, LockText, Owned, RowsAfter;
    if after == To(s, t, Aborted) {
      QuietKeepsInv(s, t, Aborted, hash);
    } else {
      var r := s.requests[t];
      match s.phases[t] {
        case Begun => QuietKeepsInv(s, t, after.phases[t], hash);
        case Locked => QuietKeepsInv(s, t, after.phases[t], hash);
        case Checked =>
          HeldIsFree(s, t, hash);
          if r.Create? {
            NewRowIsFree(s, hash);
            WriteKeepsInv(s, t, s.minted, s.minted + 1, hash);
          } else {
            QuietKeepsInv(s, t, after.phases[t], hash);
          }
        case Found =>
          HeldIsFree(s, t, hash);
          if !r.Create? && Owned(s.rows, r.owner, r.id) {
            OwnedIsMinted(s, r.owner, r.id, hash);
            WriteKeepsInv(s, t, r.id, s.minted, hash);
            assert after == To(s, t, Written(r.id)).(minted := s.minted);
          } else {
            QuietKeepsInv(s, t, Missing, hash);
          }
        case Written(id) => CommitKeepsInv(s, t, hash);
        case _ =>
      }
    }
  }

  lemma HeldIsFree(s: State, t: nat, hash: string -> int)
    requires Inv(s, hash) && t < |s.phases| && Past(s.phases[t])
    ensures s.requests[t].Delete?
      || (HoldsName(s, t) && !Taken(s.rows, s.requests[t].owner, s.requests[t].name, Except(s.requests[t])))
  {
    hide Taken, NamesUnique, NamesHeldOnce, RowsHeldOnce;
    assert StillFree(s, t);
  }

  lemma OwnedIsMinted(s: State, owner: string, id: nat, hash: string -> int)
    requires Inv(s, hash) && Owned(s.rows, owner, id)
    ensures id < s.minted
  {
    hide NamesUnique, NamesHeldOnce, RowsHeldOnce;
  }

  // ----- whole runs -----

  /** Every transaction yet to begin, over rows already unique. */
  ghost predicate Start(s: State) {
    && Formed(s) && NamesUnique(s.rows) && (forall id :: id in s.rows ==> id < s.minted)
    && forall t :: 0 <= t < |s.phases| ==> s.phases[t].Begun?
  }

  ghost predicate Steps(s: State, after: State, hash: string -> int) {
    Formed(s) && exists t :: Step(s, after, t, hash)
  }

  ghost predicate IsRun(run: seq<State>, hash: string -> int) {
    && run != [] && Start(run[0])
    && forall i :: 0 <= i < |run| - 1 ==> Steps(run[i], run[i + 1], hash)
  }

  lemma {:induction false} RunKeepsInv(run: seq<State>, i: nat, hash: string -> int)
    requires IsRun(run, hash) && i < |run|
    ensures Inv(run[i], hash)
  {
    hide Inv, Step;
    if i == 0 {
      StartInv(run[0], hash);
    } else {
      RunKeepsInv(run, i - 1, hash);
      assert Steps(run[i - 1], run[i - 1 + 1], hash);
      var t :| Step(run[i - 1], run[i], t, hash);
      StepKeepsInv(run[i - 1], run[i], t, hash);
    }
  }

  lemma StartInv(s: State, hash: string -> int)
    requires Start(s)
    ensures Inv(s, hash)
  {
    hide NamesUnique;
  }

  /** In every interleaving, whatever the hash, no owner ever has two committed
      schemas whose names agree up to case. */
  lemma NamesStayUnique(run: seq<State>, i: nat, hash: string -> int)
    requires IsRun(run, hash) && i < |run|
    ensures NamesUnique(run[i].rows)
  {
    hide NamesUnique, NamesHeldOnce, RowsHeldOnce, StillFree, WritesOwn, IsRun;
    RunKeepsInv(run, i, hash);
  }

  /** A step touches no row but its own transaction's owner's, and no row ever
      changes hands. */
  lemma OthersRowsStay(run: seq<State>, i: nat, t: nat, id: nat, hash: string -> int)
    requires IsRun(run, hash) && i + 1 < |run| && Formed(run[i]) && Step(run[i], run[i + 1], t, hash)
    ensures t < |run[i].requests|
    ensures var owner, before, after := run[i].requests[t].owner, run[i].rows, run[i + 1].rows;
            && (id in before && before[id].owner != owner ==> id in after && after[id] == before[id])
            && (id in after && after[id].owner != owner ==> id in before && before[id] == after[id])
            && (id in before && id in after ==> after[id].owner == before[id].owner)
  {
    hide Taken, NameFree, RowFree, NamesUnique, NamesHeldOnce, RowsHeldOnce, StillFree, IsRun;
    RunKeepsInv(run, i, hash);
    assert WritesOwn(run[i], t);
  }

  /** The saves never wait for each other in a circle: while any transaction is
      under way, one of them can take its next step. */
  lemma SomeoneIsReady(s: State, t: nat, hash: string -> int) returns (u: nat)
    requires Formed(s) && Active(s, t)
    ensures Ready(s, u, hash)
  {
    hide LockText;
    if w: nat :| w < |s.phases| && s.phases[w].Written? {
      u := w;
    } else if w: nat :| w < |s.phases| && (s.phases[w].Found? || s.phases[w].Locked? || s.phases[w].Checked?) {
      u := w;
    } else {
      u := t;
      assert s.phases[t].Begun?;
      assert forall v :: 0 <= v < |s.phases| ==> !HoldsName(s, v);
    }
  }

  /** A save that commits leaves its own name with one schema of its owner: the
      row it wrote. */
  lemma CommittedNameIsItsOwn(s: State, t: nat, hash: string -> int)
    requires Inv(s, hash) && t < |s.phases| && s.phases[t].Written? && !s.requests[t].Delete?
    ensures var r, id, after := s.requests[t], s.phases[t].row, Advanced(s, t).rows;
            && id in after && after[id] == Row(r.owner, r.name)
            && forall j :: j in after && after[j].owner == r.owner && Same(after[j].name, r.name) ==> j == id
  {
    hide Same;
    CommitKeepsUnique(s, t, hash);
    var r, id, after := s.requests[t], s.phases[t].row, Advanced(s, t).rows;
    assert after[id] == Row(r.owner, r.name);
  }
}
