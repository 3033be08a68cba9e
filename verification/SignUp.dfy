/** Registering and signing in with Google, side by side, over a user table
    whose addresses are unique.

    A row being inserted is seen by no one until it is committed, but keeps
    others from inserting the same address meanwhile. */
module SignUp {
  import opened Options
  import opened Strings

  datatype User = User(userName: string, email: string)

  /** `allowed` says that the checks made before the store is asked passed: the
      form was filled in, or Google has verified the address. */
  datatype Call =
    | Register(email: string, allowed: bool)
    | Google(email: string, allowed: bool)
  {
    /** The address as it is looked up and stored. */
    function Address(): string {
      Lower(Trim(email))
    }
  }

  datatype Phase =
    | Begun
    | NoUser
    | Inserted(id: nat)
    | Lost
    | Won(id: nat)
    | Seeded(id: nat)
    | Known(id: nat)
    | Signed(id: nat)
    | Refused
    | Failed
  {
    predicate Over() {
      Signed? || Refused? || Failed?
    }
  }

  /** `wins` says which account each call created; `seeds` lists the samples put
      into accounts, with the call that did it. */
  datatype State = State(
    users: map<nat, User>,
    minted: nat,
    calls: seq<Call>,
    phases: seq<Phase>,
    wins: map<nat, nat>,
    seeds: seq<(nat, nat)>)

  predicate Formed(s: State) {
    |s.calls| == |s.phases|
  }

  // ----- the store -----

  ghost function UserByEmail(users: map<nat, User>, email: string): (r: Option<nat>)
    ensures r.Some? ==> r.value in users && users[r.value].email == email
    ensures r.None? ==> forall id :: id in users ==> users[id].email != email
  {
    if id :| id in users && users[id].email == email then Some(id) else None
  }

  /** The unique indexes refuse a second row. */
  ghost predicate Violates(users: map<nat, User>, email: string) {
    exists id :: id in users && (users[id].email == email || users[id].userName == email)
  }

  /** Another call is inserting this address. */
  predicate BeingInserted(s: State, t: nat)
    requires Formed(s) && t < |s.calls|
  {
    exists u :: 0 <= u < |s.calls| && u != t && s.phases[u].Inserted? && s.calls[u].Address() == s.calls[t].Address()
  }

  predicate Active(s: State, t: nat)
    requires Formed(s)
  {
    t < |s.phases| && !s.phases[t].Over()
  }

  /** An insert waits for the one under way to end. */
  predicate Ready(s: State, t: nat)
    requires Formed(s)
  {
    Active(s, t) && (s.phases[t].NoUser? ==> !BeingInserted(s, t))
  }

  function To(s: State, t: nat, phase: Phase): State
    requires t < |s.phases|
  {
    s.(phases := s.phases[t := phase])
  }

  // ----- one step of a call -----

  ghost function LookedUp(s: State, t: nat): Phase
    requires Formed(s) && t < |s.phases|
  {
    var call := s.calls[t];
    if !call.allowed then Refused
    else
      match UserByEmail(s.users, call.Address())
      case None => NoUser
      case Some(id) => if call.Register? then Refused else Known(id)
  }

  /** After losing the insert: Google signs into the account it lost to. */
  ghost function LookedUpAgain(s: State, t: nat): Phase
    requires Formed(s) && t < |s.phases|
  {
    match UserByEmail(s.users, s.calls[t].Address())
    case None => Failed
    case Some(id) => Known(id)
  }

  ghost function Inserting(s: State, t: nat): State
    requires Formed(s) && t < |s.phases|
  {
    if Violates(s.users, s.calls[t].Address()) then To(s, t, if s.calls[t].Register? then Refused else Lost)
    else To(s, t, Inserted(s.minted)).(minted := s.minted + 1)
  }

  function Committed(s: State, t: nat, id: nat): State
    requires Formed(s) && t < |s.phases|
  {
    var address := s.calls[t].Address();
    To(s, t, Won(id)).(users := s.users[id := User(address, address)], wins := s.wins[t := id])
  }

  function Seeding(s: State, t: nat, id: nat): State
    requires t < |s.phases|
  {
    To(s, t, Seeded(id)).(seeds := s.seeds + [(t, id)])
  }

  ghost function Advanced(s: State, t: nat): State
    requires Formed(s) && t < |s.phases|
  {
    match s.phases[t]
    case Begun => To(s, t, LookedUp(s, t))
    case NoUser => Inserting(s, t)
    case Inserted(id) => Committed(s, t, id)
    case Lost => To(s, t, LookedUpAgain(s, t))
    case Won(id) => Seeding(s, t, id)
    case Seeded(id) => To(s, t, if id in s.users then Known(id) else Failed)
    case Known(id) => To(s, t, Signed(id))
    case _ => s
  }

  /** A call moves on, or breaks off: before the store did what it was asked, or
      after it did but the answer was lost. */
  ghost predicate Step(s: State, after: State, t: nat)
    requires Formed(s)
  {
    || (Active(s, t) && after == To(s, t, Failed))
    || (Ready(s, t) && (after == Advanced(s, t) || after == Broken(s, t)))
  }

  ghost function Broken(s: State, t: nat): State
    requires Formed(s) && t < |s.phases|
  {
    Advanced(s, t).(phases := s.phases[t := Failed])
  }

  // ----- what every step keeps -----

  ghost predicate EmailsUnique(users: map<nat, User>) {
    forall i, j :: i in users && j in users && i != j ==> users[i].email != users[j].email
  }

  /** A row being inserted clashes with nothing. */
  ghost predicate PendingOk(s: State, t: nat)
    requires Formed(s)
  {
    t < |s.phases| && s.phases[t].Inserted? ==>
      && s.phases[t].id < s.minted && s.phases[t].id !in s.users
      && !Violates(s.users, s.calls[t].Address())
      && !BeingInserted(s, t)
      && forall u :: 0 <= u < |s.phases| && s.phases[u] == s.phases[t] ==> u == t
  }

  /** The account a call has in hand is the one of its address. */
  predicate HandOk(s: State, t: nat)
    requires Formed(s)
  {
    t < |s.phases| && (s.phases[t].Won? || s.phases[t].Seeded? || s.phases[t].Known? || s.phases[t].Signed?) ==>
      s.phases[t].id in s.users && s.users[s.phases[t].id].email == s.calls[t].Address()
  }

  /** A call that created an account created the one of its address. */
  predicate WinOk(s: State, t: nat)
    requires Formed(s)
  {
    t in s.wins ==> t < |s.calls| && s.wins[t] in s.users && s.users[s.wins[t]].email == s.calls[t].Address()
  }

  /** Until a call commits, it has created nothing; until it seeds, it has
      seeded nothing. */
  predicate TurnOk(s: State, t: nat)
    requires Formed(s)
  {
    t < |s.phases| ==>
      && (s.phases[t].Begun? || s.phases[t].NoUser? || s.phases[t].Inserted? ==> t !in s.wins)
      && (s.phases[t].Won? ==> t in s.wins && s.wins[t] == s.phases[t].id)
      && (t !in s.wins || s.phases[t].Won? ==> NotSeeding(s.seeds, t))
  }

  predicate NotSeeding(seeds: seq<(nat, nat)>, t: nat) {
    forall k :: 0 <= k < |seeds| ==> seeds[k].0 != t
  }

  /** Each account has one creator, and each sample was put in by the creator of
      its account, once. */
  ghost predicate SeedsOk(s: State) {
    && (forall k :: 0 <= k < |s.seeds| ==> s.seeds[k].0 in s.wins && s.wins[s.seeds[k].0] == s.seeds[k].1)
    && (forall k, l :: 0 <= k < l < |s.seeds| ==> s.seeds[k].0 != s.seeds[l].0)
    && (forall t, u :: t in s.wins && u in s.wins && s.wins[t] == s.wins[u] ==> t == u)
  }

  ghost predicate CallOk(s: State, t: nat)
    requires Formed(s)
  {
    PendingOk(s, t) && HandOk(s, t) && WinOk(s, t) && TurnOk(s, t)
  }

  ghost predicate Inv(s: State) {
    && Formed(s) && EmailsUnique(s.users)
    && (forall id :: id in s.users ==> id < s.minted)
    && (forall t: nat :: CallOk(s, t))
    && SeedsOk(s)
  }

  /** A step that asks nothing of the store, or only reads it. */
  lemma QuietKeeps(s: State, t: nat, phase: Phase)
    requires Inv(s) && t < |s.phases| && !phase.Inserted? && !phase.Won? && !phase.Begun?
    requires phase.NoUser? ==> s.phases[t].Begun?
    requires phase.Seeded? || phase.Known? || phase.Signed? ==>
      phase.id in s.users && s.users[phase.id].email == s.calls[t].Address()
    requires s.phases[t].Won? ==> phase.Failed?
    ensures Inv(To(s, t, phase))
  {
    hide EmailsUnique, SeedsOk, Violates, Call.Address;
    var after := To(s, t, phase);
    forall u: nat
      ensures CallOk(after, u)
    {
      assert CallOk(s, u) && CallOk(s, t);
    }
    SeedsSame(s, after);
  }

  lemma SeedsSame(s: State, after: State)
    requires SeedsOk(s) && after.seeds == s.seeds && after.wins == s.wins
    ensures SeedsOk(after)
  {
  }

  lemma InsertKeeps(s: State, t: nat)
    requires Inv(s) && t < |s.phases| && s.phases[t].NoUser? && !BeingInserted(s, t) && !Violates(s.users, s.calls[t].Address())
    ensures Inv(To(s, t, Inserted(s.minted)).(minted := s.minted + 1))
  {
    hide EmailsUnique, SeedsOk, Violates, Call.Address;
    var after := To(s, t, Inserted(s.minted)).(minted := s.minted + 1);
    forall u: nat
      ensures CallOk(after, u)
    {
      InsertKeepsCall(s, t, u);
    }
    SeedsSame(s, after);
  }

  lemma InsertKeepsCall(s: State, t: nat, u: nat)
    requires Inv(s) && t < |s.phases| && s.phases[t].NoUser? && !BeingInserted(s, t) && !Violates(s.users, s.calls[t].Address())
    ensures CallOk(To(s, t, Inserted(s.minted)).(minted := s.minted + 1), u)
  {
    hide EmailsUnique, SeedsOk, Violates, Call.Address;
    var after := To(s, t, Inserted(s.minted)).(minted := s.minted + 1);
    assert CallOk(s, t) && CallOk(s, u);
    forall v | 0 <= v < |s.phases| && v != t && s.phases[v].Inserted?
      ensures s.calls[v].Address() != s.calls[t].Address() && s.phases[v].id < s.minted
    {
      assert CallOk(s, v);
    }
    if u < |s.phases| && after.phases[u].Inserted? {
      assert s.minted !in s.users;
      assert !BeingInserted(after, u);
    }
  }

  lemma CommitKeeps(s: State, t: nat, phase: Phase)
    requires Inv(s) && t < |s.phases| && s.phases[t].Inserted?
    requires phase == Won(s.phases[t].id) || phase == Failed
    ensures Inv(Committed(s, t, s.phases[t].id).(phases := s.phases[t := phase]))
  {
    hide EmailsUnique, SeedsOk, Call.Address;
    var id, address := s.phases[t].id, s.calls[t].Address();
    var after := Committed(s, t, id).(phases := s.phases[t := phase]);
    assert CallOk(s, t);
    CommitUnique(s, t);
    forall u: nat
      ensures CallOk(after, u)
    {
      CommitKeepsCall(s, t, u, phase);
    }
    CommitSeeds(s, t);
    SeedsSame(Committed(s, t, id), after);
  }

  lemma CommitUnique(s: State, t: nat)
    requires Inv(s) && t < |s.phases| && s.phases[t].Inserted?
    ensures EmailsUnique(Committed(s, t, s.phases[t].id).users)
  {
    hide SeedsOk, Call.Address;
    assert CallOk(s, t);
  }

  lemma CommitSeeds(s: State, t: nat)
    requires Inv(s) && t < |s.phases| && s.phases[t].Inserted?
    ensures SeedsOk(Committed(s, t, s.phases[t].id))
  {
    hide EmailsUnique, Call.Address, Violates, BeingInserted;
    assert CallOk(s, t);
    forall u | u in s.wins
      ensures s.wins[u] != s.phases[t].id
    {
      assert CallOk(s, u);
    }
    assert forall k :: 0 <= k < |s.seeds| ==> s.seeds[k].0 != t;
  }

  lemma CommitKeepsCall(s: State, t: nat, u: nat, phase: Phase)
    requires Inv(s) && t < |s.phases| && s.phases[t].Inserted?
    requires phase == Won(s.phases[t].id) || phase == Failed
    ensures CallOk(Committed(s, t, s.phases[t].id).(phases := s.phases[t := phase]), u)
  {
    hide EmailsUnique, SeedsOk, Call.Address;
    assert CallOk(s, t) && CallOk(s, u);
    var address := s.calls[t].Address();
    if u != t && u < |s.phases| && s.phases[u].Inserted? {
      assert s.calls[u].Address() != address;
      assert s.phases[u].id != s.phases[t].id;
    }
  }

  lemma SeedKeeps(s: State, t: nat, phase: Phase)
    requires Inv(s) && t < |s.phases| && s.phases[t].Won?
    requires phase == Seeded(s.phases[t].id) || phase == Failed
    ensures Inv(Seeding(s, t, s.phases[t].id).(phases := s.phases[t := phase]))
  {
    hide EmailsUnique, Violates, Call.Address;
    var after := Seeding(s, t, s.phases[t].id).(phases := s.phases[t := phase]);
    assert CallOk(s, t);
    forall u: nat
      ensures CallOk(after, u)
    {
      assert CallOk(s, u);
    }
  }

  lemma {:induction false} StepKeepsInv(s: State, after: State, t: nat)
    requires Inv(s) && Formed(s) && Step(s, after, t)
    ensures Inv(after)
  {
    hide Inv, Violates, BeingInserted, Call.Address;
    if after == To(s, t, Failed) {
      QuietKeeps(s, t, Failed);
    } else {
      match s.phases[t] {
        case Begun => ReadKeeps(s, after, t);
        case NoUser =>
          if Violates(s.users, s.calls[t].Address()) {
            QuietKeeps(s, t, after.phases[t]);
          } else if after == Advanced(s, t) {
            InsertKeeps(s, t);
          } else {
            BreakingInsert(s, t);
          }
        case Inserted(id) => CommitKeeps(s, t, after.phases[t]);
        case Lost => ReadKeeps(s, after, t);
        case Won(id) => SeedKeeps(s, t, after.phases[t]);
        case Seeded(id) => ReadKeeps(s, after, t);
        case Known(id) => ReadKeeps(s, after, t);
        case _ =>
      }
    }
  }

  /** Reading the store keeps everything. */
  lemma ReadKeeps(s: State, after: State, t: nat)
    requires Inv(s) && Formed(s) && t < |s.phases|
    requires s.phases[t].Begun? || s.phases[t].Lost? || s.phases[t].Seeded? || s.phases[t].Known?
    requires after == Advanced(s, t) || after == Broken(s, t)
    ensures Inv(after)
  {
    hide Violates, BeingInserted, Call.Address, EmailsUnique, SeedsOk, Inv;
    HandHeld(s, t);
    assert after == To(s, t, after.phases[t]);
    QuietKeeps(s, t, after.phases[t]);
  }

  lemma HandHeld(s: State, t: nat)
    requires Inv(s)
    ensures Formed(s) && HandOk(s, t)
  {
    hide EmailsUnique, SeedsOk, PendingOk, WinOk, TurnOk;
    assert CallOk(s, t);
  }

  /** An insert whose answer is lost is rolled back; only a number is used up. */
  lemma BreakingInsert(s: State, t: nat)
    requires Inv(s) && Formed(s) && t < |s.phases| && s.phases[t].NoUser?
    ensures Inv(Broken(s, t))
  {
    hide Violates, Call.Address, EmailsUnique, SeedsOk;
    var failed := To(s, t, Failed);
    QuietKeeps(s, t, Failed);
    var after := failed.(minted := s.minted + 1);
    forall u: nat
      ensures CallOk(after, u)
    {
      assert CallOk(failed, u);
    }
    SeedsSame(failed, after);
  }

  // ----- whole runs -----

  /** Nobody has called yet, over users whose addresses are unique. */
  ghost predicate Start(s: State) {
    && Formed(s) && EmailsUnique(s.users) && (forall id :: id in s.users ==> id < s.minted)
    && (forall t :: 0 <= t < |s.phases| ==> s.phases[t].Begun?)
    && s.wins == map[] && s.seeds == []
  }

  ghost predicate Steps(s: State, after: State) {
    Formed(s) && exists t :: Step(s, after, t)
  }

  ghost predicate IsRun(run: seq<State>) {
    run != [] && Start(run[0]) && forall i :: 0 <= i < |run| - 1 ==> Steps(run[i], run[i + 1])
  }

  lemma StartInv(s: State)
    requires Start(s)
    ensures Inv(s)
  {
    hide EmailsUnique;
    forall t: nat
      ensures CallOk(s, t)
    {
    }
  }

  lemma {:induction false} RunKeepsInv(run: seq<State>, i: nat)
    requires IsRun(run) && i < |run|
    ensures Inv(run[i])
  {
    hide Inv, Step;
    if i == 0 {
      StartInv(run[0]);
    } else {
      RunKeepsInv(run, i - 1);
      assert Steps(run[i - 1], run[i - 1 + 1]);
      var t :| Step(run[i - 1], run[i], t);
      StepKeepsInv(run[i - 1], run[i], t);
    }
  }

  /** Two calls that each created an account of the same address. */
  predicate BothWon(s: State, t: nat, u: nat) {
    && t in s.wins && u in s.wins && t < |s.calls| && u < |s.calls|
    && s.calls[t].Address() == s.calls[u].Address()
  }

  /** However the calls interleave, an address never has two accounts, so all
      calls for it that create one are the same call. */
  lemma OneAccountPerAddress(run: seq<State>, i: nat)
    requires IsRun(run) && i < |run|
    ensures EmailsUnique(run[i].users) && Formed(run[i])
    ensures forall t, u :: BothWon(run[i], t, u) ==> t == u
  {
    hide IsRun, Call.Address, PendingOk, HandOk, TurnOk;
    RunKeepsInv(run, i);
    var s := run[i];
    forall t, u | BothWon(s, t, u)
      ensures t == u
    {
      assert CallOk(s, t) && CallOk(s, u);
    }
  }

  /** Every call that succeeds is signed in as the account of its address: the
      same for all of them. */
  lemma SignedInAsTheAccount(run: seq<State>, i: nat, t: nat, u: nat)
    requires IsRun(run) && i < |run| && Formed(run[i]) && t < |run[i].phases| && u < |run[i].phases|
    requires run[i].phases[t].Signed? && run[i].phases[u].Signed?
    requires run[i].calls[t].Address() == run[i].calls[u].Address()
    ensures run[i].phases[t].id == run[i].phases[u].id
    ensures run[i].phases[t].id in run[i].users
    ensures run[i].users[run[i].phases[t].id].email == run[i].calls[t].Address()
  {
    hide IsRun, Call.Address, PendingOk, WinOk, TurnOk, SeedsOk;
    RunKeepsInv(run, i);
    assert CallOk(run[i], t) && CallOk(run[i], u);
  }

  /** An account gets the sample at most once, from the call that created it. */
  lemma SeededOnceByTheWinner(run: seq<State>, i: nat)
    requires IsRun(run) && i < |run|
    ensures forall k :: 0 <= k < |run[i].seeds| ==>
      run[i].seeds[k].0 in run[i].wins && run[i].wins[run[i].seeds[k].0] == run[i].seeds[k].1
    ensures forall k, l :: 0 <= k < l < |run[i].seeds| ==> run[i].seeds[k].1 != run[i].seeds[l].1
  {
    hide IsRun, CallOk, EmailsUnique;
    RunKeepsInv(run, i);
  }

  /** No call waits for ever: while one is under way, some call can move on. */
  lemma SomeoneIsReady(s: State, t: nat) returns (u: nat)
    requires Formed(s) && Active(s, t)
    ensures Ready(s, u)
  {
    hide Call.Address;
    if w: nat :| w < |s.phases| && s.phases[w].Inserted? {
      u := w;
    } else {
      u := t;
    }
  }
}
