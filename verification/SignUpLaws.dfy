/** What a call to sign up is answered, and what it has done by then. */
module SignUpLaws {
  import opened Options
  import opened Strings
  import opened SignUp

  /** The two addresses are one but for letter case and white space around. */
  predicate SameAddress(a: Call, b: Call) {
    Same(Trim(a.email), Trim(b.email))
  }

  lemma AddressIs(a: Call, b: Call)
    ensures a.Address() == b.Address() <==> SameAddress(a, b)
  {
    hide Trim;
  }

  /** An account has this call's address. */
  predicate Holds(users: map<nat, User>, call: Call, id: nat) {
    id in users && users[id].email == Lower(Trim(call.email))
  }

  ghost predicate HasAccount(users: map<nat, User>, call: Call) {
    exists id :: Holds(users, call, id)
  }

  /** Or some account goes by it as its name. */
  ghost predicate Occupied(users: map<nat, User>, call: Call) {
    HasAccount(users, call) || exists id :: id in users && users[id].userName == Lower(Trim(call.email))
  }

  // ----- what one step answers -----

  /** Call `t` takes its next step between the states `i` and `i + 1`, and does
      not break off. */
  predicate Moves(run: seq<State>, i: nat, t: nat) {
    && i + 1 < |run| && Formed(run[i]) && t < |run[i].phases| && t < |run[i + 1].phases|
    && run[i + 1].phases[t] != run[i].phases[t] && !run[i + 1].phases[t].Failed?
  }

  lemma MovesAdvances(run: seq<State>, i: nat, t: nat)
    requires IsRun(run) && Moves(run, i, t)
    ensures run[i + 1] == Advanced(run[i], t) && Ready(run[i], t) && run[i + 1].calls == run[i].calls
  {
    hide IsRun, Advanced, Ready, Start;
    assert Steps(run[i], run[i + 1]) by {
      StepsAt(run, i);
    }
    var u :| Step(run[i], run[i + 1], u);
    StepIsOwn(run[i], run[i + 1], u, t);
  }

  lemma StepsAt(run: seq<State>, i: nat)
    requires IsRun(run) && i + 1 < |run|
    ensures Steps(run[i], run[i + 1])
  {
    hide Step, Start;
  }

  lemma StepIsOwn(s: State, after: State, u: nat, t: nat)
    requires Formed(s) && Step(s, after, u) && t < |s.phases| && t < |after.phases|
    requires after.phases[t] != s.phases[t] && !after.phases[t].Failed?
    ensures after == Advanced(s, t) && Ready(s, t) && after.calls == s.calls
  {
    hide Call.Address, Violates, BeingInserted, UserByEmail, LookedUp, LookedUpAgain, Inserting, Committed, Seeding;
    AdvancedMovesOne(s, u, t);
  }

  lemma AdvancedMovesOne(s: State, u: nat, t: nat)
    requires Formed(s) && u < |s.phases| && t < |s.phases|
    ensures |Advanced(s, u).phases| == |s.phases| && Advanced(s, u).calls == s.calls
    ensures t != u ==> Advanced(s, u).phases[t] == s.phases[t]
  {
    hide Call.Address, Violates, UserByEmail;
  }

  lemma FoundIff(users: map<nat, User>, call: Call)
    ensures var found := UserByEmail(users, call.Address());
            && (found.Some? <==> HasAccount(users, call))
            && (found.Some? ==> Holds(users, call, found.value))
  {
    hide Trim;
    var found := UserByEmail(users, call.Address());
    if found.Some? {
      assert Holds(users, call, found.value);
    }
  }

  /** The lookup: a form that was not filled in or an address Google has not
      verified is refused; an address with an account refuses a registration,
      and takes Google's caller to that account; one without goes on. */
  lemma LookupDecides(run: seq<State>, i: nat, t: nat)
    requires IsRun(run) && Moves(run, i, t) && run[i].phases[t].Begun?
    ensures var call, phase := run[i].calls[t], run[i + 1].phases[t];
            if !call.allowed then phase == Refused
            else if !HasAccount(run[i].users, call) then phase == NoUser
            else if call.Register? then phase == Refused
            else phase.Known? && Holds(run[i].users, call, phase.id)
  {
    hide IsRun, Ready;
    MovesAdvances(run, i, t);
    FoundIff(run[i].users, run[i].calls[t]);
  }

  /** The insert: an address already taken ends a registration and sends
      Google's caller to look again; a free one is inserted under a new id. */
  lemma InsertDecides(run: seq<State>, i: nat, t: nat)
    requires IsRun(run) && Moves(run, i, t) && run[i].phases[t].NoUser?
    ensures var call, phase := run[i].calls[t], run[i + 1].phases[t];
            if !Occupied(run[i].users, call) then phase.Inserted? && phase.id !in run[i].users
            else if call.Register? then phase == Refused
            else phase == Lost
  {
    hide IsRun, EmailsUnique, CallOk, SeedsOk;
    MovesAdvances(run, i, t);
    RunKeepsInv(run, i);
    OccupiedIff(run[i].users, run[i].calls[t]);
  }

  lemma OccupiedIff(users: map<nat, User>, call: Call)
    ensures Occupied(users, call) <==> Violates(users, call.Address())
  {
    hide Trim;
    var address := Lower(Trim(call.email));
    if Violates(users, call.Address()) {
      var id :| id in users && (users[id].email == address || users[id].userName == address);
      if users[id].email == address {
        assert Holds(users, call, id);
      }
    }
  }

  /** Google's caller that lost the insert goes on to the account of its
      address, if that is what it lost to. */
  lemma LoserFollows(run: seq<State>, i: nat, t: nat)
    requires IsRun(run) && Moves(run, i, t) && run[i].phases[t].Lost?
    ensures var phase := run[i + 1].phases[t]; phase.Known? && Holds(run[i].users, run[i].calls[t], phase.id)
  {
    hide IsRun, Ready;
    MovesAdvances(run, i, t);
  }

  /** A commit makes one account: of the call's address, trimmed and in lower
      case, which is also its name. */
  lemma CommitCreates(run: seq<State>, i: nat, t: nat)
    requires IsRun(run) && Moves(run, i, t) && run[i].phases[t].Inserted?
    ensures var id, address := run[i].phases[t].id, Lower(Trim(run[i].calls[t].email));
            && run[i + 1].phases[t] == Won(id) && id !in run[i].users
            && run[i + 1].users == run[i].users[id := User(address, address)]
            && run[i + 1].wins == run[i].wins[t := id]
  {
    hide IsRun, EmailsUnique, HandOk, WinOk, TurnOk, SeedsOk, Violates, Ready;
    MovesAdvances(run, i, t);
    RunKeepsInv(run, i);
    assert CallOk(run[i], t);
  }

  // ----- what a call has done when it is answered -----

  predicate HasSeeded(s: State, t: nat) {
    t in s.wins && exists k :: 0 <= k < |s.seeds| && s.seeds[k] == (t, s.wins[t])
  }

  predicate Created(s: State, t: nat, id: nat) {
    t in s.wins && s.wins[t] == id
  }

  /** Only allowed calls get past the lookup; an account in a registration's
      hands is its own; and whoever created an account puts the sample in before
      going on. */
  predicate Honest(s: State, t: nat)
    requires Formed(s)
  {
    t < |s.phases| ==>
      var phase := s.phases[t];
      && (!s.calls[t].allowed ==> phase.Begun? || phase.Refused? || phase.Failed?)
      && (phase.Won? || phase.Seeded? ==> Created(s, t, phase.id))
      && (phase.Seeded? ==> HasSeeded(s, t))
      && (phase.Known? || phase.Signed? ==>
            && (s.calls[t].Register? || t in s.wins ==> Created(s, t, phase.id) && HasSeeded(s, t)))
      && (phase.Lost? ==> s.calls[t].Google?)
      && (phase.Begun? || phase.NoUser? || phase.Lost? || phase.Inserted? || phase.Refused? ==> t !in s.wins)
  }

  lemma StepKeepsHonest(s: State, after: State, u: nat, t: nat)
    requires Formed(s) && Step(s, after, u) && Honest(s, t)
    ensures Formed(after) && Honest(after, t)
  {
    hide Call.Address, Violates, BeingInserted, UserByEmail, HasSeeded, Honest, Step, Advanced;
    StepShape(s, after, u);
    if t < |s.phases| {
      if after.phases[t].Failed? {
        FailedIsHonest(after, t);
      } else if u == t && after.phases[t] != s.phases[t] {
        StepIsOwn(s, after, u, t);
        OwnKeepsHonest(s, t);
      } else {
        UnmovedKeepsHonest(s, after, u, t);
      }
    } else {
      BeyondIsHonest(after, t);
    }
  }

  lemma StepShape(s: State, after: State, u: nat)
    requires Formed(s) && Step(s, after, u)
    ensures u < |s.phases| && Formed(after) && after.calls == s.calls && |after.phases| == |s.phases|
    ensures forall t: nat :: t < |s.phases| && t != u ==> after.phases[t] == s.phases[t]
  {
    hide Call.Address, Violates, BeingInserted, UserByEmail;
  }

  lemma FailedIsHonest(s: State, t: nat)
    requires Formed(s) && t < |s.phases| && s.phases[t].Failed?
    ensures Honest(s, t)
  {
  }

  lemma BeyondIsHonest(s: State, t: nat)
    requires Formed(s) && t >= |s.phases|
    ensures Honest(s, t)
  {
  }

  /** A step that leaves the phase of `t` leaves what `t` created and seeded. */
  lemma UnmovedStays(s: State, after: State, u: nat, t: nat)
    requires Formed(s) && Step(s, after, u) && u < |s.phases| && t < |s.phases| && t < |after.phases| && after.phases[t] == s.phases[t]
    ensures (t in after.wins <==> t in s.wins) && (t in s.wins ==> after.wins[t] == s.wins[t])
    ensures s.seeds <= after.seeds
  {
    hide Call.Address, Violates, BeingInserted, UserByEmail, Ready, LookedUp, LookedUpAgain, Active;
  }

  lemma UnmovedKeepsHonest(s: State, after: State, u: nat, t: nat)
    requires Formed(s) && Step(s, after, u) && Honest(s, t) && u < |s.phases| && t < |s.phases|
    requires Formed(after) && after.calls == s.calls && |after.phases| == |s.phases| && after.phases[t] == s.phases[t]
    ensures Honest(after, t)
  {
    hide Step;
    UnmovedStays(s, after, u, t);
    if HasSeeded(s, t) {
      var k :| 0 <= k < |s.seeds| && s.seeds[k] == (t, s.wins[t]);
      assert after.seeds[k] == (t, after.wins[t]);
    }
  }

  lemma OwnKeepsHonest(s: State, t: nat)
    requires Formed(s) && Honest(s, t) && t < |s.phases|
    ensures Formed(Advanced(s, t)) && Honest(Advanced(s, t), t)
  {
    hide Call.Address, Violates, UserByEmail, HasSeeded;
    if s.phases[t].Won? {
      SeedingSeeds(s, t);
    } else if s.phases[t].Seeded? || s.phases[t].Known? {
      SeedsStay(s, t);
    }
  }

  lemma SeedingSeeds(s: State, t: nat)
    requires Formed(s) && t < |s.phases| && s.phases[t].Won? && Created(s, t, s.phases[t].id)
    ensures HasSeeded(Seeding(s, t, s.phases[t].id), t)
  {
    var after := Seeding(s, t, s.phases[t].id);
    assert after.seeds[|s.seeds|] == (t, after.wins[t]);
  }

  lemma SeedsStay(s: State, t: nat)
    requires Formed(s) && t < |s.phases| && (s.phases[t].Seeded? || s.phases[t].Known?)
    ensures var after := Advanced(s, t);
            after.wins == s.wins && after.seeds == s.seeds && (HasSeeded(after, t) <==> HasSeeded(s, t))
  {
    hide Call.Address, Violates, UserByEmail;
  }

  lemma {:induction false} RunHonest(run: seq<State>, i: nat, t: nat)
    requires IsRun(run) && i < |run|
    ensures Formed(run[i]) && Honest(run[i], t)
  {
    hide IsRun, Step, Honest;
    if i == 0 {
      StartHonest(run, t);
    } else {
      RunHonest(run, i - 1, t);
      StepsAt(run, i - 1);
      var u :| Step(run[i - 1], run[i], u);
      StepKeepsHonest(run[i - 1], run[i], u, t);
    }
  }

  lemma StartHonest(run: seq<State>, t: nat)
    requires IsRun(run)
    ensures run != [] && Formed(run[0]) && Honest(run[0], t)
  {
  }

  /** In every interleaving: whoever is signed in was allowed to be; a
      registration is signed in as the account it created itself; and whoever
      created an account has put the sample into it. */
  lemma SignedHasEarnedIt(run: seq<State>, i: nat, t: nat)
    requires IsRun(run) && i < |run| && Formed(run[i]) && t < |run[i].phases| && run[i].phases[t].Signed?
    ensures run[i].calls[t].allowed && Holds(run[i].users, run[i].calls[t], run[i].phases[t].id)
    ensures run[i].calls[t].Register? ==> Created(run[i], t, run[i].phases[t].id)
    ensures t in run[i].wins ==> Created(run[i], t, run[i].phases[t].id) && HasSeeded(run[i], t)
  {
    hide IsRun, HasSeeded, EmailsUnique, SeedsOk, PendingOk, WinOk, TurnOk;
    RunHonest(run, i, t);
    RunKeepsInv(run, i);
    assert CallOk(run[i], t);
  }

  lemma OneWinner(run: seq<State>, i: nat, t: nat, u: nat)
    requires IsRun(run) && i < |run| && BothWon(run[i], t, u)
    ensures t == u
  {
    hide IsRun, EmailsUnique;
    OneAccountPerAddress(run, i);
  }

  /** So two registrations of one address are never both signed in. */
  lemma OneRegistrationPerAddress(run: seq<State>, i: nat, t: nat, u: nat)
    requires IsRun(run) && i < |run| && Formed(run[i]) && t < |run[i].phases| && u < |run[i].phases| && t != u
    requires run[i].phases[t].Signed? && run[i].calls[t].Register? && run[i].calls[u].Register?
    requires SameAddress(run[i].calls[t], run[i].calls[u])
    ensures !run[i].phases[u].Signed?
  {
    hide IsRun, SameAddress, Call.Address, HasSeeded, Holds;
    if run[i].phases[u].Signed? {
      SignedHasEarnedIt(run, i, t);
      SignedHasEarnedIt(run, i, u);
      AddressIs(run[i].calls[t], run[i].calls[u]);
      OneWinner(run, i, t, u);
    }
  }

  /** A call is refused just where it has to be: it was not allowed, or it is a
      registration of an address that is taken. */
  lemma RefusedForCause(run: seq<State>, i: nat, t: nat)
    requires IsRun(run) && Moves(run, i, t) && run[i + 1].phases[t].Refused?
    ensures var call := run[i].calls[t]; !call.allowed || (call.Register? && Occupied(run[i].users, call))
    ensures t !in run[i + 1].wins
  {
    hide IsRun, HasAccount, Occupied, Ready;
    MovesAdvances(run, i, t);
    RunHonest(run, i + 1, t);
    RefusedFrom(run[i], t);
    if run[i].phases[t].Begun? {
      LookupDecides(run, i, t);
      KnownIsOccupied(run[i].users, run[i].calls[t]);
    } else {
      InsertDecides(run, i, t);
    }
  }

  lemma KnownIsOccupied(users: map<nat, User>, call: Call)
    ensures HasAccount(users, call) ==> Occupied(users, call)
  {
  }

  lemma RefusedFrom(s: State, t: nat)
    requires Formed(s) && t < |s.phases| && Advanced(s, t).phases[t].Refused? && !s.phases[t].Refused?
    ensures s.phases[t].Begun? || s.phases[t].NoUser?
  {
    hide Call.Address, Violates, UserByEmail;
  }

  // ----- an answer is reached -----

  function Ahead(phase: Phase): nat {
    match phase
    case Begun => 6
    case NoUser => 5
    case Inserted(_) => 4
    case Won(_) => 3
    case Seeded(_) => 2
    case Lost => 2
    case Known(_) => 1
    case _ => 0
  }

  /** Each step that does not break off brings a call nearer its answer, and
      fails it only where the address it lost to is no account's but some
      account's name. */
  lemma OwnStepsEnd(run: seq<State>, i: nat, t: nat)
    requires IsRun(run) && i < |run| && Formed(run[i]) && Ready(run[i], t)
    ensures t < |run[i].phases| && |Advanced(run[i], t).phases| == |run[i].phases|
    ensures Ahead(Advanced(run[i], t).phases[t]) < Ahead(run[i].phases[t])
    ensures Advanced(run[i], t).phases[t].Failed? ==> run[i].phases[t].Lost? && !HasAccount(run[i].users, run[i].calls[t])
  {
    hide IsRun, EmailsUnique, SeedsOk, PendingOk, WinOk, TurnOk, Violates, BeingInserted;
    RunKeepsInv(run, i);
    assert CallOk(run[i], t);
  }
}
