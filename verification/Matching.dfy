/** Greedy pairing of two lists of names: each left name takes the first right
    name still free that is the same up to case. It pairs the k-th left
    occurrence of a name with its k-th right occurrence. */
module Matching {
  import opened Options
  import opened Strings

  /** How many of the first `k` names are the same as `name`. */
  function CountSame(names: seq<string>, k: nat, name: string): nat
    requires k <= |names|
  {
    if k == 0 then 0
    else CountSame(names, k - 1, name) + (if Same(names[k - 1], name) then 1 else 0)
  }

  /** How many of the names are the same as `name`. */
  function Total(names: seq<string>, name: string): nat {
    CountSame(names, |names|, name)
  }

  ghost predicate SameCounts(a: seq<string>, b: seq<string>) {
    forall name: string :: Total(a, name) == Total(b, name)
  }

  /** How many earlier names are the same as the one at `i`. */
  function Rank(names: seq<string>, i: nat): nat
    requires i < |names|
  {
    CountSame(names, i, names[i])
  }

  predicate Paired(left: seq<string>, right: seq<string>, i: nat, j: nat) {
    i < |left| && j < |right| && Same(left[i], right[j]) && Rank(left, i) == Rank(right, j)
  }

  /** The right name that left name `i` is paired with. */
  function Partner(left: seq<string>, right: seq<string>, i: nat): (r: Option<nat>)
    ensures r.Some? ==> Paired(left, right, i, r.value)
    ensures r.None? ==> forall j: nat :: !Paired(left, right, i, j)
  {
    var p := (j: nat) => Paired(left, right, i, j);
    assert forall j: nat :: p(j) == Paired(left, right, i, j);
    FirstBelow(|right|, p)
  }

  predicate HasPartner(left: seq<string>, right: seq<string>, j: nat) {
    exists i :: 0 <= i < |left| && Paired(left, right, i, j)
  }

  lemma {:induction false} CountSameCongruent(names: seq<string>, k: nat, a: string, b: string)
    requires k <= |names| && Same(a, b)
    ensures CountSame(names, k, a) == CountSame(names, k, b)
  {
    if k > 0 {
      CountSameCongruent(names, k - 1, a, b);
    }
  }

  lemma {:induction false} CountSameMonotone(names: seq<string>, k: nat, l: nat, name: string)
    requires k <= l <= |names|
    ensures CountSame(names, k, name) <= CountSame(names, l, name)
    ensures k < l && Same(names[k], name) ==> CountSame(names, k, name) < CountSame(names, l, name)
    decreases l
  {
    if k < l {
      CountSameMonotone(names, k, l - 1, name);
    }
  }

  /** Below every count, there is an occurrence with that rank. */
  lemma {:induction false} OccurrenceOfRank(names: seq<string>, k: nat, name: string, rank: nat) returns (i: nat)
    requires k <= |names| && rank < CountSame(names, k, name)
    ensures i < k && Same(names[i], name) && Rank(names, i) == rank
  {
    if Same(names[k - 1], name) && CountSame(names, k - 1, name) == rank {
      i := k - 1;
      CountSameCongruent(names, k - 1, name, names[k - 1]);
    } else {
      i := OccurrenceOfRank(names, k - 1, name, rank);
    }
  }

  lemma RankIncreases(names: seq<string>, i: nat, j: nat)
    requires i < j < |names| && Same(names[i], names[j])
    ensures Rank(names, i) < Rank(names, j)
  {
    CountSameCongruent(names, i, names[i], names[j]);
    CountSameMonotone(names, i, j, names[j]);
  }

  lemma RankDetermines(names: seq<string>, i: nat, j: nat)
    requires i < |names| && j < |names| && Same(names[i], names[j]) && Rank(names, i) == Rank(names, j)
    ensures i == j
  {
    if i < j {
      RankIncreases(names, i, j);
    } else if j < i {
      RankIncreases(names, j, i);
    }
  }

  /** No name is paired twice. */
  lemma PairedOnce(left: seq<string>, right: seq<string>, i: nat, j: nat, i': nat, j': nat)
    requires Paired(left, right, i, j) && Paired(left, right, i', j')
    ensures i == i' <==> j == j'
  {
    if i == i' {
      RankDetermines(right, j, j');
    }
    if j == j' {
      RankDetermines(left, i, i');
    }
  }

  lemma PartnerIs(left: seq<string>, right: seq<string>, i: nat, j: nat)
    requires Paired(left, right, i, j)
    ensures Partner(left, right, i) == Some(j)
  {
    PairedOnce(left, right, i, j, i, Partner(left, right, i).value);
  }

  // ----- the search with `taken` flags -----

  /** Exactly the partners of the first `i` left names are taken. */
  ghost predicate TakenBy(left: seq<string>, right: seq<string>, i: nat, taken: seq<bool>) {
    && i <= |left| && |taken| == |right|
    && forall j :: 0 <= j < |right| ==> (taken[j] <==> exists k :: 0 <= k < i && Paired(left, right, k, j))
  }

  /** The first name still free that is the same as `name`. */
  function FindFree(right: seq<string>, taken: seq<bool>, name: string): (r: Option<nat>)
    requires |taken| == |right|
    ensures r.Some? ==> r.value < |right| && !taken[r.value] && Same(right[r.value], name)
    ensures r.Some? ==> forall k :: 0 <= k < r.value ==> taken[k] || !Same(right[k], name)
    ensures r.None? ==> forall k :: 0 <= k < |right| ==> taken[k] || !Same(right[k], name)
  {
    var p := (j: nat) => j < |right| && !taken[j] && Same(right[j], name);
    assert forall j: nat :: j < |right| ==> p(j) == (!taken[j] && Same(right[j], name));
    FirstBelow(|right|, p)
  }

  lemma NoneTaken(left: seq<string>, right: seq<string>, taken: seq<bool>)
    requires |taken| == |right| && forall j :: 0 <= j < |taken| ==> !taken[j]
    ensures TakenBy(left, right, 0, taken)
  {
  }

  /** Among the names the same as `left[i]`, those taken are those of lower rank. */
  lemma TakenIsLowerRank(left: seq<string>, right: seq<string>, i: nat, taken: seq<bool>, j: nat)
    requires TakenBy(left, right, i, taken) && i < |left| && j < |right| && Same(left[i], right[j])
    ensures taken[j] <==> Rank(right, j) < Rank(left, i)
  {
    if taken[j] {
      var k :| 0 <= k < i && Paired(left, right, k, j);
      RankIncreases(left, k, i);
    }
    if Rank(right, j) < Rank(left, i) {
      var k := OccurrenceOfRank(left, i, left[i], Rank(right, j));
      assert Paired(left, right, k, j);
    }
  }

  lemma FreeIsPartner(left: seq<string>, right: seq<string>, i: nat, taken: seq<bool>)
    requires TakenBy(left, right, i, taken) && i < |left|
    ensures |taken| == |right| && FindFree(right, taken, left[i]) == Partner(left, right, i)
  {
    var free := FindFree(right, taken, left[i]);
    if free.Some? {
      var j := free.value;
      TakenIsLowerRank(left, right, i, taken, j);
      if Rank(right, j) > Rank(left, i) {
        CountSameCongruent(right, j, right[j], left[i]);
        var k := OccurrenceOfRank(right, j, left[i], Rank(left, i));
        TakenIsLowerRank(left, right, i, taken, k);
      }
      PartnerIs(left, right, i, j);
    } else if j: nat :| Paired(left, right, i, j) {
      TakenIsLowerRank(left, right, i, taken, j);
    }
  }

  lemma TakeNext(left: seq<string>, right: seq<string>, i: nat, taken: seq<bool>)
    requires TakenBy(left, right, i, taken) && i < |left|
    ensures Partner(left, right, i).None? ==> TakenBy(left, right, i + 1, taken)
    ensures Partner(left, right, i).Some? ==> TakenBy(left, right, i + 1, taken[Partner(left, right, i).value := true])
  {
    var partner := Partner(left, right, i);
    forall j | 0 <= j < |right|
      ensures Paired(left, right, i, j) <==> partner == Some(j)
    {
      if Paired(left, right, i, j) {
        PartnerIs(left, right, i, j);
      }
    }
  }

  lemma AllTaken(left: seq<string>, right: seq<string>, taken: seq<bool>, j: nat)
    requires TakenBy(left, right, |left|, taken) && j < |right|
    ensures |taken| == |right| && (taken[j] <==> HasPartner(left, right, j))
  {
  }
}
