/** Adding counts up over a list, over a grid, and over the pairs of a greedy
    matching. */
module Sums {
  import opened Options
  import opened Comparisons
  import opened Matching

  ghost function CountSum(n: nat, f: nat -> Counts): Counts {
    if n == 0 then NO_COUNTS else CountSum(n - 1, f).Plus(f(n - 1))
  }

  lemma PlusZero(a: Counts)
    ensures a.Plus(NO_COUNTS) == a && NO_COUNTS.Plus(a) == a
  {
  }

  lemma PlusAssociative(a: Counts, b: Counts, c: Counts)
    ensures a.Plus(b).Plus(c) == a.Plus(b.Plus(c))
  {
  }

  lemma PlusExchange(a: Counts, b: Counts, c: Counts, d: Counts)
    ensures a.Plus(b).Plus(c.Plus(d)) == a.Plus(c).Plus(b.Plus(d))
  {
  }

  lemma PlusClean(a: Counts, b: Counts)
    ensures a.Plus(b).IsClean() <==> a.IsClean() && b.IsClean()
  {
  }

  lemma PlusMirror(a: Counts, b: Counts)
    ensures a.Plus(b).Mirror() == a.Mirror().Plus(b.Mirror())
  {
  }

  lemma {:induction false} CountSumCongruent(n: nat, f: nat -> Counts, g: nat -> Counts)
    requires forall k: nat :: k < n ==> f(k) == g(k)
    ensures CountSum(n, f) == CountSum(n, g)
  {
    if n > 0 {
      CountSumCongruent(n - 1, f, g);
    }
  }

  lemma {:induction false} CountSumPlus(n: nat, f: nat -> Counts, g: nat -> Counts, h: nat -> Counts)
    requires forall k: nat :: k < n ==> h(k) == f(k).Plus(g(k))
    ensures CountSum(n, h) == CountSum(n, f).Plus(CountSum(n, g))
  {
    hide Counts.Plus;
    if n > 0 {
      CountSumPlus(n - 1, f, g, h);
      PlusExchange(CountSum(n - 1, f), CountSum(n - 1, g), f(n - 1), g(n - 1));
    } else {
      PlusZero(NO_COUNTS);
    }
  }

  lemma {:induction false} CountSumMirror(n: nat, f: nat -> Counts, g: nat -> Counts)
    requires forall k: nat :: k < n ==> g(k) == f(k).Mirror()
    ensures CountSum(n, g) == CountSum(n, f).Mirror()
  {
    hide Counts.Plus;
    if n > 0 {
      CountSumMirror(n - 1, f, g);
      PlusMirror(CountSum(n - 1, f), f(n - 1));
    }
  }

  lemma {:induction false} CountSumZero(n: nat, f: nat -> Counts)
    requires forall k: nat :: k < n ==> f(k) == NO_COUNTS
    ensures CountSum(n, f) == NO_COUNTS
  {
    hide Counts.Plus;
    if n > 0 {
      CountSumZero(n - 1, f);
      PlusZero(NO_COUNTS);
    }
  }

  lemma {:induction false} CountSumSingle(n: nat, f: nat -> Counts, j: nat)
    requires j < n && forall k: nat :: k < n && k != j ==> f(k) == NO_COUNTS
    ensures CountSum(n, f) == f(j)
  {
    hide Counts.Plus;
    PlusZero(f(j));
    if j == n - 1 {
      CountSumZero(n - 1, f);
    } else {
      CountSumSingle(n - 1, f, j);
    }
  }

  /** A sum is clean exactly when each of its terms is. */
  lemma {:induction false} CountSumClean(n: nat, f: nat -> Counts)
    ensures CountSum(n, f).IsClean() <==> forall k: nat :: k < n ==> f(k).IsClean()
  {
    hide Counts.Plus;
    if n > 0 {
      CountSumClean(n - 1, f);
      PlusClean(CountSum(n - 1, f), f(n - 1));
    }
  }

  // ----- counts of a trace -----

  lemma {:induction false} CountsOfAppend(a: Trace, b: Trace, category: Category)
    ensures CountsOf(a + b, category) == CountsOf(a, category).Plus(CountsOf(b, category))
    decreases |b|
  {
    hide Counts.Plus;
    if b == [] {
      assert a + b == a;
      PlusZero(CountsOf(a, category));
    } else {
      var front, last := b[..|b| - 1], b[|b| - 1];
      CountsOfAppend(a, front, category);
      assert (a + b)[..|a + b| - 1] == a + front;
      PlusAssociative(CountsOf(a, category), CountsOf(front, category), last.counts);
    }
  }

  ghost function CountRows(f: nat -> Trace, category: Category): nat -> Counts {
    (k: nat) => CountsOf(f(k), category)
  }

  lemma {:induction false} CountsOfSum(n: nat, f: nat -> Trace, category: Category)
    ensures CountsOf(Sum(n, f), category) == CountSum(n, CountRows(f, category))
  {
    hide Counts.Plus;
    if n > 0 {
      CountsOfSum(n - 1, f, category);
      CountsOfAppend(Sum(n - 1, f), f(n - 1), category);
    }
  }

  lemma CountsOfEvent(e: Event, category: Category)
    ensures CountsOf([e], category) == if e.category == category then e.counts else NO_COUNTS
  {
    assert [e][..0] == [];
  }

  // ----- a grid, by rows and by columns -----

  ghost function Row(g: (nat, nat) -> Counts, i: nat): nat -> Counts {
    (j: nat) => g(i, j)
  }

  ghost function Column(g: (nat, nat) -> Counts, j: nat): nat -> Counts {
    (i: nat) => g(i, j)
  }

  ghost function Transpose(g: (nat, nat) -> Counts): (nat, nat) -> Counts {
    (j: nat, i: nat) => g(i, j)
  }

  ghost function Grid(n: nat, m: nat, g: (nat, nat) -> Counts): Counts {
    if n == 0 then NO_COUNTS else Grid(n - 1, m, g).Plus(CountSum(m, Row(g, n - 1)))
  }

  lemma {:induction false} GridLastColumn(n: nat, m: nat, g: (nat, nat) -> Counts)
    requires m > 0
    ensures Grid(n, m, g) == Grid(n, m - 1, g).Plus(CountSum(n, Column(g, m - 1)))
  {
    hide Counts.Plus;
    if n > 0 {
      GridLastColumn(n - 1, m, g);
      PlusExchange(Grid(n - 1, m - 1, g), CountSum(n - 1, Column(g, m - 1)),
                   CountSum(m - 1, Row(g, n - 1)), g(n - 1, m - 1));
    } else {
      PlusZero(NO_COUNTS);
    }
  }

  lemma {:induction false} GridNoColumns(n: nat, g: (nat, nat) -> Counts)
    ensures Grid(n, 0, g) == NO_COUNTS
  {
    hide Counts.Plus;
    if n > 0 {
      GridNoColumns(n - 1, g);
      PlusZero(NO_COUNTS);
    }
  }

  /** Row by row or column by column, the total is the same. */
  lemma {:induction false} GridTransposed(n: nat, m: nat, g: (nat, nat) -> Counts)
    ensures Grid(n, m, g) == Grid(m, n, Transpose(g))
    decreases m
  {
    if m == 0 {
      GridNoColumns(n, g);
    } else {
      GridLastColumn(n, m, g);
      GridTransposed(n, m - 1, g);
      CountSumCongruent(n, Column(g, m - 1), Row(Transpose(g), m - 1));
    }
  }

  lemma {:induction false} GridMirror(n: nat, m: nat, g: (nat, nat) -> Counts, h: (nat, nat) -> Counts)
    requires forall i: nat, j: nat :: i < n && j < m ==> h(i, j) == g(i, j).Mirror()
    ensures Grid(n, m, h) == Grid(n, m, g).Mirror()
  {
    hide Counts.Plus;
    if n > 0 {
      GridMirror(n - 1, m, g, h);
      CountSumMirror(m, Row(g, n - 1), Row(h, n - 1));
      PlusMirror(Grid(n - 1, m, g), CountSum(m, Row(g, n - 1)));
    }
  }

  lemma {:induction false} GridIsSum(n: nat, m: nat, g: (nat, nat) -> Counts, f: nat -> Counts)
    requires forall i: nat :: i < n ==> f(i) == CountSum(m, Row(g, i))
    ensures Grid(n, m, g) == CountSum(n, f)
  {
    if n > 0 {
      GridIsSum(n - 1, m, g, f);
    }
  }

  // ----- the counts of a matching -----

  const ONE_MISSING := Counts(0, 1, 0, 0)
  const ONE_EXTRA := Counts(0, 0, 1, 0)

  /** What left item `i` counts for: its pair's cell, or one missing. */
  ghost function LeftCount(left: seq<string>, right: seq<string>, cell: (nat, nat) -> Counts, lone: bool, i: nat): Counts {
    match Partner(left, right, i)
    case Some(j) => cell(i, j)
    case None => if lone then ONE_MISSING else NO_COUNTS
  }

  ghost function LeftCounts(left: seq<string>, right: seq<string>, cell: (nat, nat) -> Counts, lone: bool): nat -> Counts {
    (i: nat) => LeftCount(left, right, cell, lone, i)
  }

  ghost function RightCount(left: seq<string>, right: seq<string>, lone: bool, j: nat): Counts {
    if lone && !HasPartner(left, right, j) then ONE_EXTRA else NO_COUNTS
  }

  ghost function RightCounts(left: seq<string>, right: seq<string>, lone: bool): nat -> Counts {
    (j: nat) => RightCount(left, right, lone, j)
  }

  /** A matching's total: its pairs, and with `lone` the items left over. */
  ghost function MatchTotal(left: seq<string>, right: seq<string>, cell: (nat, nat) -> Counts, lone: bool): Counts {
    CountSum(|left|, LeftCounts(left, right, cell, lone)).Plus(CountSum(|right|, RightCounts(left, right, lone)))
  }

  lemma PairedMirror(left: seq<string>, right: seq<string>, i: nat, j: nat)
    ensures Paired(left, right, i, j) <==> Paired(right, left, j, i)
  {
  }

  lemma HasPartnerMirror(left: seq<string>, right: seq<string>, j: nat)
    ensures HasPartner(left, right, j) <==> Partner(right, left, j).Some?
  {
    if HasPartner(left, right, j) {
      var i :| 0 <= i < |left| && Paired(left, right, i, j);
      PairedMirror(left, right, i, j);
    }
    if Partner(right, left, j).Some? {
      PairedMirror(left, right, Partner(right, left, j).value, j);
    }
  }

  ghost function PairCell(left: seq<string>, right: seq<string>, cell: (nat, nat) -> Counts, i: nat, j: nat): Counts {
    if Paired(left, right, i, j) then cell(i, j) else NO_COUNTS
  }

  ghost function PairCells(left: seq<string>, right: seq<string>, cell: (nat, nat) -> Counts): (nat, nat) -> Counts {
    (i: nat, j: nat) => PairCell(left, right, cell, i, j)
  }

  /** A row of the grid of pairs holds at most one pair. */
  lemma PairRow(left: seq<string>, right: seq<string>, cell: (nat, nat) -> Counts, i: nat)
    ensures CountSum(|right|, Row(PairCells(left, right, cell), i)) == LeftCount(left, right, cell, false, i)
  {
    var row := Row(PairCells(left, right, cell), i);
    match Partner(left, right, i) {
      case Some(j) =>
        forall k: nat | k < |right| && k != j
          ensures row(k) == NO_COUNTS
        {
          if Paired(left, right, i, k) {
            PartnerIs(left, right, i, k);
          }
        }
        CountSumSingle(|right|, row, j);
      case None =>
        CountSumZero(|right|, row);
    }
  }

  lemma PairsAsGrid(left: seq<string>, right: seq<string>, cell: (nat, nat) -> Counts)
    ensures CountSum(|left|, LeftCounts(left, right, cell, false)) == Grid(|left|, |right|, PairCells(left, right, cell))
  {
    forall i: nat | i < |left|
      ensures LeftCounts(left, right, cell, false)(i) == CountSum(|right|, Row(PairCells(left, right, cell), i))
    {
      PairRow(left, right, cell, i);
    }
    GridIsSum(|left|, |right|, PairCells(left, right, cell), LeftCounts(left, right, cell, false));
  }

  ghost predicate MirrorCells(left: seq<string>, right: seq<string>, cell: (nat, nat) -> Counts, back: (nat, nat) -> Counts) {
    forall i: nat, j: nat :: Paired(left, right, i, j) ==> back(j, i) == cell(i, j).Mirror()
  }

  lemma PairsMirror(left: seq<string>, right: seq<string>, cell: (nat, nat) -> Counts, back: (nat, nat) -> Counts)
    requires MirrorCells(left, right, cell, back)
    ensures CountSum(|right|, LeftCounts(right, left, back, false))
         == CountSum(|left|, LeftCounts(left, right, cell, false)).Mirror()
  {
    var g, h := PairCells(left, right, cell), PairCells(right, left, back);
    PairsAsGrid(left, right, cell);
    PairsAsGrid(right, left, back);
    GridTransposed(|left|, |right|, g);
    forall j: nat, i: nat | j < |right| && i < |left|
      ensures h(j, i) == Transpose(g)(j, i).Mirror()
    {
      PairedMirror(left, right, i, j);
    }
    GridMirror(|right|, |left|, Transpose(g), h);
  }

  /** The items left over, counted on their own. */
  ghost function LoneCount(left: seq<string>, right: seq<string>, i: nat): Counts {
    if Partner(left, right, i).None? then ONE_MISSING else NO_COUNTS
  }

  ghost function LoneCounts(left: seq<string>, right: seq<string>): nat -> Counts {
    (i: nat) => LoneCount(left, right, i)
  }

  lemma SplitLone(left: seq<string>, right: seq<string>, cell: (nat, nat) -> Counts)
    ensures CountSum(|left|, LeftCounts(left, right, cell, true))
         == CountSum(|left|, LeftCounts(left, right, cell, false)).Plus(CountSum(|left|, LoneCounts(left, right)))
  {
    hide Counts.Plus;
    forall i: nat | i < |left|
      ensures LeftCounts(left, right, cell, true)(i)
           == LeftCounts(left, right, cell, false)(i).Plus(LoneCounts(left, right)(i))
    {
      PlusZero(LeftCount(left, right, cell, true, i));
    }
    CountSumPlus(|left|, LeftCounts(left, right, cell, false), LoneCounts(left, right), LeftCounts(left, right, cell, true));
  }

  lemma LoneMirror(left: seq<string>, right: seq<string>)
    ensures CountSum(|right|, RightCounts(left, right, true)) == CountSum(|right|, LoneCounts(right, left)).Mirror()
  {
    forall j: nat | j < |right|
      ensures RightCounts(left, right, true)(j) == LoneCounts(right, left)(j).Mirror()
    {
      HasPartnerMirror(left, right, j);
    }
    CountSumMirror(|right|, LoneCounts(right, left), RightCounts(left, right, true));
  }

  lemma MirrorLeftOver(pairs: Counts, left: Counts, right: Counts)
    ensures pairs.Mirror().Plus(right).Plus(left.Mirror()) == pairs.Plus(left).Plus(right.Mirror()).Mirror()
  {
  }

  /** Matching the other way round mirrors the total. */
  lemma MatchTotalMirror(left: seq<string>, right: seq<string>, cell: (nat, nat) -> Counts, back: (nat, nat) -> Counts, lone: bool)
    requires MirrorCells(left, right, cell, back)
    ensures MatchTotal(right, left, back, lone) == MatchTotal(left, right, cell, lone).Mirror()
  {
    hide Counts.Plus;
    PairsMirror(left, right, cell, back);
    var pairs, back' := CountSum(|left|, LeftCounts(left, right, cell, false)), CountSum(|right|, LeftCounts(right, left, back, false));
    if lone {
      SplitLone(left, right, cell);
      SplitLone(right, left, back);
      LoneMirror(left, right);
      LoneMirror(right, left);
      MirrorLeftOver(pairs, CountSum(|left|, LoneCounts(left, right)), CountSum(|right|, LoneCounts(right, left)));
    } else {
      CountSumZero(|right|, RightCounts(left, right, false));
      CountSumZero(|left|, RightCounts(right, left, false));
      PlusZero(pairs);
      PlusZero(back');
    }
  }
}
