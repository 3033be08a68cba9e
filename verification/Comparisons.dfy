/** What a comparison of two schemas adds up to. */
module Comparisons {
  datatype Category = Tables | Columns | Keys | ForeignKeys | Relationships | Descriptions | Positions

  datatype DifferenceKind = Missing | Extra | Changed

  datatype Difference = Difference(kind: DifferenceKind, path: string, expected: string, actual: string)

  datatype Counts = Counts(matched: nat, missing: nat, extra: nat, changed: nat)
  {
    function Plus(other: Counts): Counts {
      Counts(matched + other.matched, missing + other.missing, extra + other.extra, changed + other.changed)
    }

    /** The same counts seen from the other side. */
    function Mirror(): Counts {
      Counts(matched, extra, missing, changed)
    }

    predicate IsClean() {
      missing == 0 && extra == 0 && changed == 0
    }

    /** The share of the actual side that matched. */
    function Precision(): real {
      Ratio(matched, matched + extra + changed)
    }

    /** The share of the expected side that matched. */
    function Recall(): real {
      Ratio(matched, matched + missing + changed)
    }
  }

  const NO_COUNTS := Counts(0, 0, 0, 0)

  function Ratio(matched: nat, total: nat): real {
    if total == 0 then 1.0 else matched as real / total as real
  }

  function CountsOfKind(kind: DifferenceKind): Counts {
    match kind
    case Missing => Counts(0, 1, 0, 0)
    case Extra => Counts(0, 0, 1, 0)
    case Changed => Counts(0, 0, 0, 1)
  }

  /** The differences in the order they were met, and a count per category. */
  datatype Comparison = Comparison(differences: seq<Difference>, counts: map<Category, Counts>)
  {
    function Of(category: Category): Counts {
      if category in counts then counts[category] else NO_COUNTS
    }

    predicate IsEqual() {
      forall category: Category :: Of(category).IsClean()
    }
  }

  /** One thing a comparison settled: what it counts for, and the differences
      it names. */
  datatype Event = Event(category: Category, counts: Counts, differences: seq<Difference>)

  /** Everything a comparison settled, in order. */
  type Trace = seq<Event>

  function Matched(category: Category): Trace {
    [Event(category, Counts(1, 0, 0, 0), [])]
  }

  function Recorded(category: Category, difference: Difference): Trace {
    [Event(category, CountsOfKind(difference.kind), [difference])]
  }

  /** Clean, or changed once: the differences found share a single count. */
  function Settled(category: Category, found: seq<Difference>): Trace {
    if found == [] then Matched(category) else [Event(category, Counts(0, 0, 0, 1), found)]
  }

  /** What the events of a trace count for in one category. */
  function CountsOf(trace: Trace, category: Category): Counts {
    if trace == [] then NO_COUNTS
    else
      var before, last := CountsOf(trace[..|trace| - 1], category), trace[|trace| - 1];
      if last.category == category then before.Plus(last.counts) else before
  }

  function DifferencesOf(trace: Trace): seq<Difference> {
    if trace == [] then [] else DifferencesOf(trace[..|trace| - 1]) + trace[|trace| - 1].differences
  }

  /** `c` is what the events of `trace` add up to. */
  ghost predicate IsTotal(c: Comparison, trace: Trace) {
    && c.differences == DifferencesOf(trace)
    && forall category: Category :: category in c.counts && c.counts[category] == CountsOf(trace, category)
  }

  /** The comparison being built up, whose counters move one at a time. */
  class Log {
    var differences: seq<Difference>
    var counts: map<Category, Counts>
    ghost var trace: Trace

    /** The counters are the total of what was settled so far. */
    ghost predicate Valid()
      reads this
    {
      IsTotal(Comparison(differences, counts), trace)
    }

    constructor ()
      ensures Valid() && trace == []
    {
      differences := [];
      counts := map[Tables := NO_COUNTS, Columns := NO_COUNTS, Keys := NO_COUNTS, ForeignKeys := NO_COUNTS,
                    Relationships := NO_COUNTS, Descriptions := NO_COUNTS, Positions := NO_COUNTS];
      trace := [];
      new;
      forall category: Category
        ensures category in counts && counts[category] == CountsOf(trace, category)
      {
        match category {
          case Tables =>
          case Columns =>
          case Keys =>
          case ForeignKeys =>
          case Relationships =>
          case Descriptions =>
          case Positions =>
        }
      }
    }

    method Add(category: Category, more: Counts, found: seq<Difference>)
      requires Valid()
      modifies this
      ensures Valid() && trace == old(trace) + [Event(category, more, found)]
    {
      counts := counts[category := counts[category].Plus(more)];
      differences := differences + found;
      trace := trace + [Event(category, more, found)];
      assert trace[..|trace| - 1] == old(trace);
    }

    method Match(category: Category)
      requires Valid()
      modifies this
      ensures Valid() && trace == old(trace) + Matched(category)
    {
      Add(category, Counts(1, 0, 0, 0), []);
    }

    method Record(category: Category, difference: Difference)
      requires Valid()
      modifies this
      ensures Valid() && trace == old(trace) + Recorded(category, difference)
    {
      Add(category, CountsOfKind(difference.kind), [difference]);
    }

    method Settle(category: Category, found: seq<Difference>)
      requires Valid()
      modifies this
      ensures Valid() && trace == old(trace) + Settled(category, found)
    {
      if found == [] {
        Match(category);
      } else {
        Add(category, Counts(0, 0, 0, 1), found);
      }
    }
  }

  lemma Associative(a: Trace, b: Trace, c: Trace)
    ensures a + b + c == a + (b + c)
  {
  }

  /** The steps of a loop, one after the other. */
  ghost function Sum(n: nat, f: nat -> Trace): Trace {
    if n == 0 then [] else Sum(n - 1, f) + f(n - 1)
  }
}
