/** A second schema the verifier accepts whose script does not run: its table
    has a name of 60 characters and two foreign keys, and cut to 63 bytes their
    constraint names are one. */
module LongNameExample {
  import opened Options
  import opened Strings
  import opened Domain
  import opened Diagnostics
  import opened Generator
  import opened Graphs
  import Cycles
  import opened StructureChecks
  import opened Verifier
  import opened Catalogue
  import opened ScriptRuns
  import opened CompositeKeyExample

  const LONG_NAME := seq(60, i requires 0 <= i < 60 => 'q')
  const KEY := Attribute("a", "a", "", WHOLE, false, true, true, None, None)
  const LEFT := Attribute("b", "bb", "", WHOLE, false, false, false, Some(ForeignKeyRef("p", "a")), None)
  const RIGHT := Attribute("c", "ccc", "", WHOLE, false, false, false, Some(ForeignKeyRef("p", "a")), None)
  const AIM := Entity("p", "p", "", [KEY], Position(0, 0))
  const LONG := Entity("q", LONG_NAME, "", [KEY, LEFT, RIGHT], Position(320, 0))
  const LONG_EXAMPLE := Schema("example", "", [AIM, LONG], [])

  lemma {:induction false} BytesOfAscii(s: string)
    requires forall i :: 0 <= i < |s| ==> s[i] < '\U{80}'
    ensures Bytes(s) == |s|
  {
    if s != "" {
      BytesOfAscii(s[..|s| - 1]);
    }
  }

  lemma LongName()
    ensures Trim(LONG_NAME) == LONG_NAME && !Blank(LONG_NAME) && |Folded(LONG_NAME)| == 60 && Kept(LONG_NAME) == LONG_NAME
    ensures Bytes("fk_" + Trim(LONG_NAME)) == MAX_IDENTIFIER_BYTES
  {
    hide Trim, Bytes;
    assert !IsSpace(LONG_NAME[0]) && !IsSpace(LONG_NAME[59]);
    TrimFacts(LONG_NAME);
    BytesOfAscii(LONG_NAME);
    BytesOfAscii("fk_" + LONG_NAME);
  }

  lemma ShortNames()
    ensures forall name :: name in ["a", "bb", "ccc", "p"] ==>
      Trim(name) == name && !Blank(name) && |Folded(name)| == |name| && Kept(name) == name
  {
    hide Trim, Blank, Bytes, Folded;
    forall name | name in ["a", "bb", "ccc", "p"]
      ensures Trim(name) == name && !Blank(name) && |Folded(name)| == |name| && Kept(name) == name
    {
      PlainName(name);
    }
  }

  lemma ThreeNamesApart(names: seq<string>)
    requires |names| == 3 && |Folded(names[0])| < |Folded(names[1])| < |Folded(names[2])|
    ensures NamesApart(names)
  {
    hide Folded;
  }

  lemma LongTablesFormed()
    ensures TableFormed(AIM) && TableFormed(LONG) && NamesApart(TableNames(LONG_EXAMPLE.entities))
    ensures NamesStayApart(LONG_EXAMPLE)
  {
    hide Trim, Kept, Blank, Bytes, Folded, NamesApart;
    ShortNames();
    LongName();
    TwoNamesApart(TableNames(LONG_EXAMPLE.entities));
    ThreeNamesApart(ColumnNames(LONG.attributes));
    assert NamesApart(ColumnNames(AIM.attributes)) by {
      OneNameApart(ColumnNames(AIM.attributes));
    }
    assert AIM.attributes[0].primaryKey && LONG.attributes[0].primaryKey;
    assert GoodParameters(WHOLE);
  }

  lemma OneNameApart(names: seq<string>)
    requires |names| == 1
    ensures NamesApart(names)
  {
  }

  lemma BothResolve()
    ensures LONG_EXAMPLE.Resolve("p", "a") == Some((0, 0))
  {
    FirstIs(LONG_EXAMPLE.entities, (e: Entity) => e.id == "p", 0);
    FirstIs(AIM.attributes, (a: Attribute) => a.id == "a", 0);
  }

  lemma NoLongCycle()
    ensures NoRequiredCycle(LONG_EXAMPLE.entities)
  {
    var g := NeedsGraph(LONG_EXAMPLE.entities);
    forall u, v | (u, v) in g
      ensures u == 1
    {
      assert Cycles.Needs(LONG_EXAMPLE.entities, u, v);
    }
    forall u, v | u != v
      ensures !Mutual(g, u, v)
    {
      if Mutual(g, u, v) {
        var w := ReachFirstEdge(g, u, v);
        var x := ReachFirstEdge(g, v, u);
      }
    }
  }

  /** No error is found in it, its names are kept whole, no composite key is
      there, and its script fails on every server. */
  lemma AcceptedYetClashes(server: Server)
    ensures UniqueEntityIds(LONG_EXAMPLE.entities) && WellFormed(LONG_EXAMPLE)
    ensures NamesStayApart(LONG_EXAMPLE) && OutOfCompositeKeys(LONG_EXAMPLE)
    ensures forall e :: e in LONG_EXAMPLE.entities ==> Bytes(Trim(e.name)) < MAX_IDENTIFIER_BYTES
    ensures forall d :: IsVerdict(LONG_EXAMPLE, d) ==> IsValid(d)
    ensures RunAll(server, map[], Commands(LONG_EXAMPLE)).None?
  {
    hide TableFormed, NamesApart, NoRequiredCycle, RunAll, Commands, NamesStayApart, Schema.Resolve, Trim, Bytes, IsVerdict, IsValid, ConstraintApart;
    LongTablesFormed();
    BothResolve();
    NoLongCycle();
    LongTablesFit();
    forall i, k | 0 <= i < 2 && 0 <= k < |LONG_EXAMPLE.entities[i].attributes|
      ensures KeySound(LONG_EXAMPLE, LONG_EXAMPLE.entities[i].attributes[k])
    {
    }
    WellFormedRuns(server, LONG_EXAMPLE);
    LongName();
    LongTableNameClashes(LONG, 1, 2);
    assert !ConstraintApart(LONG_EXAMPLE.entities[1], 2);
    forall d | IsVerdict(LONG_EXAMPLE, d)
      ensures IsValid(d)
    {
      NoErrorIffWellFormed(LONG_EXAMPLE, d);
    }
  }

  lemma LongTablesFit()
    ensures Bytes(Trim(AIM.name)) < MAX_IDENTIFIER_BYTES && Bytes(Trim(LONG.name)) < MAX_IDENTIFIER_BYTES
  {
    hide Trim;
    ShortNames();
    LongName();
    BytesOfAscii("p");
    BytesOfAscii(LONG_NAME);
  }
}
