/** A schema the verifier accepts whose script does not run: a column of a
    composite key, flagged unique, is referenced. */
module CompositeKeyExample {
  import opened Options
  import opened Strings
  import opened Domain
  import opened Diagnostics
  import opened Generator
  import opened Graphs
  import Cycles
  import opened StructureChecks
  import opened Verifier
  import opened Catalogue
  import opened ScriptRuns

  const WHOLE := DataType(Integer, None, None, None)
  const FIRST := Attribute("a", "a", "", WHOLE, false, true, true, None, None)
  const SECOND := Attribute("b", "bb", "", WHOLE, false, true, false, None, None)
  const ID := Attribute("c", "c", "", WHOLE, false, true, false, None, None)
  const ARROW := Attribute("d", "dd", "", WHOLE, false, false, false, Some(ForeignKeyRef("p", "a")), None)
  const TARGET := Entity("p", "p", "", [FIRST, SECOND], Position(0, 0))
  const HOLDER := Entity("q", "qq", "", [ID, ARROW], Position(320, 0))
  const EXAMPLE := Schema("example", "", [TARGET, HOLDER], [])

  lemma {:induction false} BytesAtMost(s: string)
    ensures Bytes(s) <= 4 * |s|
  {
    if s != "" {
      BytesAtMost(s[..|s| - 1]);
    }
  }

  /** A short name without white space is kept as it is, and is not blank. */
  lemma PlainName(name: string)
    requires 0 < |name| <= 4 && forall i :: 0 <= i < |name| ==> 'a' <= name[i] <= 'z'
    ensures Trim(name) == name && !Blank(name) && Bytes(name) <= MAX_IDENTIFIER_BYTES && |Folded(name)| == |name|
  {
    hide Trim;
    assert !IsSpace(name[0]) && !IsSpace(name[|name| - 1]);
    TrimFacts(name);
    BytesAtMost(name);
  }

  lemma NamesPlain()
    ensures forall name :: name in ["a", "bb", "c", "dd", "p", "qq"] ==>
      Trim(name) == name && !Blank(name) && Bytes(name) <= MAX_IDENTIFIER_BYTES && |Folded(name)| == |name|
  {
    hide Trim, Blank, Bytes, Folded;
    forall name | name in ["a", "bb", "c", "dd", "p", "qq"]
      ensures Trim(name) == name && !Blank(name) && Bytes(name) <= MAX_IDENTIFIER_BYTES && |Folded(name)| == |name|
    {
      PlainName(name);
    }
  }

  lemma TwoNamesApart(names: seq<string>)
    requires |names| == 2 && |Folded(names[0])| != |Folded(names[1])|
    ensures NamesApart(names)
  {
    hide Folded;
  }

  lemma TablesFormed()
    ensures TableFormed(TARGET) && TableFormed(HOLDER) && NamesApart(TableNames(EXAMPLE.entities))
  {
    hide Trim, Blank, Bytes, Folded, NamesApart;
    NamesPlain();
    TwoNamesApart(TableNames(EXAMPLE.entities));
    TwoNamesApart(ColumnNames(TARGET.attributes));
    TwoNamesApart(ColumnNames(HOLDER.attributes));
    assert TARGET.attributes[0].primaryKey && HOLDER.attributes[0].primaryKey;
    assert GoodParameters(WHOLE);
  }

  lemma NamesAllFit()
    ensures NamesFit(EXAMPLE)
  {
    hide Trim, Blank, Bytes, Folded;
    NamesPlain();
    BytesAtMost("fk_" + Trim("qq") + "_" + Trim("dd"));
  }

  lemma ArrowResolves()
    ensures EXAMPLE.Resolve("p", "a") == Some((0, 0))
  {
    FirstIs(EXAMPLE.entities, (e: Entity) => e.id == "p", 0);
    FirstIs(TARGET.attributes, (a: Attribute) => a.id == "a", 0);
  }

  lemma NoCycle()
    ensures NoRequiredCycle(EXAMPLE.entities)
  {
    var g := NeedsGraph(EXAMPLE.entities);
    forall u, v | (u, v) in g
      ensures u == 1
    {
      assert Cycles.Needs(EXAMPLE.entities, u, v);
    }
    forall u, v | u != v
      ensures !Mutual(g, u, v)
    {
      if Mutual(g, u, v) {
        var w := ReachFirstEdge(g, u, v);
        var x := ReachFirstEdge(g, v, u);
      }
    }
  }

  /** No error is found in it, its names fit whole, and its script fails on
      every server. */
  lemma AcceptedYetFails(server: Server)
    ensures UniqueEntityIds(EXAMPLE.entities) && WellFormed(EXAMPLE) && NamesFit(EXAMPLE)
    ensures forall d :: IsVerdict(EXAMPLE, d) ==> IsValid(d)
    ensures RunAll(server, map[], Commands(EXAMPLE)).None?
  {
    hide TableFormed, NamesApart, NoRequiredCycle, RunAll, Commands, NamesFit, Schema.Resolve, Trim, IsVerdict, IsValid;
    TablesFormed();
    NamesAllFit();
    ArrowResolves();
    NoCycle();
    forall i, k | 0 <= i < 2 && 0 <= k < |EXAMPLE.entities[i].attributes|
      ensures KeySound(EXAMPLE, EXAMPLE.entities[i].attributes[k])
    {
    }
    WellFormedRuns(server, EXAMPLE);
    assert TARGET.attributes[1].primaryKey;
    assert !KeyDeclared(server, EXAMPLE, EXAMPLE.entities[1].attributes[1]);
    forall d | IsVerdict(EXAMPLE, d)
      ensures IsValid(d)
    {
      NoErrorIffWellFormed(EXAMPLE, d);
    }
  }
}
