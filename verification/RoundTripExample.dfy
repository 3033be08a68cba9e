/** A schema with a key between two tables that a script carries and gives back
    as it was. */
module RoundTripExample {
  import opened Options
  import opened Strings
  import opened Domain
  import opened Differ
  import opened ParseTable
  import opened DraftBack
  import opened CommentsBack
  import opened RoundTrip

  const TEXT := DataType(Varchar, Some(40), None, None)
  const KEY := Attribute("1", "id", "What tells users apart.", TEXT, false, true, true, None, None)
  const AUTHOR := Attribute("2", "author", "", TEXT, true, false, false, Some(ForeignKeyRef("u", "1")), None)
  const USERS := Entity("u", "users", "", [KEY], Position(-40, 0))
  const POSTS := Entity("p", "my \"posts\"; --", "It's theirs.", [AUTHOR], Position(320, 7))
  const LINE := Relationship("r", "", "", "u", "1", "p", "2", OneToMany)
  const EXAMPLE := Schema("example", "", [USERS, POSTS], [LINE])

  lemma Resolves()
    ensures EXAMPLE.Resolve("u", "1") == Some((0, 0)) && EXAMPLE.Resolve("p", "2") == Some((1, 0))
  {
    FirstIs(EXAMPLE.entities, (e: Entity) => e.id == "u", 0);
    FirstIs(EXAMPLE.entities, (e: Entity) => e.id == "p", 1);
    FirstIs(USERS.attributes, (a: Attribute) => a.id == "1", 0);
    FirstIs(POSTS.attributes, (a: Attribute) => a.id == "2", 0);
  }

  const HOLDS := "my \"posts\"; --" + "." + "author"
  const POINTS := "users" + "." + "id"

  lemma OneReference()
    ensures References(EXAMPLE) == [(HOLDS, POINTS)]
  {
    hide PointAt;
    OnePoint();
    assert TableReferences(EXAMPLE, USERS, 1) == [] by {
      assert TableReferences(EXAMPLE, USERS, 0) == [];
    }
    assert TableReferences(EXAMPLE, POSTS, 1) == [(HOLDS, POINTS)] by {
      assert TableReferences(EXAMPLE, POSTS, 0) == [];
    }
    assert ReferencesUpTo(EXAMPLE, 0) == [] && ReferencesUpTo(EXAMPLE, 1) == [];
  }

  lemma OnePoint()
    ensures PointAt(EXAMPLE, "u", "1") == POINTS && PointAt(EXAMPLE, "p", "2") == HOLDS
  {
    Resolves();
  }

  lemma OneDrawnLine()
    ensures LinesMatch(EXAMPLE)
  {
    hide PointAt, References;
    OnePoint();
    OneReference();
    assert Links(EXAMPLE) == [POINTS + " -> " + HOLDS] == KeySpellings(References(EXAMPLE));
  }

  lemma Named()
    ensures WellNamed(EXAMPLE.entities)
  {
    assert !Same("users", "my \"posts\"; --") by {
      assert |Lower("users")| != |Lower("my \"posts\"; --")|;
    }
  }

  lemma TablesCarried(includePositions: bool)
    ensures CarriedTable(USERS, includePositions) && CarriedTable(POSTS, includePositions)
  {
    hide Lower;
    assert ColumnReadable(KEY) && ColumnReadable(AUTHOR);
  }

  lemma ColumnsKept()
    ensures KeptTable(USERS) && KeptTable(POSTS)
  {
    hide Trim;
    TrimFacts("id");
    assert Trim("id") == "id";
    TrimFacts("");
    assert ColumnCommentable(KEY) && ColumnCommentable(AUTHOR);
    assert KeptColumnWhole(KEY) && KeptColumnWhole(AUTHOR);
  }

  lemma ExampleIsKept(includePositions: bool)
    ensures Carried(EXAMPLE, includePositions) && Kept(EXAMPLE)
  {
    hide WellNamed, CarriedTable, KeptTable, LinesMatch, References, Schema.Resolve;
    Named();
    TablesCarried(includePositions);
    ColumnsKept();
    OneDrawnLine();
    OneReference();
    Resolves();
  }
}
