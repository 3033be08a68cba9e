/** Running the generated script of an error-free schema, command by command,
    on an empty catalogue. */
module ScriptRuns {
  import opened Options
  import opened Strings
  import opened Domain
  import opened Diagnostics
  import opened Generator
  import opened StructureChecks
  import opened Verifier
  import opened Catalogue

  // ----- the names the server keeps -----

  /** A name as the server stores it. */
  function Stored(name: string): string {
    Kept(Trim(name))
  }

  function StoredNames(attributes: seq<Attribute>): (r: seq<string>)
    ensures |r| == |attributes| && forall k :: 0 <= k < |r| ==> r[k] == Stored(attributes[k].name)
  {
    seq(|attributes|, k requires 0 <= k < |attributes| => Stored(attributes[k].name))
  }

  function StoredColumns(attributes: seq<Attribute>): (r: seq<Column>)
    ensures |r| == |attributes| && forall k :: 0 <= k < |r| ==> r[k] == ColumnOf(attributes[k]).(name := Stored(attributes[k].name))
  {
    seq(|attributes|, k requires 0 <= k < |attributes| => ColumnOf(attributes[k]).(name := Stored(attributes[k].name)))
  }

  function StoredConstraint(e: Entity, a: Attribute): string {
    Stored(ConstraintName(e.name, a.name))
  }

  predicate ColumnsStayApart(e: Entity) {
    forall j, k :: 0 <= j < k < |e.attributes| ==> Stored(e.attributes[j].name) != Stored(e.attributes[k].name)
  }

  predicate TablesStayApart(s: Schema) {
    forall i, j :: 0 <= i < j < |s.entities| ==> Stored(s.entities[i].name) != Stored(s.entities[j].name)
  }

  /** Cut back, the names of the tables, and of the columns of each, still differ. */
  predicate NamesStayApart(s: Schema) {
    TablesStayApart(s) && forall i :: 0 <= i < |s.entities| ==> ColumnsStayApart(s.entities[i])
  }

  predicate Clash(e: Entity, j: nat, k: nat) {
    && j < k < |e.attributes| && e.attributes[j].foreignKey.Some? && e.attributes[k].foreignKey.Some?
    && StoredConstraint(e, e.attributes[j]) == StoredConstraint(e, e.attributes[k])
  }

  /** No earlier foreign key of the table has the constraint name of column `k`. */
  predicate ConstraintApart(e: Entity, k: nat) {
    forall j: nat :: j < k ==> !Clash(e, j, k)
  }

  /** Cut back, the constraint names of each table still differ. */
  ghost predicate ConstraintsStayApart(s: Schema) {
    forall n: nat, k: nat :: n < |s.entities| && k < |s.entities[n].attributes| ==> ConstraintApart(s.entities[n], k)
  }

  // ----- what the server must be able to do -----

  /** Column `k` is not one of several in its table's key. */
  predicate NotInCompositeKey(e: Entity, k: nat) {
    k < |e.attributes| && (e.attributes[k].primaryKey ==> forall j :: 0 <= j < |e.attributes| && j != k ==> !e.attributes[j].primaryKey)
  }

  /** The reference stays out of composite keys, and its types compare. */
  predicate KeyDeclared(server: Server, s: Schema, a: Attribute) {
    a.foreignKey.Some? ==>
      var at := s.Resolve(a.foreignKey.value.entityId, a.foreignKey.value.attributeId);
      at.Some? ==>
        && NotInCompositeKey(s.entities[at.value.0], at.value.1)
        && server.comparable(a.dataType.kind, s.entities[at.value.0].attributes[at.value.1].dataType.kind)
  }

  ghost predicate KeysDeclared(server: Server, s: Schema) {
    forall n: nat, k: nat :: n < |s.entities| && k < |s.entities[n].attributes| ==>
      KeyDeclared(server, s, s.entities[n].attributes[k])
  }

  /** Key columns and unique ones are of kinds the server can index. */
  predicate TableIndexed(server: Server, e: Entity) {
    forall k :: 0 <= k < |e.attributes| && (e.attributes[k].primaryKey || e.attributes[k].unique) ==>
      server.indexable(e.attributes[k].dataType.kind)
  }

  predicate TablesIndexed(server: Server, s: Schema) {
    forall i :: 0 <= i < |s.entities| ==> TableIndexed(server, s.entities[i])
  }

  // ----- names -----

  lemma StoredIs(name: string)
    requires !Blank(name)
    ensures IsIdentifier(Stored(name))
  {
    hide Trim, Bytes;
    TrimFacts(name);
    CutNotEmpty(Trim(name));
  }

  lemma CutNotEmpty(s: string)
    requires s != ""
    ensures Kept(s) != "" && Kept(s)[0] == s[0]
  {
    assert Kept(s) <= s && Bytes("") == 0;
  }

  lemma ConstraintIs(e: Entity, a: Attribute)
    ensures IsIdentifier(StoredConstraint(e, a))
  {
    hide Trim, Bytes;
    var whole := "fk_" + Trim(e.name) + "_" + Trim(a.name);
    assert whole[0] == 'f';
    CutNotEmpty(whole);
    assert !IsSpace(ConstraintName(e.name, a.name)[0]);
    StoredIs(ConstraintName(e.name, a.name));
  }

  lemma {:induction false} BytesOfFront(s: string, n: nat)
    requires n <= |s|
    ensures Bytes(s[..n]) + (|s| - n) <= Bytes(s)
  {
    if n < |s| {
      BytesOfFront(s[..|s| - 1], n);
      assert s[..|s| - 1][..n] == s[..n];
    } else {
      assert s[..n] == s;
    }
  }

  lemma {:induction false} BytesOfBack(s: string, n: nat)
    requires n <= |s|
    ensures Bytes(s[n..]) <= Bytes(s)
    decreases |s|
  {
    if n < |s| {
      BytesOfBack(s[..|s| - 1], n);
      assert s[..|s| - 1][n..] == s[n..][..|s[n..]| - 1];
    }
  }

  lemma BytesTrimmed(s: string)
    ensures Bytes(Trim(s)) <= Bytes(s)
  {
    hide Bytes, TrimStart, TrimEnd;
    var t := TrimStart(s);
    TrimStartFacts(s);
    TrimEndFacts(t);
    BytesOfBack(s, |s| - |t|);
    BytesOfFront(t, |TrimEnd(t)|);
    assert t[..|TrimEnd(t)|] == TrimEnd(t);
  }

  /** The generator's own cut is enough: the server keeps the constraint name
      the script is written with. */
  lemma ConstraintKept(table: string, column: string)
    ensures Stored(ConstraintName(table, column)) == Trim(ConstraintName(table, column))
  {
    hide Trim, Bytes, ConstraintName;
    BytesTrimmed(ConstraintName(table, column));
  }

  // ----- when names stay apart -----

  predicate ColumnFits(e: Entity, a: Attribute) {
    && Bytes(Trim(a.name)) <= MAX_IDENTIFIER_BYTES
    && (a.foreignKey.Some? ==> Bytes("fk_" + Trim(e.name) + "_" + Trim(a.name)) <= MAX_IDENTIFIER_BYTES)
  }

  predicate TableFits(e: Entity) {
    Bytes(Trim(e.name)) <= MAX_IDENTIFIER_BYTES && forall k :: 0 <= k < |e.attributes| ==> ColumnFits(e, e.attributes[k])
  }

  /** Names and constraint names are short enough to be kept whole. */
  predicate NamesFit(s: Schema) {
    forall i :: 0 <= i < |s.entities| ==> TableFits(s.entities[i])
  }

  lemma ApartTrimmed(names: seq<string>, i: nat, j: nat)
    requires NamesApart(names) && i < |names| && j < |names| && Trim(names[i]) == Trim(names[j])
    ensures i == j
  {
    hide Trim;
    assert Folded(names[i]) == Folded(names[j]);
  }

  lemma WholeConstraint(e: Entity, a: Attribute)
    requires !Blank(a.name) && ColumnFits(e, a) && a.foreignKey.Some?
    ensures StoredConstraint(e, a) == "fk_" + Trim(e.name) + "_" + Trim(a.name)
  {
    hide Trim, Bytes;
    var name := "fk_" + Trim(e.name) + "_" + Trim(a.name);
    TrimFacts(a.name);
    assert name[0] == 'f';
    assert name[|name| - 1] == Trim(a.name)[|Trim(a.name)| - 1];
    TrimFacts(name);
  }

  /** Names that fit whole stay apart, and so do their constraint names. */
  lemma TableStaysApart(e: Entity)
    requires TableFormed(e) && TableFits(e)
    ensures ColumnsStayApart(e)
    ensures forall k: nat :: k < |e.attributes| ==> ConstraintApart(e, k)
  {
    hide Trim, Bytes, Blank, NamesApart, StoredConstraint, GoodParameters, Entity.HasPrimaryKey;
    forall j, k | 0 <= j < k < |e.attributes|
      ensures Stored(e.attributes[j].name) != Stored(e.attributes[k].name)
      ensures !Clash(e, j, k)
    {
      var a, b := e.attributes[j], e.attributes[k];
      assert ColumnFormed(a) && ColumnFormed(b) && ColumnFits(e, a) && ColumnFits(e, b);
      if Trim(a.name) == Trim(b.name) {
        ApartTrimmed(ColumnNames(e.attributes), j, k);
      }
      if Clash(e, j, k) {
        WholeConstraint(e, a);
        WholeConstraint(e, b);
        SamePrefix("fk_" + Trim(e.name) + "_", Trim(a.name), Trim(b.name));
      }
    }
  }

  lemma NamesThatFit(s: Schema)
    requires WellFormed(s) && NamesFit(s)
    ensures NamesStayApart(s) && ConstraintsStayApart(s)
  {
    hide Trim, Bytes, TableFormed, NamesApart, LineFormed, KeySound, NoRequiredCycle, ColumnsStayApart, ConstraintApart, ColumnFits;
    forall i: nat | i < |s.entities|
      ensures ColumnsStayApart(s.entities[i])
      ensures forall k: nat :: k < |s.entities[i].attributes| ==> ConstraintApart(s.entities[i], k)
    {
      TableStaysApart(s.entities[i]);
    }
    forall i, j | 0 <= i < j < |s.entities|
      ensures Stored(s.entities[i].name) != Stored(s.entities[j].name)
    {
      assert TableFits(s.entities[i]) && TableFits(s.entities[j]);
      if Trim(s.entities[i].name) == Trim(s.entities[j].name) {
        ApartTrimmed(TableNames(s.entities), i, j);
      }
    }
  }

  lemma {:induction false} CutToFront(front: string, rest: string, limit: nat)
    requires Bytes(front) >= limit
    ensures CutTo(front + rest, limit) == CutTo(front, limit) && Bytes(front + rest) >= Bytes(front)
  {
    if rest == "" {
      assert front + rest == front;
    } else {
      var whole, less := front + rest, rest[..|rest| - 1];
      CutToFront(front, less, limit);
      assert whole[..|whole| - 1] == front + less;
    }
  }

  /** A table whose name fills the limit has one constraint name for all its keys. */
  lemma LongTableNameClashes(e: Entity, j: nat, k: nat)
    requires Bytes("fk_" + Trim(e.name)) >= MAX_IDENTIFIER_BYTES
    requires j < k < |e.attributes| && e.attributes[j].foreignKey.Some? && e.attributes[k].foreignKey.Some?
    ensures Clash(e, j, k) && !ConstraintApart(e, k)
  {
    hide Trim, Bytes, CutTo;
    var front := "fk_" + Trim(e.name);
    var a, b := e.attributes[j], e.attributes[k];
    CutToFront(front, "_" + Trim(a.name), MAX_IDENTIFIER_BYTES);
    CutToFront(front, "_" + Trim(b.name), MAX_IDENTIFIER_BYTES);
    assert front + ("_" + Trim(a.name)) == front + "_" + Trim(a.name);
    assert front + ("_" + Trim(b.name)) == front + "_" + Trim(b.name);
    assert Clash(e, j, k);
  }

  // ----- the catalogue so far -----

  function RelationOf(e: Entity): Relation {
    Relation(StoredColumns(e.attributes), StoredNames(e.PrimaryKey()), {})
  }

  predicate IsTable(tables: Tables, e: Entity) {
    var name := Stored(e.name);
    name in tables && tables[name].(constraints := {}) == RelationOf(e)
  }

  ghost predicate Made(s: Schema, tables: Tables, n: nat)
    requires n <= |s.entities|
  {
    && (forall i :: 0 <= i < n ==> IsTable(tables, s.entities[i]) && tables[Stored(s.entities[i].name)].constraints == {})
    && forall name :: name in tables ==> exists i :: 0 <= i < n && name == Stored(s.entities[i].name)
  }

  lemma {:induction false} KeyNamesHeld(attributes: seq<Attribute>, j: nat)
    requires j < |KeyColumns(attributes)|
    ensures exists k :: 0 <= k < |attributes| && attributes[k].primaryKey && attributes[k] == KeyColumns(attributes)[j]
  {
    if attributes[0].primaryKey && j == 0 {
      assert attributes[0] == KeyColumns(attributes)[0];
    } else {
      var i := if attributes[0].primaryKey then j - 1 else j;
      KeyNamesHeld(attributes[1..], i);
      var k :| 0 <= k < |attributes[1..]| && attributes[1..][k].primaryKey && attributes[1..][k] == KeyColumns(attributes[1..])[i];
      assert attributes[k + 1] == KeyColumns(attributes)[j];
    }
  }

  lemma HasColumn(e: Entity, k: nat)
    requires k < |e.attributes|
    ensures RelationOf(e).Has(Stored(e.attributes[k].name))
  {
    hide Stored;
    assert RelationOf(e).columns[k].name == Stored(e.attributes[k].name);
  }

  lemma {:induction false} KeyHolds(attributes: seq<Attribute>, k: nat)
    requires k < |attributes| && attributes[k].primaryKey
    ensures exists j :: 0 <= j < |KeyColumns(attributes)| && KeyColumns(attributes)[j] == attributes[k]
  {
    if k == 0 {
      assert KeyColumns(attributes)[0] == attributes[0];
    } else {
      KeyHolds(attributes[1..], k - 1);
      var j :| 0 <= j < |KeyColumns(attributes[1..])| && KeyColumns(attributes[1..])[j] == attributes[1..][k - 1];
      var i := if attributes[0].primaryKey then j + 1 else j;
      assert KeyColumns(attributes)[i] == attributes[k];
    }
  }

  lemma StoredApart(e: Entity, i: nat, j: nat)
    requires ColumnsStayApart(e) && i < |e.attributes| && j < |e.attributes|
    requires Stored(e.attributes[i].name) == Stored(e.attributes[j].name)
    ensures i == j
  {
    hide Stored;
  }

  /** A column's name is among the key's exactly when the column is. */
  lemma NamedInKeyIff(e: Entity, k: nat)
    requires ColumnsStayApart(e) && k < |e.attributes|
    ensures Stored(e.attributes[k].name) in StoredNames(e.PrimaryKey()) <==> e.attributes[k].primaryKey
  {
    hide Stored, ColumnsStayApart, KeyColumns;
    var name, key := Stored(e.attributes[k].name), KeyColumns(e.attributes);
    if e.attributes[k].primaryKey {
      KeyHolds(e.attributes, k);
      var j :| 0 <= j < |key| && key[j] == e.attributes[k];
      assert StoredNames(key)[j] == name;
    } else if name in StoredNames(key) {
      var j :| 0 <= j < |key| && StoredNames(key)[j] == name;
      KeyNamesHeld(e.attributes, j);
      var i :| 0 <= i < |e.attributes| && e.attributes[i].primaryKey && e.attributes[i] == key[j];
      StoredApart(e, i, k);
    }
  }

  lemma IndexedIff(server: Server, e: Entity)
    requires ColumnsStayApart(e)
    ensures Indexed(server, StoredColumns(e.attributes), StoredNames(e.PrimaryKey())) <==> TableIndexed(server, e)
  {
    hide Stored, ColumnsStayApart, KeyColumns;
    var columns, key := StoredColumns(e.attributes), StoredNames(e.PrimaryKey());
    forall k | 0 <= k < |columns|
      ensures columns[k].name in key <==> e.attributes[k].primaryKey
    {
      NamedInKeyIff(e, k);
    }
  }

  /** A well-formed table's own statement is accepted exactly when the server
      has no table of the name it keeps, the names of the columns stay apart,
      and it can index what is a key or UNIQUE. */
  lemma TableAccepted(server: Server, e: Entity, tables: Tables)
    requires TableFormed(e)
    ensures CreateAccepted(server, tables, Stored(e.name), StoredColumns(e.attributes), StoredNames(e.PrimaryKey()))
      <==> Stored(e.name) !in tables && ColumnsStayApart(e) && TableIndexed(server, e)
  {
    hide Stored, Blank, Bytes, GoodParameters, TypeAccepted, IsIdentifier, NamesApart, KeyColumns, Relation.Has, Entity.HasPrimaryKey;
    hide Indexed, TableIndexed, DistinctNames;
    StoredIs(e.name);
    var columns, key := StoredColumns(e.attributes), StoredNames(e.PrimaryKey());
    ColumnsDistinctIff(e);
    if ColumnsStayApart(e) {
      IndexedIff(server, e);
    }
    forall k | 0 <= k < |columns|
      ensures ColumnAccepted(columns[k])
    {
      assert ColumnFormed(e.attributes[k]);
      StoredIs(e.attributes[k].name);
      TypeAcceptedIff(e.attributes[k].dataType);
    }
    forall k | 0 <= k < |key|
      ensures Relation(columns, key, {}).Has(key[k])
    {
      KeyNamesHeld(e.attributes, k);
      var j :| 0 <= j < |e.attributes| && e.attributes[j].primaryKey && e.attributes[j] == KeyColumns(e.attributes)[k];
      HasColumn(e, j);
    }
  }

  lemma ColumnsDistinctIff(e: Entity)
    ensures DistinctNames(StoredColumns(e.attributes)) <==> ColumnsStayApart(e)
  {
    hide Stored;
    var columns := StoredColumns(e.attributes);
    if DistinctNames(columns) {
      forall j, k | 0 <= j < k < |e.attributes|
        ensures Stored(e.attributes[j].name) != Stored(e.attributes[k].name)
      {
        assert columns[j].name != columns[k].name;
      }
    }
  }

  lemma TableUnderstood(e: Entity)
    ensures Understood(TableCommand(e)) == CreateRelation(Stored(e.name), StoredColumns(e.attributes), StoredNames(e.PrimaryKey()))
  {
    hide Trim, Kept, KeyColumns;
    assert KeptColumns(ColumnsOf(e.attributes)) == StoredColumns(e.attributes);
    assert KeptNames(TrimmedNames(e.PrimaryKey())) == StoredNames(e.PrimaryKey());
  }

  /** The turn of table `i`: its name is new, its columns stay apart, its keys
      can be indexed. */
  predicate TableGoes(server: Server, s: Schema, i: nat)
    requires i < |s.entities|
  {
    && (forall j :: 0 <= j < i ==> Stored(s.entities[j].name) != Stored(s.entities[i].name))
    && ColumnsStayApart(s.entities[i]) && TableIndexed(server, s.entities[i])
  }

  predicate TablesGo(server: Server, s: Schema, n: nat)
    requires n <= |s.entities|
  {
    forall i :: 0 <= i < n ==> TableGoes(server, s, i)
  }

  lemma TablesGoNext(server: Server, s: Schema, n: nat)
    requires n < |s.entities|
    ensures TablesGo(server, s, n + 1) <==> TablesGo(server, s, n) && TableGoes(server, s, n)
  {
    hide TableGoes;
  }

  lemma {:induction false} TablesRun(server: Server, s: Schema, n: nat)
    requires n <= |s.entities| && forall i :: 0 <= i < |s.entities| ==> TableFormed(s.entities[i])
    ensures var r := RunAll(server, map[], TableCommandsUpTo(s, n));
            && (r.Some? <==> TablesGo(server, s, n))
            && (r.Some? ==> Made(s, r.value, n))
  {
    hide TableFormed, RunAll, Made, TableGoes, TablesGo, TableCommand;
    if n == 0 {
      NothingRun(server, s);
    } else {
      TablesRun(server, s, n - 1);
      TablesGoNext(server, s, n - 1);
      var before := RunAll(server, map[], TableCommandsUpTo(s, n - 1));
      RunAppend(server, map[], TableCommandsUpTo(s, n - 1), [TableCommand(s.entities[n - 1])]);
      if before.Some? {
        TableRuns(server, s, before.value, n - 1);
      }
    }
  }

  lemma TableRuns(server: Server, s: Schema, tables: Tables, n: nat)
    requires n < |s.entities| && TableFormed(s.entities[n]) && Made(s, tables, n)
    ensures var r := RunAll(server, tables, [TableCommand(s.entities[n])]);
            (r.Some? <==> TableGoes(server, s, n)) && (r.Some? ==> Made(s, r.value, n + 1))
  {
    hide Stored, TableFormed, RunAll, StoredColumns, StoredNames, TableCommand, Understood, CreateAccepted, Made, TableIndexed, ColumnsStayApart;
    var e := s.entities[n];
    RunOne(server, tables, TableCommand(e));
    TableUnderstood(e);
    NotMadeYet(s, tables, n);
    TableAccepted(server, e, tables);
    if Stored(e.name) !in tables {
      MadeNext(s, tables, n);
    }
  }

  lemma NothingRun(server: Server, s: Schema)
    ensures RunAll(server, map[], []) == Some(map[]) && Made(s, map[], 0) && TablesGo(server, s, 0)
  {
  }

  lemma NotMadeYet(s: Schema, tables: Tables, n: nat)
    requires n < |s.entities| && Made(s, tables, n)
    ensures Stored(s.entities[n].name) !in tables <==> forall j :: 0 <= j < n ==> Stored(s.entities[j].name) != Stored(s.entities[n].name)
  {
    hide Stored, RelationOf;
    forall j | 0 <= j < n
      ensures Stored(s.entities[j].name) in tables
    {
      assert IsTable(tables, s.entities[j]);
    }
  }

  lemma MadeNext(s: Schema, tables: Tables, n: nat)
    requires n < |s.entities| && Made(s, tables, n) && Stored(s.entities[n].name) !in tables
    ensures Made(s, tables[Stored(s.entities[n].name) := RelationOf(s.entities[n])], n + 1)
  {
    hide Stored, RelationOf;
    var e := s.entities[n];
    var after := tables[Stored(e.name) := RelationOf(e)];
    assert RelationOf(e).constraints == {} by {
      FreshRelation(e);
    }
    forall name | name in after
      ensures exists i :: 0 <= i < n + 1 && name == Stored(s.entities[i].name)
    {
      if name in tables {
        var i :| 0 <= i < n && name == Stored(s.entities[i].name);
      } else {
        assert name == Stored(s.entities[n].name);
      }
    }
  }

  lemma FreshRelation(e: Entity)
    ensures RelationOf(e).constraints == {}
  {
  }

  // ----- foreign keys -----

  /** The constraints of the first `k` columns. */
  function ConstraintsOf(e: Entity, k: nat): set<string>
    requires k <= |e.attributes|
  {
    if k == 0 then {}
    else
      var a := e.attributes[k - 1];
      ConstraintsOf(e, k - 1) + (if a.foreignKey.Some? then {StoredConstraint(e, a)} else {})
  }

  /** How many columns of table `p` have had their turn. */
  function Done(s: Schema, p: nat, n: nat, k: nat): nat
    requires p < |s.entities| && (n < |s.entities| ==> k <= |s.entities[n].attributes|)
  {
    if p < n then |s.entities[p].attributes| else if p == n then k else 0
  }

  ghost predicate Stage(s: Schema, tables: Tables, n: nat, k: nat)
    requires n < |s.entities| ==> k <= |s.entities[n].attributes|
  {
    forall p: nat :: p < |s.entities| ==> Turned(s, tables, p, n, k)
  }

  predicate Turned(s: Schema, tables: Tables, p: nat, n: nat, k: nat)
    requires p < |s.entities| && (n < |s.entities| ==> k <= |s.entities[n].attributes|)
  {
    TableAt(s, tables, p, Done(s, p, n, k))
  }

  predicate TableAt(s: Schema, tables: Tables, p: nat, done: nat)
    requires p < |s.entities| && done <= |s.entities[p].attributes|
  {
    && IsTable(tables, s.entities[p])
    && tables[Stored(s.entities[p].name)].constraints == ConstraintsOf(s.entities[p], done)
  }

  /** A column's constraint is new to its table exactly when no earlier one clashes. */
  lemma {:induction false} ConstraintIsNewIff(e: Entity, k: nat, j: nat)
    requires j <= k < |e.attributes| && e.attributes[k].foreignKey.Some?
    ensures StoredConstraint(e, e.attributes[k]) !in ConstraintsOf(e, j) <==> forall i: nat :: i < j ==> !Clash(e, i, k)
  {
    hide StoredConstraint;
    if j > 0 {
      ConstraintIsNewIff(e, k, j - 1);
      if StoredConstraint(e, e.attributes[k]) in ConstraintsOf(e, j) && StoredConstraint(e, e.attributes[k]) !in ConstraintsOf(e, j - 1) {
        assert Clash(e, j - 1, k);
      }
    }
  }

  lemma {:induction false} SoleKeyIs(attributes: seq<Attribute>, k: nat)
    requires k < |attributes| && attributes[k].primaryKey
    requires forall j :: 0 <= j < |attributes| && j != k ==> !attributes[j].primaryKey
    ensures KeyColumns(attributes) == [attributes[k]]
  {
    var tail := attributes[1..];
    assert forall j :: 0 <= j < |tail| ==> tail[j] == attributes[j + 1];
    if k == 0 {
      NoKeyColumns(tail);
    } else {
      SoleKeyIs(tail, k - 1);
    }
  }

  /** What the generator declares of a column the verifier calls unique: it is
      the whole key or marked UNIQUE, unless it sits in a composite key. */
  lemma DeclaredIff(e: Entity, k: nat)
    requires ColumnsStayApart(e) && AloneUnique(e, k)
    ensures RelationOf(e).DeclaresUnique(Stored(e.attributes[k].name)) <==> NotInCompositeKey(e, k)
  {
    hide Stored, ColumnsStayApart, KeyColumns;
    var name, r := Stored(e.attributes[k].name), RelationOf(e);
    if NotInCompositeKey(e, k) {
      if e.attributes[k].primaryKey {
        SoleKeyIs(e.attributes, k);
        assert StoredNames([e.attributes[k]]) == [name];
      } else {
        assert r.columns[k].name == name && r.columns[k].unique;
      }
    } else {
      WholeKey(e.attributes, k);
      assert r.key != [name];
      forall j | 0 <= j < |r.columns| && r.columns[j].name == name
        ensures !r.columns[j].unique
      {
        StoredApart(e, j, k);
      }
    }
  }

  /** The names single out the two columns whose types are compared. */
  lemma EndsComparableIff(server: Server, from: Entity, k: nat, to: Entity, c: nat)
    requires ColumnsStayApart(from) && ColumnsStayApart(to) && k < |from.attributes| && c < |to.attributes|
    ensures EndsComparable(server, RelationOf(from), Stored(from.attributes[k].name), RelationOf(to), Stored(to.attributes[c].name))
      <==> server.comparable(from.attributes[k].dataType.kind, to.attributes[c].dataType.kind)
  {
    hide Stored, ColumnsStayApart, KeyColumns;
    var f, t := RelationOf(from), RelationOf(to);
    forall i, j | 0 <= i < |f.columns| && 0 <= j < |t.columns|
      && f.columns[i].name == Stored(from.attributes[k].name) && t.columns[j].name == Stored(to.attributes[c].name)
      ensures i == k && j == c
    {
      StoredApart(from, i, k);
      StoredApart(to, j, c);
    }
    assert f.columns[k].name == Stored(from.attributes[k].name) && t.columns[c].name == Stored(to.attributes[c].name);
  }

  lemma SameExceptConstraints(r: Relation, other: Relation, name: string)
    requires r.(constraints := {}) == other
    ensures r.Has(name) == other.Has(name) && r.DeclaresUnique(name) == other.DeclaresUnique(name)
    ensures r.columns == other.columns
  {
  }

  /** One column's key: accepted exactly when its constraint name is new, it
      stays out of composite keys and its types compare. */
  lemma KeyAccepted(server: Server, s: Schema, tables: Tables, n: nat, k: nat, t: nat, c: nat)
    requires NamesStayApart(s) && n < |s.entities| && k < |s.entities[n].attributes| && Stage(s, tables, n, k)
    requires t < |s.entities| && AloneUnique(s.entities[t], c) && s.entities[n].attributes[k].foreignKey.Some?
    ensures var e, a := s.entities[n], s.entities[n].attributes[k];
            var target := s.entities[t];
            AddAccepted(server, tables, Stored(e.name), StoredConstraint(e, a), Stored(a.name), Stored(target.name), Stored(target.attributes[c].name))
            <==> ConstraintApart(e, k) && NotInCompositeKey(target, c) && server.comparable(a.dataType.kind, target.attributes[c].dataType.kind)
  {
    hide Stored, StoredConstraint, ConstraintsOf, Relation.Has, Relation.DeclaresUnique, ColumnsStayApart, TablesStayApart;
    hide EndsComparable, NotInCompositeKey, RelationOf, IsIdentifier, Clash;
    var e, a, target := s.entities[n], s.entities[n].attributes[k], s.entities[t];
    assert Turned(s, tables, n, n, k) && Turned(s, tables, t, n, k);
    var from, to := tables[Stored(e.name)], tables[Stored(target.name)];
    assert from.(constraints := {}) == RelationOf(e) && to.(constraints := {}) == RelationOf(target);
    ConstraintIs(e, a);
    ConstraintIsNewIff(e, k, k);
    HasColumn(e, k);
    HasColumn(target, c);
    SameExceptConstraints(from, RelationOf(e), Stored(a.name));
    SameExceptConstraints(to, RelationOf(target), Stored(target.attributes[c].name));
    DeclaredIff(target, c);
    EndsComparableIff(server, e, k, target, c);
    ComparableKept(server, from, RelationOf(e), to, RelationOf(target), Stored(a.name), Stored(target.attributes[c].name));
  }

  lemma ComparableKept(server: Server, from: Relation, from': Relation, to: Relation, to': Relation, column: string, key: string)
    requires from.columns == from'.columns && to.columns == to'.columns
    ensures EndsComparable(server, from, column, to, key) == EndsComparable(server, from', column, to', key)
  {
  }

  lemma StageNext(s: Schema, tables: Tables, n: nat, k: nat)
    requires n < |s.entities| && k < |s.entities[n].attributes| && Stage(s, tables, n, k)
    requires TablesStayApart(s) && s.entities[n].attributes[k].foreignKey.Some?
    ensures var e := s.entities[n];
            var name, constraint := Stored(e.name), StoredConstraint(e, e.attributes[k]);
            name in tables
            && Stage(s, tables[name := tables[name].(constraints := tables[name].constraints + {constraint})], n, k + 1)
  {
    hide Stored, StoredConstraint, RelationOf;
    var e := s.entities[n];
    var name, constraint := Stored(e.name), StoredConstraint(e, e.attributes[k]);
    assert Turned(s, tables, n, n, k);
    var after := tables[name := tables[name].(constraints := tables[name].constraints + {constraint})];
    var next := k + 1;
    forall p: nat | p < |s.entities|
      ensures Turned(s, after, p, n, next)
    {
      assert Turned(s, tables, p, n, k);
      assert p != n ==> Stored(s.entities[p].name) != name;
    }
  }

  lemma StageSkips(s: Schema, tables: Tables, n: nat, k: nat)
    requires n < |s.entities| && k < |s.entities[n].attributes| && Stage(s, tables, n, k)
    requires s.entities[n].attributes[k].foreignKey.None?
    ensures Stage(s, tables, n, k + 1)
  {
    hide Stored, RelationOf;
    var next := k + 1;
    forall p: nat | p < |s.entities|
      ensures Turned(s, tables, p, n, next)
    {
      assert Turned(s, tables, p, n, k);
    }
  }

  /** Column `k` of table `n` has no key, or one the server takes. */
  predicate KeyGoes(server: Server, s: Schema, n: nat, k: nat) {
    && n < |s.entities| && k < |s.entities[n].attributes|
    && ConstraintApart(s.entities[n], k) && KeyDeclared(server, s, s.entities[n].attributes[k])
  }

  lemma KeyUnderstood(e: Entity, a: Attribute, target: Entity, key: Attribute)
    ensures Understood(KeyCommand(e, a, target, key))
         == AddKey(Stored(e.name), StoredConstraint(e, a), Stored(a.name), Stored(target.name), Stored(key.name))
  {
    hide Trim, Kept, ConstraintName;
  }

  lemma ColumnRuns(server: Server, s: Schema, tables: Tables, n: nat, k: nat)
    requires WellFormed(s) && NamesStayApart(s) && n < |s.entities| && k < |s.entities[n].attributes| && Stage(s, tables, n, k)
    ensures var r := RunAll(server, tables, ColumnKeyCommands(s, s.entities[n], s.entities[n].attributes[k]));
            && (r.Some? <==> KeyGoes(server, s, n, k))
            && (r.Some? ==> Stage(s, r.value, n, k + 1))
  {
    hide Stage, TableFormed, NamesApart, LineFormed, NoRequiredCycle, AddAccepted, Stored, StoredConstraint, AloneUnique, NotInCompositeKey;
    hide DataTypeKind.Family, Schema.Resolve, Understood, KeyCommand, ColumnsStayApart, TablesStayApart, KeyDeclared, ConstraintApart;
    var e, a := s.entities[n], s.entities[n].attributes[k];
    assert KeySound(s, a);
    match a.foreignKey {
      case None =>
        StageSkips(s, tables, n, k);
        NoKeyGoes(server, s, n, k);
      case Some(reference) =>
        var (t, c) := s.Resolve(reference.entityId, reference.attributeId).value;
        var command := KeyCommand(e, a, s.entities[t], s.entities[t].attributes[c]);
        RunOne(server, tables, command);
        KeyUnderstood(e, a, s.entities[t], s.entities[t].attributes[c]);
        KeyAccepted(server, s, tables, n, k, t, c);
        KeyDeclaredIs(server, s, a, t, c);
        StageNext(s, tables, n, k);
    }
  }

  lemma NoKeyGoes(server: Server, s: Schema, n: nat, k: nat)
    requires n < |s.entities| && k < |s.entities[n].attributes| && s.entities[n].attributes[k].foreignKey.None?
    ensures KeyGoes(server, s, n, k)
  {
  }

  lemma KeyDeclaredIs(server: Server, s: Schema, a: Attribute, t: nat, c: nat)
    requires a.foreignKey.Some? && s.Resolve(a.foreignKey.value.entityId, a.foreignKey.value.attributeId) == Some((t, c))
    ensures t < |s.entities| && c < |s.entities[t].attributes|
    ensures KeyDeclared(server, s, a)
      <==> NotInCompositeKey(s.entities[t], c) && server.comparable(a.dataType.kind, s.entities[t].attributes[c].dataType.kind)
  {
    hide NotInCompositeKey;
  }

  ghost predicate TableKeysGo(server: Server, s: Schema, n: nat, k: nat) {
    forall q: nat :: q < k ==> KeyGoes(server, s, n, q)
  }

  lemma TableKeysGoNext(server: Server, s: Schema, n: nat, k: nat)
    ensures TableKeysGo(server, s, n, k + 1) <==> TableKeysGo(server, s, n, k) && KeyGoes(server, s, n, k)
  {
    hide KeyGoes;
  }

  lemma {:induction false} TableKeysRun(server: Server, s: Schema, tables: Tables, n: nat, k: nat)
    requires WellFormed(s) && NamesStayApart(s) && n < |s.entities| && k <= |s.entities[n].attributes| && Stage(s, tables, n, 0)
    ensures var r := RunAll(server, tables, TableKeyCommands(s, s.entities[n], k));
            && (r.Some? <==> TableKeysGo(server, s, n, k))
            && (r.Some? ==> Stage(s, r.value, n, k))
  {
    hide Stage, WellFormed, NamesStayApart, KeyGoes, TableKeysGo, ColumnKeyCommands, RunAll;
    var e := s.entities[n];
    if k == 0 {
      RunNone(server, tables);
      NoKeysGo(server, s, n);
    } else {
      TableKeysGoNext(server, s, n, k - 1);
      TableKeysRun(server, s, tables, n, k - 1);
      var before, more := TableKeyCommands(s, e, k - 1), ColumnKeyCommands(s, e, e.attributes[k - 1]);
      RunAppend(server, tables, before, more);
      var r := RunAll(server, tables, before);
      if r.Some? {
        ColumnRuns(server, s, r.value, n, k - 1);
      }
    }
  }

  lemma StageTurns(s: Schema, tables: Tables, n: nat)
    requires n < |s.entities| && Stage(s, tables, n, |s.entities[n].attributes|)
    ensures Stage(s, tables, n + 1, 0)
  {
    hide TableAt;
    var next := n + 1;
    forall p: nat | p < |s.entities|
      ensures Turned(s, tables, p, next, 0)
    {
      assert Turned(s, tables, p, n, |s.entities[n].attributes|);
    }
  }

  lemma NoKeysGo(server: Server, s: Schema, n: nat)
    ensures TableKeysGo(server, s, n, 0) && KeysGo(server, s, 0)
  {
  }

  lemma KeysGoNext(server: Server, s: Schema, n: nat)
    requires n < |s.entities|
    ensures KeysGo(server, s, n + 1) <==> KeysGo(server, s, n) && TableKeysGo(server, s, n, |s.entities[n].attributes|)
  {
    hide KeyGoes;
  }

  ghost predicate KeysGo(server: Server, s: Schema, n: nat)
    requires n <= |s.entities|
  {
    forall p: nat, q: nat :: p < n && q < |s.entities[p].attributes| ==> KeyGoes(server, s, p, q)
  }

  lemma {:induction false} KeysRun(server: Server, s: Schema, tables: Tables, n: nat)
    requires WellFormed(s) && NamesStayApart(s) && n <= |s.entities| && Stage(s, tables, 0, 0)
    ensures var r := RunAll(server, tables, KeyCommandsUpTo(s, n));
            && (r.Some? <==> KeysGo(server, s, n))
            && (r.Some? ==> Stage(s, r.value, n, 0))
  {
    hide Stage, WellFormed, NamesStayApart, KeysGo, TableKeysGo, TableKeyCommands, RunAll;
    if n == 0 {
      RunNone(server, tables);
      NoKeysGo(server, s, 0);
    } else {
      KeysGoNext(server, s, n - 1);
      KeysRun(server, s, tables, n - 1);
      var e := s.entities[n - 1];
      var before, more := KeyCommandsUpTo(s, n - 1), TableKeyCommands(s, e, |e.attributes|);
      RunAppend(server, tables, before, more);
      var r := RunAll(server, tables, before);
      if r.Some? {
        TableKeysRun(server, s, r.value, n - 1, |e.attributes|);
        if RunAll(server, r.value, more).Some? {
          StageTurns(s, RunAll(server, r.value, more).value, n - 1);
        }
      }
    }
  }

  // ----- comments -----

  lemma {:induction false} RemarksRun(server: Server, s: Schema, tables: Tables, e: Entity, k: nat)
    requires IsTable(tables, e) && k <= |e.attributes|
    ensures RunAll(server, tables, RemarkCommands(e, k)) == Some(tables)
  {
    hide Trim, Kept, RelationOf, Relation.Has, Entity.IsDocumented, Attribute.IsDocumented;
    if k == 0 {
      if e.IsDocumented() {
        RunOne(server, tables, CommentOnTable(Trim(e.name), Trim(e.description)));
      }
    } else {
      hide RunAll;
      RemarksRun(server, s, tables, e, k - 1);
      var a := e.attributes[k - 1];
      RunAppend(server, tables, RemarkCommands(e, k - 1), ColumnRemarkCommands(e, a));
      if a.IsDocumented() {
        HasColumn(e, k - 1);
        SameExceptConstraints(tables[Stored(e.name)], RelationOf(e), Stored(a.name));
        RunOne(server, tables, CommentOnColumn(Trim(e.name), Trim(a.name), Trim(a.description)));
      } else {
        RunNone(server, tables);
      }
    }
  }

  lemma RunNone(server: Server, tables: Tables)
    ensures RunAll(server, tables, []) == Some(tables)
  {
  }

  lemma {:induction false} CommentsRun(server: Server, s: Schema, tables: Tables, n: nat)
    requires n <= |s.entities| && forall p :: 0 <= p < |s.entities| ==> IsTable(tables, s.entities[p])
    ensures RunAll(server, tables, RemarkCommandsUpTo(s, n)) == Some(tables)
  {
    hide IsTable, RunAll, RemarkCommands;
    if n == 0 {
      RunNone(server, tables);
    } else {
      CommentsRun(server, s, tables, n - 1);
      var e := s.entities[n - 1];
      RemarksRun(server, s, tables, e, |e.attributes|);
      RunAppend(server, tables, RemarkCommandsUpTo(s, n - 1), RemarkCommands(e, |e.attributes|));
    }
  }

  // ----- the whole script -----

  lemma MadeIsStage(s: Schema, tables: Tables)
    requires Made(s, tables, |s.entities|)
    ensures Stage(s, tables, 0, 0)
  {
    hide Stored, RelationOf;
  }

  lemma StageTables(s: Schema, tables: Tables)
    requires Stage(s, tables, |s.entities|, 0)
    ensures IsBuilt(s, tables) && forall p :: 0 <= p < |s.entities| ==> IsTable(tables, s.entities[p])
  {
    hide Stored, RelationOf, ConstraintsOf;
    forall p | 0 <= p < |s.entities|
      ensures BuiltAs(tables, s.entities[p])
    {
      assert Turned(s, tables, p, |s.entities|, 0);
    }
  }

  /** A table with its columns, its key and one constraint for each of its
      foreign keys. */
  predicate BuiltAs(tables: Tables, e: Entity) {
    IsTable(tables, e) && tables[Stored(e.name)].constraints == ConstraintsOf(e, |e.attributes|)
  }

  ghost predicate IsBuilt(s: Schema, tables: Tables) {
    forall p :: 0 <= p < |s.entities| ==> BuiltAs(tables, s.entities[p])
  }

  /** All that can go wrong: names or constraint names that are one name once
      cut back, keys the server cannot index, and foreign keys that lead into a
      composite key or to a type the server cannot compare theirs with. */
  ghost predicate Runnable(server: Server, s: Schema) {
    NamesStayApart(s) && ConstraintsStayApart(s) && TablesIndexed(server, s) && KeysDeclared(server, s)
  }

  lemma TablesGoIff(server: Server, s: Schema)
    ensures TablesGo(server, s, |s.entities|) <==> NamesStayApart(s) && TablesIndexed(server, s)
  {
    hide Stored, ColumnsStayApart, TableIndexed;
    if TablesGo(server, s, |s.entities|) {
      forall i: nat, j: nat | i < j < |s.entities|
        ensures Stored(s.entities[i].name) != Stored(s.entities[j].name)
      {
        assert TableGoes(server, s, j);
      }
      forall i: nat | i < |s.entities|
        ensures ColumnsStayApart(s.entities[i]) && TableIndexed(server, s.entities[i])
      {
        assert TableGoes(server, s, i);
      }
    }
  }

  lemma KeysGoIff(server: Server, s: Schema)
    ensures KeysGo(server, s, |s.entities|) <==> ConstraintsStayApart(s) && KeysDeclared(server, s)
  {
    hide ConstraintApart, KeyDeclared;
    if KeysGo(server, s, |s.entities|) {
      forall n: nat, k: nat | n < |s.entities| && k < |s.entities[n].attributes|
        ensures ConstraintApart(s.entities[n], k) && KeyDeclared(server, s, s.entities[n].attributes[k])
      {
        assert KeyGoes(server, s, n, k);
      }
    }
  }

  lemma WellFormedRuns(server: Server, s: Schema)
    requires WellFormed(s)
    ensures var r := RunAll(server, map[], Commands(s));
            (r.Some? <==> Runnable(server, s)) && (r.Some? ==> IsBuilt(s, r.value))
  {
    hide Stage, Made, WellFormed, NamesStayApart, ConstraintsStayApart, TablesIndexed, KeysDeclared, TablesGo, KeysGo;
    hide TableCommandsUpTo, KeyCommandsUpTo, RemarkCommandsUpTo, RunAll, IsTable, IsBuilt, ConstraintsOf, Stored;
    var n := |s.entities|;
    var tables, keys, comments := TableCommandsUpTo(s, n), KeyCommandsUpTo(s, n), RemarkCommandsUpTo(s, n);
    WellFormedTables(s);
    TablesRun(server, s, n);
    TablesGoIff(server, s);
    KeysGoIff(server, s);
    RunAppend(server, map[], tables, keys);
    RunAppend(server, map[], tables + keys, comments);
    var made := RunAll(server, map[], tables);
    if made.Some? {
      MadeIsStage(s, made.value);
      KeysRun(server, s, made.value, n);
      var linked := RunAll(server, made.value, keys);
      if linked.Some? {
        StageTables(s, linked.value);
        CommentsRun(server, s, linked.value, n);
      }
    }
  }

  lemma WellFormedTables(s: Schema)
    requires WellFormed(s)
    ensures forall i :: 0 <= i < |s.entities| ==> TableFormed(s.entities[i])
  {
    hide NamesApart, TableFormed, LineFormed, KeySound, NoRequiredCycle;
  }

  /** A schema the verifier finds no error in, whatever the server can index and
      compare: the script runs to the end exactly when the schema is runnable;
      it then builds every table with its keys. The verifier lets a column of a
      composite key that is also flagged unique be referenced, but the generator
      leaves UNIQUE off key columns; and nothing keeps long names apart once the
      server, or the generator for its constraint names, has cut them. */
  lemma ScriptRunsIff(server: Server, s: Schema, diagnostics: seq<Diagnostic>)
    requires UniqueEntityIds(s.entities) && IsVerdict(s, diagnostics) && IsValid(diagnostics)
    ensures var r := RunAll(server, map[], Commands(s));
            (r.Some? <==> Runnable(server, s)) && (r.Some? ==> IsBuilt(s, r.value))
  {
    hide WellFormed, Runnable, IsBuilt, Commands, RunAll, IsVerdict;
    NoErrorIffWellFormed(s, diagnostics);
    WellFormedRuns(server, s);
  }

  // ----- a server that knows the verifier's families -----

  /** Every kind can be indexed, and kinds of one family can be compared. */
  ghost predicate ByFamily(server: Server) {
    && (forall kind :: server.indexable(kind))
    && forall a: DataTypeKind, b: DataTypeKind :: a.Family() == b.Family() ==> server.comparable(a, b)
  }

  /** On such a server only cut names and composite keys can go wrong, and on
      names that fit whole only composite keys. */
  lemma FamilyServerRunsIff(server: Server, s: Schema, diagnostics: seq<Diagnostic>)
    requires UniqueEntityIds(s.entities) && IsVerdict(s, diagnostics) && IsValid(diagnostics)
    requires ByFamily(server)
    ensures RunAll(server, map[], Commands(s)).Some? <==> NamesStayApart(s) && ConstraintsStayApart(s) && OutOfCompositeKeys(s)
    ensures NamesFit(s) ==> NamesStayApart(s) && ConstraintsStayApart(s)
  {
    hide WellFormed, NamesFit, NamesStayApart, ConstraintsStayApart, TablesIndexed, KeyDeclared, KeyStaysOut, IsBuilt, Commands, RunAll, IsVerdict;
    NoErrorIffWellFormed(s, diagnostics);
    WellFormedRuns(server, s);
    if NamesFit(s) {
      NamesThatFit(s);
    }
    assert TablesIndexed(server, s) by {
      AllIndexed(server, s);
    }
    forall n: nat, k: nat | n < |s.entities| && k < |s.entities[n].attributes|
      ensures KeyDeclared(server, s, s.entities[n].attributes[k]) <==> KeyStaysOut(s, s.entities[n].attributes[k])
    {
      FamilyDeclared(server, s, n, k);
    }
  }

  predicate KeyStaysOut(s: Schema, a: Attribute) {
    a.foreignKey.Some? ==>
      var at := s.Resolve(a.foreignKey.value.entityId, a.foreignKey.value.attributeId);
      at.Some? ==> NotInCompositeKey(s.entities[at.value.0], at.value.1)
  }

  ghost predicate OutOfCompositeKeys(s: Schema) {
    forall n: nat, k: nat :: n < |s.entities| && k < |s.entities[n].attributes| ==> KeyStaysOut(s, s.entities[n].attributes[k])
  }

  lemma AllIndexed(server: Server, s: Schema)
    requires ByFamily(server)
    ensures TablesIndexed(server, s)
  {
  }

  lemma FamilyDeclared(server: Server, s: Schema, n: nat, k: nat)
    requires WellFormed(s) && ByFamily(server) && n < |s.entities| && k < |s.entities[n].attributes|
    ensures KeyDeclared(server, s, s.entities[n].attributes[k]) <==> KeyStaysOut(s, s.entities[n].attributes[k])
  {
    hide TableFormed, NamesApart, LineFormed, NoRequiredCycle, AloneUnique, NotInCompositeKey, DataTypeKind.Family, Schema.Resolve;
    assert KeySound(s, s.entities[n].attributes[k]);
  }
}
