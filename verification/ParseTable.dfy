/** Parsing back the tokens of a table's own statement. */
module ParseTable {
  import opened Options
  import opened Strings
  import opened Decimal
  import opened Domain
  import opened Scanning
  import opened Rendering
  import opened ScriptTokens
  import opened Cursors
  import opened TableParser

  // ----- what survives -----

  /** Nothing in an expression ends it early, and its parentheses match. */
  predicate Contained(tokens: seq<Token>, depth: nat)
    decreases |tokens|
  {
    if tokens == [] then depth == 0
    else !(depth == 0 && Ends(tokens[0], AFTER_TYPE)) && Contained(tokens[1..], DepthAfter(tokens[0], depth))
  }

  /** Parameters only where the kind takes them, a scale only with a precision. */
  predicate FitsKind(t: DataType) {
    && (t.length.Some? ==> t.kind.TakesLength())
    && (t.precision.Some? ==> t.kind.TakesPrecision())
    && (t.scale.Some? ==> t.precision.Some?)
  }

  /** The type as it is written: only what the kind takes. */
  function ShownType(t: DataType): (r: DataType)
    ensures r == t <==> FitsKind(t)
  {
    if t.kind.TakesLength() then DataType(t.kind, t.length, None, None)
    else if t.kind.TakesPrecision() then DataType(t.kind, None, t.precision, if t.precision.Some? then t.scale else None)
    else DataType(t.kind, None, None, None)
  }

  /** The default can be told from what stands after it. */
  predicate ColumnReadable(a: Attribute) {
    a.defaultValue.Some? ==> Contained(TokensOf(a.defaultValue.value), 0)
  }

  /** No two names are the same once trimmed, up to case. */
  ghost predicate UniqueColumnNames(attributes: seq<Attribute>) {
    forall i, j :: 0 <= i < j < |attributes| ==> !Same(Trim(attributes[i].name), Trim(attributes[j].name))
  }

  ghost predicate TableReadable(e: Entity) {
    && UniqueColumnNames(e.attributes)
    && forall i :: 0 <= i < |e.attributes| ==> ColumnReadable(e.attributes[i])
  }

  /** A default comes back normalised; a blank one is no default. */
  function DefaultKept(a: Attribute): Option<string> {
    if a.defaultValue.Some? && TokensOf(a.defaultValue.value) != [] then Some(Normalized(a.defaultValue.value)) else None
  }

  /** The column as its own line gives it; the key comes later. */
  function BareColumn(a: Attribute): ParsedColumn {
    ParsedColumn(Trim(a.name), ShownType(a.dataType), a.nullable, false, a.unique && !a.primaryKey, DefaultKept(a))
  }

  /** A key column is never nullable. */
  function KeptColumn(a: Attribute): ParsedColumn {
    BareColumn(a).(primaryKey := a.primaryKey, nullable := a.nullable && !a.primaryKey)
  }

  function BareColumns(attributes: seq<Attribute>): (r: seq<ParsedColumn>)
    ensures |r| == |attributes| && forall i :: 0 <= i < |r| ==> r[i] == BareColumn(attributes[i])
  {
    seq(|attributes|, i requires 0 <= i < |attributes| => BareColumn(attributes[i]))
  }

  function KeptColumns(attributes: seq<Attribute>): (r: seq<ParsedColumn>)
    ensures |r| == |attributes| && forall i :: 0 <= i < |r| ==> r[i] == KeptColumn(attributes[i])
  {
    seq(|attributes|, i requires 0 <= i < |attributes| => KeptColumn(attributes[i]))
  }

  // ----- the type -----

  function WordsOf(tokens: seq<Token>): seq<string>
    requires forall i :: 0 <= i < |tokens| ==> tokens[i].Word?
  {
    seq(|tokens|, i requires 0 <= i < |tokens| => tokens[i].word)
  }

  predicate NoTypeWordAhead(r: seq<Token>) {
    r == [] || !IsTypeWord(r[0])
  }

  lemma {:induction false} TypeWordsAre(tokens: seq<Token>, r: seq<Token>)
    requires forall i :: 0 <= i < |tokens| ==> tokens[i].Word? && IsTypeWord(tokens[i])
    requires NoTypeWordAhead(r)
    ensures TypeWords(tokens + r) == (WordsOf(tokens), r)
  {
    hide IsTypeWord;
    if tokens == [] {
      assert tokens + r == r;
      assert WordsOf(tokens) == [];
    } else {
      assert (tokens + r)[1..] == tokens[1..] + r;
      TypeWordsAre(tokens[1..], r);
      assert [tokens[0].word] + WordsOf(tokens[1..]) == WordsOf(tokens);
    }
  }

  lemma KindOfText(kind: DataTypeKind)
    ensures KindOf(KindText(kind)) == Some(kind)
  {
    hide KindOf, KindText;
    match kind {
      case Text => KindOfTextual();
      case Varchar => KindOfTextual();
      case Char => KindOfTextual();
      case SmallInt => KindOfSmallInt();
      case Integer => KindOfSmallInt();
      case BigInt => KindOfSmallInt();
      case Numeric => KindOfNumeric();
      case Real => KindOfNumeric();
      case DoublePrecision => KindOfDoublePrecision();
      case Boolean => KindOfDoublePrecision();
      case Date => KindOfDate();
      case Time => KindOfDate();
      case Timestamp => KindOfTimestamp();
      case TimestampTz => KindOfTimestamp();
      case Uuid => KindOfUuid();
      case Json => KindOfJson();
      case Jsonb => KindOfJsonb();
      case Bytea => KindOfBytea();
    }
  }

  lemma KindOfTextual()
    ensures KindOf(KindText(DataTypeKind.Text)) == Some(DataTypeKind.Text)
    ensures KindOf(KindText(Varchar)) == Some(Varchar)
    ensures KindOf(KindText(Char)) == Some(Char)
  {
  }

  lemma KindOfSmallInt()
    ensures KindOf(KindText(SmallInt)) == Some(SmallInt)
    ensures KindOf(KindText(Integer)) == Some(Integer)
    ensures KindOf(KindText(BigInt)) == Some(BigInt)
  {
  }

  lemma KindOfNumeric()
    ensures KindOf(KindText(Numeric)) == Some(Numeric)
    ensures KindOf(KindText(Real)) == Some(Real)
  {
  }

  lemma KindOfDoublePrecision()
    ensures KindOf(KindText(DoublePrecision)) == Some(DoublePrecision)
    ensures KindOf(KindText(Boolean)) == Some(Boolean)
  {
  }

  lemma KindOfDate()
    ensures KindOf(KindText(Date)) == Some(Date)
    ensures KindOf(KindText(Time)) == Some(Time)
  {
  }

  lemma KindOfTimestamp()
    ensures KindOf(KindText(Timestamp)) == Some(Timestamp)
    ensures KindOf(KindText(TimestampTz)) == Some(TimestampTz)
  {
  }

  lemma KindOfUuid()
    ensures KindOf(KindText(Uuid)) == Some(Uuid)
  {
  }

  lemma KindOfJson()
    ensures KindOf(KindText(Json)) == Some(Json)
  {
  }

  lemma KindOfJsonb()
    ensures KindOf(KindText(Jsonb)) == Some(Jsonb)
  {
  }

  lemma KindOfBytea()
    ensures KindOf(KindText(Bytea)) == Some(Bytea)
  {
  }

  lemma KindNotSerial(kind: DataTypeKind)
    ensures !IsSerial(KindText(kind))
  {
  }

  lemma KindIsTypeWord(kind: DataTypeKind)
    ensures KindText(kind) !in AFTER_TYPE && "double" !in AFTER_TYPE && "precision" !in AFTER_TYPE
  {
  }

  lemma KindWordsRead(kind: DataTypeKind, r: seq<Token>)
    requires NoTypeWordAhead(r)
    ensures TypeWords(KindWords(kind) + r).1 == r
    ensures JoinWords(TypeWords(KindWords(kind) + r).0) == KindText(kind)
  {
    hide KindText, TypeWords;
    KindIsTypeWord(kind);
    TypeWordsAre(KindWords(kind), r);
    var words := WordsOf(KindWords(kind));
    if kind.DoublePrecision? {
      assert words == ["double", "precision"];
      assert words[1..] == ["precision"];
      assert JoinWords(words) == "double" + " " + "precision";
      assert KindText(kind) == "double precision" by {
        DoubleText();
      }
      assert "double" + " " + "precision" == "double precision";
    } else {
      assert words == [KindText(kind)];
    }
  }

  lemma DoubleText()
    ensures KindText(DoublePrecision) == "double precision"
  {
  }

  predicate NoParenAhead(r: seq<Token>) {
    !AtPunct(r, '(')
  }

  lemma TypeWordsNone(r: seq<Token>)
    requires NoTypeWordAhead(r)
    ensures TypeWords(r) == ([], r)
  {
  }

  /** One number at the front of a list of them. */
  lemma NumberRead(n: U32, r: seq<Token>)
    ensures AtPunct(r, ',') ==>
      NumberList([Number(NatText(n))] + r) == ([n] + NumberList(r[1..]).0, NumberList(r[1..]).1)
    ensures !AtPunct(r, ',') ==> NumberList([Number(NatText(n))] + r) == ([n], r)
  {
    hide NatText, ParseNat;
    var all := [Number(NatText(n))] + r;
    assert all[1..] == r;
    ParseNatText(n);
  }

  lemma ParametersOf(numbers: seq<Token>, r: seq<Token>)
    requires NoTypeWordAhead(r) && NumberList(numbers + [Punct(')')] + r).1 == [Punct(')')] + r
    ensures Parameters([Punct('(')] + numbers + [Punct(')')] + r) == (NumberList(numbers + [Punct(')')] + r).0, r)
  {
    hide NumberList, TypeWords;
    assert ([Punct('(')] + numbers + [Punct(')')] + r)[1..] == numbers + [Punct(')')] + r;
    assert ([Punct(')')] + r)[1..] == r;
    TypeWordsNone(r);
  }

  lemma OneParameterRead(n: U32, r: seq<Token>)
    requires NoTypeWordAhead(r)
    ensures Parameters(OneParameter(n) + r) == ([n], r)
  {
    hide NatText, NumberList, Parameters;
    var number := [Number(NatText(n))];
    NumberRead(n, [Punct(')')] + r);
    assert number + [Punct(')')] + r == number + ([Punct(')')] + r);
    ParametersOf(number, r);
    assert OneParameter(n) + r == [Punct('(')] + number + [Punct(')')] + r;
  }

  lemma TwoParametersRead(p: U32, s: U32, r: seq<Token>)
    requires NoTypeWordAhead(r)
    ensures Parameters([Punct('('), Number(NatText(p)), Punct(','), Number(NatText(s)), Punct(')')] + r) == ([p, s], r)
  {
    hide NatText, NumberList, Parameters;
    var first, second := Number(NatText(p)), Number(NatText(s));
    var tail := [second] + ([Punct(')')] + r);
    NumberRead(s, [Punct(')')] + r);
    NumberRead(p, [Punct(',')] + tail);
    assert ([Punct(',')] + tail)[1..] == tail;
    assert [p] + [s] == [p, s];
    var numbers := [first, Punct(','), second];
    assert numbers + [Punct(')')] + r == [first] + ([Punct(',')] + tail);
    ParametersOf(numbers, r);
    assert [Punct('('), first, Punct(','), second, Punct(')')] + r == [Punct('(')] + numbers + [Punct(')')] + r;
  }

  lemma ParametersRead(t: DataType, r: seq<Token>)
    requires NoTypeWordAhead(r) && NoParenAhead(r)
    ensures Parameters(ParameterTokens(t) + r).1 == r
    ensures TypeFrom(t.kind, Parameters(ParameterTokens(t) + r).0) == ShownType(t)
  {
    hide NatText, Parameters, OneParameter;
    if t.kind.TakesLength() && t.length.Some? {
      OneParameterRead(t.length.value, r);
    } else if t.kind.TakesPrecision() && t.precision.Some? && t.scale.Some? {
      TwoParametersRead(t.precision.value, t.scale.value, r);
    } else if t.kind.TakesPrecision() && t.precision.Some? {
      OneParameterRead(t.precision.value, r);
    } else {
      assert [] + r == r;
      NoParametersRead(r);
    }
  }

  lemma NoParametersRead(r: seq<Token>)
    requires NoTypeWordAhead(r) && NoParenAhead(r)
    ensures Parameters(r) == ([], r)
  {
    TypeWordsNone(r);
  }

  // ----- the constraints -----

  /** What stands after a whole column: the next one, or the end. */
  predicate ColumnEnds(r: seq<Token>) {
    AtPunct(r, ',') || AtPunct(r, ')')
  }

  lemma {:induction false} TakeContained(tokens: seq<Token>, r: seq<Token>, depth: nat)
    requires Contained(tokens, depth) && r != [] && Ends(r[0], AFTER_TYPE)
    ensures TakeUntil(tokens + r, AFTER_TYPE, depth) == (tokens, r)
    decreases |tokens|
  {
    hide Ends, DepthAfter;
    if tokens == [] {
      assert tokens + r == r;
    } else {
      assert (tokens + r)[1..] == tokens[1..] + r;
      TakeContained(tokens[1..], r, DepthAfter(tokens[0], depth));
      assert [tokens[0]] + tokens[1..] == tokens;
    }
  }

  lemma UniqueRead(a: Attribute, r: seq<Token>, c: ParsedColumn)
    requires ColumnEnds(r)
    ensures Constraints(UniqueTokens(a) + r, c) == (r, if a.unique && !a.primaryKey then c.(unique := true) else c)
  {
    var all := UniqueTokens(a) + r;
    if a.unique && !a.primaryKey {
      assert all[0] == Word("unique") && all[1..] == r;
      assert all[0] != Word("not") && all[0] != Word("primary");
    } else {
      assert all == r;
    }
  }

  lemma DefaultRead(a: Attribute, r: seq<Token>, c: ParsedColumn)
    requires ColumnReadable(a) && r != [] && Ends(r[0], AFTER_TYPE) && c.defaultValue.None?
    ensures Constraints(DefaultTokens(a) + r, c) == Constraints(r, c.(defaultValue := DefaultKept(a)))
  {
    hide TokensOf, Ends, Contained, Render, TakeUntil;
    if a.defaultValue.None? {
      assert DefaultTokens(a) + r == r;
      assert c.(defaultValue := None) == c;
    } else {
      var tokens := TokensOf(a.defaultValue.value);
      var all := DefaultTokens(a) + r;
      assert all[0] == Word("default") && all[1..] == tokens + r;
      assert all[0] != Word("not") && all[0] != Word("primary") && all[0] != Word("unique") && all[0] != Word("null");
      TakeContained(tokens, r, 0);
      assert Constraints(all, c) == Constraints(r, SetDefault(c, tokens));
      assert Render(tokens) == Normalized(a.defaultValue.value);
    }
  }

  lemma NullRead(a: Attribute, r: seq<Token>, c: ParsedColumn)
    requires c.nullable
    ensures Constraints(NullTokens(a) + r, c) == Constraints(r, c.(nullable := a.nullable))
  {
    var all := NullTokens(a) + r;
    if !a.nullable {
      assert all[0] == Word("not") && all[1] == Word("null") && all[2..] == r;
    } else {
      assert all == r;
    }
  }

  lemma UniqueAhead(a: Attribute, r: seq<Token>)
    requires ColumnEnds(r)
    ensures var all := UniqueTokens(a) + r;
            all != [] && Ends(all[0], AFTER_TYPE) && NoTypeWordAhead(all) && NoParenAhead(all)
  {
    assert "unique" in AFTER_TYPE by {
      assert AFTER_TYPE[3] == "unique";
    }
  }

  lemma DefaultAhead(a: Attribute, r: seq<Token>)
    requires NoTypeWordAhead(r) && NoParenAhead(r)
    ensures var all := DefaultTokens(a) + r; NoTypeWordAhead(all) && NoParenAhead(all)
  {
    hide TokensOf;
    assert AFTER_TYPE[4] == "default";
    if a.defaultValue.None? {
      assert DefaultTokens(a) + r == r;
    }
  }

  lemma NullAhead(a: Attribute, r: seq<Token>)
    requires NoTypeWordAhead(r) && NoParenAhead(r)
    ensures var all := NullTokens(a) + r; NoTypeWordAhead(all) && NoParenAhead(all)
  {
    assert AFTER_TYPE[0] == "not";
    if a.nullable {
      assert NullTokens(a) + r == r;
    }
  }

  lemma ConstraintsRead(a: Attribute, r: seq<Token>, c: ParsedColumn)
    requires ColumnReadable(a) && ColumnEnds(r)
    requires c == ParsedColumn(Trim(a.name), ShownType(a.dataType), true, false, false, None)
    ensures Constraints(NullTokens(a) + DefaultTokens(a) + UniqueTokens(a) + r, c) == (r, BareColumn(a))
    ensures var all := NullTokens(a) + DefaultTokens(a) + UniqueTokens(a) + r; NoTypeWordAhead(all) && NoParenAhead(all)
  {
    hide TokensOf, Constraints, Ends, Contained, NullTokens, DefaultTokens, UniqueTokens, ShownType, NoTypeWordAhead, NoParenAhead, Trim;
    var afterDefault := UniqueTokens(a) + r;
    var afterNull := DefaultTokens(a) + afterDefault;
    assert NullTokens(a) + DefaultTokens(a) + UniqueTokens(a) + r == NullTokens(a) + afterNull;
    UniqueAhead(a, r);
    DefaultAhead(a, afterDefault);
    NullAhead(a, afterNull);
    NullRead(a, afterNull, c);
    var c1 := c.(nullable := a.nullable);
    DefaultRead(a, afterDefault, c1);
    UniqueRead(a, r, c1.(defaultValue := DefaultKept(a)));
  }

  lemma ColumnIsRead(a: Attribute, r: seq<Token>)
    requires ColumnReadable(a) && ColumnEnds(r)
    ensures Column(ColumnTokens(a) + r) == (Read(BareColumn(a)), r)
  {
    hide TokensOf, Constraints, Contained, NullTokens, DefaultTokens, UniqueTokens, ShownType;
    hide NoTypeWordAhead, NoParenAhead, Trim, KindText, KindWords, ParameterTokens, TypeWords, Parameters, JoinWords, KindOf, IsSerial;
    hide TypeFrom, BareColumn, AtPunct;
    var end := NullTokens(a) + DefaultTokens(a) + UniqueTokens(a) + r;
    var c := ParsedColumn(Trim(a.name), ShownType(a.dataType), true, false, false, None);
    ConstraintsRead(a, r, c);
    ParametersRead(a.dataType, end);
    ParametersAhead(a.dataType, end);
    KindWordsRead(a.dataType.kind, ParameterTokens(a.dataType) + end);
    KindOfText(a.dataType.kind);
    KindNotSerial(a.dataType.kind);
    var all := ColumnTokens(a) + r;
    assert all[0] == NameToken(a.name);
    assert all[1..] == KindWords(a.dataType.kind) + (ParameterTokens(a.dataType) + end);
  }

  lemma ParametersAhead(t: DataType, r: seq<Token>)
    requires NoTypeWordAhead(r)
    ensures NoTypeWordAhead(ParameterTokens(t) + r)
  {
    hide NatText, IsTypeWord;
    assert !IsTypeWord(Punct('(')) by {
      ParenIsNoWord();
    }
    if ParameterTokens(t) == [] {
      assert ParameterTokens(t) + r == r;
    } else {
      assert (ParameterTokens(t) + r)[0] == Punct('(');
    }
  }

  lemma ParenIsNoWord()
    ensures !IsTypeWord(Punct('('))
  {
  }

  // ----- the items -----

  lemma QuotedIsNoKeyword(rest: seq<Token>)
    requires rest != [] && rest[0].Quoted?
    ensures forall table :: Item(rest, table) == ColumnItem(rest, table)
  {
    hide ColumnItem;
  }

  lemma ColumnItemRead(a: Attribute, r: seq<Token>, table: ParsedTable)
    requires ColumnReadable(a) && ColumnEnds(r)
    ensures Item(ColumnTokens(a) + r, table) == (r, table.(columns := table.columns + [BareColumn(a)]))
  {
    hide ColumnReadable, Column, BareColumn, Item, Trim, KindWords, ParameterTokens, NullTokens, DefaultTokens, UniqueTokens;
    ColumnIsRead(a, r);
    assert (ColumnTokens(a) + r)[0] == NameToken(a.name);
    QuotedIsNoKeyword(ColumnTokens(a) + r);
    assert !AtWord(r, "references");
  }

  lemma {:induction false} NamesRead(names: seq<string>, read: seq<string>, r: seq<Token>)
    requires names != []
    ensures NamesAfter(read, JoinTokens(SingleNames(names), [Punct(',')]) + [Punct(')')] + r) == (Some(read + names), r)
    decreases |names|
  {
    var all := JoinTokens(SingleNames(names), [Punct(',')]) + [Punct(')')] + r;
    if |names| == 1 {
      assert all == [Quoted(names[0]), Punct(')')] + r;
      assert all[1..] == [Punct(')')] + r;
      assert ([Punct(')')] + r)[1..] == r;
      assert names == [names[0]];
    } else {
      assert SingleNames(names)[1..] == SingleNames(names[1..]);
      var tail := JoinTokens(SingleNames(names[1..]), [Punct(',')]) + [Punct(')')] + r;
      assert all == [Quoted(names[0]), Punct(',')] + tail;
      assert all[1..] == [Punct(',')] + tail;
      assert ([Punct(',')] + tail)[1..] == tail;
      NamesRead(names[1..], read + [names[0]], r);
      assert read + [names[0]] + names[1..] == read + names;
    }
  }

  function SingleNames(names: seq<string>): (r: seq<seq<Token>>)
    ensures |r| == |names| && forall i :: 0 <= i < |r| ==> r[i] == [Quoted(names[i])]
  {
    seq(|names|, i requires 0 <= i < |names| => [Quoted(names[i])])
  }

  lemma NamesInParentheses(names: seq<string>, r: seq<Token>)
    requires names != []
    ensures NameList([Punct('(')] + (JoinTokens(SingleNames(names), [Punct(',')]) + [Punct(')')] + r)) == (Some(names), r)
  {
    hide JoinTokens, NamesAfter;
    var inner := JoinTokens(SingleNames(names), [Punct(',')]) + [Punct(')')] + r;
    NamesRead(names, [], r);
    assert [] + names == names;
    assert ([Punct('(')] + inner)[1..] == inner;
  }

  lemma KeyAhead(rest: seq<Token>, table: ParsedTable, names: seq<string>, r: seq<Token>)
    requires |rest| >= 2 && rest[0] == Word("primary") && rest[1] == Word("key")
    requires NameList(rest[2..]) == (Some(names), r)
    ensures Item(rest, table) == (r, table.(columns := MarkPrimary(table.columns, names)))
  {
    hide NameList, MarkPrimary, ColumnItem, TableForeignKey, MarkUnique, TakeUntil, SkipBalanced, Render;
    assert AtWords(rest, ["primary", "key"]);
    assert !AtWord(rest, "constraint");
  }

  lemma KeyItemRead(e: Entity, r: seq<Token>, table: ParsedTable)
    requires e.PrimaryKey() != []
    ensures Item(KeyItem(e) + r, table)
         == (r, table.(columns := MarkPrimary(table.columns, TrimmedNames(e.PrimaryKey()))))
  {
    hide MarkPrimary, JoinTokens, Trim, KeyColumns, Item, NameList;
    var names := TrimmedNames(e.PrimaryKey());
    assert NameTokens(e.PrimaryKey()) == SingleNames(names);
    var inner := JoinTokens(SingleNames(names), [Punct(',')]) + [Punct(')')] + r;
    NamesInParentheses(names, r);
    var all := KeyItem(e) + r;
    assert all == [Word("primary"), Word("key")] + ([Punct('(')] + inner);
    assert all[2..] == [Punct('(')] + inner;
    KeyAhead(all, table, names, r);
  }

  /** Columns read one after the other; then the key, if there is one. */
  lemma {:induction false} ItemsRead(e: Entity, i: nat, r: seq<Token>, table: ParsedTable)
    requires TableReadable(e) && i <= |e.attributes|
    requires table.columns == BareColumns(e.attributes)[..i]
    requires i < |e.attributes| || e.PrimaryKey() != []
    ensures Items(JoinTokens((ColumnItems(e.attributes) + KeyItems(e))[i..], [Punct(',')]) + [Punct(')')] + r, table)
         == table.(columns := if e.PrimaryKey() == [] then BareColumns(e.attributes)
                              else MarkPrimary(BareColumns(e.attributes), TrimmedNames(e.PrimaryKey())))
    decreases |e.attributes| - i
  {
    hide MarkPrimary, Trim, KeyColumns, Item, ColumnTokens, KeyItem, BareColumn, UniqueColumnNames, ColumnReadable;
    var items := ColumnItems(e.attributes) + KeyItems(e);
    var all := JoinTokens(items[i..], [Punct(',')]) + [Punct(')')] + r;
    var bare := BareColumns(e.attributes);
    if i == |e.attributes| {
      assert items[i..] == [KeyItem(e)];
      assert bare[..i] == bare;
      KeyItemRead(e, [Punct(')')] + r, table);
      assert all == KeyItem(e) + ([Punct(')')] + r);
      ItemsStop(all, table, [Punct(')')] + r);
      KeyItemHead(e, [Punct(')')] + r);
    } else {
      var a := e.attributes[i];
      assert items[i..][0] == ColumnTokens(a);
      assert items[i..][1..] == items[i + 1..];
      var next := table.(columns := table.columns + [BareColumn(a)]);
      assert bare[..i + 1] == bare[..i] + [BareColumn(a)];
      if |items[i..]| == 1 {
        ColumnItemRead(a, [Punct(')')] + r, table);
        assert all == ColumnTokens(a) + ([Punct(')')] + r);
        ItemsStop(all, table, [Punct(')')] + r);
        ColumnHead(a, [Punct(')')] + r);
        assert bare[..i + 1] == bare;
      } else {
        var tail := JoinTokens(items[i + 1..], [Punct(',')]) + [Punct(')')] + r;
        ColumnItemRead(a, [Punct(',')] + tail, table);
        assert all == ColumnTokens(a) + ([Punct(',')] + tail);
        assert ([Punct(',')] + tail)[1..] == tail;
        ColumnHead(a, [Punct(',')] + tail);
        ItemsRead(e, i + 1, r, next);
      }
    }
  }

  lemma ColumnHead(a: Attribute, r: seq<Token>)
    ensures var all := ColumnTokens(a) + r; all != [] && !AtPunct(all, ')')
  {
    assert (ColumnTokens(a) + r)[0] == NameToken(a.name);
  }

  lemma KeyItemHead(e: Entity, r: seq<Token>)
    ensures var all := KeyItem(e) + r; all != [] && !AtPunct(all, ')')
  {
    assert (KeyItem(e) + r)[0] == Word("primary");
  }

  lemma ItemsStop(all: seq<Token>, table: ParsedTable, r: seq<Token>)
    requires Item(all, table).0 == r && AtPunct(r, ')')
    ensures all != [] && !AtPunct(all, ')') ==> Items(all, table) == Item(all, table).1
  {
    hide Item;
  }

  // ----- the key -----

  lemma FindsColumn(attributes: seq<Attribute>, columns: seq<ParsedColumn>, i: nat)
    requires UniqueColumnNames(attributes) && |columns| == |attributes| && i < |attributes|
    requires forall k :: 0 <= k < |columns| ==> columns[k].name == Trim(attributes[k].name)
    ensures FindColumn(columns, Trim(attributes[i].name)) == Some(i)
  {
    hide Trim, Lower;
    var p := (c: ParsedColumn) => Same(c.name, Trim(attributes[i].name));
    assert p(columns[i]);
    forall j | 0 <= j < i
      ensures !p(columns[j])
    {
    }
    FirstIs(columns, p, i);
  }

  /** The first `i` columns with their key flags, the others still without. */
  function PartlyKept(attributes: seq<Attribute>, i: nat): (r: seq<ParsedColumn>)
    requires i <= |attributes|
    ensures |r| == |attributes|
    ensures forall k :: 0 <= k < |r| ==> r[k] == if k < i then KeptColumn(attributes[k]) else BareColumn(attributes[k])
  {
    seq(|attributes|, k requires 0 <= k < |attributes| => if k < i then KeptColumn(attributes[k]) else BareColumn(attributes[k]))
  }

  lemma {:induction false} KeyIsMarked(attributes: seq<Attribute>, i: nat)
    requires UniqueColumnNames(attributes) && i <= |attributes|
    ensures MarkPrimary(PartlyKept(attributes, i), TrimmedNames(KeyColumns(attributes[i..]))) == KeptColumns(attributes)
    decreases |attributes| - i
  {
    hide Trim, FindColumn, UniqueColumnNames, DefaultKept;
    if i == |attributes| {
      assert PartlyKept(attributes, i) == KeptColumns(attributes);
      assert attributes[i..] == [];
      assert TrimmedNames([]) == [];
    } else {
      var a, before := attributes[i], PartlyKept(attributes, i);
      assert attributes[i..][1..] == attributes[i + 1..];
      KeyIsMarked(attributes, i + 1);
      if a.primaryKey {
        var names := TrimmedNames(KeyColumns(attributes[i..]));
        assert names[0] == Trim(a.name);
        assert names[1..] == TrimmedNames(KeyColumns(attributes[i + 1..]));
        FindsColumn(attributes, before, i);
        assert before[i := before[i].(primaryKey := true, nullable := false)] == PartlyKept(attributes, i + 1);
      } else {
        assert before == PartlyKept(attributes, i + 1);
      }
    }
  }

  /** A table's own statement is read back whole: every column's name, type as
      written, nullability, key flag, uniqueness apart from the key, and default
      as normalised, in order, with nothing skipped, whatever words the names
      are. */
  lemma ParsedTableIs(e: Entity)
    requires TableReadable(e)
    ensures Parsed(TableTokens(e)) == Some(ParsedTable(Trim(e.name), KeptColumns(e.attributes), [], []))
  {
    hide Items, Trim, KeyColumns, MarkPrimary, UniqueColumnNames, ColumnReadable, ColumnItems, KeyItem, JoinTokens, BareColumn, DefaultKept;
    var all := TableTokens(e);
    var inner := JoinTokens(ColumnItems(e.attributes) + KeyItems(e), [Punct(',')]) + [Punct(')')];
    var name := NameToken(e.name);
    assert all == [Word("create"), Word("table"), name, Punct('(')] + inner;
    assert all[1..] == [Word("table"), name, Punct('(')] + inner;
    assert all[1..][1..] == [name, Punct('(')] + inner;
    assert all[1..][1..][1..] == [Punct('(')] + inner;
    assert all[1..][1..][1..][1..] == inner;
    var table := ParsedTable(Trim(e.name), [], [], []);
    assert Parsed(all) == Some(Items(inner, table)) by {
      HeadParsed(all, Trim(e.name), inner);
    }
    BareItems(e, inner, table);
    assert PartlyKept(e.attributes, 0) == BareColumns(e.attributes);
    assert e.attributes[0..] == e.attributes;
    KeyIsMarked(e.attributes, 0);
    if e.PrimaryKey() == [] {
      assert TrimmedNames([]) == [];
      assert MarkPrimary(BareColumns(e.attributes), []) == BareColumns(e.attributes) by {
        MarkNothing(BareColumns(e.attributes));
      }
    }
  }

  lemma MarkNothing(columns: seq<ParsedColumn>)
    ensures MarkPrimary(columns, []) == columns
  {
  }

  lemma TableReached(rest: seq<Token>)
    requires AtWord(rest, "table")
    ensures SkipToTable(rest) == rest
  {
  }

  /** A quoted name that no dot follows. */
  lemma QuotedNameRead(name: string, r: seq<Token>)
    requires !AtPunct(r, '.')
    ensures QualifiedName([Quoted(name)] + r) == (Some(name), r)
  {
    assert ([Quoted(name)] + r)[1..] == r;
  }

  lemma HeadParsed(all: seq<Token>, name: string, inner: seq<Token>)
    requires all == [Word("create"), Word("table"), Quoted(name), Punct('(')] + inner
    ensures Parsed(all) == Some(Items(inner, ParsedTable(name, [], [], [])))
  {
    hide Items, QualifiedName, SkipToTable;
    var after := [Punct('(')] + inner;
    assert all[1..] == [Word("table")] + ([Quoted(name)] + after);
    assert all[1..][1..] == [Quoted(name)] + after;
    assert after[1..] == inner;
    TableReached(all[1..]);
    QuotedNameRead(name, after);
    assert ([Quoted(name)] + after)[0] != Word("if");
    assert !AtWords([Quoted(name)] + after, ["if", "not", "exists"]) by {
      assert ["if", "not", "exists"][0] == "if";
    }
  }

  lemma BareItems(e: Entity, inner: seq<Token>, table: ParsedTable)
    requires TableReadable(e) && table.columns == []
    requires inner == JoinTokens(ColumnItems(e.attributes) + KeyItems(e), [Punct(',')]) + [Punct(')')]
    ensures Items(inner, table) == table.(columns := if e.PrimaryKey() == [] then BareColumns(e.attributes)
                                          else MarkPrimary(BareColumns(e.attributes), TrimmedNames(e.PrimaryKey())))
  {
    hide Item, Trim, KeyColumns, MarkPrimary, UniqueColumnNames, ColumnReadable, KeyItem, BareColumn, ColumnTokens;
    var items := ColumnItems(e.attributes) + KeyItems(e);
    assert BareColumns(e.attributes)[..0] == [];
    if items == [] {
      assert inner == [Punct(')')];
      assert BareColumns(e.attributes) == [];
    } else {
      assert items[0..] == items && inner + [] == inner;
      ItemsRead(e, 0, [], table);
    }
  }
}
