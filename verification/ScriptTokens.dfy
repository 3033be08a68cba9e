/** The tokens each part of a generated script scans to. */
module ScriptTokens {
  import opened Options
  import opened Strings
  import opened Decimal
  import opened Domain
  import opened Scanning
  import opened Rendering
  import opened Lexing
  import opened Generator

  /** The lists one after the other, with `separator` between. */
  function JoinTokens(parts: seq<seq<Token>>, separator: seq<Token>): seq<Token> {
    if parts == [] then []
    else if |parts| == 1 then parts[0]
    else parts[0] + separator + JoinTokens(parts[1..], separator)
  }

  // ----- what is meant by each part -----

  function KindWords(kind: DataTypeKind): seq<Token> {
    if kind.DoublePrecision? then [Word("double"), Word("precision")] else [Word(KindText(kind))]
  }

  function OneParameter(n: nat): seq<Token> {
    [Punct('('), Number(NatText(n)), Punct(')')]
  }

  function ParameterTokens(t: DataType): seq<Token> {
    if t.kind.TakesLength() then
      match t.length
      case Some(n) => OneParameter(n)
      case None => []
    else if t.kind.TakesPrecision() then
      match (t.precision, t.scale)
      case (Some(p), Some(s)) => [Punct('('), Number(NatText(p)), Punct(','), Number(NatText(s)), Punct(')')]
      case (Some(p), None) => OneParameter(p)
      case _ => []
    else []
  }

  function NullTokens(a: Attribute): seq<Token> {
    if !a.nullable then [Word("not"), Word("null")] else []
  }

  function DefaultTokens(a: Attribute): seq<Token> {
    match a.defaultValue
    case None => []
    case Some(text) => [Word("default")] + TokensOf(text)
  }

  function UniqueTokens(a: Attribute): seq<Token> {
    if a.unique && !a.primaryKey then [Word("unique")] else []
  }

  function NameToken(name: string): Token {
    Quoted(Trim(name))
  }

  function ColumnTokens(a: Attribute): seq<Token> {
    [NameToken(a.name)] + KindWords(a.dataType.kind) + ParameterTokens(a.dataType)
    + NullTokens(a) + DefaultTokens(a) + UniqueTokens(a)
  }

  function NameTokens(attributes: seq<Attribute>): (r: seq<seq<Token>>)
    ensures |r| == |attributes| && forall i :: 0 <= i < |r| ==> r[i] == [NameToken(attributes[i].name)]
  {
    seq(|attributes|, i requires 0 <= i < |attributes| => [NameToken(attributes[i].name)])
  }

  function KeyItem(e: Entity): seq<Token> {
    [Word("primary"), Word("key"), Punct('(')] + JoinTokens(NameTokens(e.PrimaryKey()), [Punct(',')]) + [Punct(')')]
  }

  function KeyItems(e: Entity): seq<seq<Token>> {
    if e.PrimaryKey() == [] then [] else [KeyItem(e)]
  }

  function ColumnItems(attributes: seq<Attribute>): (r: seq<seq<Token>>)
    ensures |r| == |attributes| && forall i :: 0 <= i < |r| ==> r[i] == ColumnTokens(attributes[i])
  {
    seq(|attributes|, i requires 0 <= i < |attributes| => ColumnTokens(attributes[i]))
  }

  function TableTokens(e: Entity): seq<Token> {
    [Word("create"), Word("table"), NameToken(e.name), Punct('(')]
    + JoinTokens(ColumnItems(e.attributes) + KeyItems(e), [Punct(',')]) + [Punct(')')]
  }

  function ForeignKeyTokens(e: Entity, a: Attribute, target: Entity, key: Attribute): seq<Token> {
    [Word("alter"), Word("table"), NameToken(e.name),
     Word("add"), Word("constraint"), NameToken(ConstraintName(e.name, a.name)),
     Word("foreign"), Word("key"), Punct('('), NameToken(a.name), Punct(')'),
     Word("references"), NameToken(target.name), Punct('('), NameToken(key.name), Punct(')')]
  }

  function TableCommentTokens(e: Entity): seq<Token> {
    [Word("comment"), Word("on"), Word("table"), NameToken(e.name), Word("is"), Token.Text(Trim(e.description))]
  }

  function ColumnCommentTokens(e: Entity, a: Attribute): seq<Token> {
    [Word("comment"), Word("on"), Word("column"), NameToken(e.name), Punct('.'), NameToken(a.name),
     Word("is"), Token.Text(Trim(a.description))]
  }

  // ----- types -----

  lemma UpperConcat(a: string, b: string)
    ensures Upper(a + b) == Upper(a) + Upper(b)
  {
  }

  lemma UpperSame(a: string)
    requires forall i :: 0 <= i < |a| ==> !('a' <= a[i] <= 'z')
    ensures Upper(a) == a
  {
  }

  lemma UpperNat(n: nat)
    ensures Upper(NatText(n)) == NatText(n)
  {
    UpperSame(NatText(n));
  }

  predicate LowerLetters(s: string) {
    s != "" && forall i :: 0 <= i < |s| ==> 'a' <= s[i] <= 'z'
  }

  lemma KindLetters(kind: DataTypeKind)
    requires !kind.DoublePrecision?
    ensures LowerLetters(KindText(kind))
  {
  }

  lemma LettersOpen(s: string)
    requires LowerLetters(s)
    ensures Open(Upper(s), [Word(s)])
  {
    KeywordOpen(Upper(s), s);
  }

  lemma KindOpen(kind: DataTypeKind)
    ensures Open(Upper(KindText(kind)), KindWords(kind))
  {
    hide Open;
    if kind.DoublePrecision? {
      assert "double precision" == "double" + " " + "precision";
      UpperConcat("double" + " ", "precision");
      UpperConcat("double", " ");
      assert Upper(" ") == " ";
      TwoKeywords(Upper("double"), "double", Upper("precision"), "precision");
    } else {
      KindLetters(kind);
      LettersOpen(KindText(kind));
    }
  }

  lemma OneParameterOpen(n: nat)
    ensures Open("(" + NatText(n) + ")", OneParameter(n))
  {
    hide Open, Closed;
    var number := Number(NatText(n));
    MarkClosed('(');
    MarkClosed(')');
    NatTextOpen(n);
    ClosedOpen("(", [Punct('(')], NatText(n), [number]);
    assert [Punct('(')] + [number] == [Punct('('), number];
    ClosedIsOpen(")", [Punct(')')]);
    OpenOpen("(" + NatText(n), [Punct('('), number], ")", [Punct(')')]);
    assert [Punct('('), number] + [Punct(')')] == OneParameter(n);
  }

  lemma TwoParametersOpen(p: nat, s: nat)
    ensures Open("(" + NatText(p) + ", " + NatText(s) + ")",
                 [Punct('('), Number(NatText(p)), Punct(','), Number(NatText(s)), Punct(')')])
  {
    hide Open, Closed;
    var first, second := Number(NatText(p)), Number(NatText(s));
    MarkClosed('(');
    MarkClosed(',');
    MarkClosed(')');
    GapClosed(" ");
    NatTextOpen(p);
    NatTextOpen(s);
    ClosedOpen("(", [Punct('(')], NatText(p), [first]);
    assert [Punct('(')] + [first] == [Punct('('), first];
    ClosedClosed(",", [Punct(',')], " ", []);
    assert "," + " " == ", " && [Punct(',')] + [] == [Punct(',')];
    OpenClosed("(" + NatText(p), [Punct('('), first], ", ", [Punct(',')]);
    ClosedOpen("(" + NatText(p) + ", ", [Punct('('), first] + [Punct(',')], NatText(s), [second]);
    ClosedIsOpen(")", [Punct(')')]);
    OpenOpen("(" + NatText(p) + ", " + NatText(s), [Punct('('), first] + [Punct(',')] + [second], ")", [Punct(')')]);
    assert [Punct('('), first] + [Punct(',')] + [second] + [Punct(')')]
        == [Punct('('), first, Punct(','), second, Punct(')')];
  }

  lemma TypeOpen(t: DataType)
    ensures Open(Upper(TypeText(t)), KindWords(t.kind) + ParameterTokens(t))
  {
    hide Open, Closed, KindText, NatText, KindWords;
    var kind := KindText(t.kind);
    KindOpen(t.kind);
    assert KindWords(t.kind) + [] == KindWords(t.kind);
    if t.kind.TakesLength() && t.length.Some? {
      OneParameterType(t.kind, t.length.value);
    } else if t.kind.TakesPrecision() && t.precision.Some? && t.scale.Some? {
      TwoParameterType(t.kind, t.precision.value, t.scale.value);
    } else if t.kind.TakesPrecision() && t.precision.Some? {
      OneParameterType(t.kind, t.precision.value);
    }
  }

  lemma OneParameterType(kind: DataTypeKind, n: nat)
    ensures Open(Upper(KindText(kind) + "(" + NatText(n) + ")"), KindWords(kind) + OneParameter(n))
  {
    hide Open, KindText, NatText, KindWords;
    var text := KindText(kind);
    UpperConcat(text + "(" + NatText(n), ")");
    UpperConcat(text + "(", NatText(n));
    UpperConcat(text, "(");
    UpperNat(n);
    UpperSame("(");
    UpperSame(")");
    KindOpen(kind);
    OneParameterOpen(n);
    OpenOpen(Upper(text), KindWords(kind), "(" + NatText(n) + ")", OneParameter(n));
    assert Upper(text) + ("(" + NatText(n) + ")") == Upper(text) + "(" + NatText(n) + ")";
  }

  lemma TwoParameterType(kind: DataTypeKind, p: nat, s: nat)
    ensures Open(Upper(KindText(kind) + "(" + NatText(p) + ", " + NatText(s) + ")"),
                 KindWords(kind) + [Punct('('), Number(NatText(p)), Punct(','), Number(NatText(s)), Punct(')')])
  {
    hide Open, KindText, NatText, KindWords;
    var text := KindText(kind);
    UpperConcat(text + "(" + NatText(p) + ", " + NatText(s), ")");
    UpperConcat(text + "(" + NatText(p) + ", ", NatText(s));
    UpperConcat(text + "(" + NatText(p), ", ");
    UpperConcat(text + "(", NatText(p));
    UpperConcat(text, "(");
    UpperNat(p);
    UpperNat(s);
    UpperSame("(");
    UpperSame(", ");
    UpperSame(")");
    KindOpen(kind);
    TwoParametersOpen(p, s);
    OpenOpen(Upper(text), KindWords(kind), "(" + NatText(p) + ", " + NatText(s) + ")",
             [Punct('('), Number(NatText(p)), Punct(','), Number(NatText(s)), Punct(')')]);
    assert Upper(text) + ("(" + NatText(p) + ", " + NatText(s) + ")")
        == Upper(text) + "(" + NatText(p) + ", " + NatText(s) + ")";
  }

  // ----- columns -----

  /** A default that a script gives back as it was written. */
  predicate StableText(text: string) {
    Normalized(text) == text
  }

  predicate StableDefault(a: Attribute) {
    a.defaultValue.Some? ==> StableText(a.defaultValue.value)
  }

  /** Wherever it stands, the text scans to its own tokens and no more: no open
      quote or comment reaches past its end. */
  ghost predicate LexesAlone(text: string) {
    Open(text, TokensOf(text))
  }

  ghost predicate DefaultLexes(a: Attribute) {
    a.defaultValue.Some? ==> LexesAlone(a.defaultValue.value)
  }

  lemma StableLexes(text: string)
    requires StableText(text)
    ensures LexesAlone(text)
  {
    hide Open, TokensOf, Render;
    TokensOfScannable(text);
    RenderOpen(TokensOf(text));
  }

  lemma QuoteOpen(name: string)
    ensures Open(Quote(name), [NameToken(name)])
  {
    TokenOpen(NameToken(name));
  }

  lemma LiteralOpen(value: string)
    ensures Open(Literal(value), [Token.Text(Trim(value))])
  {
    TokenOpen(Token.Text(Trim(value)));
  }

  /** A keyword with a space before it. */
  lemma SpacedKeyword(upper: string, lower: string)
    requires upper != "" && IsUpperOf(upper, lower)
    ensures Open(" " + upper, [Word(lower)])
  {
    hide Open, Closed;
    GapClosed(" ");
    KeywordOpen(upper, lower);
    ClosedOpen(" ", [], upper, [Word(lower)]);
    assert [] + [Word(lower)] == [Word(lower)];
  }

  /** A keyword with a space on either side. */
  lemma KeywordBetween(upper: string, lower: string)
    requires upper != "" && IsUpperOf(upper, lower)
    ensures Closed(" " + upper + " ", [Word(lower)])
  {
    hide Open, Closed;
    SpacedKeyword(upper, lower);
    GapClosed(" ");
    OpenClosed(" " + upper, [Word(lower)], " ", []);
    assert [Word(lower)] + [] == [Word(lower)];
  }

  lemma NotNullOpen()
    ensures Open(" NOT NULL", [Word("not"), Word("null")])
  {
    hide Open, Closed;
    SpacedKeyword("NOT", "not");
    SpacedKeyword("NULL", "null");
    assert " " + "NOT" == " NOT" && " " + "NULL" == " NULL";
    OpenOpen(" NOT", [Word("not")], " NULL", [Word("null")]);
    assert " NOT" + " NULL" == " NOT NULL";
    assert [Word("not")] + [Word("null")] == [Word("not"), Word("null")];
  }

  lemma DefaultOpen(text: string)
    requires LexesAlone(text)
    ensures Open(" DEFAULT " + text, [Word("default")] + TokensOf(text))
  {
    hide Open, Closed, TokensOf;
    KeywordBetween("DEFAULT", "default");
    assert " " + "DEFAULT" + " " == " DEFAULT ";
    ClosedOpen(" DEFAULT ", [Word("default")], text, TokensOf(text));
  }

  /** An optional part that, when it is there, begins with a space. */
  lemma OpenMore(a: string, ta: seq<Token>, b: string, tb: seq<Token>)
    requires Open(a, ta)
    requires b == "" ==> tb == []
    requires b != "" ==> Open(b, tb) && StopsAhead(b)
    ensures Open(a + b, ta + tb)
  {
    hide Open;
    if b == "" {
      assert a + b == a && ta + tb == ta;
    } else {
      OpenOpen(a, ta, b, tb);
    }
  }

  lemma ColumnHeadOpen(a: Attribute)
    ensures Open(Quote(a.name) + " " + Upper(TypeText(a.dataType)),
                 [NameToken(a.name)] + KindWords(a.dataType.kind) + ParameterTokens(a.dataType))
  {
    hide Open, Closed, Quote, NameToken, KindWords, ParameterTokens, TypeText;
    QuoteOpen(a.name);
    GapClosed(" ");
    OpenClosed(Quote(a.name), [NameToken(a.name)], " ", []);
    TypeOpen(a.dataType);
    ClosedOpen(Quote(a.name) + " ", [NameToken(a.name)] + [], Upper(TypeText(a.dataType)),
               KindWords(a.dataType.kind) + ParameterTokens(a.dataType));
    assert [NameToken(a.name)] + [] + (KindWords(a.dataType.kind) + ParameterTokens(a.dataType))
        == [NameToken(a.name)] + KindWords(a.dataType.kind) + ParameterTokens(a.dataType);
  }

  lemma ColumnOpen(a: Attribute)
    requires DefaultLexes(a)
    ensures Open(ColumnLine(a), ColumnTokens(a))
  {
    hide Open, Closed, Quote, NameToken, KindWords, ParameterTokens, TypeText, TokensOf, LexesAlone;
    var head := Quote(a.name) + " " + Upper(TypeText(a.dataType));
    var tokens := [NameToken(a.name)] + KindWords(a.dataType.kind) + ParameterTokens(a.dataType);
    ColumnHeadOpen(a);
    NotNullOpen();
    var notNull := if !a.nullable then " NOT NULL" else "";
    OpenMore(head, tokens, notNull, NullTokens(a));
    if a.defaultValue.Some? {
      DefaultOpen(a.defaultValue.value);
    }
    OpenMore(head + notNull, tokens + NullTokens(a), DefaultClause(a), DefaultTokens(a));
    SpacedKeyword("UNIQUE", "unique");
    assert " " + "UNIQUE" == " UNIQUE";
    var unique := if a.unique && !a.primaryKey then " UNIQUE" else "";
    OpenMore(head + notNull + DefaultClause(a), tokens + NullTokens(a) + DefaultTokens(a), unique, UniqueTokens(a));
  }

  // ----- lists -----

  lemma {:induction false} JoinOpen(parts: seq<string>, tokens: seq<seq<Token>>, separator: string, between: seq<Token>)
    requires |parts| == |tokens| && parts != [] && forall i :: 0 <= i < |parts| ==> Open(parts[i], tokens[i])
    requires Closed(separator, between) && StopsAhead(separator)
    ensures Open(Join(parts, separator), JoinTokens(tokens, between))
  {
    hide Open, Closed, StopsAhead;
    if |parts| > 1 {
      JoinOpen(parts[1..], tokens[1..], separator, between);
      OpenClosed(parts[0], tokens[0], separator, between);
      ClosedOpen(parts[0] + separator, tokens[0] + between, Join(parts[1..], separator), JoinTokens(tokens[1..], between));
    }
  }

  lemma CommaClosed(gap: string)
    requires gap == " " || gap == "\n    "
    ensures Closed("," + gap, [Punct(',')])
  {
    hide Open, Closed;
    MarkClosed(',');
    GapClosed(gap);
    ClosedClosed(",", [Punct(',')], gap, []);
    assert [Punct(',')] + [] == [Punct(',')];
  }

  lemma NamesOpen(attributes: seq<Attribute>)
    requires attributes != []
    ensures Open(Join(QuotedNames(attributes), ", "), JoinTokens(NameTokens(attributes), [Punct(',')]))
  {
    hide Open, Closed, Quote, NameToken;
    CommaClosed(" ");
    assert "," + " " == ", ";
    forall i | 0 <= i < |attributes|
      ensures Open(QuotedNames(attributes)[i], NameTokens(attributes)[i])
    {
      QuoteOpen(attributes[i].name);
    }
    JoinOpen(QuotedNames(attributes), NameTokens(attributes), ", ", [Punct(',')]);
  }

  lemma KeyLineOpen(e: Entity)
    requires e.PrimaryKey() != []
    ensures Open(KeyLines(e)[0], KeyItem(e))
  {
    hide Open, Closed, Join, JoinTokens, KeyColumns;
    var names := Join(QuotedNames(e.PrimaryKey()), ", ");
    var tokens := JoinTokens(NameTokens(e.PrimaryKey()), [Punct(',')]);
    TwoKeywords("PRIMARY", "primary", "KEY", "key");
    GapClosed(" ");
    MarkClosed('(');
    MarkClosed(')');
    ClosedClosed(" ", [], "(", [Punct('(')]);
    OpenClosed("PRIMARY" + " " + "KEY", [Word("primary"), Word("key")], " " + "(", [] + [Punct('(')]);
    assert "PRIMARY" + " " + "KEY" + (" " + "(") == "PRIMARY KEY (";
    var head := [Word("primary"), Word("key"), Punct('(')];
    assert [Word("primary"), Word("key")] + ([] + [Punct('(')]) == head;
    NamesOpen(e.PrimaryKey());
    ClosedOpen("PRIMARY KEY (", head, names, tokens);
    ClosedIsOpen(")", [Punct(')')]);
    OpenOpen("PRIMARY KEY (" + names, head + tokens, ")", [Punct(')')]);
  }

  // ----- whole statements -----

  /** `text` is a statement of its own, ended. */
  ghost predicate Whole(text: string, tokens: seq<Token>) {
    forall r: string, scan: Scan :: scan.tokens == [] ==>
      ScanFrom(text + r, scan) == ScanFrom(r, scan.(statements := scan.statements + [tokens]))
  }

  lemma OpenSemicolon(body: string, tokens: seq<Token>)
    requires Open(body, tokens) && tokens != []
    ensures Whole(body + ";", tokens)
  {
    hide ScanFrom;
    forall r, scan: Scan | scan.tokens == []
      ensures ScanFrom(body + ";" + r, scan) == ScanFrom(r, scan.(statements := scan.statements + [tokens]))
    {
      assert body + ";" + r == body + (";" + r);
      assert Stops(";" + r);
      SemicolonStep(r, PushAll(scan, tokens));
      assert [] + tokens == tokens;
    }
  }

  lemma CreateHeadClosed(name: string)
    ensures Open("CREATE TABLE " + Quote(name), [Word("create"), Word("table"), NameToken(name)])
  {
    hide Open, Closed, Quote, NameToken;
    TwoKeywords("CREATE", "create", "TABLE", "table");
    GapClosed(" ");
    OpenClosed("CREATE" + " " + "TABLE", [Word("create"), Word("table")], " ", []);
    assert "CREATE" + " " + "TABLE" + " " == "CREATE TABLE ";
    QuoteOpen(name);
    ClosedOpen("CREATE TABLE ", [Word("create"), Word("table")] + [], Quote(name), [NameToken(name)]);
    assert [Word("create"), Word("table")] + [] + [NameToken(name)] == [Word("create"), Word("table"), NameToken(name)];
  }

  lemma SpaceParen(gap: string)
    requires gap == "" || gap == "\n    "
    ensures Closed(" (" + gap, [Punct('(')])
  {
    hide Open, Closed;
    GapClosed(" ");
    GapClosed(gap);
    MarkClosed('(');
    ClosedClosed(" ", [], "(", [Punct('(')]);
    ClosedClosed(" " + "(", [] + [Punct('(')], gap, []);
    assert [] + [Punct('(')] + [] == [Punct('(')] && " " + "(" == " (";
  }

  lemma EmptyTableWhole(e: Entity)
    requires ColumnLines(e.attributes) + KeyLines(e) == []
    ensures Whole(CreateTable(e), TableTokens(e))
  {
    hide Open, Closed, Quote, NameToken, Whole;
    assert ColumnItems(e.attributes) + KeyItems(e) == [];
    var head := [Word("create"), Word("table"), NameToken(e.name)];
    CreateHeadClosed(e.name);
    SpaceParen("");
    assert " (" + "" == " (";
    OpenClosed("CREATE TABLE " + Quote(e.name), head, " (", [Punct('(')]);
    MarkClosed(')');
    ClosedIsOpen(")", [Punct(')')]);
    ClosedOpen("CREATE TABLE " + Quote(e.name) + " (", head + [Punct('(')], ")", [Punct(')')]);
    assert "CREATE TABLE " + Quote(e.name) + " (" + ")" + ";" == CreateTable(e);
    assert head + [Punct('(')] + [Punct(')')] == TableTokens(e);
    OpenSemicolon("CREATE TABLE " + Quote(e.name) + " (" + ")", TableTokens(e));
  }

  lemma ItemsOpen(e: Entity)
    requires forall i :: 0 <= i < |e.attributes| ==> DefaultLexes(e.attributes[i])
    requires ColumnLines(e.attributes) + KeyLines(e) != []
    ensures Open(Join(ColumnLines(e.attributes) + KeyLines(e), ",\n    "),
                 JoinTokens(ColumnItems(e.attributes) + KeyItems(e), [Punct(',')]))
  {
    hide Open, Closed, ColumnLine, ColumnTokens, KeyItem, DefaultLexes;
    var lines, items := ColumnLines(e.attributes) + KeyLines(e), ColumnItems(e.attributes) + KeyItems(e);
    forall i | 0 <= i < |lines|
      ensures Open(lines[i], items[i])
    {
      if i < |e.attributes| {
        ColumnOpen(e.attributes[i]);
      } else {
        KeyLineOpen(e);
      }
    }
    CommaClosed("\n    ");
    assert "," + "\n    " == ",\n    ";
    JoinOpen(lines, items, ",\n    ", [Punct(',')]);
  }

  /** A table's statement scans to its tokens, whatever its names hold. */
  lemma TableWhole(e: Entity)
    requires forall i :: 0 <= i < |e.attributes| ==> DefaultLexes(e.attributes[i])
    ensures Whole(CreateTable(e), TableTokens(e))
  {
    hide Open, Closed, Quote, NameToken, Whole, Join, JoinTokens, ColumnLine, ColumnTokens, KeyItem, DefaultLexes, KeyColumns;
    var lines := ColumnLines(e.attributes) + KeyLines(e);
    if lines == [] {
      EmptyTableWhole(e);
    } else {
      var body := Join(lines, ",\n    ");
      var items := JoinTokens(ColumnItems(e.attributes) + KeyItems(e), [Punct(',')]);
      var head := [Word("create"), Word("table"), NameToken(e.name)];
      CreateHeadClosed(e.name);
      SpaceParen("\n    ");
      assert " (" + "\n    " == " (\n    ";
      OpenClosed("CREATE TABLE " + Quote(e.name), head, " (\n    ", [Punct('(')]);
      ItemsOpen(e);
      ClosedOpen("CREATE TABLE " + Quote(e.name) + " (\n    ", head + [Punct('(')], body, items);
      NewlineParen();
      OpenOpen("CREATE TABLE " + Quote(e.name) + " (\n    " + body, head + [Punct('(')] + items, "\n)", [Punct(')')]);
      assert "CREATE TABLE " + Quote(e.name) + " (\n    " + body + "\n)" + ";" == CreateTable(e);
      assert head + [Punct('(')] + items + [Punct(')')] == TableTokens(e);
      OpenSemicolon("CREATE TABLE " + Quote(e.name) + " (\n    " + body + "\n)", TableTokens(e));
    }
  }

  lemma NewlineParen()
    ensures Open("\n)", [Punct(')')])
  {
    hide Open, Closed;
    GapClosed("\n");
    MarkClosed(')');
    ClosedClosed("\n", [], ")", [Punct(')')]);
    assert "\n" + ")" == "\n)" && [] + [Punct(')')] == [Punct(')')];
    ClosedIsOpen("\n)", [Punct(')')]);
  }
}
