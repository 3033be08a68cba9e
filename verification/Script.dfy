/** A generated script, scanned: one statement for each table, foreign key and
    comment, and each table's hint above its own statement. */
module Script {
  import opened Options
  import opened Strings
  import opened Decimal
  import opened Domain
  import opened Scanning
  import opened Rendering
  import opened Lexing
  import opened Generator
  import opened ScriptTokens

  // ----- foreign keys -----

  lemma AlterHeadOpen(e: Entity)
    ensures Open("ALTER TABLE " + Quote(e.name), [Word("alter"), Word("table"), NameToken(e.name)])
  {
    hide Open, Closed, Quote, NameToken;
    TwoKeywords("ALTER", "alter", "TABLE", "table");
    GapClosed(" ");
    OpenClosed("ALTER" + " " + "TABLE", [Word("alter"), Word("table")], " ", []);
    assert "ALTER" + " " + "TABLE" + " " == "ALTER TABLE ";
    QuoteOpen(e.name);
    ClosedOpen("ALTER TABLE ", [Word("alter"), Word("table")] + [], Quote(e.name), [NameToken(e.name)]);
    assert [Word("alter"), Word("table")] + [] + [NameToken(e.name)] == [Word("alter"), Word("table"), NameToken(e.name)];
  }

  lemma AddConstraintOpen(name: string)
    ensures Open("\n    ADD CONSTRAINT " + Quote(name), [Word("add"), Word("constraint"), NameToken(name)])
  {
    hide Open, Closed, Quote, NameToken;
    GapClosed("\n    ");
    TwoKeywords("ADD", "add", "CONSTRAINT", "constraint");
    ClosedOpen("\n    ", [], "ADD" + " " + "CONSTRAINT", [Word("add"), Word("constraint")]);
    GapClosed(" ");
    OpenClosed("\n    " + ("ADD" + " " + "CONSTRAINT"), [] + [Word("add"), Word("constraint")], " ", []);
    assert "\n    " + ("ADD" + " " + "CONSTRAINT") + " " == "\n    ADD CONSTRAINT ";
    QuoteOpen(name);
    ClosedOpen("\n    ADD CONSTRAINT ", [] + [Word("add"), Word("constraint")] + [], Quote(name), [NameToken(name)]);
    assert [] + [Word("add"), Word("constraint")] + [] + [NameToken(name)] == [Word("add"), Word("constraint"), NameToken(name)];
  }

  lemma ForeignKeyPartOpen(name: string)
    ensures Open(" FOREIGN KEY (" + Quote(name), [Word("foreign"), Word("key"), Punct('('), NameToken(name)])
  {
    hide Open, Closed, Quote, NameToken;
    GapClosed(" ");
    TwoKeywords("FOREIGN", "foreign", "KEY", "key");
    ClosedOpen(" ", [], "FOREIGN" + " " + "KEY", [Word("foreign"), Word("key")]);
    SpaceParen("");
    assert " (" + "" == " (";
    OpenClosed(" " + ("FOREIGN" + " " + "KEY"), [] + [Word("foreign"), Word("key")], " (", [Punct('(')]);
    assert " " + ("FOREIGN" + " " + "KEY") + " (" == " FOREIGN KEY (";
    QuoteOpen(name);
    ClosedOpen(" FOREIGN KEY (", [] + [Word("foreign"), Word("key")] + [Punct('(')], Quote(name), [NameToken(name)]);
    assert [] + [Word("foreign"), Word("key")] + [Punct('(')] + [NameToken(name)]
        == [Word("foreign"), Word("key"), Punct('('), NameToken(name)];
  }

  lemma ReferencesPartOpen(name: string)
    ensures Open(") REFERENCES " + Quote(name), [Punct(')'), Word("references"), NameToken(name)])
  {
    hide Open, Closed, Quote, NameToken;
    MarkClosed(')');
    KeywordBetween("REFERENCES", "references");
    ClosedClosed(")", [Punct(')')], " " + "REFERENCES" + " ", [Word("references")]);
    assert ")" + (" " + "REFERENCES" + " ") == ") REFERENCES ";
    QuoteOpen(name);
    ClosedOpen(") REFERENCES ", [Punct(')')] + [Word("references")], Quote(name), [NameToken(name)]);
    assert [Punct(')')] + [Word("references")] + [NameToken(name)] == [Punct(')'), Word("references"), NameToken(name)];
  }

  lemma TargetPartOpen(name: string)
    ensures Open(" (" + Quote(name) + ")", [Punct('('), NameToken(name), Punct(')')])
  {
    hide Open, Closed, Quote, NameToken;
    SpaceParen("");
    assert " (" + "" == " (";
    QuoteOpen(name);
    ClosedOpen(" (", [Punct('(')], Quote(name), [NameToken(name)]);
    MarkClosed(')');
    ClosedIsOpen(")", [Punct(')')]);
    OpenOpen(" (" + Quote(name), [Punct('(')] + [NameToken(name)], ")", [Punct(')')]);
    assert [Punct('(')] + [NameToken(name)] + [Punct(')')] == [Punct('('), NameToken(name), Punct(')')];
  }

  lemma StartsOpen(a: string, b: string)
    requires StopsAhead(a)
    ensures StopsAhead(a + b)
  {
    assert (a + b)[0] == a[0];
  }

  lemma ForeignKeyWhole(e: Entity, a: Attribute, target: Entity, key: Attribute)
    ensures Whole(ForeignKeyStatement(e, a, target, key), ForeignKeyTokens(e, a, target, key))
  {
    hide Open, Closed, Quote, NameToken, Whole, ConstraintName, StopsAhead;
    var c := ConstraintName(e.name, a.name);
    var a1, t1 := "ALTER TABLE " + Quote(e.name), [Word("alter"), Word("table"), NameToken(e.name)];
    var a2, t2 := "\n    ADD CONSTRAINT " + Quote(c), [Word("add"), Word("constraint"), NameToken(c)];
    var a3, t3 := " FOREIGN KEY (" + Quote(a.name), [Word("foreign"), Word("key"), Punct('('), NameToken(a.name)];
    var a4, t4 := ") REFERENCES " + Quote(target.name), [Punct(')'), Word("references"), NameToken(target.name)];
    var a5, t5 := " (" + Quote(key.name) + ")", [Punct('('), NameToken(key.name), Punct(')')];
    AlterHeadOpen(e);
    AddConstraintOpen(c);
    ForeignKeyPartOpen(a.name);
    ReferencesPartOpen(target.name);
    TargetPartOpen(key.name);
    PartsStop();
    StartsOpen("\n    ADD CONSTRAINT ", Quote(c));
    StartsOpen(" FOREIGN KEY (", Quote(a.name));
    StartsOpen(") REFERENCES ", Quote(target.name));
    StartsOpen(" (", Quote(key.name) + ")");
    assert " (" + (Quote(key.name) + ")") == a5;
    OpenOpen(a1, t1, a2, t2);
    OpenOpen(a1 + a2, t1 + t2, a3, t3);
    OpenOpen(a1 + a2 + a3, t1 + t2 + t3, a4, t4);
    OpenOpen(a1 + a2 + a3 + a4, t1 + t2 + t3 + t4, a5, t5);
    OpenSemicolon(a1 + a2 + a3 + a4 + a5, t1 + t2 + t3 + t4 + t5);
    assert t1 + t2 + t3 + t4 + t5 == ForeignKeyTokens(e, a, target, key);
    assert a1 + a2 + a3 + a4 + a5 + ";" == ForeignKeyStatement(e, a, target, key);
  }

  lemma PartsStop()
    ensures StopsAhead("\n    ADD CONSTRAINT ") && StopsAhead(" FOREIGN KEY (")
    ensures StopsAhead(") REFERENCES ") && StopsAhead(" (") && StopsAhead(" IS ")
  {
  }

  // ----- comments -----

  lemma CommentHeadClosed(upper: string, lower: string)
    requires upper != "" && IsUpperOf(upper, lower)
    ensures Closed("COMMENT ON " + upper + " ", [Word("comment"), Word("on"), Word(lower)])
  {
    hide Open, Closed, IsUpperOf;
    assert IsUpperOf("COMMENT", "comment") && IsUpperOf("ON", "on") by {
      CommentWords();
    }
    TwoKeywords("COMMENT", "comment", "ON", "on");
    KeywordBetween(upper, lower);
    assert StopsAhead(" " + upper + " ") by {
      assert (" " + upper + " ")[0] == ' ';
    }
    OpenClosed("COMMENT" + " " + "ON", [Word("comment"), Word("on")], " " + upper + " ", [Word(lower)]);
    assert "COMMENT" + " " + "ON" + (" " + upper + " ") == "COMMENT ON " + upper + " ";
    assert [Word("comment"), Word("on")] + [Word(lower)] == [Word("comment"), Word("on"), Word(lower)];
  }

  lemma CommentWords()
    ensures IsUpperOf("COMMENT", "comment") && IsUpperOf("ON", "on")
    ensures IsUpperOf("TABLE", "table") && IsUpperOf("COLUMN", "column") && IsUpperOf("IS", "is")
  {
  }

  lemma IsPartOpen(value: string)
    ensures Open(" IS " + Literal(value), [Word("is"), Token.Text(Trim(value))])
  {
    hide Open, Closed, Literal, Trim;
    KeywordBetween("IS", "is");
    assert " " + "IS" + " " == " IS ";
    LiteralOpen(value);
    ClosedOpen(" IS ", [Word("is")], Literal(value), [Token.Text(Trim(value))]);
    assert [Word("is")] + [Token.Text(Trim(value))] == [Word("is"), Token.Text(Trim(value))];
  }

  lemma TableCommentWhole(e: Entity)
    ensures Whole("COMMENT ON TABLE " + Quote(e.name) + " IS " + Literal(e.description) + ";", TableCommentTokens(e))
  {
    hide Open, Closed, Quote, NameToken, Whole, Literal, Trim, StopsAhead;
    CommentWords();
    CommentHeadClosed("TABLE", "table");
    assert "COMMENT ON " + "TABLE" + " " == "COMMENT ON TABLE ";
    var head := [Word("comment"), Word("on"), Word("table")];
    QuoteOpen(e.name);
    ClosedOpen("COMMENT ON TABLE ", head, Quote(e.name), [NameToken(e.name)]);
    IsPartOpen(e.description);
    PartsStop();
    StartsOpen(" IS ", Literal(e.description));
    var text := " IS " + Literal(e.description);
    OpenOpen("COMMENT ON TABLE " + Quote(e.name), head + [NameToken(e.name)], text, [Word("is"), Token.Text(Trim(e.description))]);
    assert head + [NameToken(e.name)] + [Word("is"), Token.Text(Trim(e.description))] == TableCommentTokens(e);
    OpenSemicolon("COMMENT ON TABLE " + Quote(e.name) + text, TableCommentTokens(e));
    assert "COMMENT ON TABLE " + Quote(e.name) + text + ";"
        == "COMMENT ON TABLE " + Quote(e.name) + " IS " + Literal(e.description) + ";";
  }

  /** A quoted name followed by a dot. */
  lemma QuotedDotClosed(name: string)
    ensures Closed(Quote(name) + ".", [NameToken(name), Punct('.')])
  {
    hide ScanFrom, Step, Trim;
    MarkClosed('.');
    forall r, scan
      ensures ScanFrom(Quote(name) + "." + r, scan) == ScanFrom(r, PushAll(scan, [NameToken(name), Punct('.')]))
    {
      assert Quote(name) + "." + r == Spell(NameToken(name)) + ("." + r);
      SpelledStep(NameToken(name), "." + r, scan);
      var after := scan.Push(NameToken(name));
      assert ScanFrom("." + r, after) == ScanFrom(r, PushAll(after, [Punct('.')]));
      assert scan.tokens + [NameToken(name)] + [Punct('.')] == scan.tokens + [NameToken(name), Punct('.')];
    }
  }

  lemma ColumnCommentWhole(e: Entity, a: Attribute)
    ensures Whole("COMMENT ON COLUMN " + Quote(e.name) + "." + Quote(a.name) + " IS " + Literal(a.description) + ";",
                  ColumnCommentTokens(e, a))
  {
    hide Open, Closed, Quote, NameToken, Whole, Literal, Trim, StopsAhead;
    CommentWords();
    CommentHeadClosed("COLUMN", "column");
    assert "COMMENT ON " + "COLUMN" + " " == "COMMENT ON COLUMN ";
    var head := [Word("comment"), Word("on"), Word("column")];
    QuotedDotClosed(e.name);
    ClosedClosed("COMMENT ON COLUMN ", head, Quote(e.name) + ".", [NameToken(e.name), Punct('.')]);
    QuoteOpen(a.name);
    var prefix, tokens := "COMMENT ON COLUMN " + (Quote(e.name) + "."), head + [NameToken(e.name), Punct('.')];
    ClosedOpen(prefix, tokens, Quote(a.name), [NameToken(a.name)]);
    IsPartOpen(a.description);
    PartsStop();
    StartsOpen(" IS ", Literal(a.description));
    var text := " IS " + Literal(a.description);
    OpenOpen(prefix + Quote(a.name), tokens + [NameToken(a.name)], text, [Word("is"), Token.Text(Trim(a.description))]);
    assert tokens + [NameToken(a.name)] + [Word("is"), Token.Text(Trim(a.description))] == ColumnCommentTokens(e, a);
    OpenSemicolon(prefix + Quote(a.name) + text, ColumnCommentTokens(e, a));
    assert prefix + Quote(a.name) + text + ";"
        == "COMMENT ON COLUMN " + Quote(e.name) + "." + Quote(a.name) + " IS " + Literal(a.description) + ";";
  }

  // ----- hints -----

  lemma TrimSpaceBefore(t: string)
    requires t != "" && Trimmed(t)
    ensures Trim(" " + t) == t
  {
    assert (" " + t)[1..] == t;
    assert TrimStart(" " + t) == TrimStart(t);
    assert TrimStart(t) == t && TrimEnd(t) == t;
  }

  lemma IntTextShape(n: int)
    ensures IntText(n) != "" && IsDigit(IntText(n)[|IntText(n)| - 1])
    ensures forall i :: 0 <= i < |IntText(n)| ==> !IsSpace(IntText(n)[i]) && IntText(n)[i] != '\n'
  {
    hide NatText;
    var digits := NatText(if n < 0 then -n else n);
    assert forall i :: 0 <= i < |digits| ==> IsDigit(digits[i]);
  }

  lemma {:induction false} SplitDoubled(name: string, r: string)
    requires r == "" || r[0] != '"'
    ensures SplitQuoted(Doubled(name, '"') + "\"" + r) == Some((name, r))
  {
    hide Doubled;
    if name == "" {
      DoubledNothing('"');
      assert Doubled(name, '"') + "\"" + r == "\"" + r;
      assert ("\"" + r)[1..] == r;
    } else {
      SplitDoubled(name[1..], r);
      ReadMore(name, '"', r);
      assert ['"'] == "\"";
      SplitOne(name[0], Doubled(name[1..], '"') + "\"" + r);
      assert name == [name[0]] + name[1..];
    }
  }

  lemma SplitOne(x: char, tail: string)
    requires SplitQuoted(tail).Some?
    ensures x == '"' ==> SplitQuoted(['"', '"'] + tail) == Some((['"'] + SplitQuoted(tail).value.0, SplitQuoted(tail).value.1))
    ensures x != '"' ==> SplitQuoted([x] + tail) == Some(([x] + SplitQuoted(tail).value.0, SplitQuoted(tail).value.1))
  {
    assert (['"', '"'] + tail)[2..] == tail && ([x] + tail)[1..] == tail;
  }

  /** A word with one space before it, and a space or nothing after. */
  lemma NextWordIs(w: string, r: string)
    requires w != "" && forall i :: 0 <= i < |w| ==> !IsSpace(w[i])
    requires r == "" || r[0] == ' '
    ensures NextWord(" " + w + r) == Some((w, r))
  {
    hide IsSpace;
    assert IsSpace(' ') by {
      SpaceIsSpace();
    }
    var s := " " + w + r;
    assert s[1..] == w + r;
    assert (w + r)[0] == w[0];
    assert TrimStart(s) == w + r;
    SpanOf(w, r, IsInk());
    assert (w + r)[..|w|] == w && (w + r)[|w|..] == r;
  }

  lemma SpaceIsSpace()
    ensures IsSpace(' ') && !IsSpace('"') && !IsSpace('@') && !IsSpace('-')
    ensures forall c :: IsDigit(c) ==> !IsSpace(c)
  {
  }

  lemma HintNumbers(x: int, y: int)
    ensures NextWord(" " + IntText(x) + " " + IntText(y)) == Some((IntText(x), " " + IntText(y)))
    ensures NextWord(" " + IntText(y)) == Some((IntText(y), ""))
  {
    hide NextWord, IntText, IsSpace;
    IntTextShape(x);
    IntTextShape(y);
    NextWordIs(IntText(x), " " + IntText(y));
    assert " " + IntText(x) + (" " + IntText(y)) == " " + IntText(x) + " " + IntText(y);
    NextWordIs(IntText(y), "");
    assert " " + IntText(y) + "" == " " + IntText(y);
  }

  /** The end of a hint line: the name in quotes and two numbers. */
  function HintTail(name: string, x: int, y: int): string {
    Quote(name) + " " + IntText(x) + " " + IntText(y)
  }

  lemma HintTailTrimmed(name: string, x: int, y: int)
    ensures HintTail(name, x, y) != "" && HintTail(name, x, y)[0] == '"' && Trimmed(HintTail(name, x, y))
  {
    hide IntText, Doubled, IsSpace, IsDigit;
    IntTextShape(y);
    SpaceIsSpace();
    var t := HintTail(name, x, y);
    assert t[|t| - 1] == IntText(y)[|IntText(y)| - 1];
  }

  lemma ReadHintIs(e: Entity)
    ensures ReadHint(PositionLine(e)) == Some(LayoutHint(Trim(e.name), e.position.x, e.position.y, None))
  {
    hide IntText, Doubled, IsSpace, SplitQuoted, NextWord, ParseInt, Trim, TrimDashes, HintTail;
    var x, y := e.position.x, e.position.y;
    var tail := HintTail(e.name, x, y);
    HintLineParts(e);
    HintTailTrimmed(e.name, x, y);
    assert Trim(TrimDashes(PositionLine(e))) == "@table " + tail;
    var marked := "@table " + tail;
    assert marked[..6] == "@table" && marked[6..] == " " + tail;
    TrimSpaceBefore(tail);
    HintNameIs(e.name, x, y);
    HintNumbers(x, y);
    ParseIntText(x);
    ParseIntText(y);
  }

  lemma HintNameIs(name: string, x: int, y: int)
    ensures HintName(HintTail(name, x, y)) == Some((Trim(name), " " + IntText(x) + " " + IntText(y)))
  {
    hide IntText, Doubled, IsSpace, SplitQuoted, Trim;
    var numbers := " " + IntText(x) + " " + IntText(y);
    var tail := HintTail(name, x, y);
    assert tail[0] == '"';
    assert tail[1..] == Doubled(Trim(name), '"') + "\"" + numbers;
    assert StartsWith(tail, "\"");
    SplitDoubled(Trim(name), numbers);
  }

  lemma DashesTrimmed(tail: string)
    ensures TrimDashes("-- @table " + tail) == " @table " + tail
  {
    var line := "-- @table " + tail;
    assert line[1..] == "- @table " + tail;
    assert line[1..][1..] == " @table " + tail;
    assert TrimDashes(" @table " + tail) == " @table " + tail;
    assert TrimDashes(line[1..]) == TrimDashes(line[1..][1..]);
  }

  lemma HintLineParts(e: Entity)
    ensures PositionLine(e) == "-- @table " + HintTail(e.name, e.position.x, e.position.y)
    ensures Trim(TrimDashes(PositionLine(e))) == "@table " + HintTail(e.name, e.position.x, e.position.y)
  {
    hide IntText, Doubled, IsSpace, Trim, TrimDashes;
    var tail := HintTail(e.name, e.position.x, e.position.y);
    var line := PositionLine(e);
    assert line == "-- @table " + tail;
    DashesTrimmed(tail);
    HintTailTrimmed(e.name, e.position.x, e.position.y);
    SpaceIsSpace();
    var marked := "@table " + tail;
    assert marked[0] == '@' && marked[|marked| - 1] == tail[|tail| - 1];
    TrimSpaceBefore(marked);
    assert " " + marked == " @table " + tail;
  }

  /** A name that fits on a comment line. */
  predicate OneLine(name: string) {
    forall i :: 0 <= i < |name| ==> name[i] != '\n'
  }

  lemma {:induction false} DoubledOneLine(s: string, c: char)
    requires OneLine(s) && c != '\n'
    ensures OneLine(Doubled(s, c))
  {
    if s != "" {
      DoubledOneLine(s[1..], c);
    }
  }

  lemma PositionLineOneLine(e: Entity)
    requires OneLine(Trim(e.name))
    ensures OneLine(PositionLine(e))
  {
    hide IntText, Doubled, Trim;
    DoubledOneLine(Trim(e.name), '"');
    IntTextShape(e.position.x);
    IntTextShape(e.position.y);
  }

  lemma HintStep(e: Entity, r: string, scan: Scan)
    requires OneLine(Trim(e.name)) && scan.tokens == []
    ensures ScanFrom(PositionLine(e) + "\n" + r, scan)
         == ScanFrom(r, scan.(hints := scan.hints + [HintOf(e, |scan.statements|)]))
  {
    hide ReadHint, AfterBlock, TagFrom, ReadDollarQuoted, Span, ReadQuoted, ScanFrom, Trim, PositionLine, IsSpace;
    var line := PositionLine(e);
    var s := line + "\n" + r;
    HintLineParts(e);
    assert s[..2] == "--";
    PositionLineOneLine(e);
    forall i | 0 <= i < |line|
      ensures IsLineChar()(line[i])
    {
    }
    SpanOf(line, "\n" + r, IsLineChar());
    assert s == line + ("\n" + r);
    assert s[..|line|] == line && s[|line|..] == "\n" + r;
    ReadHintIs(e);
    ScanUnfold(s, scan);
    SpaceStep('\n', r, scan.Hint(ReadHint(line)));
  }

  function HintOf(e: Entity, above: nat): LayoutHint {
    LayoutHint(Trim(e.name), e.position.x, e.position.y, Some(above))
  }

  // ----- blocks -----

  /** What a block adds to a scan. */
  datatype Part = Statement(tokens: seq<Token>) | Place(entity: Entity)

  function AddPart(scan: Scan, part: Part): Scan {
    match part
    case Statement(tokens) => scan.(statements := scan.statements + [tokens])
    case Place(e) => scan.(hints := scan.hints + [HintOf(e, |scan.statements|)])
  }

  function AddParts(scan: Scan, parts: seq<Part>): (r: Scan)
    ensures r.tokens == scan.tokens
    decreases |parts|
  {
    if parts == [] then scan else AddParts(AddPart(scan, parts[0]), parts[1..])
  }

  lemma {:induction false} AddPartsAppend(scan: Scan, a: seq<Part>, b: seq<Part>)
    ensures AddParts(scan, a + b) == AddParts(AddParts(scan, a), b)
    decreases |a|
  {
    if a == [] {
      assert a + b == b;
    } else {
      AddPartsAppend(AddPart(scan, a[0]), a[1..], b);
      assert (a + b)[1..] == a[1..] + b;
    }
  }

  /** Between statements, `text` scans to `parts`. */
  ghost predicate Block(text: string, parts: seq<Part>) {
    forall r: string, scan: Scan :: scan.tokens == [] ==> ScanFrom(text + r, scan) == ScanFrom(r, AddParts(scan, parts))
  }

  lemma WholeIsBlock(text: string, tokens: seq<Token>)
    requires Whole(text, tokens)
    ensures Block(text, [Statement(tokens)])
  {
    hide ScanFrom;
    forall scan: Scan
      ensures AddParts(scan, [Statement(tokens)]) == scan.(statements := scan.statements + [tokens])
    {
      assert [Statement(tokens)][1..] == [];
    }
  }

  lemma HintBlock(e: Entity)
    requires OneLine(Trim(e.name))
    ensures Block(PositionLine(e) + "\n", [Place(e)])
  {
    hide ScanFrom, PositionLine, Trim;
    forall r: string, scan: Scan | scan.tokens == []
      ensures ScanFrom(PositionLine(e) + "\n" + r, scan) == ScanFrom(r, AddParts(scan, [Place(e)]))
    {
      HintStep(e, r, scan);
      assert [Place(e)][1..] == [];
    }
  }

  lemma GapBlock(gap: string)
    requires forall i :: 0 <= i < |gap| ==> gap[i] == ' ' || gap[i] == '\n'
    ensures Block(gap, [])
  {
    hide ScanFrom;
    GapClosed(gap);
    forall r: string, scan: Scan
      ensures ScanFrom(gap + r, scan) == ScanFrom(r, scan)
    {
      assert scan.tokens + [] == scan.tokens;
      assert PushAll(scan, []) == scan;
    }
  }

  lemma BlockAppend(a: string, pa: seq<Part>, b: string, pb: seq<Part>)
    requires Block(a, pa) && Block(b, pb)
    ensures Block(a + b, pa + pb)
  {
    hide ScanFrom, AddParts;
    forall r: string, scan: Scan | scan.tokens == []
      ensures ScanFrom(a + b + r, scan) == ScanFrom(r, AddParts(scan, pa + pb))
    {
      assert a + b + r == a + (b + r);
      AddPartsAppend(scan, pa, pb);
    }
  }

  function JoinParts(parts: seq<seq<Part>>): seq<Part> {
    if parts == [] then [] else parts[0] + JoinParts(parts[1..])
  }

  lemma {:induction false} JoinPartsAppend(a: seq<seq<Part>>, b: seq<seq<Part>>)
    ensures JoinParts(a + b) == JoinParts(a) + JoinParts(b)
    decreases |a|
  {
    if a == [] {
      assert a + b == b;
    } else {
      JoinPartsAppend(a[1..], b);
      assert (a + b)[1..] == a[1..] + b;
    }
  }

  lemma {:induction false} JoinBlock(texts: seq<string>, parts: seq<seq<Part>>, gap: string)
    requires |texts| == |parts| && forall i :: 0 <= i < |texts| ==> Block(texts[i], parts[i])
    requires forall i :: 0 <= i < |gap| ==> gap[i] == ' ' || gap[i] == '\n'
    ensures Block(Join(texts, gap), JoinParts(parts))
  {
    hide Block;
    if texts == [] {
      GapBlock("");
    } else if |texts| == 1 {
      assert parts[0] + JoinParts(parts[1..]) == parts[0];
    } else {
      JoinBlock(texts[1..], parts[1..], gap);
      GapBlock(gap);
      BlockAppend(texts[0], parts[0], gap, []);
      assert parts[0] + [] == parts[0];
      BlockAppend(texts[0] + gap, parts[0], Join(texts[1..], gap), JoinParts(parts[1..]));
    }
  }
}
