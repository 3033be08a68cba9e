/** The other items of a table, its head, and what is passed over. */
module TableItems {
  import opened Options
  import opened Decimal
  import opened Domain
  import opened Scanning
  import opened Rendering
  import opened Cursors
  import opened TableParser
  import opened ParseTable
  import opened ColumnClauses
  import opened KeyClauses

  // ----- the other items of a table -----

  /** PRIMARY KEY (a, ...) makes key columns of exactly the columns it names. */
  lemma PrimaryItemRead(names: seq<Token>, r: seq<Token>, parsed: ParsedTable)
    requires AreNames(names) && names != []
    ensures var (left, after) := Item([Word("primary"), Word("key")] + (Listed(names) + r), parsed);
            && left == r && after == parsed.(columns := after.columns) && |after.columns| == |parsed.columns|
            && forall i :: 0 <= i < |after.columns| ==>
                 after.columns[i] == if NamedByOne(parsed.columns, NameTexts(names), i) then parsed.columns[i].(primaryKey := true, nullable := false)
                                     else parsed.columns[i]
  {
    hide Item, NameList, Listed, NamedByOne, MarkPrimary;
    var all := [Word("primary"), Word("key")] + (Listed(names) + r);
    assert all[2..] == Listed(names) + r;
    ListedRead(names, r);
    KeyAhead(all, parsed, NameTexts(names), r);
    forall i | 0 <= i < |parsed.columns|
      ensures MarkPrimary(parsed.columns, NameTexts(names))[i]
        == if NamedByOne(parsed.columns, NameTexts(names), i) then parsed.columns[i].(primaryKey := true, nullable := false) else parsed.columns[i]
    {
      MarkedAre(parsed.columns, NameTexts(names), i);
    }
  }

  lemma UniqueItemIs(rest: seq<Token>, parsed: ParsedTable)
    ensures Item([Word("unique")] + rest, parsed) == TableUnique(rest, parsed)
  {
    hide TableUnique, TableKey, TableForeignKey, ColumnItem;
    SingleItemWord("unique", rest);
    assert ([Word("unique")] + rest)[1..] == rest;
  }

  lemma SingleItemWord(word: string, rest: seq<Token>)
    requires word != "primary" && word != "foreign"
    ensures !AtWords([Word(word)] + rest, ["primary", "key"]) && !AtWords([Word(word)] + rest, ["foreign", "key"])
  {
    assert ["primary", "key"][0] == "primary" && ["foreign", "key"][0] == "foreign";
  }

  /** UNIQUE (a) marks the column it names; over several columns it is only noted. */
  lemma UniqueItemRead(names: seq<Token>, r: seq<Token>, parsed: ParsedTable)
    requires AreNames(names) && names != []
    ensures var (left, after) := Item([Word("unique")] + (Listed(names) + r), parsed);
            && left == r && |after.columns| == |parsed.columns|
            && (|names| > 1 ==> after == parsed.(skipped := parsed.skipped + [WideUnique]))
            && (|names| == 1 ==> after == parsed.(columns := after.columns))
            && forall i :: 0 <= i < |after.columns| && |names| == 1 ==>
                 after.columns[i] == if Names(parsed.columns, NameText(names[0]), i) then parsed.columns[i].(unique := true) else parsed.columns[i]
  {
    hide Item, NameList, Listed, Names, MarkUnique;
    UniqueItemIs(Listed(names) + r, parsed);
    ListedRead(names, r);
    if |names| == 1 {
      forall i | 0 <= i < |parsed.columns|
        ensures MarkUnique(parsed.columns, NameText(names[0]))[i]
          == if Names(parsed.columns, NameText(names[0]), i) then parsed.columns[i].(unique := true) else parsed.columns[i]
      {
        UniqueIs(parsed.columns, NameText(names[0]), i);
      }
    }
  }

  lemma CheckItemRead(word: string, inside: seq<Token>, r: seq<Token>, parsed: ParsedTable)
    requires (word == "check" || word == "exclude") && Matched(inside, 0)
    ensures Item([Word(word), Punct('(')] + inside + [Punct(')')] + r, parsed) == (r, parsed.(skipped := parsed.skipped + [CheckConstraint]))
  {
    hide SkipInside, Matched, TableKey, TableUnique, TableForeignKey, ColumnItem;
    var rest := [Punct('(')] + (inside + [Punct(')')] + r);
    var all := [Word(word), Punct('(')] + inside + [Punct(')')] + r;
    assert all == [Word(word)] + rest && all[1..] == rest && rest[1..] == inside + [Punct(')')] + r;
    SingleItemWord(word, rest);
    SkippedWhole(inside, r, 0);
  }

  /** CONSTRAINT and a name before an item change nothing about it. */
  lemma NamedItemRead(name: Token, rest: seq<Token>, parsed: ParsedTable)
    requires AtWord(rest, "unique") || AtWord(rest, "check") || AtWord(rest, "exclude") || AtWords(rest, ["primary", "key"]) || AtWords(rest, ["foreign", "key"])
    ensures Item([Word("constraint"), name] + rest, parsed) == Item(rest, parsed)
  {
    hide TableKey, TableUnique, TableForeignKey, ColumnItem, SkipBalanced;
    var all := [Word("constraint"), name] + rest;
    assert all[1..] == [name] + rest && ([name] + rest)[1..] == rest;
    assert ["primary", "key"][0] == "primary" && ["foreign", "key"][0] == "foreign";
    assert !AtWord(rest, "constraint");
  }

  // ----- what cannot be read -----

  /** Nothing in it ends it, and its parentheses match. */
  predicate Whole(tokens: seq<Token>, depth: nat)
    decreases |tokens|
  {
    if tokens == [] then depth == 0
    else !(depth == 0 && (tokens[0] == Punct(',') || tokens[0] == Punct(')'))) && Whole(tokens[1..], DepthAfter(tokens[0], depth))
  }

  lemma {:induction false} WholeTaken(tokens: seq<Token>, r: seq<Token>, depth: nat)
    requires Whole(tokens, depth) && (r == [] || r[0] == Punct(',') || r[0] == Punct(')'))
    ensures TakeUntil(tokens + r, [], depth) == (tokens, r)
    decreases |tokens|
  {
    hide DepthAfter;
    if tokens == [] {
      assert tokens + r == r;
    } else {
      assert (tokens + r)[1..] == tokens[1..] + r;
      WholeTaken(tokens[1..], r, DepthAfter(tokens[0], depth));
      assert [tokens[0]] + tokens[1..] == tokens;
    }
  }

  /** A column of a type that is not known is left out with a note, and the items
      after it are read. */
  lemma UnknownColumnRead(column: Token, words: seq<Token>, more: seq<Token>, r: seq<Token>, parsed: ParsedTable)
    requires IsColumnName(column)
    requires forall i :: 0 <= i < |words| ==> words[i].Word? && IsTypeWord(words[i])
    requires forall kind :: JoinWords(NameTexts(words)) !in Spellings(kind)
    requires Whole(more, 0) && (r == [] || r[0] == Punct(',') || r[0] == Punct(')')) && NoTypeWordAhead(more + r)
    ensures var (left, after) := Item([column] + words + more + r, parsed);
            && left == r && |after.skipped| == |parsed.skipped| + 1 && after == parsed.(skipped := after.skipped)
            && after.skipped[|parsed.skipped|].UnknownColumn?
  {
    hide Item, TypeWords, KindOf, Spellings, JoinWords, Constraints, Parameters, Whole, TakeUntil, Render;
    var rest := words + (more + r);
    assert [column] + words + more + r == [column] + rest;
    assert ([column] + rest)[1..] == rest;
    ColumnItemIs(column, rest, parsed);
    TypeWordsAre(words, more + r);
    assert WordsOf(words) == NameTexts(words);
    var name := JoinWords(NameTexts(words));
    assert KindOf(name).None? by {
      if KindOf(name).Some? {
        KindOfIff(name, KindOf(name).value);
      }
    }
    WholeTaken(more, r, 0);
  }

  lemma NoOtherItem(rest: seq<Token>)
    requires rest != [] && !(rest[0].Word? && rest[0].word in {"primary", "foreign", "unique", "check", "exclude"})
    ensures !AtWords(rest, ["primary", "key"]) && !AtWords(rest, ["foreign", "key"])
    ensures !AtWord(rest, "unique") && !AtWord(rest, "check") && !AtWord(rest, "exclude")
  {
    assert ["primary", "key"][0] == "primary" && ["foreign", "key"][0] == "foreign";
  }

  lemma OtherItemIs(name: Token, rest: seq<Token>, parsed: ParsedTable)
    requires rest != [] && !(rest[0].Word? && rest[0].word in {"primary", "foreign", "unique", "check", "exclude"})
    ensures Item([Word("constraint"), name] + rest, parsed)
      == (TakeUntil(rest, [], 0).1, parsed.Skip(OtherConstraint(Render(TakeUntil(rest, [], 0).0))))
  {
    hide TakeUntil, Render, TableKey, TableForeignKey, TableUnique, ColumnItem, SkipBalanced, AtWords;
    var all := [Word("constraint"), name] + rest;
    assert all[1..] == [name] + rest && ([name] + rest)[1..] == rest;
    NoOtherItem(rest);
  }

  /** A constraint of a kind that is not known is left out with a note. */
  lemma OtherConstraintRead(name: Token, taken: seq<Token>, r: seq<Token>, parsed: ParsedTable)
    requires taken != [] && Whole(taken, 0) && (r == [] || r[0] == Punct(',') || r[0] == Punct(')'))
    requires !(taken[0].Word? && taken[0].word in {"primary", "foreign", "unique", "check", "exclude"})
    ensures Item([Word("constraint"), name] + taken + r, parsed) == (r, parsed.(skipped := parsed.skipped + [OtherConstraint(Render(taken))]))
  {
    hide TakeUntil, Render, Whole, Item;
    assert [Word("constraint"), name] + taken + r == [Word("constraint"), name] + (taken + r);
    assert (taken + r)[0] == taken[0];
    OtherItemIs(name, taken + r, parsed);
    WholeTaken(taken, r, 0);
  }

  // ----- the head -----

  lemma {:induction false} TablePassed(words: seq<Token>, rest: seq<Token>)
    requires forall i :: 0 <= i < |words| ==> words[i] != Word("table")
    ensures SkipToTable(words + ([Word("table")] + rest)) == [Word("table")] + rest
  {
    var all := words + ([Word("table")] + rest);
    if words == [] {
      assert all == [Word("table")] + rest;
    } else {
      assert all[0] == words[0] && all[1..] == words[1..] + ([Word("table")] + rest);
      TablePassed(words[1..], rest);
    }
  }

  /** Words between CREATE and TABLE, and IF NOT EXISTS behind it, change nothing
      about the table. */
  lemma HeadIsPassed(words: seq<Token>, rest: seq<Token>)
    requires forall i :: 0 <= i < |words| ==> words[i] != Word("table")
    ensures Parsed([Word("create")] + words + [Word("table")] + rest) == Parsed([Word("create"), Word("table")] + rest)
    ensures !AtWords(rest, ["if", "not", "exists"]) ==>
      Parsed([Word("create"), Word("table"), Word("if"), Word("not"), Word("exists")] + rest) == Parsed([Word("create"), Word("table")] + rest)
  {
    hide Items, QualifiedName, SkipToTable;
    var all, plain := [Word("create")] + words + [Word("table")] + rest, [Word("create"), Word("table")] + rest;
    assert all[1..] == words + ([Word("table")] + rest);
    assert plain[1..] == [] + ([Word("table")] + rest);
    TablePassed(words, rest);
    TablePassed([], rest);
    var asked := [Word("create"), Word("table"), Word("if"), Word("not"), Word("exists")] + rest;
    var behind := [Word("if"), Word("not"), Word("exists")] + rest;
    assert asked[1..] == [] + ([Word("table")] + behind);
    TablePassed([], behind);
    assert ([Word("table")] + behind)[1..] == behind && behind[3..] == rest && ([Word("table")] + rest)[1..] == rest;
    assert AtWords(behind, ["if", "not", "exists"]);
  }

  /** A table without a list of items has no columns. */
  lemma BareTableRead(holder: seq<Token>, r: seq<Token>)
    requires AreNames(holder) && holder != [] && NameEnds(r) && !AtWords(Dotted(holder) + r, ["if", "not", "exists"])
    ensures Parsed([Word("create"), Word("table")] + (Dotted(holder) + r)) == Some(ParsedTable(DottedText(holder), [], [], []))
  {
    hide Items, QualifiedName, SkipToTable, Dotted, AtWords;
    var rest := Dotted(holder) + r;
    var all := [Word("create"), Word("table")] + rest;
    assert all[1..] == [Word("table")] + rest && all[1..][1..] == rest;
    TableReached(all[1..]);
    DottedRead(holder, r);
  }

  // ----- numbers -----

  function NumberTokens(digits: seq<string>): seq<Token> {
    if digits == [] then []
    else if |digits| == 1 then [Number(digits[0])]
    else [Number(digits[0]), Punct(',')] + NumberTokens(digits[1..])
  }

  function FittingOne(digits: string): seq<U32> {
    if digits != "" && AllDigits(digits) && NatValue(digits) < 0x1_0000_0000 then [NatValue(digits) as U32] else []
  }

  /** The numbers below two to the thirty-second; the others are dropped. */
  function Fitting(digits: seq<string>): seq<U32> {
    if digits == [] then [] else FittingOne(digits[0]) + Fitting(digits[1..])
  }

  lemma FittingOneIs(digits: string)
    ensures FittingOne(digits) == match ParseU32(digits) case None => [] case Some(n) => [n]
  {
    hide NatValue, AllDigits;
  }

  lemma NumberStep(digits: string, r: seq<Token>)
    ensures NumberList([Number(digits), Punct(',')] + r) == (FittingOne(digits) + NumberList(r).0, NumberList(r).1)
    ensures !AtPunct(r, ',') ==> NumberList([Number(digits)] + r) == (FittingOne(digits), r)
  {
    hide FittingOne, ParseU32;
    FittingOneIs(digits);
    var more, last := [Number(digits), Punct(',')] + r, [Number(digits)] + r;
    assert more[1..] == [Punct(',')] + r && ([Punct(',')] + r)[1..] == r && last[1..] == r;
  }

  lemma {:induction false} NumbersRead(digits: seq<string>, r: seq<Token>)
    requires digits != [] && !AtPunct(r, ',')
    ensures NumberList(NumberTokens(digits) + r) == (Fitting(digits), r)
  {
    hide NumberList, FittingOne;
    if |digits| == 1 {
      assert NumberTokens(digits) + r == [Number(digits[0])] + r;
      NumberStep(digits[0], r);
      assert Fitting(digits[1..]) == [] && FittingOne(digits[0]) + [] == FittingOne(digits[0]);
    } else {
      assert NumberTokens(digits) + r == [Number(digits[0]), Punct(',')] + (NumberTokens(digits[1..]) + r);
      NumberStep(digits[0], NumberTokens(digits[1..]) + r);
      NumbersRead(digits[1..], r);
    }
  }

  /** The parameters of a type are the numbers between its parentheses; the words
      after them are passed over. */
  lemma ParametersAreNumbers(digits: seq<string>, words: seq<Token>, r: seq<Token>)
    requires digits != [] && NoTypeWordAhead(r) && forall i :: 0 <= i < |words| ==> words[i].Word? && IsTypeWord(words[i])
    ensures Parameters([Punct('(')] + NumberTokens(digits) + [Punct(')')] + words + r) == (Fitting(digits), r)
  {
    hide NumberList, TypeWords, NumberTokens, Fitting;
    var all := [Punct('(')] + NumberTokens(digits) + [Punct(')')] + words + r;
    var tail := [Punct(')')] + (words + r);
    assert all == [Punct('(')] + (NumberTokens(digits) + tail) && all[1..] == NumberTokens(digits) + tail;
    assert tail[1..] == words + r;
    NumbersRead(digits, tail);
    TypeWordsAre(words, r);
  }
}
