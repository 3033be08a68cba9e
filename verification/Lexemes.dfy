/** What the scanner makes of dollar quotes and comments, told from the text
    itself. */
module Lexemes {
  import opened Options
  import opened Strings
  import opened Decimal
  import opened Scanning
  import opened Rendering
  import opened Lexing

  // ----- dollar quotes -----

  predicate IsTag(tag: string) {
    forall i :: 0 <= i < |tag| ==> IsNameChar(tag[i]) && tag[i] != '$'
  }

  /** `s` goes on with `tag$`, the tag being one. */
  predicate Opens(s: string, tag: string) {
    IsTag(tag) && |tag| < |s| && tag == s[..|tag|] && s[|tag|] == '$'
  }

  lemma {:induction false} OpensRead(s: string, tag: string)
    requires Opens(s, tag)
    ensures TagFrom(s) == Some(tag)
  {
    if tag == "" {
    } else {
      assert tag[0] == s[0];
      assert tag[1..] == s[1..][..|tag[1..]|];
      OpensRead(s[1..], tag[1..]);
      assert [s[0]] + tag[1..] == tag;
    }
  }

  lemma {:induction false} ReadOpens(s: string)
    requires TagFrom(s).Some?
    ensures Opens(s, TagFrom(s).value)
  {
    hide IsNameChar;
    if s[0] != '$' {
      ReadOpens(s[1..]);
      var tag := TagFrom(s[1..]).value;
      assert ([s[0]] + tag)[1..] == tag;
    }
  }

  /** A dollar opens a quote exactly where name characters and a second dollar
      follow it. */
  lemma TagIff(s: string, tag: string)
    ensures TagFrom(s) == Some(tag) <==> Opens(s, tag)
  {
    hide TagFrom, Opens;
    if TagFrom(s).Some? {
      ReadOpens(s);
    }
    if Opens(s, tag) {
      OpensRead(s, tag);
    }
  }

  function Delimiter(tag: string): string {
    "$" + tag + "$"
  }

  /** `delimiter` is nowhere in `s` before position `n`. */
  predicate NotBefore(s: string, delimiter: string, n: nat) {
    forall i :: 0 <= i < n && i <= |s| ==> !StartsWith(s[i..], delimiter)
  }

  lemma {:induction false} FoundAt(s: string, delimiter: string, n: nat)
    requires n <= |s| && NotBefore(s, delimiter, n) && (n == |s| || StartsWith(s[n..], delimiter))
    ensures FindDelimiter(s, delimiter) == n
  {
    hide StartsWith;
    assert s[0..] == s;
    if n > 0 {
      assert !StartsWith(s[0..], delimiter);
      forall i | 0 <= i < n - 1 && i <= |s[1..]|
        ensures !StartsWith(s[1..][i..], delimiter)
      {
        assert s[1..][i..] == s[i + 1..];
      }
      assert s[1..][n - 1..] == s[n..];
      FoundAt(s[1..], delimiter, n - 1);
    }
  }

  /** The first `|body|` positions see no more of the text than this. */
  lemma NotBeforeLonger(body: string, delimiter: string, r: string)
    requires NotBefore(body + delimiter, delimiter, |body|)
    ensures NotBefore(body + delimiter + r, delimiter, |body|)
  {
    var all := body + delimiter;
    forall i | 0 <= i < |body| && i <= |all + r|
      ensures !StartsWith((all + r)[i..], delimiter)
    {
      assert !StartsWith(all[i..], delimiter);
      assert (all + r)[i..][..|delimiter|] == all[i..][..|delimiter|];
    }
  }

  lemma DollarReads(tag: string, rest: string, scan: Scan)
    requires IsTag(tag)
    ensures Step(Delimiter(tag) + rest, scan)
      == (ReadDollarQuoted(Delimiter(tag) + rest, tag).1, scan.Push(Text(ReadDollarQuoted(Delimiter(tag) + rest, tag).0)))
  {
    hide TagFrom, FindDelimiter, IsTag, ReadDollarQuoted, AfterBlock, ReadQuoted, Span, ReadHint;
    var s := Delimiter(tag) + rest;
    assert s[1..] == tag + "$" + rest;
    assert s[1..][..|tag|] == tag && s[1..][|tag|] == '$';
    OpensRead(s[1..], tag);
    assert s[0] == '$' && s[..1] != "-" && s[..1] != "/";
  }

  lemma BodyReads(tag: string, body: string, behind: string)
    requires NotBefore(body + behind, Delimiter(tag), |body|) && (behind == "" || StartsWith(behind, Delimiter(tag)))
    ensures ReadDollarQuoted(Delimiter(tag) + (body + behind), tag) == (body, behind[Min(|tag| + 2, |behind|)..])
  {
    hide FindDelimiter, NotBefore;
    var rest := body + behind;
    assert (Delimiter(tag) + rest)[|tag| + 2..] == rest;
    assert rest[|body|..] == behind && rest[..|body|] == body;
    FoundAt(rest, Delimiter(tag), |body|);
    var k := Min(|tag| + 2, |behind|);
    assert rest[|body| + k..] == behind[k..];
  }

  lemma DollarStep(tag: string, body: string, behind: string, scan: Scan)
    requires IsTag(tag)
    requires NotBefore(body + behind, Delimiter(tag), |body|) && (behind == "" || StartsWith(behind, Delimiter(tag)))
    ensures Step(Delimiter(tag) + body + behind, scan) == (behind[Min(|tag| + 2, |behind|)..], scan.Push(Text(body)))
  {
    hide Step, ReadDollarQuoted, NotBefore, IsTag, Delimiter, StartsWith;
    assert Delimiter(tag) + body + behind == Delimiter(tag) + (body + behind);
    DollarReads(tag, body + behind, scan);
    BodyReads(tag, body, behind);
  }

  /** A dollar quote is one text: everything up to the first place its own
      delimiter stands again, quotes, semicolons and comments included. */
  lemma DollarQuoteIsOneText(tag: string, body: string)
    requires IsTag(tag) && NotBefore(body + Delimiter(tag), Delimiter(tag), |body|)
    ensures Closed(Delimiter(tag) + body + Delimiter(tag), [Text(body)])
  {
    hide ScanFrom, Step, NotBefore, IsTag;
    var all := Delimiter(tag) + body + Delimiter(tag);
    forall r, scan
      ensures ScanFrom(all + r, scan) == ScanFrom(r, PushAll(scan, [Text(body)]))
    {
      var behind := Delimiter(tag) + r;
      assert all + r == Delimiter(tag) + body + behind;
      NotBeforeLonger(body, Delimiter(tag), r);
      assert body + Delimiter(tag) + r == body + behind;
      assert behind[..|Delimiter(tag)|] == Delimiter(tag);
      DollarStep(tag, body, behind, scan);
      assert behind[|tag| + 2..] == r;
      ScanUnfold(all + r, scan);
    }
  }

  /** One that is never closed takes the rest of the script. */
  lemma UnclosedDollarQuote(tag: string, body: string, scan: Scan)
    requires IsTag(tag) && NotBefore(body, Delimiter(tag), |body|)
    ensures ScanFrom(Delimiter(tag) + body, scan) == scan.Push(Text(body)).Finish()
  {
    hide Step, NotBefore, IsTag;
    assert body + "" == body && Delimiter(tag) + body + "" == Delimiter(tag) + body;
    DollarStep(tag, body, "", scan);
    ScanUnfold(Delimiter(tag) + body, scan);
  }

  // ----- block comments -----

  /** The inside of a block comment: plain text and comments of its own. */
  datatype Inside = Nothing | Plain(text: string, rest: Inside) | Nested(inner: Inside, rest: Inside)

  function InsideText(inside: Inside): string {
    match inside
    case Nothing => ""
    case Plain(text, rest) => text + InsideText(rest)
    case Nested(inner, rest) => "/*" + InsideText(inner) + "*/" + InsideText(rest)
  }

  predicate Marks(s: string) {
    StartsWith(s, "/*") || StartsWith(s, "*/")
  }

  /** Plain text opens and closes nothing, not even with what follows it. */
  predicate IsPlain(text: string, behind: string) {
    forall i :: 0 <= i < |text| ==> !Marks((text + behind)[i..])
  }

  predicate IsInside(inside: Inside) {
    match inside
    case Nothing => true
    case Plain(text, rest) => IsPlain(text, InsideText(rest) + "*/") && IsInside(rest)
    case Nested(inner, rest) => IsInside(inner) && IsInside(rest)
  }

  lemma PlainLonger(text: string, behind: string, r: string)
    requires behind != "" && IsPlain(text, behind)
    ensures IsPlain(text, behind + r)
  {
    forall i | 0 <= i < |text|
      ensures !Marks((text + (behind + r))[i..])
    {
      var short, long := (text + behind)[i..], (text + (behind + r))[i..];
      assert !Marks(short);
      assert |short| >= 2 && short[0] == long[0] && short[1] == long[1];
    }
  }

  lemma {:induction false} PlainPassed(text: string, behind: string, depth: int)
    requires IsPlain(text, behind)
    ensures AfterBlock(text + behind, depth) == AfterBlock(behind, depth)
    decreases |text|
  {
    if text == "" {
      assert text + behind == behind;
    } else {
      var all := text + behind;
      assert all[0..] == all && !Marks(all[0..]);
      assert all[1..] == text[1..] + behind;
      forall i | 0 <= i < |text[1..]|
        ensures !Marks((text[1..] + behind)[i..])
      {
        assert (text[1..] + behind)[i..] == all[i + 1..];
      }
      PlainPassed(text[1..], behind, depth);
    }
  }

  lemma OpenPassed(r: string, depth: int)
    ensures AfterBlock("/*" + r, depth) == AfterBlock(r, depth + 1)
  {
    var s := "/*" + r;
    assert s[2..] == r && s[..2] == "/*";
  }

  lemma ClosePassed(r: string, depth: int)
    ensures AfterBlock("*/" + r, depth) == if depth == 1 then r else AfterBlock(r, depth - 1)
  {
    var s := "*/" + r;
    assert s[2..] == r && s[0] == '*';
  }

  lemma {:induction false} InsidePassed(inside: Inside, r: string, depth: int)
    requires IsInside(inside) && depth >= 1
    ensures AfterBlock(InsideText(inside) + "*/" + r, depth) == AfterBlock("*/" + r, depth)
  {
    hide AfterBlock, IsPlain;
    match inside {
      case Nothing =>
        assert "" + "*/" + r == "*/" + r;
      case Plain(text, rest) =>
        var behind := InsideText(rest) + "*/";
        assert InsideText(inside) + "*/" + r == text + (behind + r);
        PlainLonger(text, behind, r);
        PlainPassed(text, behind + r, depth);
        InsidePassed(rest, r, depth);
      case Nested(inner, rest) =>
        var behind := InsideText(rest) + "*/" + r;
        assert InsideText(inside) + "*/" + r == "/*" + (InsideText(inner) + "*/" + behind);
        OpenPassed(InsideText(inner) + "*/" + behind, depth);
        InsidePassed(inner, behind, depth + 1);
        ClosePassed(behind, depth + 1);
        InsidePassed(rest, r, depth);
    }
  }

  /** A block comment leaves nothing, and ends where the last of the comments
      inside it has been closed. */
  lemma BlockCommentIsSkipped(inside: Inside)
    requires IsInside(inside)
    ensures Closed("/*" + InsideText(inside) + "*/", [])
  {
    hide ScanFrom, AfterBlock, IsInside;
    var all := "/*" + InsideText(inside) + "*/";
    forall r, scan
      ensures ScanFrom(all + r, scan) == ScanFrom(r, PushAll(scan, []))
    {
      var body := InsideText(inside) + "*/" + r;
      assert all + r == "/*" + body && ("/*" + body)[2..] == body && ("/*" + body)[..2] == "/*";
      ScanUnfold(all + r, scan);
      InsidePassed(inside, r, 1);
      ClosePassed(r, 1);
      assert scan.tokens + [] == scan.tokens;
    }
  }

  // ----- line comments -----

  predicate OneLine(text: string) {
    forall i :: 0 <= i < |text| ==> text[i] != '\n'
  }

  /** A line comment ends with its line and leaves nothing but the hint it may be. */
  lemma LineCommentIsSkipped(text: string, r: string, scan: Scan)
    requires OneLine(text)
    ensures ScanFrom("--" + text + "\n" + r, scan) == ScanFrom(r, scan.Hint(ReadHint("--" + text)))
  {
    hide ScanFrom, ReadHint;
    var line := "--" + text;
    var all := line + "\n" + r;
    assert all == line + ("\n" + r);
    assert all[..2] == "--";
    forall i | 0 <= i < |line|
      ensures IsLineChar()(line[i])
    {
      assert i >= 2 ==> line[i] == text[i - 2];
    }
    SpanOf(line, "\n" + r, IsLineChar());
    assert all[..|line|] == line && all[|line|..] == "\n" + r;
    ScanUnfold(all, scan);
    SpaceStep('\n', r, scan.Hint(ReadHint(line)));
  }

  lemma TrimDashesStops(s: string)
    requires s == "" || s[0] != '-'
    ensures TrimDashes(s) == s && TrimDashes("--" + s) == s
  {
    assert ("--" + s)[1..] == "-" + s && ("-" + s)[1..] == s;
  }

  /** A comment that does not begin with `@table` places nothing. */
  lemma OtherCommentsAreNoHints(text: string)
    requires text == "" || text[0] != '-'
    requires !StartsWith(Trim(text), "@table")
    ensures ReadHint("--" + text).None?
  {
    hide Trim, HintName;
    TrimDashesStops(text);
  }

  // ----- hints -----

  /** A hint stands for the statement below it; within a statement it belongs to
      none. */
  lemma HintsAre(scan: Scan, hint: Option<LayoutHint>)
    ensures var after := scan.Hint(hint);
            && after.statements == scan.statements && after.tokens == scan.tokens
            && after.hints == scan.hints + (match hint case None => [] case Some(h) =>
                 [LayoutHint(h.table, h.x, h.y, if scan.tokens == [] then Some(|scan.statements|) else h.above)])
  {
  }

  predicate IsWord(s: string) {
    s != "" && forall i :: 0 <= i < |s| ==> !IsSpace(s[i])
  }

  /** Nothing, or something a blank parts from what is before it. */
  predicate Apart(s: string) {
    s == "" || IsSpace(s[0])
  }

  lemma WordAhead(gap: string, word: string, rest: string)
    requires Blank(gap) && IsWord(word) && Apart(rest)
    ensures NextWord(gap + word + rest) == Some((word, rest))
  {
    hide Span;
    assert gap + word + rest == gap + (word + rest);
    TrimStartPast(gap, word + rest);
    SpanOf(word, rest, IsInk());
    assert (word + rest)[..|word|] == word && (word + rest)[|word|..] == rest;
  }

  lemma BareName(name: string, rest: string)
    requires IsWord(name) && name[0] != '"' && rest != "" && Apart(rest)
    ensures HintName(name + rest) == Some((name, rest))
  {
    hide Span;
    SpanOf(name, rest, IsInk());
    assert (name + rest)[..|name|] == name && (name + rest)[|name|..] == rest;
  }

  lemma {:induction false} DashesPassed(dashes: string, rest: string)
    requires (forall i :: 0 <= i < |dashes| ==> dashes[i] == '-') && (rest == "" || rest[0] != '-')
    ensures TrimDashes(dashes + rest) == rest
  {
    if dashes == "" {
      assert dashes + rest == rest;
    } else {
      assert (dashes + rest)[0] == '-' && (dashes + rest)[1..] == dashes[1..] + rest;
      DashesPassed(dashes[1..], rest);
    }
  }

  /** A name without quotes reads as well: dashes, `@table`, the name, and two
      numbers, with blanks between them and whatever follows. */
  lemma BareHintRead(dashes: string, a: string, b: string, name: string, c: string, first: string, d: string, second: string, tail: string)
    requires forall i :: 0 <= i < |dashes| ==> dashes[i] == '-'
    requires Blank(a) && Blank(b) && Blank(c) && Blank(d) && c != "" && d != ""
    requires IsWord(name) && name[0] != '"' && IsWord(first) && IsWord(second)
    requires Apart(tail) && (tail != "" ==> !IsSpace(tail[|tail| - 1]))
    ensures ReadHint(dashes + (a + ("@table" + (b + (name + (c + first + (d + second + tail)))))))
      == match (ParseInt(first), ParseInt(second))
         case (Some(x), Some(y)) => Some(LayoutHint(name, x, y, None))
         case _ => None
  {
    hide Trim, TrimDashes, HintName, NextWord, ParseInt, Blank, IsWord, Apart, IsSpace;
    var numbers := c + first + (d + second + tail);
    var named := name + numbers;
    var marked := "@table" + (b + named);
    InkEnds(name, c, first, d, second, tail);
    PlainLine(dashes, a, marked);
    assert marked[..6] == "@table" && marked[6..] == b + named;
    assert b + named + "" == b + named;
    NothingBlank();
    TrimPast(b, named, "");
    ApartNumbers(c, first + (d + second + tail));
    assert c + (first + (d + second + tail)) == numbers;
    BareName(name, numbers);
    ApartNumbers(d, second + tail);
    assert d + (second + tail) == d + second + tail;
    WordAhead(c, first, d + second + tail);
    WordAhead(d, second, tail);
  }

  lemma NothingBlank()
    ensures Blank("")
  {
  }

  lemma ApartNumbers(gap: string, rest: string)
    requires Blank(gap) && gap != ""
    ensures Apart(gap + rest) && gap + rest != ""
  {
  }

  lemma InkEnds(name: string, c: string, first: string, d: string, second: string, tail: string)
    requires IsWord(name) && IsWord(second) && (tail != "" ==> !IsSpace(tail[|tail| - 1]))
    ensures var named := name + (c + first + (d + second + tail));
            named != "" && Trimmed(named) && !IsSpace(named[|named| - 1])
  {
    hide IsSpace;
    var named := name + (c + first + (d + second + tail));
    assert named[0] == name[0];
    if tail == "" {
      assert named[|named| - 1] == second[|second| - 1];
    } else {
      assert named[|named| - 1] == tail[|tail| - 1];
    }
  }

  lemma PlainLine(dashes: string, a: string, marked: string)
    requires (forall i :: 0 <= i < |dashes| ==> dashes[i] == '-') && Blank(a)
    requires marked != "" && marked[0] == '@' && !IsSpace(marked[|marked| - 1])
    ensures Trim(TrimDashes(dashes + (a + marked))) == marked
  {
    hide Trim, TrimDashes;
    assert !IsSpace('@');
    assert a != "" ==> IsSpace(a[0]) && !IsSpace('-');
    DashesPassed(dashes, a + marked);
    assert a + marked + "" == a + marked;
    TrimPast(a, marked, "");
  }
}
