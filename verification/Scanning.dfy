/** The scanner of SQL scripts: what one step reads off the front of the text,
    and the object that steps through it. */
module Scanning {
  import opened Options
  import opened Strings
  import opened Decimal

  /** A bare word is held in lower case; a quoted name keeps its case. */
  datatype Token =
    | Word(word: string)
    | Quoted(name: string)
    | Text(text: string)
    | Number(digits: string)
    | Punct(mark: char)
  {
    /** What a word or a quoted name names. */
    function Name(): Option<string> {
      match this
      case Word(w) => Some(w)
      case Quoted(n) => Some(n)
      case _ => None
    }
  }

  /** A position read off a comment line, and the statement it sits above. */
  datatype LayoutHint = LayoutHint(table: string, x: int, y: int, above: Option<nat>)

  /** What has been scanned so far: whole statements, hints, and the tokens of
      the statement under way. */
  datatype Scan = Scan(statements: seq<seq<Token>>, hints: seq<LayoutHint>, tokens: seq<Token>)
  {
    function Push(token: Token): Scan {
      this.(tokens := tokens + [token])
    }

    function Finish(): Scan {
      if tokens == [] then this else this.(statements := statements + [tokens], tokens := [])
    }

    function Hint(hint: Option<LayoutHint>): Scan {
      match hint
      case None => this
      case Some(h) =>
        this.(hints := hints + [if tokens == [] then h.(above := Some(|statements|)) else h])
    }
  }

  const EMPTY := Scan([], [], [])

  predicate IsNameStart(c: char) {
    IsLetter(c) || c == '_'
  }

  predicate IsNameChar(c: char) {
    IsLetter(c) || IsDigit(c) || c == '_' || c == '$'
  }

  predicate StartsWith(s: string, prefix: string) {
    prefix <= s
  }

  /** How many leading characters satisfy `p`. */
  function Span(s: string, p: char -> bool): (n: nat)
    ensures n <= |s| && forall i :: 0 <= i < n ==> p(s[i])
    ensures n < |s| ==> !p(s[n])
  {
    if s != "" && p(s[0]) then
      assert forall i :: 1 <= i < |s| ==> s[i] == s[1..][i - 1];
      1 + Span(s[1..], p)
    else 0
  }

  function IsLineChar(): char -> bool {
    (c: char) => c != '\n'
  }

  function IsWordChar(): char -> bool {
    (c: char) => IsNameChar(c)
  }

  function IsNumberChar(): char -> bool {
    (c: char) => IsDigit(c) || c == '.'
  }

  /** The text behind a block comment, `depth` counting the ones still open. */
  function AfterBlock(s: string, depth: int): (r: string)
    ensures |r| <= |s| && r == s[|s| - |r|..]
  {
    if s == "" then ""
    else if StartsWith(s, "/*") then AfterBlock(s[2..], depth + 1)
    else if StartsWith(s, "*/") then if depth - 1 == 0 then s[2..] else AfterBlock(s[2..], depth - 1)
    else AfterBlock(s[1..], depth)
  }

  /** The value of a quoted run, a doubled delimiter standing for itself, and
      what is left after it. */
  function ReadQuoted(s: string, delimiter: char): (r: (string, string))
    ensures |r.1| <= |s| && r.1 == s[|s| - |r.1|..]
  {
    if s == "" then ("", "")
    else if s[0] == delimiter then
      if |s| > 1 && s[1] == delimiter then
        var (value, rest) := ReadQuoted(s[2..], delimiter);
        ([delimiter] + value, rest)
      else ("", s[1..])
    else
      var (value, rest) := ReadQuoted(s[1..], delimiter);
      ([s[0]] + value, rest)
  }

  /** The tag of a dollar quote whose opening `$` has been passed. */
  function TagFrom(s: string): (r: Option<string>)
    ensures r.Some? ==> |r.value| < |s|
  {
    if s == "" then None
    else if s[0] == '$' then Some("")
    else if IsNameChar(s[0]) then
      match TagFrom(s[1..])
      case None => None
      case Some(tag) => Some([s[0]] + tag)
    else None
  }

  /** Where `delimiter` first occurs, or the end. */
  function FindDelimiter(s: string, delimiter: string): (n: nat)
    ensures n <= |s|
  {
    if s == "" || StartsWith(s, delimiter) then 0 else 1 + FindDelimiter(s[1..], delimiter)
  }

  function Min(a: nat, b: nat): nat {
    if a <= b then a else b
  }

  /** The text of a dollar quote and what is left after it. */
  function ReadDollarQuoted(s: string, tag: string): (r: (string, string))
    requires |tag| + 2 <= |s|
    ensures |r.1| < |s|
  {
    var body := s[|tag| + 2..];
    var n := FindDelimiter(body, "$" + tag + "$");
    (body[..n], body[Min(n + |tag| + 2, |body|)..])
  }

  /** One step: what is read off the front of `s`, and what is left. */
  function Step(s: string, scan: Scan): (r: (string, Scan))
    requires s != ""
    ensures |r.0| < |s|
  {
    var c := s[0];
    if c == ';' then (s[1..], scan.Finish())
    else if StartsWith(s, "--") then
      var n := Span(s, IsLineChar());
      (s[n..], scan.Hint(ReadHint(s[..n])))
    else if StartsWith(s, "/*") then (AfterBlock(s[2..], 1), scan)
    else if c == '\'' then
      var (value, rest) := ReadQuoted(s[1..], '\'');
      (rest, scan.Push(Text(value)))
    else if c == '"' then
      var (value, rest) := ReadQuoted(s[1..], '"');
      (rest, scan.Push(Quoted(value)))
    else if c == '$' && TagFrom(s[1..]).Some? then
      var (value, rest) := ReadDollarQuoted(s, TagFrom(s[1..]).value);
      (rest, scan.Push(Text(value)))
    else if IsSpace(c) then (s[1..], scan)
    else if IsDigit(c) then
      var n := Span(s, IsNumberChar());
      assert IsNumberChar()(s[0]);
      (s[n..], scan.Push(Number(s[..n])))
    else if IsNameStart(c) then
      var n := Span(s, IsWordChar());
      assert IsWordChar()(s[0]);
      (s[n..], scan.Push(Word(Lower(s[..n]))))
    else (s[1..], scan.Push(Punct(c)))
  }

  /** Scanning the rest of a script. */
  function ScanFrom(s: string, scan: Scan): Scan
    decreases |s|
  {
    if s == "" then scan.Finish()
    else
      var (rest, after) := Step(s, scan);
      ScanFrom(rest, after)
  }

  // ----- layout hints -----

  function TrimDashes(s: string): string {
    if s != "" && s[0] == '-' then TrimDashes(s[1..]) else s
  }

  /** A quoted name whose opening quote has been passed, and what follows it.
      Without a closing quote there is none. */
  function SplitQuoted(s: string): Option<(string, string)> {
    if s == "" then None
    else if s[0] != '"' then
      match SplitQuoted(s[1..])
      case None => None
      case Some((name, rest)) => Some(([s[0]] + name, rest))
    else if |s| > 1 && s[1] == '"' then
      match SplitQuoted(s[2..])
      case None => None
      case Some((name, rest)) => Some((['"'] + name, rest))
    else Some(("", s[1..]))
  }

  function IsInk(): char -> bool {
    (c: char) => !IsSpace(c)
  }

  /** The first word of `s` and what follows it. */
  function NextWord(s: string): Option<(string, string)> {
    var t := TrimStart(s);
    var n := Span(t, IsInk());
    if t == "" then None else Some((t[..n], t[n..]))
  }

  /** The name in a hint, quoted or bare, and what follows it. */
  function HintName(rest: string): Option<(string, string)> {
    if StartsWith(rest, "\"") then SplitQuoted(rest[1..])
    else
      var n := Span(rest, IsInk());
      if n == |rest| then None else Some((rest[..n], rest[n..]))
  }

  function ReadHint(line: string): Option<LayoutHint> {
    var marked := Trim(TrimDashes(line));
    if !StartsWith(marked, "@table") then None
    else
      match HintName(Trim(marked[6..]))
      case None => None
      case Some((table, rest)) =>
        match NextWord(rest)
        case None => None
        case Some((first, rest)) =>
          match NextWord(rest)
          case None => None
          case Some((second, _)) =>
            match (ParseInt(first), ParseInt(second))
            case (Some(x), Some(y)) => Some(LayoutHint(table, x, y, None))
            case _ => None
  }

  // ----- the scanner -----

  class Scanner {
    const chars: string
    var at: nat
    var statements: seq<seq<Token>>
    var hints: seq<LayoutHint>
    var tokens: seq<Token>

    constructor (source: string)
      ensures chars == source && at == 0 && State() == EMPTY
    {
      chars := source;
      at := 0;
      statements, hints, tokens := [], [], [];
    }

    function State(): Scan
      reads this
    {
      Scan(statements, hints, tokens)
    }

    /** The text still to be read. */
    function Rest(): string
      requires at <= |chars|
      reads this
    {
      chars[at..]
    }

    method Push(token: Token)
      modifies this`tokens
      ensures State() == old(State()).Push(token)
    {
      tokens := tokens + [token];
    }

    method Finish()
      modifies this`tokens, this`statements
      ensures State() == old(State()).Finish()
    {
      if tokens != [] {
        statements := statements + [tokens];
        tokens := [];
      }
    }

    predicate LooksAt(prefix: string)
      requires at <= |chars|
      reads this
      ensures LooksAt(prefix) <==> StartsWith(Rest(), prefix)
    {
      assert Rest()[..Min(|prefix|, |Rest()|)] == chars[at..at + Min(|prefix|, |Rest()|)];
      at + |prefix| <= |chars| && chars[at..at + |prefix|] == prefix
    }

    /** Moves on while the characters satisfy `p`. */
    method Skip(p: char -> bool)
      requires at <= |chars|
      modifies this`at
      ensures at <= |chars| && at == old(at) + Span(old(Rest()), p)
    {
      while at < |chars| && p(chars[at])
        invariant old(at) <= at <= |chars|
        invariant Span(old(Rest()), p) == at - old(at) + Span(chars[at..], p)
      {
        assert chars[at..][1..] == chars[at + 1..];
        at := at + 1;
      }
    }

    method LineComment()
      requires at <= |chars|
      modifies this`at, this`hints
      ensures at <= |chars|
      ensures var s := old(Rest());
              var n := Span(s, IsLineChar());
              Rest() == s[n..] && State() == old(State()).Hint(ReadHint(s[..n]))
    {
      var start := at;
      Skip(IsLineChar());
      assert chars[start..at] == old(Rest())[..at - start];
      match ReadHint(chars[start..at]) {
        case None =>
        case Some(hint) =>
          hints := hints + [if tokens == [] then hint.(above := Some(|statements|)) else hint];
      }
    }

    method BlockComment()
      requires at <= |chars| && LooksAt("/*")
      modifies this`at
      ensures at <= |chars| && Rest() == AfterBlock(old(Rest())[2..], 1)
    {
      var depth := 0;
      var open := true;
      ghost var end := AfterBlock(old(Rest()), 0);
      assert end == AfterBlock(old(Rest())[2..], 1);
      while open && at < |chars|
        invariant at <= |chars|
        invariant open ==> AfterBlock(chars[at..], depth) == end
        invariant !open ==> chars[at..] == end
        decreases open, |chars| - at
      {
        assert chars[at..][1..] == chars[at + 1..];
        if LooksAt("/*") {
          assert chars[at..][2..] == chars[at + 2..];
          depth := depth + 1;
          at := at + 2;
        } else if LooksAt("*/") {
          assert chars[at..][2..] == chars[at + 2..];
          depth := depth - 1;
          at := at + 2;
          open := depth != 0;
        } else {
          at := at + 1;
        }
      }
    }

    /** The value of a quoted run whose opening delimiter is next. */
    method QuotedValue(delimiter: char) returns (value: string)
      requires at < |chars|
      modifies this`at
      ensures at <= |chars| && (value, Rest()) == ReadQuoted(old(Rest())[1..], delimiter)
    {
      hide Pending, ReadQuoted;
      ghost var all := ReadQuoted(old(Rest())[1..], delimiter);
      assert old(Rest())[1..] == chars[at + 1..];
      PendingStart(old(Rest())[1..], delimiter);
      at := at + 1;
      value := "";
      var open := true;
      while open && at < |chars|
        invariant at <= |chars|
        invariant open ==> Pending(all, value, chars[at..], delimiter)
        invariant !open ==> all == (value, chars[at..])
        decreases open, |chars| - at
      {
        PendingStep(all, value, chars[at..], delimiter);
        assert chars[at..][1..] == chars[at + 1..];
        if chars[at] == delimiter {
          if at + 1 < |chars| && chars[at + 1] == delimiter {
            assert chars[at..][2..] == chars[at + 2..];
            value := value + [delimiter];
            at := at + 2;
          } else {
            at := at + 1;
            open := false;
          }
        } else {
          value := value + [chars[at]];
          at := at + 1;
        }
      }
      if open {
        PendingEnd(all, value, delimiter);
      }
    }

    /** The tag of the dollar quote that starts here, if one does. */
    method DollarTag() returns (tag: Option<string>)
      requires at < |chars|
      ensures tag == TagFrom(Rest()[1..])
    {
      var i, read := at + 1, "";
      ghost var all := TagFrom(Rest()[1..]);
      assert Rest()[1..] == chars[i..];
      assert all.Some? ==> "" + all.value == all.value;
      while i < |chars|
        invariant at < i <= |chars|
        invariant all.Some? <==> TagFrom(chars[i..]).Some?
        invariant all.Some? ==> all.value == read + TagFrom(chars[i..]).value
      {
        assert chars[i..][1..] == chars[i + 1..];
        assert read + "" == read;
        if chars[i] == '$' {
          return Some(read);
        } else if IsNameChar(chars[i]) {
          if TagFrom(chars[i + 1..]).Some? {
            AppendFront(read, chars[i], TagFrom(chars[i + 1..]).value);
          }
          read := read + [chars[i]];
          i := i + 1;
        } else {
          return None;
        }
      }
      return None;
    }

    /** Moves on to where `delimiter` first occurs. */
    method Seek(delimiter: string)
      requires at <= |chars|
      modifies this`at
      ensures at <= |chars| && at == old(at) + FindDelimiter(old(Rest()), delimiter)
    {
      while at < |chars| && !LooksAt(delimiter)
        invariant old(at) <= at <= |chars|
        invariant FindDelimiter(old(Rest()), delimiter) == at - old(at) + FindDelimiter(chars[at..], delimiter)
      {
        assert chars[at..][1..] == chars[at + 1..];
        at := at + 1;
      }
    }

    method DollarQuoted(tag: string)
      requires at < |chars| && TagFrom(Rest()[1..]) == Some(tag)
      modifies this`at, this`tokens
      ensures at <= |chars|
      ensures |tag| + 2 <= |old(Rest())|
      ensures (Rest(), State()) == var (value, rest) := ReadDollarQuoted(old(Rest()), tag);
                                   (rest, old(State()).Push(Text(value)))
    {
      hide FindDelimiter, TagFrom;
      assert |tag| + 2 <= |Rest()| by {
        TagFits(Rest()[1..]);
      }
      var delimiter := "$" + tag + "$";
      ghost var body := Rest()[|tag| + 2..];
      at := at + |delimiter|;
      var start := at;
      assert body == chars[start..];
      Seek(delimiter);
      var value := chars[start..at];
      assert value == body[..at - start];
      ghost var found := at;
      at := Min(at + |delimiter|, |chars|);
      assert chars[at..] == body[Min(found - start + |tag| + 2, |body|)..];
      Push(Text(value));
    }

    method Run() returns (scan: Scan)
      requires at == 0 && State() == EMPTY
      modifies this
      ensures scan == ScanFrom(chars, EMPTY)
    {
      while at < |chars|
        invariant at <= |chars|
        invariant ScanFrom(Rest(), State()) == ScanFrom(chars, EMPTY)
        decreases |chars| - at
      {
        Next();
      }
      Finish();
      scan := State();
    }

    /** One turn of the loop. */
    method Next()
      requires at < |chars|
      modifies this`at, this`tokens, this`statements, this`hints
      ensures old(at) < at <= |chars|
      ensures (Rest(), State()) == Step(old(Rest()), old(State()))
    {
      hide ReadHint, AfterBlock, ReadQuoted, TagFrom, ReadDollarQuoted, Span, IsSpace, IsNameStart, IsNameChar, IsDigit, Lower;
      var c := chars[at];
      assert Rest()[1..] == chars[at + 1..];
      if c == ';' {
        at := at + 1;
        Finish();
      } else if c == '-' && LooksAt("--") {
        LineComment();
      } else if c == '/' && LooksAt("/*") {
        BlockComment();
      } else if c == '\'' {
        var value := QuotedValue('\'');
        Push(Text(value));
      } else if c == '"' {
        var value := QuotedValue('"');
        Push(Quoted(value));
      } else {
        var tag: Option<string> := None;
        if c == '$' {
          tag := DollarTag();
        }
        if tag.Some? {
          DollarQuoted(tag.value);
        } else if IsSpace(c) {
          at := at + 1;
        } else {
          Lexeme(c);
        }
      }
    }

    /** A number, a word, or a mark. */
    method Lexeme(c: char)
      requires at < |chars| && c == chars[at] && !IsSpace(c) && c !in {';', '\'', '"'}
      requires !StartsWith(Rest(), "--") && !StartsWith(Rest(), "/*")
      requires c == '$' ==> TagFrom(Rest()[1..]).None?
      modifies this`at, this`tokens
      ensures old(at) < at <= |chars|
      ensures (Rest(), State()) == Step(old(Rest()), old(State()))
    {
      hide ReadHint, AfterBlock, ReadQuoted, TagFrom, ReadDollarQuoted, IsSpace, IsLetter, IsDigit;
      var start := at;
      if IsDigit(c) {
        assert IsNumberChar()(c);
        Skip(IsNumberChar());
        assert chars[start..at] == old(Rest())[..at - start];
        Push(Number(chars[start..at]));
      } else if IsNameStart(c) {
        assert IsWordChar()(c);
        Skip(IsWordChar());
        assert chars[start..at] == old(Rest())[..at - start];
        Push(Word(Lower(chars[start..at])));
      } else {
        Push(Punct(c));
        at := at + 1;
        assert chars[at..] == old(Rest())[1..];
      }
    }
  }

  /** `value` has been read of the quoted run whose whole reading is `all`. */
  ghost predicate Pending(all: (string, string), value: string, s: string, delimiter: char) {
    all.0 == value + ReadQuoted(s, delimiter).0 && all.1 == ReadQuoted(s, delimiter).1
  }

  lemma PendingStart(s: string, delimiter: char)
    ensures Pending(ReadQuoted(s, delimiter), "", s, delimiter)
  {
  }

  lemma PendingStep(all: (string, string), value: string, s: string, delimiter: char)
    requires Pending(all, value, s, delimiter) && s != ""
    ensures s[0] != delimiter ==> Pending(all, value + [s[0]], s[1..], delimiter)
    ensures s[0] == delimiter && |s| > 1 && s[1] == delimiter ==> Pending(all, value + [delimiter], s[2..], delimiter)
    ensures s[0] == delimiter && !(|s| > 1 && s[1] == delimiter) ==> all == (value, s[1..])
  {
    if s[0] != delimiter {
      AppendFront(value, s[0], ReadQuoted(s[1..], delimiter).0);
    } else if |s| > 1 && s[1] == delimiter {
      AppendFront(value, delimiter, ReadQuoted(s[2..], delimiter).0);
    } else {
      assert value + "" == value;
    }
  }

  lemma PendingEnd(all: (string, string), value: string, delimiter: char)
    requires Pending(all, value, "", delimiter)
    ensures all == (value, "")
  {
    assert value + "" == value;
  }

  lemma AppendFront(a: string, c: char, b: string)
    ensures a + ([c] + b) == (a + [c]) + b
  {
  }

  lemma {:induction false} TagFits(s: string)
    requires TagFrom(s).Some?
    ensures |TagFrom(s).value| + 1 <= |s|
  {
  }

  /** `scan` as the reader calls it. */
  method ScanScript(sql: string) returns (scan: Scan)
    ensures scan == ScanFrom(sql, EMPTY)
  {
    var scanner := new Scanner(sql);
    scan := scanner.Run();
  }
}
