/** Tokens as text, and that text scanned again. */
module Rendering {
  import opened Options
  import opened Strings
  import opened Scanning

  /** `s` with every `c` doubled. */
  function Doubled(s: string, c: char): string {
    if s == "" then ""
    else (if s[0] == c then [c, c] else [s[0]]) + Doubled(s[1..], c)
  }

  function Spell(t: Token): string {
    match t
    case Word(w) => w
    case Quoted(name) => "\"" + Doubled(name, '"') + "\""
    case Text(text) => "'" + Doubled(text, '\'') + "'"
    case Number(digits) => digits
    case Punct(c) => [c]
  }

  predicate HugsLeft(piece: string) {
    piece == ")" || piece == "," || piece == "("
  }

  predicate EndsOpen(s: string) {
    s != "" && s[|s| - 1] == '('
  }

  /** `out` with one more token on it. */
  function RenderOne(out: string, t: Token): string {
    var piece := Spell(t);
    var joined := out != "" && !HugsLeft(piece) && !EndsOpen(out);
    (if joined then out + " " else out) + piece
  }

  function RenderOnto(out: string, tokens: seq<Token>): string
    decreases |tokens|
  {
    if tokens == [] then out else RenderOnto(RenderOne(out, tokens[0]), tokens[1..])
  }

  function Render(tokens: seq<Token>): string {
    RenderOnto("", tokens)
  }

  method RenderTokens(tokens: seq<Token>) returns (out: string)
    ensures out == Render(tokens)
  {
    out := "";
    for i := 0 to |tokens|
      invariant RenderOnto(out, tokens[i..]) == Render(tokens)
    {
      var piece := Spell(tokens[i]);
      if out != "" && !HugsLeft(piece) && !EndsOpen(out) {
        out := out + " ";
      }
      out := out + piece;
      assert tokens[i..][1..] == tokens[i + 1..];
    }
  }

  // ----- the tokens a scan produces -----

  predicate NameChars(s: string) {
    forall i :: 0 <= i < |s| ==> IsNameChar(s[i])
  }

  predicate NumberChars(s: string) {
    forall i :: 0 <= i < |s| ==> IsDigit(s[i]) || s[i] == '.'
  }

  predicate IsMark(c: char) {
    c != ';' && c != '\'' && c != '"' && !IsSpace(c) && !IsDigit(c) && !IsNameStart(c)
  }

  /** A token that some text scans to. */
  predicate Scannable(t: Token) {
    match t
    case Word(w) => w != "" && IsNameStart(w[0]) && NameChars(w) && Lower(w) == w
    case Quoted(_) => true
    case Text(_) => true
    case Number(d) => d != "" && IsDigit(d[0]) && NumberChars(d)
    case Punct(c) => IsMark(c)
  }

  predicate AllScannable(tokens: seq<Token>) {
    forall i :: 0 <= i < |tokens| ==> Scannable(tokens[i])
  }

  predicate ScannableScan(scan: Scan) {
    && AllScannable(scan.tokens)
    && forall i :: 0 <= i < |scan.statements| ==> AllScannable(scan.statements[i]) && scan.statements[i] != []
  }

  lemma LowerWord(w: string)
    requires w != "" && IsNameStart(w[0]) && NameChars(w)
    ensures Scannable(Word(Lower(w)))
  {
    var l := Lower(w);
    assert forall i :: 0 <= i < |w| ==> l[i] == LowerChar(w[i]);
    assert Lower(l) == l;
  }

  lemma StepScannable(s: string, scan: Scan)
    requires s != "" && ScannableScan(scan)
    ensures ScannableScan(Step(s, scan).1)
  {
    hide ReadHint, AfterBlock, ReadQuoted, TagFrom, ReadDollarQuoted, IsSpace, IsLetter;
    var c := s[0];
    if c != ';' && IsDigit(c) && !IsSpace(c) {
      var n := Span(s, IsNumberChar());
      assert IsNumberChar()(s[0]);
      assert forall i :: 0 <= i < n ==> IsNumberChar()(s[i]);
      assert Scannable(Number(s[..n]));
    } else if IsNameStart(c) && !IsSpace(c) {
      var n := Span(s, IsWordChar());
      assert IsWordChar()(s[0]);
      assert forall i :: 0 <= i < n ==> IsWordChar()(s[i]);
      LowerWord(s[..n]);
    }
  }

  /** Whatever the text, the scan holds only scannable tokens. */
  lemma {:induction false} ScanIsScannable(s: string, scan: Scan)
    requires ScannableScan(scan)
    ensures ScannableScan(ScanFrom(s, scan)) && ScanFrom(s, scan).tokens == []
    decreases |s|
  {
    if s != "" {
      StepScannable(s, scan);
      ScanIsScannable(Step(s, scan).0, Step(s, scan).1);
    }
  }

  // ----- one spelled token, scanned -----

  /** `r` ends whatever token stands before it. */
  predicate Stops(r: string) {
    r == "" || r[0] in {' ', '\n', '(', ')', ',', ';'}
  }

  /** `r` does not prolong the token `t` written before it. */
  predicate CanFollow(t: Token, r: string) {
    match t
    case Word(_) => r == "" || !IsNameChar(r[0])
    case Quoted(_) => r == "" || r[0] != '"'
    case Text(_) => r == "" || r[0] != '\''
    case Number(_) => r == "" || !(IsDigit(r[0]) || r[0] == '.')
    case Punct(c) =>
      && (c == '-' ==> r == "" || r[0] != '-')
      && (c == '/' ==> r == "" || r[0] != '*')
      && (c == '$' ==> TagFrom(r).None?)
  }

  lemma StopsFollows(t: Token, r: string)
    requires Stops(r)
    ensures CanFollow(t, r)
  {
  }

  lemma {:induction false} SpanOf(a: string, r: string, p: char -> bool)
    requires forall i :: 0 <= i < |a| ==> p(a[i])
    requires r == "" || !p(r[0])
    ensures Span(a + r, p) == |a|
  {
    if a == "" {
      assert a + r == r;
    } else {
      assert (a + r)[1..] == a[1..] + r;
      SpanOf(a[1..], r, p);
    }
  }

  lemma ReadOne(x: char, tail: string, c: char)
    ensures x == c ==> ReadQuoted([c, c] + tail, c) == ([c] + ReadQuoted(tail, c).0, ReadQuoted(tail, c).1)
    ensures x != c ==> ReadQuoted([x] + tail, c) == ([x] + ReadQuoted(tail, c).0, ReadQuoted(tail, c).1)
  {
    assert ([c, c] + tail)[2..] == tail && ([x] + tail)[1..] == tail;
  }

  lemma {:induction false} ReadDoubled(s: string, c: char, r: string)
    requires r == "" || r[0] != c
    ensures ReadQuoted(Doubled(s, c) + [c] + r, c) == (s, r)
  {
    hide Doubled;
    if s == "" {
      assert Doubled("", c) == "" by {
        DoubledNothing(c);
      }
      assert Doubled(s, c) + [c] + r == [c] + r;
      assert ([c] + r)[1..] == r;
    } else {
      ReadDoubled(s[1..], c, r);
      ReadMore(s, c, r);
      ReadOne(s[0], Doubled(s[1..], c) + [c] + r, c);
      assert s == [s[0]] + s[1..];
    }
  }

  lemma DoubledNothing(c: char)
    ensures Doubled("", c) == ""
  {
  }

  lemma ReadMore(s: string, c: char, r: string)
    requires s != ""
    ensures Doubled(s, c) + [c] + r == (if s[0] == c then [c, c] else [s[0]]) + (Doubled(s[1..], c) + [c] + r)
  {
  }

  lemma QuotedStep(name: string, r: string, scan: Scan)
    requires CanFollow(Quoted(name), r)
    ensures Step(Spell(Quoted(name)) + r, scan) == (r, scan.Push(Quoted(name)))
  {
    hide ReadHint, AfterBlock, TagFrom, ReadDollarQuoted, Span, IsSpace, Doubled, ReadQuoted;
    var s := Spell(Quoted(name)) + r;
    assert s[0] == '"';
    assert s[1..] == Doubled(name, '"') + ['"'] + r;
    ReadDoubled(name, '"', r);
  }

  lemma TextStep(text: string, r: string, scan: Scan)
    requires CanFollow(Text(text), r)
    ensures Step(Spell(Text(text)) + r, scan) == (r, scan.Push(Text(text)))
  {
    hide ReadHint, AfterBlock, TagFrom, ReadDollarQuoted, Span, IsSpace, Doubled, ReadQuoted;
    var s := Spell(Text(text)) + r;
    assert s[0] == '\'';
    assert s[1..] == Doubled(text, '\'') + ['\''] + r;
    ReadDoubled(text, '\'', r);
  }

  lemma NumberStep(d: string, r: string, scan: Scan)
    requires Scannable(Number(d)) && CanFollow(Number(d), r)
    ensures Step(d + r, scan) == (r, scan.Push(Number(d)))
  {
    hide ReadHint, AfterBlock, TagFrom, ReadDollarQuoted, Span, ReadQuoted;
    var s := d + r;
    assert s[0] == d[0];
    forall i | 0 <= i < |d|
      ensures IsNumberChar()(d[i])
    {
    }
    SpanOf(d, r, IsNumberChar());
    assert s[..|d|] == d && s[|d|..] == r;
  }

  /** A word in any case scans to its lower-case self. */
  lemma WordStep(w: string, r: string, scan: Scan)
    requires w != "" && IsNameStart(w[0]) && NameChars(w) && CanFollow(Word(w), r)
    ensures Step(w + r, scan) == (r, scan.Push(Word(Lower(w))))
  {
    hide ReadHint, AfterBlock, TagFrom, ReadDollarQuoted, Span, ReadQuoted;
    var s := w + r;
    assert s[0] == w[0];
    forall i | 0 <= i < |w|
      ensures IsWordChar()(w[i])
    {
    }
    SpanOf(w, r, IsWordChar());
    assert s[..|w|] == w && s[|w|..] == r;
  }

  lemma MarkStep(c: char, r: string, scan: Scan)
    requires IsMark(c) && CanFollow(Punct(c), r)
    ensures Step([c] + r, scan) == (r, scan.Push(Punct(c)))
  {
    hide ReadHint, AfterBlock, TagFrom, ReadDollarQuoted, Span, ReadQuoted, IsSpace, IsDigit, IsNameStart;
    var s := [c] + r;
    assert s[0] == c && s[1..] == r;
  }

  /** A spelled token is scanned back as itself, unless the text after it
      would prolong it. */
  lemma SpelledStep(t: Token, r: string, scan: Scan)
    requires Scannable(t) && CanFollow(t, r)
    ensures Spell(t) + r != "" && ScanFrom(Spell(t) + r, scan) == ScanFrom(r, scan.Push(t))
  {
    hide Step;
    match t {
      case Word(w) => WordStep(w, r, scan);
      case Quoted(name) => QuotedStep(name, r, scan);
      case Text(text) => TextStep(text, r, scan);
      case Number(d) => NumberStep(d, r, scan);
      case Punct(c) => MarkStep(c, r, scan);
    }
  }

  lemma SpaceStep(c: char, r: string, scan: Scan)
    requires c == ' ' || c == '\n'
    ensures ScanFrom([c] + r, scan) == ScanFrom(r, scan)
  {
    hide ReadHint, AfterBlock, TagFrom, ReadDollarQuoted, Span, ReadQuoted, ScanFrom;
    assert ([c] + r)[1..] == r;
    assert Step([c] + r, scan) == (r, scan);
    ScanUnfold([c] + r, scan);
  }

  lemma ScanUnfold(s: string, scan: Scan)
    requires s != ""
    ensures ScanFrom(s, scan) == ScanFrom(Step(s, scan).0, Step(s, scan).1)
  {
  }

  lemma SemicolonStep(r: string, scan: Scan)
    ensures ScanFrom(";" + r, scan) == ScanFrom(r, scan.Finish())
  {
    hide ReadHint, AfterBlock, TagFrom, ReadDollarQuoted, Span, ReadQuoted, ScanFrom;
    assert (";" + r)[1..] == r;
    ScanUnfold(";" + r, scan);
  }

  // ----- a rendered list, scanned -----

  /** What rendering adds for `tokens`; `tight` when no space comes before. */
  function RenderedAfter(tight: bool, tokens: seq<Token>): string
    decreases |tokens|
  {
    if tokens == [] then ""
    else
      (if tight || HugsLeft(Spell(tokens[0])) then "" else " ")
      + Spell(tokens[0]) + RenderedAfter(tokens[0] == Punct('('), tokens[1..])
  }

  lemma LastOf(a: string, b: string)
    requires b != ""
    ensures (a + b) != "" && (a + b)[|a + b| - 1] == b[|b| - 1]
  {
  }

  /** Only an opening parenthesis ends in one. */
  lemma SpellEnds(t: Token)
    requires Scannable(t)
    ensures Spell(t) != "" && (EndsOpen(Spell(t)) <==> t == Punct('('))
  {
    match t {
      case Word(w) => assert IsNameChar(w[|w| - 1]);
      case Quoted(name) => LastOf("\"" + Doubled(name, '"'), "\"");
      case Text(text) => LastOf("'" + Doubled(text, '\''), "'");
      case Number(d) => assert IsDigit(d[|d| - 1]) || d[|d| - 1] == '.';
      case Punct(_) =>
    }
  }

  lemma {:induction false} RenderOntoIs(out: string, tokens: seq<Token>)
    requires AllScannable(tokens)
    ensures RenderOnto(out, tokens) == out + RenderedAfter(out == "" || EndsOpen(out), tokens)
    decreases |tokens|
  {
    hide Spell, Scannable, HugsLeft;
    if tokens == [] {
      assert out + "" == out;
    } else {
      var t, rest := tokens[0], tokens[1..];
      assert Scannable(t);
      SpellEnds(t);
      var tight := out == "" || EndsOpen(out);
      var gap := if tight || HugsLeft(Spell(t)) then "" else " ";
      var one := RenderOne(out, t);
      assert one == out + gap + Spell(t);
      LastOf(out + gap, Spell(t));
      assert EndsOpen(one) == EndsOpen(Spell(t));
      RenderOntoIs(one, rest);
      assert out + gap + Spell(t) + RenderedAfter(t == Punct('('), rest)
          == out + (gap + Spell(t) + RenderedAfter(t == Punct('('), rest));
    }
  }

  function PushAll(scan: Scan, tokens: seq<Token>): Scan {
    scan.(tokens := scan.tokens + tokens)
  }

  /** After any token but `(`, the rest begins with something that ends it. */
  lemma RenderedStops(tokens: seq<Token>, r: string)
    requires AllScannable(tokens) && Stops(r)
    ensures Stops(RenderedAfter(false, tokens) + r)
  {
    var text := RenderedAfter(false, tokens);
    if tokens == [] {
      assert text + r == r;
    } else if HugsLeft(Spell(tokens[0])) {
      assert (text + r)[0] == Spell(tokens[0])[0];
    } else {
      assert (text + r)[0] == ' ';
    }
  }

  lemma TightFollows(t: Token, tokens: seq<Token>, r: string)
    requires Scannable(t) && AllScannable(tokens) && Stops(r)
    ensures CanFollow(t, RenderedAfter(t == Punct('('), tokens) + r)
  {
    if t != Punct('(') {
      RenderedStops(tokens, r);
      StopsFollows(t, RenderedAfter(false, tokens) + r);
    }
  }

  /** One rendered token is scanned off the front. */
  lemma RenderedStep(tight: bool, t: Token, rest: seq<Token>, r: string, scan: Scan)
    requires Scannable(t) && AllScannable(rest) && Stops(r)
    ensures ScanFrom(RenderedAfter(tight, [t] + rest) + r, scan)
         == ScanFrom(RenderedAfter(t == Punct('('), rest) + r, scan.Push(t))
  {
    hide Spell, Scannable, HugsLeft, ScanFrom, CanFollow, Stops;
    var text, after := RenderedAfter(tight, [t] + rest), RenderedAfter(t == Punct('('), rest);
    assert ([t] + rest)[1..] == rest;
    TightFollows(t, rest, r);
    SpelledStep(t, after + r, scan);
    if tight || HugsLeft(Spell(t)) {
      assert text + r == Spell(t) + (after + r);
    } else {
      assert text + r == [' '] + (Spell(t) + (after + r));
      SpaceStep(' ', Spell(t) + (after + r), scan);
    }
  }

  /** Rendered tokens are scanned back as themselves. */
  lemma {:induction false} RenderedScans(tight: bool, tokens: seq<Token>, r: string, scan: Scan)
    requires AllScannable(tokens) && Stops(r)
    ensures ScanFrom(RenderedAfter(tight, tokens) + r, scan) == ScanFrom(r, PushAll(scan, tokens))
    decreases |tokens|
  {
    hide Scannable, ScanFrom, Stops;
    if tokens == [] {
      assert RenderedAfter(tight, tokens) + r == r;
      assert PushAll(scan, tokens) == scan;
    } else {
      hide RenderedAfter;
      var t, rest := tokens[0], tokens[1..];
      assert [t] + rest == tokens;
      RenderedStep(tight, t, rest, r, scan);
      RenderedScans(t == Punct('('), rest, r, scan.Push(t));
      assert scan.tokens + [t] + rest == scan.tokens + tokens;
    }
  }

  lemma RenderIs(tokens: seq<Token>)
    requires AllScannable(tokens)
    ensures Render(tokens) == RenderedAfter(true, tokens)
  {
    RenderOntoIs("", tokens);
    assert "" + RenderedAfter(true, tokens) == RenderedAfter(true, tokens);
  }

  /** Tokens with one space between them, but none behind an opening parenthesis,
      before either parenthesis, or before a comma. */
  function Spaced(tokens: seq<Token>): string
    decreases |tokens|
  {
    if tokens == [] then ""
    else if |tokens| == 1 then Spell(tokens[0])
    else
      Spell(tokens[0])
      + (if tokens[0] == Punct('(') || tokens[1] in [Punct('('), Punct(')'), Punct(',')] then "" else " ")
      + Spaced(tokens[1..])
  }

  lemma HugsIs(t: Token)
    requires Scannable(t)
    ensures HugsLeft(Spell(t)) <==> t in [Punct('('), Punct(')'), Punct(',')]
  {
    hide Doubled;
    match t {
      case Word(w) => assert IsNameStart(w[0]);
      case Quoted(name) => assert Spell(t)[0] == '"';
      case Text(text) => assert Spell(t)[0] == '\'';
      case Number(digits) => assert IsDigit(digits[0]);
      case Punct(c) =>
    }
  }

  lemma AfterStep(tight: bool, tokens: seq<Token>)
    requires AllScannable(tokens) && tokens != []
    ensures RenderedAfter(tight, tokens)
      == (if tight || tokens[0] in [Punct('('), Punct(')'), Punct(',')] then "" else " ")
         + (Spell(tokens[0]) + RenderedAfter(tokens[0] == Punct('('), tokens[1..]))
  {
    hide Spell, HugsLeft, Scannable;
    HugsIs(tokens[0]);
  }

  lemma {:induction false} SpacedAfter(tight: bool, tokens: seq<Token>)
    requires AllScannable(tokens) && tokens != []
    ensures RenderedAfter(tight, tokens) == (if tight || tokens[0] in [Punct('('), Punct(')'), Punct(',')] then "" else " ") + Spaced(tokens)
    decreases |tokens|
  {
    hide Spell, Scannable, RenderedAfter;
    AfterStep(tight, tokens);
    if |tokens| > 1 {
      SpacedAfter(tokens[0] == Punct('('), tokens[1..]);
      var gap := if tokens[0] == Punct('(') || tokens[1] in [Punct('('), Punct(')'), Punct(',')] then "" else " ";
      assert Spell(tokens[0]) + (gap + Spaced(tokens[1..])) == Spell(tokens[0]) + gap + Spaced(tokens[1..]);
    } else {
      AfterNothing(tokens[0] == Punct('('));
      assert tokens[1..] == [] && Spell(tokens[0]) + "" == Spell(tokens[0]);
    }
  }

  lemma AfterNothing(tight: bool)
    ensures RenderedAfter(tight, []) == ""
  {
  }

  /** How tokens are written out. */
  lemma RenderIsSpaced(tokens: seq<Token>)
    requires AllScannable(tokens)
    ensures Render(tokens) == Spaced(tokens)
  {
    hide Render, Spaced, Scannable;
    RenderIs(tokens);
    if tokens == [] {
      SpacedNothing();
    } else {
      SpacedAfter(true, tokens);
    }
  }

  lemma SpacedNothing()
    ensures Spaced([]) == "" && RenderedAfter(true, []) == ""
  {
  }

  /** Tokens rendered, and scanned again: one statement of the same tokens. */
  lemma ScanOfRender(tokens: seq<Token>)
    requires AllScannable(tokens)
    ensures ScanFrom(Render(tokens), EMPTY) == EMPTY.(statements := if tokens == [] then [] else [tokens])
  {
    RenderIs(tokens);
    assert Render(tokens) + "" == Render(tokens);
    RenderedScans(true, tokens, "", EMPTY);
    assert [] + tokens == tokens;
  }

  /** The tokens of an expression: its only statement, or none. */
  function TokensOf(text: string): seq<Token> {
    var scan := ScanFrom(text, EMPTY);
    if scan.statements == [] then [] else scan.statements[0]
  }

  lemma TokensOfScannable(text: string)
    ensures AllScannable(TokensOf(text))
  {
    ScanIsScannable(text, EMPTY);
  }

  /** Whatever a script's statement is, rendering it and scanning the result
      gives that statement back, alone. */
  lemma StatementSurvivesRender(sql: string, i: nat)
    requires i < |ScanFrom(sql, EMPTY).statements|
    ensures ScanFrom(Render(ScanFrom(sql, EMPTY).statements[i]), EMPTY)
         == EMPTY.(statements := [ScanFrom(sql, EMPTY).statements[i]])
  {
    hide ScanFrom, Render;
    ScanIsScannable(sql, EMPTY);
    ScanOfRender(ScanFrom(sql, EMPTY).statements[i]);
  }

  /** An expression as it comes back from a script. */
  function Normalized(text: string): string {
    Render(TokensOf(text))
  }

  /** Normalising an expression twice is normalising it once. */
  lemma NormalizedOnce(text: string)
    ensures Normalized(Normalized(text)) == Normalized(text)
    ensures TokensOf(Normalized(text)) == TokensOf(text)
  {
    hide Render;
    TokensOfScannable(text);
    ScanOfRender(TokensOf(text));
  }
}
