/** Reading tokens from the front of a list: what each step takes, and the
    cursor that moves along. */
module Cursors {
  import opened Options
  import opened Scanning

  predicate AtWord(rest: seq<Token>, word: string) {
    rest != [] && rest[0] == Word(word)
  }

  predicate AtPunct(rest: seq<Token>, mark: char) {
    rest != [] && rest[0] == Punct(mark)
  }

  /** The tokens ahead begin with exactly these keywords. */
  predicate AtWords(rest: seq<Token>, words: seq<string>) {
    |words| <= |rest| && forall i :: 0 <= i < |words| ==> rest[i] == Word(words[i])
  }

  /** The list without its first token, if it has one. */
  function Next(rest: seq<Token>): (r: seq<Token>)
    ensures |r| <= |rest|
  {
    if rest == [] then [] else rest[1..]
  }

  /** `.part` as often as it follows; a part that is no name makes it none. */
  function MoreName(name: string, rest: seq<Token>): (r: (Option<string>, seq<Token>))
    ensures |r.1| <= |rest|
    decreases |rest|
  {
    if !AtPunct(rest, '.') then (Some(name), rest)
    else if |rest| == 1 then (None, [])
    else
      match rest[1].Name()
      case None => (None, rest[2..])
      case Some(part) => MoreName(name + "." + part, rest[2..])
  }

  function QualifiedName(rest: seq<Token>): (r: (Option<string>, seq<Token>))
    ensures |r.1| <= |rest|
  {
    if rest == [] then (None, [])
    else
      match rest[0].Name()
      case None => (None, rest[1..])
      case Some(name) => MoreName(name, rest[1..])
  }

  function NamesAfter(names: seq<string>, rest: seq<Token>): (r: (Option<seq<string>>, seq<Token>))
    ensures |r.1| <= |rest|
    decreases |rest|
  {
    if rest == [] then (None, [])
    else
      match rest[0].Name()
      case None => (None, rest[1..])
      case Some(name) =>
        var after := rest[1..];
        if AtPunct(after, ',') then NamesAfter(names + [name], after[1..])
        else if AtPunct(after, ')') then (Some(names + [name]), after[1..])
        else (None, after)
  }

  /** A parenthesised list of names; nothing where it breaks off. */
  function NameList(rest: seq<Token>): (r: (Option<seq<string>>, seq<Token>))
    ensures |r.1| <= |rest|
  {
    if AtPunct(rest, '(') then NamesAfter([], rest[1..]) else (None, rest)
  }

  /** `token` ends an expression that is not inside parentheses. */
  predicate Ends(token: Token, stop: seq<string>) {
    token == Punct(')') || token == Punct(',') || (token.Word? && token.word in stop)
  }

  function DepthAfter(token: Token, depth: nat): nat {
    if token == Punct('(') then depth + 1
    else if token == Punct(')') && depth > 0 then depth - 1
    else depth
  }

  /** Everything up to what ends it at this depth, and what is left. */
  function TakeUntil(rest: seq<Token>, stop: seq<string>, depth: nat): (r: (seq<Token>, seq<Token>))
    ensures |r.1| <= |rest|
    decreases |rest|
  {
    if rest == [] || (depth == 0 && Ends(rest[0], stop)) then ([], rest)
    else
      var (taken, left) := TakeUntil(rest[1..], stop, DepthAfter(rest[0], depth));
      ([rest[0]] + taken, left)
  }

  function SkipInside(rest: seq<Token>, depth: nat): (r: seq<Token>)
    requires depth > 0
    ensures |r| <= |rest|
    decreases |rest|
  {
    if rest == [] then []
    else if rest[0] == Punct('(') then SkipInside(rest[1..], depth + 1)
    else if rest[0] == Punct(')') then if depth == 1 then rest[1..] else SkipInside(rest[1..], depth - 1)
    else SkipInside(rest[1..], depth)
  }

  function SkipBalanced(rest: seq<Token>): (r: seq<Token>)
    ensures |r| <= |rest|
  {
    if AtPunct(rest, '(') then SkipInside(rest[1..], 1) else rest
  }

  class Cursor {
    const tokens: seq<Token>
    var at: nat

    constructor (tokens: seq<Token>)
      ensures this.tokens == tokens && Valid() && Rest() == tokens
    {
      this.tokens := tokens;
      at := 0;
    }

    predicate Valid()
      reads this
    {
      at <= |tokens|
    }

    /** What the cursor has not passed. */
    function Rest(): seq<Token>
      requires Valid()
      reads this
    {
      tokens[at..]
    }

    predicate Done()
      requires Valid()
      reads this
      ensures Done() <==> Rest() == []
    {
      at >= |tokens|
    }

    function Peek(): Option<Token>
      requires Valid()
      reads this
      ensures Peek() == if Rest() == [] then None else Some(Rest()[0])
    {
      if at < |tokens| then Some(tokens[at]) else None
    }

    method Step() returns (token: Option<Token>)
      requires Valid()
      modifies this
      ensures Valid() && Rest() == Next(old(Rest()))
      ensures token == if old(Rest()) == [] then None else Some(old(Rest())[0])
    {
      token := Peek();
      if token.Some? {
        at := at + 1;
      }
    }

    method EatWord(word: string) returns (found: bool)
      requires Valid()
      modifies this
      ensures Valid() && found == AtWord(old(Rest()), word)
      ensures Rest() == if found then old(Rest())[1..] else old(Rest())
    {
      found := Peek() == Some(Word(word));
      if found {
        at := at + 1;
      }
    }

    method EatWords(words: seq<string>) returns (found: bool)
      requires Valid()
      modifies this
      ensures Valid() && found == AtWords(old(Rest()), words)
      ensures Rest() == if found then old(Rest())[|words|..] else old(Rest())
    {
      found := true;
      for offset := 0 to |words|
        invariant found ==> AtWords(Rest(), words[..offset])
        invariant !found ==> !AtWords(Rest(), words)
      {
        if at + offset >= |tokens| || tokens[at + offset] != Word(words[offset]) {
          found := false;
        }
      }
      if found {
        at := at + |words|;
      }
    }

    method EatPunct(mark: char) returns (found: bool)
      requires Valid()
      modifies this
      ensures Valid() && found == AtPunct(old(Rest()), mark)
      ensures Rest() == if found then old(Rest())[1..] else old(Rest())
    {
      found := Peek() == Some(Punct(mark));
      if found {
        at := at + 1;
      }
    }

    /** A name and all the dotted parts after it, as one string. */
    method ReadName() returns (name: Option<string>)
      requires Valid()
      modifies this
      ensures Valid() && (name, Rest()) == QualifiedName(old(Rest()))
    {
      ghost var end := QualifiedName(Rest());
      var token := Step();
      if token.None? || token.value.Name().None? {
        return None;
      }
      var read := token.value.Name().value;
      while Peek() == Some(Punct('.'))
        invariant Valid() && MoreName(read, Rest()) == end
        decreases |tokens| - at
      {
        ghost var before := Rest();
        at := at + 1;
        assert Rest() == before[1..];
        token := Step();
        assert Rest() == Next(before[1..]);
        if token.None? || token.value.Name().None? {
          return None;
        }
        assert before[1..][1..] == before[2..];
        read := read + "." + token.value.Name().value;
      }
      return Some(read);
    }

    method ReadNames() returns (names: Option<seq<string>>)
      requires Valid()
      modifies this
      ensures Valid() && (names, Rest()) == NameList(old(Rest()))
    {
      ghost var end := NameList(Rest());
      var open := EatPunct('(');
      if !open {
        return None;
      }
      var read: seq<string> := [];
      while true
        invariant Valid() && NamesAfter(read, Rest()) == end
        decreases |tokens| - at
      {
        ghost var before := Rest();
        var token := Step();
        if token.None? || token.value.Name().None? {
          return None;
        }
        read := read + [token.value.Name().value];
        var more := EatPunct(',');
        if !more {
          var closed := EatPunct(')');
          return if closed then Some(read) else None;
        }
      }
    }

    /** Takes tokens until a separator or a stop word stands outside parentheses. */
    method TakeUntilSeparator(stop: seq<string>) returns (taken: seq<Token>)
      requires Valid()
      modifies this
      ensures Valid() && (taken, Rest()) == TakeUntil(old(Rest()), stop, 0)
    {
      ghost var end := TakeUntil(Rest(), stop, 0);
      var depth: nat := 0;
      taken := [];
      assert [] + end.0 == end.0;
      while at < |tokens| && !(depth == 0 && Ends(tokens[at], stop))
        invariant Valid()
        invariant end.0 == taken + TakeUntil(Rest(), stop, depth).0
        invariant end.1 == TakeUntil(Rest(), stop, depth).1
        decreases |tokens| - at
      {
        var token := tokens[at];
        ghost var before := Rest();
        assert before[1..] == tokens[at + 1..];
        assert taken + ([token] + TakeUntil(before[1..], stop, DepthAfter(token, depth)).0)
            == taken + [token] + TakeUntil(before[1..], stop, DepthAfter(token, depth)).0;
        depth := DepthAfter(token, depth);
        taken := taken + [token];
        at := at + 1;
      }
      assert taken + [] == taken;
    }

    method SkipParentheses()
      requires Valid()
      modifies this
      ensures Valid() && Rest() == SkipBalanced(old(Rest()))
    {
      ghost var end := SkipBalanced(Rest());
      var open := EatPunct('(');
      if !open {
        return;
      }
      var depth: nat := 1;
      while depth > 0 && at < |tokens|
        invariant Valid()
        invariant depth > 0 ==> SkipInside(Rest(), depth) == end
        invariant depth == 0 ==> Rest() == end
        decreases |tokens| - at
      {
        ghost var before := Rest();
        assert before[1..] == tokens[at + 1..];
        if tokens[at] == Punct('(') {
          depth := depth + 1;
        } else if tokens[at] == Punct(')') {
          depth := depth - 1;
        }
        at := at + 1;
      }
    }
  }
}
