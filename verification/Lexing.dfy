/** Which text scans to which tokens, in pieces that can be put together. */
module Lexing {
  import opened Strings
  import opened Decimal
  import opened Scanning
  import opened Rendering

  /** `text` scans to `tokens`, provided something that stops a token follows. */
  ghost predicate Open(text: string, tokens: seq<Token>) {
    forall r, scan :: Stops(r) ==> ScanFrom(text + r, scan) == ScanFrom(r, PushAll(scan, tokens))
  }

  /** `text` scans to `tokens` whatever follows. */
  ghost predicate Closed(text: string, tokens: seq<Token>) {
    forall r, scan :: ScanFrom(text + r, scan) == ScanFrom(r, PushAll(scan, tokens))
  }

  lemma PushAllTwice(scan: Scan, a: seq<Token>, b: seq<Token>)
    ensures PushAll(PushAll(scan, a), b) == PushAll(scan, a + b)
  {
    assert scan.tokens + a + b == scan.tokens + (a + b);
  }

  lemma ClosedClosed(a: string, ta: seq<Token>, b: string, tb: seq<Token>)
    requires Closed(a, ta) && Closed(b, tb)
    ensures Closed(a + b, ta + tb)
  {
    hide ScanFrom;
    forall r, scan
      ensures ScanFrom(a + b + r, scan) == ScanFrom(r, PushAll(scan, ta + tb))
    {
      assert a + b + r == a + (b + r);
      PushAllTwice(scan, ta, tb);
    }
  }

  lemma ClosedOpen(a: string, ta: seq<Token>, b: string, tb: seq<Token>)
    requires Closed(a, ta) && Open(b, tb)
    ensures Open(a + b, ta + tb)
  {
    hide ScanFrom, Stops;
    forall r, scan | Stops(r)
      ensures ScanFrom(a + b + r, scan) == ScanFrom(r, PushAll(scan, ta + tb))
    {
      assert a + b + r == a + (b + r);
      PushAllTwice(scan, ta, tb);
    }
  }

  /** `b` itself begins with something that stops a token. */
  ghost predicate StopsAhead(b: string) {
    b != "" && Stops(b)
  }

  lemma StopsAheadOf(b: string, r: string)
    requires StopsAhead(b)
    ensures Stops(b + r)
  {
    assert (b + r)[0] == b[0];
  }

  lemma OpenOpen(a: string, ta: seq<Token>, b: string, tb: seq<Token>)
    requires Open(a, ta) && Open(b, tb) && StopsAhead(b)
    ensures Open(a + b, ta + tb)
  {
    hide ScanFrom, Stops, StopsAhead;
    forall r, scan | Stops(r)
      ensures ScanFrom(a + b + r, scan) == ScanFrom(r, PushAll(scan, ta + tb))
    {
      assert a + b + r == a + (b + r);
      StopsAheadOf(b, r);
      PushAllTwice(scan, ta, tb);
    }
  }

  lemma OpenClosed(a: string, ta: seq<Token>, b: string, tb: seq<Token>)
    requires Open(a, ta) && Closed(b, tb) && StopsAhead(b)
    ensures Closed(a + b, ta + tb)
  {
    hide ScanFrom, Stops, StopsAhead;
    forall r, scan
      ensures ScanFrom(a + b + r, scan) == ScanFrom(r, PushAll(scan, ta + tb))
    {
      assert a + b + r == a + (b + r);
      StopsAheadOf(b, r);
      PushAllTwice(scan, ta, tb);
    }
  }

  lemma ClosedIsOpen(a: string, ta: seq<Token>)
    requires Closed(a, ta)
    ensures Open(a, ta)
  {
  }

  // ----- the smallest pieces -----

  lemma NothingClosed()
    ensures Closed("", [])
  {
    hide ScanFrom;
    forall r, scan
      ensures ScanFrom("" + r, scan) == ScanFrom(r, PushAll(scan, []))
    {
      assert "" + r == r && scan.tokens + [] == scan.tokens;
    }
  }

  lemma {:induction false} GapClosed(gap: string)
    requires forall i :: 0 <= i < |gap| ==> gap[i] == ' ' || gap[i] == '\n'
    ensures Closed(gap, [])
  {
    hide ScanFrom;
    if gap == "" {
      NothingClosed();
    } else {
      GapClosed(gap[1..]);
      forall r, scan
        ensures ScanFrom(gap + r, scan) == ScanFrom(r, PushAll(scan, []))
      {
        assert gap + r == [gap[0]] + (gap[1..] + r);
        SpaceStep(gap[0], gap[1..] + r, scan);
      }
    }
  }

  lemma TokenOpen(t: Token)
    requires Scannable(t)
    ensures Open(Spell(t), [t])
  {
    hide ScanFrom, Spell, Scannable, CanFollow;
    forall r, scan | Stops(r)
      ensures ScanFrom(Spell(t) + r, scan) == ScanFrom(r, PushAll(scan, [t]))
    {
      StopsFollows(t, r);
      SpelledStep(t, r, scan);
    }
  }

  /** A word is scanned in lower case, however it is written. */
  lemma WordOpen(w: string)
    requires w != "" && IsNameStart(w[0]) && NameChars(w)
    ensures Open(w, [Word(Lower(w))])
  {
    hide ScanFrom, Step, NameChars, IsNameStart;
    forall r, scan | Stops(r)
      ensures ScanFrom(w + r, scan) == ScanFrom(r, PushAll(scan, [Word(Lower(w))]))
    {
      StopsFollows(Word(w), r);
      WordStep(w, r, scan);
      ScanUnfold(w + r, scan);
    }
  }

  /** A mark that no character after it can change. */
  lemma MarkClosed(c: char)
    requires c in {'(', ')', ',', '.'}
    ensures Closed([c], [Punct(c)])
  {
    hide ScanFrom, Step;
    forall r, scan
      ensures ScanFrom([c] + r, scan) == ScanFrom(r, PushAll(scan, [Punct(c)]))
    {
      SpelledStep(Punct(c), r, scan);
    }
  }

  lemma RenderOpen(tokens: seq<Token>)
    requires AllScannable(tokens)
    ensures Open(Render(tokens), tokens)
  {
    hide ScanFrom, Render, Stops;
    RenderIs(tokens);
    forall r, scan | Stops(r)
      ensures ScanFrom(Render(tokens) + r, scan) == ScanFrom(r, PushAll(scan, tokens))
    {
      RenderedScans(true, tokens, r, scan);
    }
  }

  lemma NatTextOpen(n: nat)
    ensures Open(NatText(n), [Number(NatText(n))])
  {
    hide NatText;
    TokenOpen(Number(NatText(n)));
  }

  // ----- keywords -----

  predicate IsUpperOf(upper: string, lower: string) {
    |upper| == |lower| && forall i :: 0 <= i < |lower| ==> 'A' <= upper[i] <= 'Z' && lower[i] == upper[i] - 'A' + 'a'
  }

  lemma KeywordOpen(upper: string, lower: string)
    requires upper != "" && IsUpperOf(upper, lower)
    ensures Open(upper, [Word(lower)])
  {
    hide Open;
    assert Lower(upper) == lower;
    WordOpen(upper);
  }

  lemma TwoKeywords(a: string, la: string, b: string, lb: string)
    requires a != "" && b != "" && IsUpperOf(a, la) && IsUpperOf(b, lb)
    ensures Open(a + " " + b, [Word(la), Word(lb)])
  {
    hide Open, Closed;
    KeywordOpen(a, la);
    KeywordOpen(b, lb);
    GapClosed(" ");
    OpenClosed(a, [Word(la)], " ", []);
    ClosedOpen(a + " ", [Word(la)] + [], b, [Word(lb)]);
    assert [Word(la)] + [] + [Word(lb)] == [Word(la), Word(lb)];
  }
}
