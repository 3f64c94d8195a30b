/** How printed text reads back, token by token. */
module PdfLexing {
  import opened Common
  import opened Decimal
  import opened PdfSyntax

  predicate RegularWord(w: string) {
    w != "" && forall i :: 0 <= i < |w| ==> IsRegular(w[i])
  }

  /** Text that ends a run of regular characters. */
  predicate Breaks(bs: string) {
    bs == "" || !IsRegular(bs[0])
  }

  lemma {:induction false} RunOf(w: string, after: string)
    requires forall i :: 0 <= i < |w| ==> IsRegular(w[i])
    requires Breaks(after)
    ensures Run(w + after) == |w|
  {
    if w == "" {
      assert w + after == after;
    } else {
      assert (w + after)[1..] == w[1..] + after;
      RunOf(w[1..], after);
    }
  }

  lemma LexWord(w: string, after: string)
    requires RegularWord(w) && Breaks(after)
    ensures Lex(w + after) == Some((WordToken(w), after))
  {
    hide ReadLiteral, WordToken, Run;
    RunOf(w, after);
    var bs := w + after;
    assert bs[0] == w[0] && IsRegular(bs[0]);
    assert bs[..|w|] == w && bs[|w|..] == after;
  }

  lemma LexSlash(bs: string)
    requires bs != "" && bs[0] == '/'
    ensures Lex(bs) == Some((TName(bs[1..][..Run(bs[1..])]), bs[1..][Run(bs[1..])..]))
  {
    hide ReadLiteral, WordToken, Run;
  }

  lemma LexName(name: string, after: string)
    requires forall i :: 0 <= i < |name| ==> IsRegular(name[i])
    requires Breaks(after)
    ensures Lex("/" + name + after) == Some((TName(name), after))
  {
    hide Lex, Run;
    RunOf(name, after);
    var tail := name + after;
    LexSlash("/" + tail);
    assert ("/" + tail)[1..] == tail && "/" + name + after == "/" + tail;
    assert tail[..|name|] == name && tail[|name|..] == after;
  }

  lemma LexSpace(c: char, after: string)
    requires IsWhite(c)
    ensures Lex([c] + after) == Lex(after)
  {
    assert ([c] + after)[1..] == after;
  }

  // ----- Stretches of tokens -----------------------------------------------------------

  function Before(ts: seq<Token>, r: Option<Stretch>): Option<Stretch> {
    match r
    case None => None
    case Some(s) => Some(s.(tokens := ts + s.tokens))
  }

  lemma BeforeTwice(ts: seq<Token>, us: seq<Token>, r: Option<Stretch>)
    ensures Before(ts, Before(us, r)) == Before(ts + us, r)
  {
    if r.Some? {
      assert ts + (us + r.value.tokens) == ts + us + r.value.tokens;
    }
  }

  /**
   Whatever follows, `text` reads as `ts`. A text that is not `closed` ends in a regular
   character, so that what follows has to begin with something else.
   */
  ghost predicate Reads(text: string, ts: seq<Token>, closed: bool) {
    forall after: string :: closed || Breaks(after) ==> LexUntil(text + after) == Before(ts, LexUntil(after))
  }

  lemma ReadsAppend(a: string, ts: seq<Token>, closedA: bool, b: string, us: seq<Token>, closedB: bool)
    requires Reads(a, ts, closedA) && Reads(b, us, closedB)
    requires closedA || (b != "" && Breaks(b))
    ensures Reads(a + b, ts + us, closedB)
  {
    hide LexUntil, Before;
    forall after: string | closedB || Breaks(after)
      ensures LexUntil(a + b + after) == Before(ts + us, LexUntil(after))
    {
      assert a + b + after == a + (b + after);
      BeforeTwice(ts, us, LexUntil(after));
    }
  }

  lemma ReadsGap(gap: char)
    requires IsWhite(gap)
    ensures Reads([gap], [], true)
  {
    hide Lex;
    forall after: string
      ensures LexUntil([gap] + after) == Before([], LexUntil(after))
    {
      LexSpace(gap, after);
      if LexUntil(after).Some? {
        assert [] + LexUntil(after).value.tokens == LexUntil(after).value.tokens;
      }
    }
  }

  predicate Spells(text: string, t: Token) {
    match t
    case TName(name) => text == "/" + name && forall i :: 0 <= i < |name| ==> IsRegular(name[i])
    case DictOpen => text == "<<"
    case DictClose => text == ">>"
    case ArrOpen => text == "["
    case ArrClose => text == "]"
    case TStr(_) => false
    case _ => RegularWord(text) && t == WordToken(text)
  }

  /** Delimiters end by themselves. */
  predicate SelfEnding(t: Token) {
    t.DictOpen? || t.DictClose? || t.ArrOpen? || t.ArrClose?
  }

  lemma LexToken(text: string, t: Token, after: string)
    requires Spells(text, t) && (SelfEnding(t) || Breaks(after))
    ensures Lex(text + after) == Some((t, after))
  {
    hide ReadLiteral, WordToken, Run;
    match t {
      case TName(name) => LexName(name, after);
      case DictOpen =>
        assert (text + after)[0] == '<' && (text + after)[1] == '<' && (text + after)[2..] == after;
      case DictClose =>
        assert (text + after)[0] == '>' && (text + after)[1] == '>' && (text + after)[2..] == after;
      case ArrOpen =>
        assert (text + after)[0] == '[' && (text + after)[1..] == after;
      case ArrClose =>
        assert (text + after)[0] == ']' && (text + after)[1..] == after;
      case _ => LexWord(text, after);
    }
  }

  lemma ReadsToken(text: string, t: Token)
    requires Spells(text, t) && !IsStop(t)
    ensures Reads(text, [t], SelfEnding(t))
  {
    hide Lex, WordToken;
    forall after: string | SelfEnding(t) || Breaks(after)
      ensures LexUntil(text + after) == Before([t], LexUntil(after))
    {
      LexToken(text, t, after);
    }
  }

  /** A stop keyword ends the stretch. */
  lemma LexStop(word: string, after: string)
    requires word == "endobj" || word == "stream" || word == "startxref"
    requires Breaks(after)
    ensures LexUntil(word + after) == Some(Stretch([], TWord(word), after))
  {
    hide Lex, ReadLiteral, Run, Value;
    LexWord(word, after);
    assert !IsDigit(word[0]) && word[0] != '-' && word[0] != '+';
    assert WordToken(word) == TWord(word);
  }

  lemma SpellsNumber(n: nat)
    ensures Spells(Dec(n), TInt(n)) && !IsStop(TInt(n))
  {
    ValueDec(n);
    assert forall i :: 0 <= i < |Dec(n)| ==> IsDigit(Dec(n)[i]);
  }

  lemma ReadsNumber(n: nat)
    ensures Reads(Dec(n), [TInt(n)], false)
  {
    SpellsNumber(n);
    ReadsToken(Dec(n), TInt(n));
  }

  lemma ReadsKeyword(word: string)
    requires word == "obj" || word == "R" || word == "trailer"
    ensures Reads(word, [TWord(word)], false)
  {
    hide Value;
    assert !IsDigit(word[0]) && word[0] != '-' && word[0] != '+';
    assert WordToken(word) == TWord(word);
    ReadsToken(word, TWord(word));
  }
}
