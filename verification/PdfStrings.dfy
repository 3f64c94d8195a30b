/** The writer's `escape` against the reader of literal strings. */
module PdfStrings {
  import opened Common
  import opened Utf8
  import opened PdfWriter
  import opened PdfSyntax

  predicate Special(c: char) {
    c == '\\' || c == '(' || c == ')'
  }

  /** What the three replacements amount to for one character. */
  function EscapeChar(c: char): string {
    if Special(c) then ['\\', c] else [c]
  }

  function EscapeEach(text: string): string {
    if text == "" then "" else EscapeChar(text[0]) + EscapeEach(text[1..])
  }

  lemma {:induction false} ReplaceAppend(s: string, t: string, c: char, with: string)
    ensures Replace(s + t, c, with) == Replace(s, c, with) + Replace(t, c, with)
  {
    if s == "" {
      assert s + t == t;
    } else {
      assert (s + t)[1..] == s[1..] + t;
      ReplaceAppend(s[1..], t, c, with);
    }
  }

  lemma Replace1(c: char, d: char, with: string)
    ensures Replace([c], d, with) == if c == d then with else [c]
  {
    assert [c][1..] == "";
  }

  lemma Replace2(a: char, b: char, d: char, with: string)
    ensures Replace([a, b], d, with) == (if a == d then with else [a]) + (if b == d then with else [b])
  {
    assert [a, b] == [a] + [b];
    ReplaceAppend([a], [b], d, with);
    Replace1(a, d, with);
    Replace1(b, d, with);
  }

  lemma EscapeOne(c: char)
    ensures Escape([c]) == EscapeChar(c)
  {
    hide Replace;
    Replace1(c, '\\', "\\\\");
    var r1 := Replace([c], '\\', "\\\\");
    if c == '\\' {
      Replace2('\\', '\\', '(', "\\(");
      Replace2('\\', '\\', ')', "\\)");
      assert ['\\'] + ['\\'] == "\\\\";
    } else {
      Replace1(c, '(', "\\(");
      if c == '(' {
        Replace2('\\', '(', ')', "\\)");
      } else {
        Replace1(c, ')', "\\)");
      }
    }
  }

  /** The three sequential replacements are one map over the characters: none disturbs what another put in. */
  lemma {:induction false} EscapeIsPerCharacter(text: string)
    ensures Escape(text) == EscapeEach(text)
  {
    if text != "" {
      assert text == [text[0]] + text[1..];
      ReplaceAppend([text[0]], text[1..], '\\', "\\\\");
      ReplaceAppend(Replace([text[0]], '\\', "\\\\"), Replace(text[1..], '\\', "\\\\"), '(', "\\(");
      ReplaceAppend(Replace(Replace([text[0]], '\\', "\\\\"), '(', "\\("),
                    Replace(Replace(text[1..], '\\', "\\\\"), '(', "\\("), ')', "\\)");
      assert Escape(text) == Escape([text[0]]) + Escape(text[1..]);
      EscapeOne(text[0]);
      EscapeIsPerCharacter(text[1..]);
    }
  }

  // ----- Reading back ------------------------------------------------------------------

  /** End-of-line markers as a reader sees them: a carriage return, alone or before a line feed, is a line feed. */
  function Normalized(b: string): string
    decreases |b|
  {
    if b == "" then ""
    else if b[0] == '\r' then "\n" + Normalized(AfterReturn(b[1..]))
    else [b[0]] + Normalized(b[1..])
  }

  /** Bytes that mean nothing in a literal string. */
  predicate Ordinary(c: char) {
    c != '\\' && c != '(' && c != ')' && c != '\r'
  }

  lemma {:induction false} ReadPlain(b: string, after: string)
    requires forall i :: 0 <= i < |b| ==> Ordinary(b[i])
    ensures ReadLiteral(b + after, 0) == Prefixed(b, ReadLiteral(after, 0))
  {
    if b == "" {
      assert b + after == after;
      if ReadLiteral(after, 0).Some? {
        assert "" + ReadLiteral(after, 0).value.0 == ReadLiteral(after, 0).value.0;
      }
    } else {
      assert (b + after)[0] == b[0] && (b + after)[1..] == b[1..] + after;
      ReadPlain(b[1..], after);
      if ReadLiteral(after, 0).Some? {
        assert [b[0]] + (b[1..] + ReadLiteral(after, 0).value.0) == b + ReadLiteral(after, 0).value.0;
      }
    }
  }

  lemma {:induction false} NormalizedPlain(b: string, after: string)
    requires forall i :: 0 <= i < |b| ==> b[i] != '\r'
    ensures Normalized(b + after) == b + Normalized(after)
  {
    if b == "" {
      assert b + after == after;
    } else {
      assert (b + after)[0] == b[0] && (b + after)[1..] == b[1..] + after;
      NormalizedPlain(b[1..], after);
    }
  }

  /** The bytes of an escaped text. */
  function Escaped(text: string): string {
    Encode(EscapeEach(text))
  }

  lemma EscapedCons(c: char, t: string)
    ensures Escaped([c] + t) == (if Special(c) then ['\\', c] else Encode1(c)) + Escaped(t)
    ensures Encode([c] + t) == Encode1(c) + Encode(t)
  {
    assert ([c] + t)[1..] == t;
    EncodeAppend(EscapeChar(c), EscapeEach(t));
    if Special(c) {
      EncodeAscii(['\\', c]);
    } else {
      assert [c][1..] == "";
      assert Encode([c]) == Encode1(c);
    }
  }

  lemma ReadClose(after: string)
    ensures ReadLiteral(")" + after, 0) == Some(("", after))
  {
    assert (")" + after)[1..] == after;
  }

  lemma ReadSpecial(c: char, after: string)
    requires Special(c)
    ensures ReadLiteral(['\\', c] + after, 0) == Prefixed([c], ReadLiteral(after, 0))
  {
    var bs := ['\\', c] + after;
    assert bs[1..][0] == c && bs[1..][1..] == after;
    assert EscapeAt(bs[1..]) == ([c], 1);
  }

  /** The first byte of escaped text is a line feed only when the text starts with one. */
  lemma EscapedHead(t: string, after: string)
    requires after != "" && after[0] != '\n'
    ensures (Escaped(t) + after)[0] == '\n' <==> t != "" && t[0] == '\n'
  {
    if t == "" {
      assert Escaped(t) + after == after;
    } else {
      assert t == [t[0]] + t[1..];
      EscapedCons(t[0], t[1..]);
      assert (Escaped(t) + after)[0] == (if Special(t[0]) then '\\' else Encode1(t[0])[0]);
    }
  }

  /** One more character in front, other than a carriage return. */
  lemma CharacterReadsBack(c: char, t: string, after: string)
    requires c != '\r'
    requires ReadLiteral(Escaped(t) + ")" + after, 0) == Some((Normalized(Encode(t)), after))
    ensures ReadLiteral(Escaped([c] + t) + ")" + after, 0) == Some((Normalized(Encode([c] + t)), after))
  {
    hide ReadLiteral, Normalized, Encode, Escaped;
    EscapedCons(c, t);
    var rest := Escaped(t) + ")" + after;
    if Special(c) {
      assert Escaped([c] + t) + ")" + after == ['\\', c] + rest;
      ReadSpecial(c, rest);
      EncodeAscii([c]);
      EncodeAppend([c], t);
      NormalizedPlain([c], Encode(t));
    } else {
      assert Escaped([c] + t) + ")" + after == Encode1(c) + rest;
      ReadPlain(Encode1(c), rest);
      NormalizedPlain(Encode1(c), Encode(t));
    }
  }

  /** A literal string written by `escape` reads back as the bytes of the text, end-of-line markers normalised. */
  lemma {:induction false} EscapedReadsBack(text: string, after: string)
    ensures ReadLiteral(Escaped(text) + ")" + after, 0) == Some((Normalized(Encode(text)), after))
    decreases |text|, 0
  {
    if text == "" {
      assert Escaped(text) + ")" + after == ")" + after;
      ReadClose(after);
    } else {
      hide ReadLiteral, Normalized, Encode, Escaped;
      var c, t := text[0], text[1..];
      assert text == [c] + t;
      if c == '\r' {
        assert text == "\r" + t;
        ReturnReadsBack(t, after);
      } else {
        EscapedReadsBack(t, after);
        CharacterReadsBack(c, t, after);
      }
    }
  }

  /** After a carriage return a line feed is skipped, in the escaped text as in the text. */
  lemma AfterReturnEscaped(t: string, after: string)
    ensures AfterReturn(Escaped(t) + ")" + after) == Escaped(AfterReturn(t)) + ")" + after
    ensures AfterReturn(Encode(t)) == Encode(AfterReturn(t))
  {
    hide Escaped, Encode;
    var close := ")" + after;
    assert Escaped(t) + ")" + after == Escaped(t) + close;
    EscapedHead(t, close);
    if t != "" {
      assert t == [t[0]] + t[1..];
      EscapedCons(t[0], t[1..]);
      if t[0] == '\n' {
        assert (Escaped(t) + close)[1..] == Escaped(t[1..]) + close;
        assert Encode(t)[1..] == Encode(t[1..]);
        assert Escaped(t[1..]) + close == Escaped(t[1..]) + ")" + after;
      }
    } else {
      EncodeAscii(t);
    }
  }

  lemma {:induction false} ReturnReadsBack(t: string, after: string)
    ensures ReadLiteral(Escaped("\r" + t) + ")" + after, 0) == Some((Normalized(Encode("\r" + t)), after))
    decreases |t|, 1
  {
    hide Escaped, Encode, AfterReturn;
    EscapedCons('\r', t);
    var rest := Escaped(t) + ")" + after;
    var all := Escaped("\r" + t) + ")" + after;
    assert all == "\r" + rest && all[1..] == rest;
    assert Encode("\r" + t) == "\r" + Encode(t) && Encode("\r" + t)[1..] == Encode(t);
    AfterReturnEscaped(t, after);
    EscapedReadsBack(AfterReturn(t), after);
  }

  // ----- When nothing is lost ----------------------------------------------------------

  lemma {:induction false} NormalizedHasNoReturn(b: string)
    ensures '\r' !in Normalized(b)
    decreases |b|
  {
    if b != "" {
      NormalizedHasNoReturn(if b[0] == '\r' then AfterReturn(b[1..]) else b[1..]);
    }
  }

  /** Normalising the bytes of a text or the text itself is the same. */
  lemma {:induction false} NormalizedBytes(text: string)
    ensures Normalized(Encode(text)) == Encode(Normalized(text))
    decreases |text|
  {
    if text != "" {
      var c, t := text[0], text[1..];
      assert text == [c] + t;
      assert Encode(text) == Encode1(c) + Encode(t);
      if c == '\r' {
        assert Encode(text)[1..] == Encode(t);
        AfterReturnEscaped(t, "");
        NormalizedBytes(AfterReturn(t));
        assert ("\n" + Normalized(AfterReturn(t)))[1..] == Normalized(AfterReturn(t));
      } else {
        NormalizedPlain(Encode1(c), Encode(t));
        NormalizedBytes(t);
        assert ([c] + Normalized(t))[1..] == Normalized(t);
      }
    }
  }

  /** Reading back loses nothing exactly when the text has no carriage return. */
  lemma ReadsBackExactly(text: string)
    ensures Decode(Normalized(Encode(text))) == Some(Normalized(text))
    ensures Normalized(text) == text <==> '\r' !in text
  {
    NormalizedBytes(text);
    DecodeEncode(Normalized(text));
    NormalizedHasNoReturn(text);
    if '\r' !in text {
      NormalizedPlain(text, "");
      assert text + "" == text;
    }
  }
}
