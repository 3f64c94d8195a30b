/**
 UTF-8 (RFC 3629). A byte is a character below 256, so that ASCII text is its own encoding.
 */
module Utf8 {
  import opened Common

  predicate IsAscii(s: string) {
    forall i :: 0 <= i < |s| ==> s[i] < '\U{80}'
  }

  function Byte(n: int): (c: char)
    requires 0 <= n < 256
    ensures c as int == n
  {
    n as char
  }

  /** The one to four bytes of a character. */
  function Encode1(c: char): (b: string)
    ensures 1 <= |b| <= 4
    ensures c < '\U{80}' ==> b == [c]
    ensures c >= '\U{80}' ==> forall i :: 0 <= i < |b| ==> '\U{80}' <= b[i] < '\U{100}'
  {
    var n := c as int;
    if n < 0x80 then [c]
    else if n < 0x800 then [Byte(0xC0 + n / 64), Byte(0x80 + n % 64)]
    else if n < 0x10000 then [Byte(0xE0 + n / 4096), Byte(0x80 + n / 64 % 64), Byte(0x80 + n % 64)]
    else [Byte(0xF0 + n / 262144), Byte(0x80 + n / 4096 % 64), Byte(0x80 + n / 64 % 64), Byte(0x80 + n % 64)]
  }

  function Encode(s: string): string {
    if s == "" then "" else Encode1(s[0]) + Encode(s[1..])
  }

  lemma {:induction false} EncodeAppend(s: string, t: string)
    ensures Encode(s + t) == Encode(s) + Encode(t)
  {
    if s == "" {
      assert s + t == t;
    } else {
      assert (s + t)[1..] == s[1..] + t;
      EncodeAppend(s[1..], t);
    }
  }

  lemma {:induction false} EncodeAscii(s: string)
    requires IsAscii(s)
    ensures Encode(s) == s
  {
    if s != "" {
      EncodeAscii(s[1..]);
    }
  }

  /** One character of each width. */
  lemma FourWidths()
    ensures Encode1('A') == "A" && Encode1('\U{E9}') == "\U{C3}\U{A9}"
    ensures Encode1('\U{20AC}') == "\U{E2}\U{82}\U{AC}" && Encode1('\U{1F600}') == "\U{F0}\U{9F}\U{98}\U{80}"
  {
  }

  // ----- Decoding ----------------------------------------------------------------------

  predicate Continuation(c: char) {
    0x80 <= c as int < 0xC0
  }

  /** A scalar value, or nothing: surrogates and values past U+10FFFF are not characters. */
  function Scalar(n: int): Option<char> {
    if 0 <= n < 0xD800 || 0xE000 <= n < 0x110000 then Some(n as char) else None
  }

  /** The first character of a byte string, and the number of its bytes. */
  function Decode1(b: string): Option<(char, nat)> {
    if b == "" then None
    else
      var h := b[0] as int;
      if h < 0x80 then Some((b[0], 1))
      else if 0xC0 <= h < 0xE0 && |b| >= 2 && Continuation(b[1]) then
        match Scalar((h - 0xC0) * 64 + (b[1] as int - 0x80))
        case Some(c) => Some((c, 2))
        case None => None
      else if 0xE0 <= h < 0xF0 && |b| >= 3 && Continuation(b[1]) && Continuation(b[2]) then
        match Scalar((h - 0xE0) * 4096 + (b[1] as int - 0x80) * 64 + (b[2] as int - 0x80))
        case Some(c) => Some((c, 3))
        case None => None
      else if 0xF0 <= h < 0xF8 && |b| >= 4 && Continuation(b[1]) && Continuation(b[2]) && Continuation(b[3]) then
        match Scalar((h - 0xF0) * 262144 + (b[1] as int - 0x80) * 4096 + (b[2] as int - 0x80) * 64 + (b[3] as int - 0x80))
        case Some(c) => Some((c, 4))
        case None => None
      else None
  }

  function Decode(b: string): Option<string> {
    if b == "" then Some("")
    else
      match Decode1(b)
      case None => None
      case Some((c, n)) =>
        if n == 0 || n > |b| then None
        else
          match Decode(b[n..])
          case None => None
          case Some(s) => Some([c] + s)
  }

  lemma SplitBySixBits(n: nat)
    ensures n == n / 64 * 64 + n % 64
    ensures n == n / 4096 * 4096 + n / 64 % 64 * 64 + n % 64
    ensures n == n / 262144 * 262144 + n / 4096 % 64 * 4096 + n / 64 % 64 * 64 + n % 64
  {
    assert n / 4096 == n / 64 / 64;
    assert n / 262144 == n / 64 / 64 / 64;
  }

  lemma Decode1Two(n: int, rest: string)
    requires 0x80 <= n < 0x800
    ensures Decode1([Byte(0xC0 + n / 64), Byte(0x80 + n % 64)] + rest) == Some((n as char, 2))
  {
    var b := [Byte(0xC0 + n / 64), Byte(0x80 + n % 64)] + rest;
    assert b[0] as int == 0xC0 + n / 64 && b[1] as int == 0x80 + n % 64;
    SplitBySixBits(n);
  }

  lemma Decode1Three(c: char, rest: string)
    requires 0x800 <= c as int < 0x10000
    ensures Decode1(Encode1(c) + rest) == Some((c, 3))
  {
    var n := c as int;
    var b := Encode1(c) + rest;
    assert b[0] as int == 0xE0 + n / 4096 && b[1] as int == 0x80 + n / 64 % 64 && b[2] as int == 0x80 + n % 64;
    SplitBySixBits(n);
    assert Scalar(n) == Some(c);
  }

  lemma Decode1Four(c: char, rest: string)
    requires 0x10000 <= c as int
    ensures Decode1(Encode1(c) + rest) == Some((c, 4))
  {
    var n := c as int;
    var b := Encode1(c) + rest;
    assert b[0] as int == 0xF0 + n / 262144 && b[1] as int == 0x80 + n / 4096 % 64;
    assert b[2] as int == 0x80 + n / 64 % 64 && b[3] as int == 0x80 + n % 64;
    SplitBySixBits(n);
    assert Scalar(n) == Some(c);
  }

  lemma Decode1Encode1(c: char, rest: string)
    ensures Decode1(Encode1(c) + rest) == Some((c, |Encode1(c)|))
  {
    var n := c as int;
    if n < 0x80 {
      assert (Encode1(c) + rest)[0] == c;
    } else if n < 0x800 {
      Decode1Two(n, rest);
    } else if n < 0x10000 {
      Decode1Three(c, rest);
    } else {
      Decode1Four(c, rest);
    }
  }

  lemma {:induction false} DecodeEncode(s: string)
    ensures Decode(Encode(s)) == Some(s)
  {
    if s != "" {
      Decode1Encode1(s[0], Encode(s[1..]));
      assert Encode(s)[|Encode1(s[0])|..] == Encode(s[1..]);
      DecodeEncode(s[1..]);
      assert [s[0]] + s[1..] == s;
    }
  }
}
