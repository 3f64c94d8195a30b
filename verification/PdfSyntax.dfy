/**
 The lexical and object syntax of ISO 32000-1 (sections 7.2 and 7.3), for reading. Bytes
 are characters below 256.
 */
module PdfSyntax {
  import opened Common
  import opened Decimal

  // ----- Character classes (section 7.2.2) -----------------------------------------------

  predicate IsWhite(c: char) {
    c == '\0' || c == '\t' || c == '\n' || c == '\U{C}' || c == '\r' || c == ' '
  }

  predicate IsDelimiter(c: char) {
    c == '(' || c == ')' || c == '<' || c == '>' || c == '[' || c == ']' || c == '{' || c == '}' || c == '/' || c == '%'
  }

  predicate IsRegular(c: char) {
    !IsWhite(c) && !IsDelimiter(c)
  }

  // ----- Literal strings (section 7.3.4.2) -----------------------------------------------

  predicate IsOctal(c: char) {
    '0' <= c <= '7'
  }

  function OctalValue(s: string): nat
    requires forall i :: 0 <= i < |s| ==> IsOctal(s[i])
  {
    if s == "" then 0
    else
      assert IsOctal(s[|s| - 1]);
      OctalValue(s[..|s| - 1]) * 8 + (s[|s| - 1] as int - '0' as int)
  }

  /** The number of octal digits, three at most, at the front. */
  function OctalRun(bs: string): (n: nat)
    ensures n <= 3 && n <= |bs| && forall i :: 0 <= i < n ==> IsOctal(bs[i])
  {
    if |bs| >= 1 && IsOctal(bs[0]) then
      if |bs| >= 2 && IsOctal(bs[1]) then
        if |bs| >= 3 && IsOctal(bs[2]) then 3 else 2
      else 1
    else 0
  }

  /** What follows a reverse solidus: the bytes it stands for, and how many it takes. */
  function EscapeAt(bs: string): (r: (string, nat))
    requires bs != ""
    ensures 1 <= r.1 <= |bs|
  {
    var c := bs[0];
    if c == 'n' then ("\n", 1)
    else if c == 'r' then ("\r", 1)
    else if c == 't' then ("\t", 1)
    else if c == 'b' then ("\U{8}", 1)
    else if c == 'f' then ("\U{C}", 1)
    else if c == '\r' then ("", if |bs| > 1 && bs[1] == '\n' then 2 else 1)
    else if c == '\n' then ("", 1)
    else if IsOctal(c) then
      var n := OctalRun(bs);
      ([(OctalValue(bs[..n]) % 256) as char], n)
    else ([c], 1)
  }

  /** The rest of an end-of-line marker that began with a carriage return. */
  function AfterReturn(bs: string): (r: string)
    ensures |r| <= |bs|
  {
    if bs != "" && bs[0] == '\n' then bs[1..] else bs
  }

  /**
   The bytes of a literal string from behind its opening parenthesis, with `depth` balanced
   parentheses open inside it, and what comes after the closing one. An end-of-line marker
   in the string reads as one line feed.
   */
  function ReadLiteral(bs: string, depth: nat): (r: Option<(string, string)>)
    ensures r.Some? ==> |r.value.1| < |bs|
    decreases |bs|
  {
    if bs == "" then None
    else
      var c := bs[0];
      if c == '\\' then
        if |bs| == 1 then None
        else
          var (text, n) := EscapeAt(bs[1..]);
          Prefixed(text, ReadLiteral(bs[1..][n..], depth))
      else if c == '(' then Prefixed("(", ReadLiteral(bs[1..], depth + 1))
      else if c == ')' then
        if depth == 0 then Some(("", bs[1..])) else Prefixed(")", ReadLiteral(bs[1..], depth - 1))
      else if c == '\r' then Prefixed("\n", ReadLiteral(AfterReturn(bs[1..]), depth))
      else Prefixed([c], ReadLiteral(bs[1..], depth))
  }

  function Prefixed(text: string, r: Option<(string, string)>): Option<(string, string)> {
    match r
    case None => None
    case Some((s, rest)) => Some((text + s, rest))
  }

  // ----- Tokens ------------------------------------------------------------------------

  datatype Token =
    | TInt(n: int)
    | TName(name: string)
    | TWord(word: string)
    | TStr(text: string)
    | DictOpen | DictClose | ArrOpen | ArrClose

  /** The length of the run of regular characters at the front. */
  function Run(bs: string): (n: nat)
    ensures n <= |bs|
  {
    if bs != "" && IsRegular(bs[0]) then 1 + Run(bs[1..]) else 0
  }

  /** A run of regular characters is an integer (section 7.3.3) or a keyword. */
  function WordToken(w: string): Token {
    if w != "" && AllDigits(w) then TInt(Value(w))
    else if |w| > 1 && w[0] == '-' && AllDigits(w[1..]) then TInt(0 - Value(w[1..]))
    else if |w| > 1 && w[0] == '+' && AllDigits(w[1..]) then TInt(Value(w[1..]))
    else TWord(w)
  }

  /** The first token of a byte string and what follows it. */
  function Lex(bs: string): (r: Option<(Token, string)>)
    ensures r.Some? ==> |r.value.1| < |bs|
    decreases |bs|
  {
    if bs == "" then None
    else
      var c := bs[0];
      if IsWhite(c) then Lex(bs[1..])
      else if c == '(' then
        match ReadLiteral(bs[1..], 0)
        case None => None
        case Some((s, rest)) => Some((TStr(s), rest))
      else if c == '/' then
        var n := Run(bs[1..]);
        Some((TName(bs[1..][..n]), bs[1..][n..]))
      else if c == '[' then Some((ArrOpen, bs[1..]))
      else if c == ']' then Some((ArrClose, bs[1..]))
      else if c == '<' then if |bs| > 1 && bs[1] == '<' then Some((DictOpen, bs[2..])) else None
      else if c == '>' then if |bs| > 1 && bs[1] == '>' then Some((DictClose, bs[2..])) else None
      else if IsDelimiter(c) then None
      else
        var n := Run(bs);
        Some((WordToken(bs[..n]), bs[n..]))
  }

  /** The keywords that end a stretch of tokens. */
  predicate IsStop(t: Token) {
    t == TWord("endobj") || t == TWord("stream") || t == TWord("startxref")
  }

  datatype Stretch = Stretch(tokens: seq<Token>, stop: Token, rest: string)

  /** All tokens up to the next stop keyword. */
  function LexUntil(bs: string): Option<Stretch>
    decreases |bs|
  {
    match Lex(bs)
    case None => None
    case Some((t, rest)) =>
      if IsStop(t) then Some(Stretch([], t, rest))
      else
        match LexUntil(rest)
        case None => None
        case Some(s) => Some(s.(tokens := [t] + s.tokens))
  }

  // ----- Objects (sections 7.3.2 to 7.3.10) ----------------------------------------------

  datatype Obj =
    | Int(n: int)
    | Name(name: string)
    | Str(text: string)
    | Reference(num: nat, gen: nat)
    | Arr(items: seq<Obj>)
    | Dict(entries: seq<Pair>)

  datatype Pair = Pair(key: string, value: Obj)

  /** The first object of a token sequence and the tokens after it. */
  function ParseObj(ts: seq<Token>): (r: Option<(Obj, seq<Token>)>)
    ensures r.Some? ==> |r.value.1| < |ts|
    decreases |ts|, 1
  {
    if ts == [] then None
    else
      match ts[0]
      case TInt(n) =>
        if |ts| >= 3 && ts[1].TInt? && ts[2] == TWord("R") && n >= 0 && ts[1].n >= 0
        then Some((Reference(n, ts[1].n), ts[3..]))
        else Some((Int(n), ts[1..]))
      case TName(name) => Some((Name(name), ts[1..]))
      case TStr(text) => Some((Str(text), ts[1..]))
      case ArrOpen =>
        (match ParseItems(ts[1..])
         case None => None
         case Some((items, rest)) => Some((Arr(items), rest)))
      case DictOpen =>
        (match ParsePairs(ts[1..])
         case None => None
         case Some((pairs, rest)) => Some((Dict(pairs), rest)))
      case _ => None
  }

  /** Array elements up to the closing bracket. */
  function ParseItems(ts: seq<Token>): (r: Option<(seq<Obj>, seq<Token>)>)
    ensures r.Some? ==> |r.value.1| < |ts|
    decreases |ts|, 2
  {
    if ts == [] then None
    else if ts[0] == ArrClose then Some(([], ts[1..]))
    else
      match ParseObj(ts)
      case None => None
      case Some((o, rest)) =>
        match ParseItems(rest)
        case None => None
        case Some((items, after)) => Some(([o] + items, after))
  }

  /** Dictionary entries up to the closing brackets. */
  function ParsePairs(ts: seq<Token>): (r: Option<(seq<Pair>, seq<Token>)>)
    ensures r.Some? ==> |r.value.1| < |ts|
    decreases |ts|, 2
  {
    if ts == [] then None
    else if ts[0] == DictClose then Some(([], ts[1..]))
    else if !ts[0].TName? then None
    else
      match ParseObj(ts[1..])
      case None => None
      case Some((o, rest)) =>
        match ParsePairs(rest)
        case None => None
        case Some((pairs, after)) => Some(([Pair(ts[0].name, o)] + pairs, after))
  }

  /** The value of a key in a dictionary. */
  function LookUp(pairs: seq<Pair>, key: string): Option<Obj> {
    if pairs == [] then None
    else if pairs[0].key == key then Some(pairs[0].value)
    else LookUp(pairs[1..], key)
  }

  function Get(o: Obj, key: string): Option<Obj> {
    if o.Dict? then LookUp(o.entries, key) else None
  }
}
