/** Catalogue lines: how a row is printed into a line and how a line is taken apart. */
module CatalogueText {
  import opened Common
  import opened Decimal
  import PdfWriter

  // ----- Strings as Python has them ----------------------------------------------------

  predicate IsSpace(c: char) {
    '\t' <= c <= '\r' || '\U{1C}' <= c <= ' ' || c == '\U{85}' || c == '\U{A0}' || c == '\U{1680}'
    || '\U{2000}' <= c <= '\U{200A}' || c == '\U{2028}' || c == '\U{2029}' || c == '\U{202F}' || c == '\U{205F}' || c == '\U{3000}'
  }

  /** The characters `splitlines` breaks at. */
  predicate IsBreak(c: char) {
    '\n' <= c <= '\r' || '\U{1C}' <= c <= '\U{1E}' || c == '\U{85}' || c == '\U{2028}' || c == '\U{2029}'
  }

  /** The white space that `strip` takes off and the breaks of `splitlines`, character by character. */
  lemma SpacesAndBreaks(c: char)
    ensures IsBreak(c) <==> c in {'\n', '\U{B}', '\U{C}', '\r', '\U{1C}', '\U{1D}', '\U{1E}', '\U{85}', '\U{2028}', '\U{2029}'}
    ensures IsSpace(c) <==> IsBreak(c) || c in {'\t', '\U{1F}', ' ', '\U{A0}', '\U{1680}', '\U{2000}', '\U{2001}', '\U{2002}', '\U{2003}', '\U{2004}',
                                                 '\U{2005}', '\U{2006}', '\U{2007}', '\U{2008}', '\U{2009}', '\U{200A}', '\U{202F}', '\U{205F}', '\U{3000}'}
  {
  }

  function StripLeft(s: string): string {
    if s != "" && IsSpace(s[0]) then StripLeft(s[1..]) else s
  }

  function StripRight(s: string): string {
    if s != "" && IsSpace(s[|s| - 1]) then StripRight(s[..|s| - 1]) else s
  }

  /** `s.strip()` */
  function Strip(s: string): string {
    StripRight(StripLeft(s))
  }

  /** `s.split("|")` */
  function Split(s: string): (r: seq<string>)
    ensures r != []
  {
    if s == "" then [""]
    else if s[0] == '|' then [""] + Split(s[1..])
    else
      var r := Split(s[1..]);
      [[s[0]] + r[0]] + r[1..]
  }

  predicate LoneI(s: string) {
    |s| >= 3 && s[0] == ' ' && s[1] == 'I' && s[2] == ' '
  }

  /** `s.replace(" I ", " | ")`: from left to right, without overlaps. */
  function ReplaceLoneI(s: string): string {
    if s == "" then ""
    else if LoneI(s) then " | " + ReplaceLoneI(s[3..])
    else [s[0]] + ReplaceLoneI(s[1..])
  }

  predicate HasLoneI(s: string) {
    s != "" && (LoneI(s) || HasLoneI(s[1..]))
  }

  /** `word in s` */
  predicate Contains(s: string, word: string) {
    word <= s || (s != "" && Contains(s[1..], word))
  }

  ghost predicate OccursAt(s: string, word: string, i: int) {
    0 <= i <= |s| - |word| && s[i..i + |word|] == word
  }

  lemma {:induction false} ContainsIs(s: string, word: string)
    ensures Contains(s, word) <==> exists i :: OccursAt(s, word, i)
  {
    if word <= s {
      assert OccursAt(s, word, 0);
    } else if s != "" {
      ContainsIs(s[1..], word);
      if i :| OccursAt(s[1..], word, i) {
        assert s[i + 1..i + 1 + |word|] == s[1..][i..i + |word|];
        assert OccursAt(s, word, i + 1);
      }
      if i :| OccursAt(s, word, i) {
        assert i > 0 && s[1..][i - 1..i - 1 + |word|] == s[i..i + |word|];
        assert OccursAt(s[1..], word, i - 1);
      }
    }
  }

  /** `s.splitlines()`, the carriage return and line feed pair counting once. */
  function SplitLines(s: string): seq<string>
    decreases |s|
  {
    if s == "" then []
    else if s[0] == '\r' && |s| > 1 && s[1] == '\n' then [""] + SplitLines(s[2..])
    else if IsBreak(s[0]) then [""] + SplitLines(s[1..])
    else
      var r := SplitLines(s[1..]);
      if r == [] then [[s[0]]] else [[s[0]] + r[0]] + r[1..]
  }

  /** `"".join(ch for ch in s if ch.isdigit())`, for ASCII digits. */
  function DigitsOf(s: string): (r: string)
    ensures AllDigits(r)
  {
    if s == "" then "" else (if IsDigit(s[0]) then [s[0]] else "") + DigitsOf(s[1..])
  }

  // ----- Rows and lines ----------------------------------------------------------------

  datatype Row = Row(sku: string, title: string, price: nat, colour: string, size: string, material: string, image: string)

  /** The line of a row in the supplier's file. */
  function PrintRow(r: Row): string {
    r.sku + " | " + r.title + " | INR " + Dec(r.price) + " | " + r.colour + " | " + r.size + " | " + r.material + " | " + r.image
  }

  /** The seven texts of an accepted line. */
  datatype Parts = Parts(sku: string, title: string, price: string, colour: string, size: string, material: string, image: string)

  const FULL_WIDTH_BAR := '\U{FF5C}'

  function StripAll(ss: seq<string>): (r: seq<string>)
    ensures |r| == |ss|
  {
    seq(|ss|, i requires 0 <= i < |ss| => Strip(ss[i]))
  }

  /** `parts` of a line, whatever their number. */
  function PartsOf(line: string): seq<string> {
    StripAll(Split(ReplaceLoneI(PdfWriter.Replace(line, FULL_WIDTH_BAR, "|"))))
  }

  /** What the parser takes from a line; nothing when it skips the line. */
  function ParseLine(line: string): Option<Parts> {
    if !('|' in line) || !Contains(line, "NST-") then None
    else
      var p := PartsOf(line);
      if |p| < 7 then None else Some(Parts(p[0], p[1], p[2], p[3], p[4], p[5], p[6]))
  }

  /** The price of a line in paise, if it has digits. */
  function PriceOf(text: string): Option<nat> {
    var d := DigitsOf(text);
    if d == "" then None else Some(Value(d) * 100)
  }

  // ----- Tidy rows ---------------------------------------------------------------------

  predicate Trimmed(s: string) {
    s == "" || (!IsSpace(s[0]) && !IsSpace(s[|s| - 1]))
  }

  predicate NoBars(s: string) {
    forall i :: 0 <= i < |s| ==> s[i] != '|' && s[i] != FULL_WIDTH_BAR
  }

  predicate TidyField(s: string) {
    Trimmed(s) && NoBars(s)
  }

  predicate Tidy(r: Row) {
    TidyField(r.sku) && TidyField(r.title) && TidyField(r.colour) && TidyField(r.size) && TidyField(r.material) && TidyField(r.image)
  }

  function PriceText(n: nat): string {
    "INR " + Dec(n)
  }

  function PartsOfRow(r: Row): Parts {
    Parts(r.sku, r.title, PriceText(r.price), r.colour, r.size, r.material, r.image)
  }

  // ----- Splitting ---------------------------------------------------------------------

  lemma {:induction false} SplitAtBar(a: string, b: string)
    requires NoBars(a)
    ensures Split(a + "|" + b) == [a] + Split(b)
  {
    var s := a + "|" + b;
    if a == "" {
      assert s == "|" + b && s[1..] == b;
    } else {
      assert s[1..] == a[1..] + "|" + b;
      SplitAtBar(a[1..], b);
      assert Split(s[1..])[0] == a[1..] && Split(s[1..])[1..] == Split(b);
      assert [a[0]] + a[1..] == a;
    }
  }

  lemma {:induction false} SplitNoBar(a: string)
    requires NoBars(a)
    ensures Split(a) == [a]
  {
    if a != "" {
      SplitNoBar(a[1..]);
      assert [a[0]] + a[1..] == a;
    }
  }

  lemma {:induction false} StripRightSpaces(s: string, c: char)
    requires Trimmed(s) && IsSpace(c)
    ensures StripRight(s + [c]) == s && StripRight(s) == s
  {
    assert (s + [c])[..|s|] == s;
  }

  lemma StripPadded(f: string, left: string, right: string)
    requires Trimmed(f) && (left == "" || left == " ") && (right == "" || right == " ")
    ensures Strip(left + f + right) == f
  {
    var s := left + f + right;
    assert f == "" ==> StripLeft(" ") == "" && StripLeft("  ") == "" by {
      assert " "[1..] == "" && "  "[1..] == " ";
    }
    if f == "" {
      assert s == "" || s == " " || s == "  ";
    } else {
      assert s[|left|] == f[0];
      var t := f + right;
      assert left == "" ==> s == t;
      assert left == " " ==> s[1..] == t;
      assert StripLeft(s) == t;
      if right == "" {
        assert t == f;
      } else {
        StripRightSpaces(f, ' ');
      }
    }
  }

  /** The line cut at its bars. */
  function Segments(r: Row): seq<string> {
    [r.sku + " ", " " + r.title + " ", " " + PriceText(r.price) + " ", " " + r.colour + " ", " " + r.size + " ",
     " " + r.material + " ", " " + r.image]
  }

  function JoinBars(ss: seq<string>): string
    requires ss != []
  {
    if |ss| == 1 then ss[0] else ss[0] + "|" + JoinBars(ss[1..])
  }

  lemma {:induction false} SplitJoined(ss: seq<string>)
    requires ss != [] && forall i :: 0 <= i < |ss| ==> NoBars(ss[i])
    ensures Split(JoinBars(ss)) == ss
  {
    if |ss| == 1 {
      SplitNoBar(ss[0]);
    } else {
      SplitJoined(ss[1..]);
      SplitAtBar(ss[0], JoinBars(ss[1..]));
      assert [ss[0]] + ss[1..] == ss;
    }
  }

  lemma JoinStep(s: string, rest: seq<string>)
    requires rest != []
    ensures JoinBars([s] + rest) == s + "|" + JoinBars(rest)
  {
    assert ([s] + rest)[1..] == rest;
  }

  lemma LineIsJoined(r: Row)
    ensures PrintRow(r) == JoinBars(Segments(r))
  {
    hide JoinBars, Dec;
    var p := PriceText(r.price);
    var s5, s6 := " " + r.material + " ", " " + r.image;
    var s3, s4 := " " + r.colour + " ", " " + r.size + " ";
    var s0, s1, s2 := r.sku + " ", " " + r.title + " ", " " + p + " ";
    JoinLast(s6);
    JoinStep(s5, [s6]);
    JoinStep(s4, [s5, s6]);
    JoinStep(s3, [s4, s5, s6]);
    JoinStep(s2, [s3, s4, s5, s6]);
    JoinStep(s1, [s2, s3, s4, s5, s6]);
    JoinStep(s0, [s1, s2, s3, s4, s5, s6]);
    assert [s5] + [s6] == [s5, s6] && [s4] + [s5, s6] == [s4, s5, s6] && [s3] + [s4, s5, s6] == [s3, s4, s5, s6];
    assert [s2] + [s3, s4, s5, s6] == [s2, s3, s4, s5, s6] && [s1] + [s2, s3, s4, s5, s6] == [s1, s2, s3, s4, s5, s6];
    assert [s0] + [s1, s2, s3, s4, s5, s6] == Segments(r);
    Reassociate(r, p);
  }

  lemma JoinLast(s: string)
    ensures JoinBars([s]) == s
  {
  }

  lemma Reassociate(r: Row, p: string)
    requires p == "INR " + Dec(r.price)
    ensures PrintRow(r)
            == r.sku + " " + "|" + (" " + r.title + " " + "|" + (" " + p + " " + "|" + (" " + r.colour + " " + "|"
               + (" " + r.size + " " + "|" + (" " + r.material + " " + "|" + (" " + r.image))))))
  {
    hide Dec;
    assert " | " == " " + "|" + " " && " | INR " == " " + "|" + " " + "INR ";
  }

  lemma SegmentsHaveNoBars(r: Row)
    requires Tidy(r)
    ensures forall i :: 0 <= i < 7 ==> NoBars(Segments(r)[i])
  {
    assert forall i :: 0 <= i < |Dec(r.price)| ==> IsDigit(Dec(r.price)[i]);
    assert NoBars(PriceText(r.price));
  }

  function FieldsOf(r: Row): seq<string> {
    [r.sku, r.title, PriceText(r.price), r.colour, r.size, r.material, r.image]
  }

  lemma SegmentsStrip(r: Row)
    requires Tidy(r)
    ensures StripAll(Segments(r)) == FieldsOf(r)
  {
    hide Strip;
    var p := PriceText(r.price);
    assert Trimmed(p) by {
      assert p[0] == 'I' && p[|p| - 1] == Dec(r.price)[|Dec(r.price)| - 1];
      assert IsDigit(p[|p| - 1]);
    }
    StripPadded(r.sku, "", " ");
    assert "" + r.sku + " " == r.sku + " ";
    StripPadded(r.title, " ", " ");
    StripPadded(p, " ", " ");
    StripPadded(r.colour, " ", " ");
    StripPadded(r.size, " ", " ");
    StripPadded(r.material, " ", " ");
    StripPadded(r.image, " ", "");
    assert " " + r.image + "" == " " + r.image;
  }

  // ----- Replacing ---------------------------------------------------------------------

  lemma {:induction false} ReplaceAbsent(s: string, c: char, with: string)
    requires c !in s
    ensures PdfWriter.Replace(s, c, with) == s
  {
    if s != "" {
      ReplaceAbsent(s[1..], c, with);
      assert [s[0]] + s[1..] == s;
    }
  }

  lemma {:induction false} NothingToReplace(s: string)
    requires !HasLoneI(s)
    ensures ReplaceLoneI(s) == s
  {
    if s != "" {
      NothingToReplace(s[1..]);
      assert [s[0]] + s[1..] == s;
    }
  }

  lemma ReplaceHere(s: string, after: string)
    requires LoneI(s)
    ensures ReplaceLoneI(s + after) == " | " + ReplaceLoneI(s[3..] + after)
  {
    assert (s + after)[3..] == s[3..] + after;
  }

  lemma ReplaceLater(s: string, after: string)
    requires s != "" && !LoneI(s + after)
    ensures ReplaceLoneI(s + after) == [s[0]] + ReplaceLoneI(s[1..] + after)
  {
    assert (s + after)[1..] == s[1..] + after;
  }

  lemma TailsOfTail(s: string, k: nat)
    requires s != "" && k + 3 <= |s| - 1
    ensures s[1..][k..] == s[k + 1..] && s[1..][k + 3..] == s[k + 4..] && [s[0]] + s[1..][..k] == s[..k + 1]
  {
  }

  /** The first lone I of a text becomes a bar; what stands before it stays. */
  lemma {:induction false} FirstLoneI(s: string, after: string) returns (at: nat)
    requires HasLoneI(s)
    ensures at + 3 <= |s| && LoneI(s[at..])
    ensures ReplaceLoneI(s + after) == s[..at] + " | " + ReplaceLoneI(s[at + 3..] + after)
  {
    hide ReplaceLoneI, LoneI;
    if LoneI(s) {
      at := 0;
      LoneIIsLong(s);
      ReplaceHere(s, after);
      assert s[..0] + " | " == " | " && s[0..] == s;
    } else {
      var k := FirstLoneI(s[1..], after);
      at := k + 1;
      SharesNoSpace(s, after, k);
      ReplaceLater(s, after);
      TailsOfTail(s, k);
      var rest := ReplaceLoneI(s[at + 3..] + after);
      assert [s[0]] + (s[1..][..k] + " | " + rest) == [s[0]] + s[1..][..k] + " | " + rest;
    }
  }

  lemma LoneIIsLong(s: string)
    requires LoneI(s)
    ensures |s| >= 3
  {
  }

  /** A lone I that starts before the first full one cannot reach beyond the text. */
  lemma SharesNoSpace(s: string, after: string, k: nat)
    requires s != "" && !LoneI(s) && k + 3 <= |s| - 1
    ensures !LoneI(s + after)
  {
    assert |s| >= 4;
    assert forall i :: 0 <= i < 3 ==> (s + after)[i] == s[i];
  }

  /** Without a lone I in front of a bar, replacing goes on behind the bar. */
  lemma {:induction false} ReplacePasses(a: string, b: string)
    requires !HasLoneI(a)
    ensures ReplaceLoneI(a + "|" + b) == a + "|" + ReplaceLoneI(b)
    ensures HasLoneI(a + "|" + b) <==> HasLoneI(b)
  {
    var s := a + "|" + b;
    if a == "" {
      assert s == "|" + b && s[1..] == b;
    } else {
      assert s[1..] == a[1..] + "|" + b;
      ReplacePasses(a[1..], b);
      assert LoneI(s) ==> LoneI(a) by {
        assert |a| < 3 ==> s[|a|] == '|';
        assert forall i :: 0 <= i < |a| ==> s[i] == a[i];
      }
      assert [a[0]] + (a[1..] + "|" + ReplaceLoneI(b)) == a + "|" + ReplaceLoneI(b);
    }
  }

  lemma {:induction false} StripRightKeeps(s: string, k: nat)
    requires k < |s| && !IsSpace(s[k])
    ensures |StripRight(s)| > k
  {
    if IsSpace(s[|s| - 1]) {
      StripRightKeeps(s[..|s| - 1], k);
    }
  }

  lemma {:induction false} StripRightShrinks(s: string)
    ensures |StripRight(s)| <= |s|
  {
    if s != "" {
      StripRightShrinks(s[..|s| - 1]);
    }
  }

  /** Cutting a text at a lone I makes it shorter even after stripping. */
  lemma {:induction false} CutIsShorter(x: string, y: string)
    ensures |Strip(x + " ")| < |Strip(x + " I " + y)|
  {
    var cut, whole := x + " ", x + " I " + y;
    if x == "" {
      assert cut == " " && cut[1..] == "";
      assert StripLeft("") == "" && StripLeft(cut) == "" && Strip(cut) == "";
      assert whole[1..] == "I " + y && !IsSpace('I');
      assert StripLeft(whole) == "I " + y;
      StripRightKeeps("I " + y, 0);
    } else if IsSpace(x[0]) {
      assert cut[1..] == x[1..] + " " && whole[1..] == x[1..] + " I " + y;
      CutIsShorter(x[1..], y);
    } else {
      assert cut[..|cut| - 1] == x;
      StripRightShrinks(x);
      assert whole[|x| + 1] == 'I';
      StripRightKeeps(whole, |x| + 1);
    }
  }

  /** A lone I anywhere in a line cuts the field it stands in short. */
  lemma {:induction false} LoneICutsAField(ss: seq<string>) returns (j: nat)
    requires ss != [] && forall i :: 0 <= i < |ss| ==> NoBars(ss[i])
    requires HasLoneI(JoinBars(ss))
    ensures j < |ss| && j < |Split(ReplaceLoneI(JoinBars(ss)))|
    ensures |Strip(Split(ReplaceLoneI(JoinBars(ss)))[j])| < |Strip(ss[j])|
    decreases |ss|
  {
    hide Strip, NoBars;
    var a := ss[0];
    if HasLoneI(a) {
      j := 0;
      var after := if |ss| == 1 then "" else "|" + JoinBars(ss[1..]);
      assert JoinBars(ss) == a + after;
      var at := FirstLoneI(a, after);
      CutAt(a, at, ReplaceLoneI(a[at + 3..] + after));
    } else {
      if |ss| == 1 {
        assert false;
      } else {
        var b := JoinBars(ss[1..]);
        ReplacePasses(a, b);
        var k := LoneICutsAField(ss[1..]);
        SplitAtBar(a, ReplaceLoneI(b));
        j := k + 1;
        assert Split(ReplaceLoneI(JoinBars(ss)))[j] == Split(ReplaceLoneI(b))[k];
      }
    }
  }

  lemma CutAt(a: string, at: nat, rest: string)
    requires NoBars(a) && at + 3 <= |a| && LoneI(a[at..])
    ensures Split(a[..at] + " | " + rest)[0] == a[..at] + " "
    ensures |Strip(a[..at] + " ")| < |Strip(a)|
  {
    hide Strip;
    assert a[..at] + " | " + rest == (a[..at] + " ") + "|" + (" " + rest);
    SplitAtBar(a[..at] + " ", " " + rest);
    assert a == a[..at] + " I " + a[at + 3..];
    CutIsShorter(a[..at], a[at + 3..]);
  }

  // ----- The round trip ----------------------------------------------------------------

  lemma {:induction false} JoinedHasNoFullBar(ss: seq<string>)
    requires ss != [] && forall i :: 0 <= i < |ss| ==> NoBars(ss[i])
    ensures FULL_WIDTH_BAR !in JoinBars(ss)
    ensures |ss| > 1 ==> '|' in JoinBars(ss)
    decreases |ss|
  {
    if |ss| > 1 {
      JoinedHasNoFullBar(ss[1..]);
      var s := JoinBars(ss);
      assert s[|ss[0]|] == '|';
    }
  }

  /**
   A tidy row reads back from its printed line exactly when the line has the mark of a
   product and no I that stands alone between spaces, which the parser takes for a bar.
   */
  lemma RowReadsBack(r: Row)
    requires Tidy(r)
    ensures ParseLine(PrintRow(r)) == Some(PartsOfRow(r))
            <==> Contains(PrintRow(r), "NST-") && !HasLoneI(PrintRow(r))
  {
    hide Strip, Split, ReplaceLoneI, HasLoneI, Contains, JoinBars, Segments, NoBars, PriceText, PrintRow;
    var line, ss := PrintRow(r), Segments(r);
    assert |ss| == 7 by { SegmentsAreSeven(r); }
    LineIsJoined(r);
    SegmentsHaveNoBars(r);
    SegmentsStrip(r);
    JoinedHasNoFullBar(ss);
    ReplaceAbsent(line, FULL_WIDTH_BAR, "|");
    if HasLoneI(line) {
      var j := LoneICutsAField(ss);
      assert PartsOf(line)[j] != StripAll(ss)[j];
    } else {
      NothingToReplace(line);
      SplitJoined(ss);
    }
  }

  lemma SegmentsAreSeven(r: Row)
    ensures |Segments(r)| == 7
  {
  }

  lemma {:induction false} DigitsOfDigits(s: string)
    requires AllDigits(s)
    ensures DigitsOf(s) == s
  {
    if s != "" {
      DigitsOfDigits(s[1..]);
      assert [s[0]] + s[1..] == s;
    }
  }

  /** A printed price reads back a hundredfold. */
  lemma PriceReadsBack(n: nat)
    ensures PriceOf(PriceText(n)) == Some(n * 100)
  {
    SkipsOthers("INR ", Dec(n));
    DigitsOfDigits(Dec(n));
    ValueDec(n);
  }

  lemma {:induction false} SkipsOthers(a: string, b: string)
    requires forall i :: 0 <= i < |a| ==> !IsDigit(a[i])
    ensures DigitsOf(a + b) == DigitsOf(b)
  {
    if a == "" {
      assert a + b == b;
    } else {
      assert (a + b)[1..] == a[1..] + b;
      SkipsOthers(a[1..], b);
    }
  }

  // ----- Lines -------------------------------------------------------------------------

  predicate OneLine(s: string) {
    forall i :: 0 <= i < |s| ==> !IsBreak(s[i])
  }

  function Lines(ss: seq<string>): string {
    if ss == [] then "" else ss[0] + "\n" + Lines(ss[1..])
  }

  lemma {:induction false} SplitFirstLine(a: string, b: string)
    requires OneLine(a)
    ensures SplitLines(a + "\n" + b) == [a] + SplitLines(b)
  {
    var s := a + "\n" + b;
    if a == "" {
      assert s == "\n" + b && s[1..] == b;
    } else {
      assert s[0] == a[0] && !IsBreak(a[0]);
      assert s[1..] == a[1..] + "\n" + b;
      SplitFirstLine(a[1..], b);
      assert SplitLines(s[1..])[0] == a[1..] && SplitLines(s[1..])[1..] == SplitLines(b);
      assert [a[0]] + a[1..] == a;
    }
  }

  lemma {:induction false} SplitLinesReadsBack(ss: seq<string>)
    requires forall i :: 0 <= i < |ss| ==> OneLine(ss[i])
    ensures SplitLines(Lines(ss)) == ss
  {
    if ss != [] {
      SplitFirstLine(ss[0], Lines(ss[1..]));
      SplitLinesReadsBack(ss[1..]);
      assert [ss[0]] + ss[1..] == ss;
    }
  }

  // ----- Which lines are accepted ------------------------------------------------------

  lemma {:induction false} SplitCounts(s: string)
    ensures |Split(s)| == 1 + multiset(s)['|']
  {
    if s != "" {
      SplitCounts(s[1..]);
      assert s == [s[0]] + s[1..];
      assert multiset(s) == multiset{s[0]} + multiset(s[1..]);
    }
  }

  /**
   A line is accepted exactly when it has a bar and the mark NST- and, once full-width bars and
   lone letters I are taken for bars, at least six of them.
   */
  lemma AcceptedExactly(line: string)
    ensures ParseLine(line).Some?
            <==> '|' in line && (exists i :: OccursAt(line, "NST-", i))
                 && multiset(ReplaceLoneI(PdfWriter.Replace(line, '\U{FF5C}', "|")))['|'] >= 6
  {
    hide Strip, Split, ReplaceLoneI, PdfWriter.Replace, Contains, OccursAt;
    ContainsIs(line, "NST-");
    SplitCounts(ReplaceLoneI(PdfWriter.Replace(line, FULL_WIDTH_BAR, "|")));
  }
}
