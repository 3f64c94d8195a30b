/**
 Modification times as texts. The connector decides whether an event is stale by comparing
 the incoming text with the ISO text of the stored time, character by character.
 */
module Timestamps {
  import opened Common
  import opened Decimal

  // ----- Order of texts ----------------------------------------------------------------

  /** Python's `s <= t` on strings. */
  predicate TextLessEq(s: string, t: string) {
    s == "" || (t != "" && (s[0] < t[0] || (s[0] == t[0] && TextLessEq(s[1..], t[1..]))))
  }

  predicate TextLess(s: string, t: string) {
    TextLessEq(s, t) && s != t
  }

  lemma {:induction false} LessEqRefl(s: string)
    ensures TextLessEq(s, s)
  {
    if s != "" {
      LessEqRefl(s[1..]);
    }
  }

  lemma {:induction false} LessEqAnti(s: string, t: string)
    requires TextLessEq(s, t) && TextLessEq(t, s)
    ensures s == t
  {
    if s != "" {
      LessEqAnti(s[1..], t[1..]);
      assert s == [s[0]] + s[1..] && t == [t[0]] + t[1..];
    }
  }

  /** Texts of equal length decide first, then what follows them. */
  lemma {:induction false} ComparePrefix(a: string, b: string, x: string, y: string)
    requires |a| == |b|
    ensures TextLessEq(a + x, b + y) <==> TextLess(a, b) || (a == b && TextLessEq(x, y))
  {
    if a == "" {
      assert a + x == x && b + y == y;
    } else {
      assert (a + x)[1..] == a[1..] + x && (b + y)[1..] == b[1..] + y;
      ComparePrefix(a[1..], b[1..], x, y);
      assert a == b <==> a[0] == b[0] && a[1..] == b[1..] by {
        assert a == [a[0]] + a[1..] && b == [b[0]] + b[1..];
      }
    }
  }

  lemma LessPrefix(a: string, b: string, x: string, y: string)
    requires |a| == |b| && |x| == |y|
    ensures TextLess(a + x, b + y) <==> TextLess(a, b) || (a == b && TextLess(x, y))
    ensures a + x == b + y <==> a == b && x == y
  {
    ComparePrefix(a, b, x, y);
    assert (a + x)[..|a|] == a && (b + y)[..|b|] == b && (a + x)[|a|..] == x && (b + y)[|b|..] == y;
  }

  // ----- Digits of a fixed width -------------------------------------------------------

  /** The last `w` digits of a number. */
  function Pad(n: nat, w: nat): (s: string)
    ensures |s| == w && AllDigits(s)
  {
    if w == 0 then "" else Pad(n / 10, w - 1) + [DigitChar(n % 10)]
  }

  /** Numbers of a fixed width compare as their texts do. */
  lemma {:induction false} PadCompare(m: nat, n: nat, w: nat)
    requires m < Pow10(w) && n < Pow10(w)
    ensures TextLess(Pad(m, w), Pad(n, w)) <==> m < n
    ensures Pad(m, w) == Pad(n, w) <==> m == n
  {
    if w > 0 {
      PadCompare(m / 10, n / 10, w - 1);
      var x, y := [DigitChar(m % 10)], [DigitChar(n % 10)];
      LessPrefix(Pad(m / 10, w - 1), Pad(n / 10, w - 1), x, y);
      assert TextLess(x, y) <==> m % 10 < n % 10 by {
        assert x[1..] == "" && y[1..] == "";
      }
      assert x == y <==> m % 10 == n % 10;
    }
  }

  lemma Quotients(n: nat, p: nat)
    requires p >= 1
    ensures n / (10 * p) == n / 10 / p
    ensures n % (10 * p) / 10 == n / 10 % p
    ensures n % (10 * p) % 10 == n % 10
  {
    var q, r := n / 10, n % 10;
    var a, b := q / p, q % p;
    assert q == a * p + b;
    assert n == a * (10 * p) + (10 * b + r);
    var c := 10 * b + r;
    assert 0 <= c < 10 * p;
    DivMod(n, 10 * p, a, c);
    DivMod(c, 10, b, r);
  }

  lemma Multiple(k: int, d: nat)
    requires k != 0
    ensures k * d >= d || k * d <= 0 - d
  {
    if k >= 1 {
      assert (k - 1) * d >= 0;
    } else {
      assert (0 - k - 1) * d >= 0;
    }
  }

  lemma DivMod(n: nat, d: nat, q: nat, r: nat)
    requires d > 0 && r < d && n == q * d + r
    ensures n / d == q && n % d == r
  {
    var q1, r1 := n / d, n % d;
    assert n == q1 * d + r1;
    assert (q1 - q) * d == q1 * d - q * d;
    if q1 != q {
      Multiple(q1 - q, d);
    }
  }

  function Div(n: nat, d: nat): (q: nat)
    requires d > 0
    ensures q * d <= n < q * d + d
  {
    n / d
  }

  function Mod(n: nat, d: nat): (r: nat)
    requires d > 0
    ensures r < d
  {
    n % d
  }

  /** The first and the other digits of a padded number. */
  lemma {:induction false} PadSplit(n: nat, w: nat, k: nat)
    ensures Pad(n, w + k) == Pad(Div(n, Pow10(k)), w) + Pad(Mod(n, Pow10(k)), k)
  {
    if k == 0 {
      assert Pad(n % 1, 0) == "" && n / 1 == n;
    } else {
      PadSplit(n / 10, w, k - 1);
      Quotients(n, Pow10(k - 1));
    }
  }

  // ----- Moments -----------------------------------------------------------------------

  /** A moment of UTC, to the microsecond. */
  datatype Moment = Moment(year: nat, month: nat, day: nat, hour: nat, minute: nat, second: nat, micros: nat)

  predicate ValidMoment(m: Moment) {
    m.year < 10000 && m.month < 100 && m.day < 100 && m.hour < 100 && m.minute < 100 && m.second < 100 && m.micros < 1_000_000
  }

  type Instant = m: Moment | ValidMoment(m) witness Moment(1970, 1, 1, 0, 0, 0, 0)

  /** A number of two more decimal digits. */
  function Then(x: nat, y: nat): nat {
    x * 100 + y
  }

  /** The second a moment falls in, numbered so that later ones are larger. */
  function Second(m: Instant): nat {
    Then(Then(Then(Then(Then(m.year, m.month), m.day), m.hour), m.minute), m.second)
  }

  lemma ThenCompares(x: nat, y: nat, u: nat, v: nat)
    requires y < 100 && v < 100
    ensures Then(x, y) < Then(u, v) <==> x < u || (x == u && y < v)
    ensures Then(x, y) == Then(u, v) <==> x == u && y == v
  {
  }

  predicate SameSecond(a: Instant, b: Instant) {
    Second(a) == Second(b)
  }

  predicate Before(a: Instant, b: Instant) {
    Second(a) < Second(b) || (SameSecond(a, b) && a.micros < b.micros)
  }

  /** A moment is told by its second and microseconds. */
  lemma SecondIsFaithful(a: Instant, b: Instant)
    requires SameSecond(a, b) && a.micros == b.micros
    ensures a == b
  {
    hide Then;
    var a1, b1 := Then(a.year, a.month), Then(b.year, b.month);
    var a2, b2 := Then(a1, a.day), Then(b1, b.day);
    var a3, b3 := Then(a2, a.hour), Then(b2, b.hour);
    var a4, b4 := Then(a3, a.minute), Then(b3, b.minute);
    ThenCompares(a4, a.second, b4, b.second);
    ThenCompares(a3, a.minute, b3, b.minute);
    ThenCompares(a2, a.hour, b2, b.hour);
    ThenCompares(a1, a.day, b1, b.day);
    ThenCompares(a.year, a.month, b.year, b.month);
  }

  lemma BeforeIsTotal(a: Instant, b: Instant)
    ensures Before(a, b) || a == b || Before(b, a)
    ensures !(Before(a, b) && Before(b, a)) && !Before(a, a)
  {
    if SameSecond(a, b) && a.micros == b.micros {
      SecondIsFaithful(a, b);
    }
  }

  /** `YYYY-MM-DDTHH:MM:SS` */
  function Head(m: Instant): (s: string)
    ensures |s| == 19
  {
    Pad(m.year, 4) + "-" + Pad(m.month, 2) + "-" + Pad(m.day, 2) + "T"
    + Pad(m.hour, 2) + ":" + Pad(m.minute, 2) + ":" + Pad(m.second, 2)
  }

  /** `isoformat()` of a stored time, which is in UTC. */
  function Iso(m: Instant): string {
    Head(m) + (if m.micros == 0 then "" else "." + Pad(m.micros, 6)) + "+00:00"
  }

  /** A modification time as the platform sends it; the empty text counts as missing. */
  datatype Stamp =
    | Missing
    | Utc(moment: Instant, width: nat, zulu: bool)
    | Unreadable(text: string)

  /** The first `w` of the six digits of the microseconds. */
  function Cut(m: Instant, w: nat): nat
    requires w <= 6
  {
    Div(m.micros, Pow10(6 - w))
  }

  /** A fraction of `width` digits leaves nothing out. */
  predicate ValidStamp(s: Stamp) {
    match s
    case Missing => true
    case Utc(m, w, _) => w <= 6 && m.micros == Cut(m, w) * Pow10(6 - w)
    case Unreadable(text) => text != ""
  }

  /** The text of a stamp. */
  function Text(s: Stamp): string
    requires ValidStamp(s)
  {
    match s
    case Missing => ""
    case Utc(m, w, zulu) =>
      Head(m) + (if w == 0 then "" else "." + Pad(Cut(m, w), w)) + (if zulu then "Z" else "+00:00")
    case Unreadable(text) => text
  }

  /** The connector's test: an event as old as what is stored, by the texts. */
  predicate Stale(incoming: Stamp, stored: Option<Instant>)
    requires ValidStamp(incoming)
  {
    Text(incoming) != "" && stored.Some? && TextLessEq(Text(incoming), Iso(stored.value))
  }

  // ----- What the test decides ---------------------------------------------------------

  /** One more field of a head: if the texts so far compare as `p` and `q`, the longer ones compare as `Then` says. */
  lemma FieldCompares(a: string, p: nat, x: nat, b: string, q: nat, y: nat, sep: string)
    requires |a| == |b| && x < 100 && y < 100
    requires (TextLess(a, b) <==> p < q) && (a == b <==> p == q)
    ensures TextLess(a + Pad(x, 2) + sep, b + Pad(y, 2) + sep) <==> Then(p, x) < Then(q, y)
    ensures a + Pad(x, 2) + sep == b + Pad(y, 2) + sep <==> Then(p, x) == Then(q, y)
  {
    hide Pad, TextLess, Then;
    assert Pow10(2) == 100;
    PadCompare(x, y, 2);
    LessPrefix(a, b, Pad(x, 2), Pad(y, 2));
    LessPrefix(a + Pad(x, 2), b + Pad(y, 2), sep, sep);
    NotLess(sep);
    ThenCompares(p, x, q, y);
  }

  lemma NotLess(s: string)
    ensures !TextLess(s, s)
  {
  }

  /** Heads compare as the seconds do. */
  lemma HeadsCompare(a: Instant, b: Instant)
    ensures TextLess(Head(a), Head(b)) <==> Second(a) < Second(b)
    ensures Head(a) == Head(b) <==> SameSecond(a, b)
  {
    hide Pad, TextLess, Then;
    assert Pow10(4) == 10000;
    PadCompare(a.year, b.year, 4);
    LessPrefix(Pad(a.year, 4), Pad(b.year, 4), "-", "-");
    NotLess("-");
    var a1, b1 := Pad(a.year, 4) + "-", Pad(b.year, 4) + "-";
    FieldCompares(a1, a.year, a.month, b1, b.year, b.month, "-");
    var a2, b2, p2, q2 := a1 + Pad(a.month, 2) + "-", b1 + Pad(b.month, 2) + "-", Then(a.year, a.month), Then(b.year, b.month);
    FieldCompares(a2, p2, a.day, b2, q2, b.day, "T");
    var a3, b3, p3, q3 := a2 + Pad(a.day, 2) + "T", b2 + Pad(b.day, 2) + "T", Then(p2, a.day), Then(q2, b.day);
    FieldCompares(a3, p3, a.hour, b3, q3, b.hour, ":");
    var a4, b4, p4, q4 := a3 + Pad(a.hour, 2) + ":", b3 + Pad(b.hour, 2) + ":", Then(p3, a.hour), Then(q3, b.hour);
    FieldCompares(a4, p4, a.minute, b4, q4, b.minute, ":");
    var a5, b5, p5, q5 := a4 + Pad(a.minute, 2) + ":", b4 + Pad(b.minute, 2) + ":", Then(p4, a.minute), Then(q4, b.minute);
    FieldCompares(a5, p5, a.second, b5, q5, b.second, "");
    assert Head(a) == a5 + Pad(a.second, 2) + "" && Head(b) == b5 + Pad(b.second, 2) + "";
  }

  /** What follows the head of a stamp. */
  function Tail(m: Instant, w: nat, zulu: bool): string
    requires w <= 6
  {
    (if w == 0 then "" else "." + Pad(Cut(m, w), w)) + (if zulu then "Z" else "+00:00")
  }

  function IsoTail(m: Instant): string {
    (if m.micros == 0 then "" else "." + Pad(m.micros, 6)) + "+00:00"
  }

  lemma FirstDecides(s: string, t: string)
    requires s != "" && t != "" && s[0] != t[0]
    ensures TextLessEq(s, t) <==> s[0] < t[0]
  {
  }

  lemma {:induction false} Pow10Splits(w: nat, k: nat)
    ensures Pow10(w + k) == Pow10(w) * Pow10(k)
  {
    if w > 0 {
      Pow10Splits(w - 1, k);
      assert Pow10(w) * Pow10(k) == 10 * (Pow10(w - 1) * Pow10(k));
    }
  }

  lemma Scaled(x: nat, y: nat, p: nat)
    requires x >= y
    ensures x * p >= y * p
  {
    assert (x - y) * p >= 0;
  }

  lemma CutSmall(m: Instant, w: nat)
    requires w <= 6
    ensures Cut(m, w) < Pow10(w)
  {
    hide Pow10, Div;
    Million();
    Pow10Splits(w, 6 - w);
    if Cut(m, w) >= Pow10(w) {
      Scaled(Cut(m, w), Pow10(w), Pow10(6 - w));
    }
  }

  lemma Million()
    ensures Pow10(6) == 1_000_000 && Pow10(0) == 1
  {
    assert Pow10(3) == 1000;
  }

  /** Within one second: both texts have a fraction. */
  lemma FractionsCompare(a: Instant, w: nat, zulu: bool, b: Instant)
    requires 1 <= w <= 6 && b.micros > 0
    ensures TextLessEq(Tail(a, w, zulu), IsoTail(b))
            <==> Cut(a, w) < Cut(b, w) || (Cut(a, w) == Cut(b, w) && !zulu)
  {
    var x, y := Cut(a, w), Cut(b, w);
    var suffix := if zulu then "Z" else "+00:00";
    var rest := Pad(Mod(b.micros, Pow10(6 - w)), 6 - w) + "+00:00";
    PadSplit(b.micros, w, 6 - w);
    assert Tail(a, w, zulu) == ("." + Pad(x, w)) + suffix;
    assert IsoTail(b) == ("." + Pad(y, w)) + rest;
    ComparePrefix("." + Pad(x, w), "." + Pad(y, w), suffix, rest);
    LessPrefix(".", ".", Pad(x, w), Pad(y, w));
    CutSmall(a, w);
    CutSmall(b, w);
    PadCompare(x, y, w);
    if w == 6 {
      assert rest == "+00:00";
      LessEqRefl("+00:00");
    } else {
      assert IsDigit(rest[0]);
    }
    if zulu || w < 6 {
      FirstDecides(suffix, rest);
    }
  }

  lemma TailsCompare(a: Instant, w: nat, zulu: bool, b: Instant)
    requires ValidStamp(Utc(a, w, zulu))
    ensures TextLessEq(Tail(a, w, zulu), IsoTail(b))
            <==> (a.micros < b.micros && !(zulu && Cut(a, w) == Cut(b, w)))
                 || (a.micros == b.micros && !zulu && (w == 0 || a.micros != 0))
  {
    var s, t := Tail(a, w, zulu), IsoTail(b);
    CutOrder(a, b, w);
    if w == 0 {
      CutSmall(a, 0);
      CutSmall(b, 0);
      Million();
      assert a.micros == 0;
      assert s == if zulu then "Z" else "+00:00";
      if b.micros == 0 {
        assert t == "+00:00";
        LessEqRefl("+00:00");
      } else {
        assert t[0] == '.';
      }
      if zulu || b.micros != 0 {
        FirstDecides(s, t);
      }
    } else if b.micros == 0 {
      assert s[0] == '.' && t == "+00:00";
      FirstDecides(s, t);
    } else {
      FractionsCompare(a, w, zulu, b);
    }
  }

  /** A stamp that leaves nothing out compares with another moment as its cut fraction does. */
  lemma CutOrder(a: Instant, b: Instant, w: nat)
    requires w <= 6 && a.micros == Cut(a, w) * Pow10(6 - w)
    ensures a.micros > b.micros ==> Cut(a, w) > Cut(b, w)
    ensures a.micros <= b.micros ==> Cut(a, w) <= Cut(b, w)
    ensures a.micros == b.micros ==> Cut(a, w) == Cut(b, w)
  {
    hide Div;
    var p := Pow10(6 - w);
    var x, y := Cut(a, w), Cut(b, w);
    assert y * p <= b.micros < y * p + p;
    assert (x - y) * p == x * p - y * p;
    if x != y {
      Multiple(x - y, p);
    }
  }

  /**
   What the comparison of texts decides, for every UTC stamp: an earlier event counts as
   stale, except one of the same second that is spelled with Z and whose digits agree as far
   as they go; an event of the very same moment counts as stale only when it is spelled
   with +00:00 (and has no fraction of zeros); a later event never does.
   */
  lemma StaleExactly(a: Instant, w: nat, zulu: bool, b: Instant)
    requires ValidStamp(Utc(a, w, zulu))
    ensures Stale(Utc(a, w, zulu), Some(b))
            <==> (Before(a, b) && !(zulu && SameSecond(a, b) && Cut(a, w) == Cut(b, w)))
                 || (a == b && !zulu && (w == 0 || a.micros != 0))
  {
    hide Head, Second;
    assert Text(Utc(a, w, zulu)) == Head(a) + Tail(a, w, zulu);
    assert Iso(b) == Head(b) + IsoTail(b);
    ComparePrefix(Head(a), Head(b), Tail(a, w, zulu), IsoTail(b));
    HeadsCompare(a, b);
    TailsCompare(a, w, zulu, b);
    if SameSecond(a, b) && a.micros == b.micros {
      SecondIsFaithful(a, b);
    }
  }

  /** For whole seconds the test is the order of moments, but for equal ones spelled with Z. */
  lemma WholeSecondsCompare(a: Instant, zulu: bool, b: Instant)
    requires a.micros == 0 && b.micros == 0
    ensures ValidStamp(Utc(a, 0, zulu))
    ensures Stale(Utc(a, 0, zulu), Some(b)) <==> Before(a, b) || (a == b && !zulu)
  {
    StaleExactly(a, 0, zulu, b);
  }

  lemma PadTwo(n: nat)
    ensures Pad(n, 2) == [DigitChar(n / 10 % 10), DigitChar(n % 10)]
  {
    assert Pad(n / 10, 1) == Pad(n / 10 / 10, 0) + [DigitChar(n / 10 % 10)];
  }

  lemma PadFour(n: nat)
    ensures Pad(n, 4) == [DigitChar(n / 1000 % 10), DigitChar(n / 100 % 10), DigitChar(n / 10 % 10), DigitChar(n % 10)]
  {
    assert n / 10 / 10 == n / 100 && n / 100 / 10 == n / 1000;
    PadTwo(n / 100);
    assert Pad(n / 10, 3) == Pad(n / 100, 2) + [DigitChar(n / 10 % 10)];
  }

  /** Four digits of the year and two of every other field. */
  lemma HeadSays(m: Instant)
    ensures Head(m) == [DigitChar(m.year / 1000 % 10), DigitChar(m.year / 100 % 10), DigitChar(m.year / 10 % 10), DigitChar(m.year % 10), '-',
                        DigitChar(m.month / 10 % 10), DigitChar(m.month % 10), '-',
                        DigitChar(m.day / 10 % 10), DigitChar(m.day % 10), 'T',
                        DigitChar(m.hour / 10 % 10), DigitChar(m.hour % 10), ':',
                        DigitChar(m.minute / 10 % 10), DigitChar(m.minute % 10), ':',
                        DigitChar(m.second / 10 % 10), DigitChar(m.second % 10)]
  {
    hide Pad, DigitChar;
    PadFour(m.year);
    PadTwo(m.month);
    PadTwo(m.day);
    PadTwo(m.hour);
    PadTwo(m.minute);
    PadTwo(m.second);
  }

  /** A stored time as text, with six digits of a fraction if there is one, and in UTC. */
  lemma StoredTimeSays(m: Instant)
    ensures Head(m) <= Iso(m) && Iso(m)[19..] == if m.micros == 0 then "+00:00" else "." + Pad(m.micros, 6) + "+00:00"
    ensures Iso(m)[4] == Iso(m)[7] == '-' && Iso(m)[10] == 'T' && Iso(m)[13] == Iso(m)[16] == ':'
  {
    HeadSays(m);
    hide Head, Pad;
  }
}
