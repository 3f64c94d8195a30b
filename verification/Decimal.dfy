/** Decimal numerals as Python prints and parses them. */
module Decimal {
  import opened Common

  predicate IsDigit(c: char) {
    '0' <= c <= '9'
  }

  predicate AllDigits(s: string) {
    forall i :: 0 <= i < |s| ==> IsDigit(s[i])
  }

  function DigitChar(d: int): (c: char)
    requires 0 <= d < 10
    ensures IsDigit(c) && c as int - '0' as int == d
  {
    ('0' as int + d) as char
  }

  /** `str(n)` */
  function Dec(n: nat): (s: string)
    ensures s != "" && AllDigits(s)
  {
    if n < 10 then [DigitChar(n)] else Dec(n / 10) + [DigitChar(n % 10)]
  }

  /** The value of a string of digits. */
  function Value(s: string): nat
    requires AllDigits(s)
  {
    if s == "" then 0 else Value(s[..|s| - 1]) * 10 + (s[|s| - 1] as int - '0' as int)
  }

  lemma {:induction false} ValueDec(n: nat)
    ensures Value(Dec(n)) == n
  {
    if n >= 10 {
      var s := Dec(n);
      assert s[..|s| - 1] == Dec(n / 10);
      ValueDec(n / 10);
    } else {
      assert Dec(n)[..0] == "";
    }
  }

  function Zeros(n: nat): string {
    seq(n, _ => '0')
  }

  /** `f"{n:010d}"`: at least ten characters, zeros in front. */
  function Padded(n: nat): (s: string)
    ensures AllDigits(s)
  {
    var s := Dec(n);
    if |s| < 10 then Zeros(10 - |s|) + s else s
  }

  lemma {:induction false} ValueZeros(k: nat, s: string)
    requires AllDigits(s)
    ensures AllDigits(Zeros(k) + s) && Value(Zeros(k) + s) == Value(s)
  {
    var t := Zeros(k) + s;
    if s != "" {
      assert t[..|t| - 1] == Zeros(k) + s[..|s| - 1];
      ValueZeros(k, s[..|s| - 1]);
    } else if k > 0 {
      assert t[..|t| - 1] == Zeros(k - 1) + s;
      ValueZeros(k - 1, s);
    } else {
      assert t == s;
    }
  }

  lemma ValuePadded(n: nat)
    ensures Value(Padded(n)) == n
  {
    ValueDec(n);
    if |Dec(n)| < 10 {
      ValueZeros(10 - |Dec(n)|, Dec(n));
    }
  }

  function Pow10(k: nat): (p: nat)
    ensures p >= 1
  {
    if k == 0 then 1 else 10 * Pow10(k - 1)
  }

  /** A number has at most `k` digits exactly when it is below the `k`-th power of ten. */
  lemma {:induction false} DigitsCount(n: nat, k: nat)
    requires k >= 1
    ensures |Dec(n)| <= k <==> n < Pow10(k)
  {
    if n >= 10 {
      if k == 1 {
        assert |Dec(n / 10)| >= 1;
        assert Pow10(1) == 10 * Pow10(0);
      } else {
        DigitsCount(n / 10, k - 1);
      }
    }
  }

  /** The padded form is ten characters wide exactly below ten to the tenth. */
  lemma PaddedWidth(n: nat)
    ensures |Padded(n)| == 10 <==> n < 10_000_000_000
    ensures |Padded(n)| >= 10
  {
    DigitsCount(n, 10);
    assert Pow10(10) == 10_000_000_000 by {
      assert Pow10(5) == 100_000;
      assert Pow10(10) == 100_000 * Pow10(5);
    }
  }
}
