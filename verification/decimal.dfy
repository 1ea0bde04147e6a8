/**
 BigDecimal arithmetic on values at scale 2, held as integer hundredths.
 */
module Decimal {
  import opened Time

  /* BigDecimal.toString of a scale-2 value: the sign, the integer part, a point and two digits. */
  function HundredthsText(h: int): (s: string)
    ensures |s| >= 4
    ensures s[0] == '-' <==> h < 0
    ensures s[|s| - 3] == '.'
  {
    if h < 0 then "-" + UnsignedText(-h) else UnsignedText(h)
  }

  /* The integer part, a point and two decimals of a non-negative value. */
  function UnsignedText(m: nat): (s: string)
    ensures |s| >= 4 && '0' <= s[0] <= '9' && s[|s| - 3] == '.'
  {
    Digits(m / 100) + "." + Pad(m % 100, 2)
  }

  /* new BigDecimal(text) for a scale-2 rendering, read back as hundredths. */
  function ParseHundredths(s: string): int
    requires |s| >= 4
  {
    if s[0] == '-' then -(ParseUnsigned(s[1..]) as int) else ParseUnsigned(s)
  }

  function ParseUnsigned(s: string): nat
    requires |s| >= 3
  {
    DecimalValue(s[..|s| - 3]) * 100 + DecimalValue(s[|s| - 2..])
  }

  /* The rendering reads back as the value it renders. */
  lemma HundredthsRoundTrip(h: int)
    ensures ParseHundredths(HundredthsText(h)) == h
  {
    if h < 0 {
      var t := UnsignedText(-h);
      var s := "-" + t;
      assert s[0] == '-' && s[1..] == t;
      assert ParseHundredths(s) == -(ParseUnsigned(t) as int);
      UnsignedRoundTrip(-h);
    } else {
      var t := UnsignedText(h);
      assert t[0] != '-';
      assert ParseHundredths(t) == ParseUnsigned(t);
      UnsignedRoundTrip(h);
    }
  }

  lemma UnsignedRoundTrip(m: nat)
    ensures ParseUnsigned(UnsignedText(m)) == m
  {
    PointSplit(Digits(m / 100), Pad(m % 100, 2));
    DigitsValue(m / 100);
    PadValue(m % 100, 2);
    DivMod100(m);
  }

  lemma PointSplit(a: string, b: string)
    requires |b| == 2
    ensures var s := a + "." + b; s[..|s| - 3] == a && s[|s| - 2..] == b
  {
  }

  lemma DivMod100(m: nat)
    ensures m / 100 * 100 + m % 100 == m
  {
  }

  /* BigDecimal division rounded HALF_UP: to the nearest integer, halves away from zero. */
  function RoundHalfUp(a: int, b: int): (r: int)
    requires b > 0
    ensures a >= 0 ==> 0 <= r && 2 * b * r <= 2 * a + b < 2 * b * r + 2 * b
    ensures a < 0 ==> r <= 0 && 2 * b * r - 2 * b < 2 * a - b <= 2 * b * r
  {
    if a >= 0 then (2 * a + b) / (2 * b)
    else -((2 * -a + b) / (2 * b))
  }

  lemma MulMonotone(k: int, x: int, y: int)
    requires k > 0 && x <= y
    ensures k * x <= k * y
  {
    assert k * y - k * x == k * (y - x);
  }

  /* The rounded quotient is unique: any integer within half a unit, ties upward, is it. */
  lemma RoundHalfUpUnique(a: int, b: int, q: int)
    requires b > 0 && a >= 0
    requires 2 * b * q <= 2 * a + b < 2 * b * q + 2 * b
    ensures RoundHalfUp(a, b) == q
  {
    var r := RoundHalfUp(a, b);
    if r < q {
      MulMonotone(2 * b, r + 1, q);
    } else if r > q {
      MulMonotone(2 * b, q + 1, r);
    }
  }

  /* A larger dividend never rounds to a smaller quotient. */
  lemma RoundHalfUpMonotone(a: int, a': int, b: int)
    requires b > 0 && 0 <= a <= a'
    ensures RoundHalfUp(a, b) <= RoundHalfUp(a', b)
  {
    var r, r' := RoundHalfUp(a, b), RoundHalfUp(a', b);
    if r' < r {
      MulMonotone(2 * b, r' + 1, r);
    }
  }

  /* Rounding s/n half up stays within lo..hi when s does within lo*n..hi*n. */
  lemma RoundWithin(s: int, n: int, lo: int, hi: int)
    requires n > 0 && 0 <= lo && lo * n <= s <= hi * n
    ensures lo <= RoundHalfUp(s, n) <= hi
  {
    MulMonotone(n, 0, lo);
    var r := RoundHalfUp(s, n);
    assert 2 * n * (r + 1) == 2 * n * r + 2 * n;
    assert 2 * n * (hi + 1) == 2 * n * hi + 2 * n;
    assert 2 * n * lo == 2 * (lo * n);
    assert 2 * n * hi == 2 * (hi * n);
    if r < lo {
      MulMonotone(2 * n, r + 1, lo);
    }
    if r > hi {
      MulMonotone(2 * n, hi + 1, r);
    }
  }
}
