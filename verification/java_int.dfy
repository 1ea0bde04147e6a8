/**
 Java's 32-bit int. Dafny integers are unbounded, so a narrowing cast
 `(int) longValue` and int arithmetic that may overflow are written out as
 explicit two's-complement wrap-around.
 */
module JavaInt {

  const IntMin: int := -0x8000_0000
  const IntMax: int := 0x7fff_ffff

  predicate IsInt32(x: int) {
    IntMin <= x <= IntMax
  }

  /* The low 32 bits of x read as a signed int: `(int) x` for a long x. */
  function Wrap32(x: int): (r: int)
    ensures IsInt32(r)
    ensures (r - x) % 0x1_0000_0000 == 0
    ensures IsInt32(x) ==> r == x
  {
    (x + 0x8000_0000) % 0x1_0000_0000 - 0x8000_0000
  }

  /* Two ints that agree modulo 2^32 are equal. */
  lemma WrapUnique(x: int, y: int)
    requires IsInt32(x) && IsInt32(y)
    requires (x - y) % 0x1_0000_0000 == 0
    ensures x == y
  {
    var k := (x - y) / 0x1_0000_0000;
    assert x - y == k * 0x1_0000_0000;
  }

  /* Adding to a wrapped sum wraps like adding to the exact sum: int addition is associative under overflow. */
  lemma WrapAddWrap(a: int, b: int)
    ensures Wrap32(Wrap32(a) + b) == Wrap32(a + b)
  {
    var r1 := Wrap32(Wrap32(a) + b);
    var r2 := Wrap32(a + b);
    var m := 0x1_0000_0000;
    var k1 := (r1 - (Wrap32(a) + b)) / m;
    var k0 := (Wrap32(a) - a) / m;
    var k2 := (r2 - (a + b)) / m;
    assert r1 - (Wrap32(a) + b) == k1 * m;
    assert Wrap32(a) - a == k0 * m;
    assert r2 - (a + b) == k2 * m;
    assert r1 - r2 == (k1 + k0 - k2) * m;
    assert (r1 - r2) % m == 0;
    WrapUnique(r1, r2);
  }

  /* Java's int division: the quotient truncated toward zero, then wrapped
     (only Integer.MIN_VALUE / -1 leaves the range). */
  function Div32(a: int, b: int): (r: int)
    requires b != 0
    ensures IsInt32(r)
    ensures 0 <= a && 0 < b && IsInt32(a) ==> r == a / b
    ensures a < 0 && 0 < b && IsInt32(a) ==> r == -((-a) / b)
  {
    var q := Abs(a) / Abs(b);
    QuotientAtMost(Abs(a), Abs(b));
    Wrap32(if (a < 0) == (b < 0) then q else -q)
  }

  lemma QuotientAtMost(x: nat, d: nat)
    requires d > 0
    ensures 0 <= x / d <= x
  {
    var q := x / d;
    assert q * d + x % d == x;
    MulNonneg(q, d - 1);
    assert q * d == q * (d - 1) + q;
  }

  lemma MulNonneg(a: nat, b: nat)
    ensures a * b >= 0
  {
  }

  function Abs(x: int): (r: nat)
    ensures r == x || r == -x
  {
    if x < 0 then -x else x
  }
}
