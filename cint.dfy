/** The C integer conventions the visualizer's arithmetic relies on:
    the 32-bit `int` range with its INT_MIN/INT_MAX sentinels, the
    truncating division of C, and the narrowing of a `long` to an `int`. */
module CInt {

  const IntMin: int := -0x8000_0000
  const IntMax: int := 0x7FFF_FFFF

  /** The span of a 32-bit two's-complement `int`. */
  const IntSpan: int := 0x1_0000_0000

  predicate IsInt(x: int) {
    IntMin <= x <= IntMax
  }

  function Abs(x: int): (r: nat)
    ensures r == x || r == -x
  {
    if x < 0 then -x else x
  }

  /** C's `/`: the quotient is truncated toward zero, so the remainder
      `n - q * d` takes the sign of the dividend. */
  function Quot(n: int, d: int): (q: int)
    requires d != 0
    ensures n >= 0 && d > 0 ==> q == n / d
    ensures Abs(n - q * d) < Abs(d)
    ensures n - q * d == 0 || (n - q * d < 0 <==> n < 0)
  {
    var m := Abs(n) / Abs(d);
    var q := if (n < 0) == (d < 0) then m else -m;
    QuotRemainder(n, d, m, q);
    q
  }

  lemma QuotRemainder(n: int, d: int, m: int, q: int)
    requires d != 0 && m == Abs(n) / Abs(d)
    requires q == if (n < 0) == (d < 0) then m else -m
    ensures n - q * d == if n < 0 then -(Abs(n) % Abs(d)) else Abs(n) % Abs(d)
  {
    var a: int, b: int := Abs(n), Abs(d);
    assert a == m * b + a % b;
    if d < 0 {
      assert d == -b;
      assert q * d == -(q * b);
    } else {
      assert d == b;
    }
    if (n < 0) == (d < 0) {
      assert q == m;
    } else {
      assert q == -m;
      assert (-m) * b == -(m * b);
    }
  }

  /** Narrowing a wider integer to a 32-bit `int` keeps the low 32 bits
      (two's-complement wrap-around). */
  function ToInt(x: int): (r: int)
    ensures IsInt(r)
    ensures IsInt(x) ==> r == x
    ensures (x - r) % IntSpan == 0
  {
    (x - IntMin) % IntSpan + IntMin
  }
}
