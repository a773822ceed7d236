/** Java's 32-bit `int` arithmetic, written out over Dafny's unbounded integers. */
module JavaInt {

  const MIN_INT: int := -0x8000_0000
  const MAX_INT: int := 0x7fff_ffff
  const MODULUS: int := 0x1_0000_0000

  predicate InRange(x: int) {
    MIN_INT <= x <= MAX_INT
  }

  /** Two's-complement wrap-around of an exact result into the `int` range. */
  function Wrap(x: int): (r: int)
    ensures InRange(r)
    ensures (r - x) % MODULUS == 0
    ensures InRange(x) ==> r == x
  {
    (x - MIN_INT) % MODULUS + MIN_INT
  }

  function Abs(x: int): nat {
    if x < 0 then -x else x
  }

  /** Division of naturals, bracketing its dividend between two multiples of the divisor. */
  function NatDiv(x: nat, y: nat): (m: nat)
    requires y > 0
    ensures m * y <= x < (m + 1) * y
  {
    var q, r := x / y, x % y;
    assert x == q * y + r;
    assert (q + 1) * y == q * y + y;
    q
  }

  /** Division that truncates toward zero, as Java's `/` does (before any wrap-around). */
  function TruncDiv(a: int, b: int): (q: int)
    requires b != 0
    ensures Abs(q) * Abs(b) <= Abs(a) < (Abs(q) + 1) * Abs(b)
    ensures q != 0 ==> ((q > 0) <==> ((a > 0) == (b > 0)))
  {
    var m: int := NatDiv(Abs(a), Abs(b));
    if (a < 0) == (b < 0) then m else -m
  }

  /** Remainder whose sign follows the dividend, as Java's `%` does. */
  function TruncRem(a: int, b: int): (r: int)
    requires b != 0
    ensures a == TruncDiv(a, b) * b + r
    ensures Abs(r) < Abs(b)
    ensures r != 0 ==> ((r > 0) <==> (a > 0))
  {
    var r := a - TruncDiv(a, b) * b;
    assert Abs(r) == Abs(a) - Abs(TruncDiv(a, b)) * Abs(b);
    r
  }

  /** Java's `a / b` on two `int` operands (only MIN_INT / -1 wraps around). */
  function Div(a: int, b: int): int
    requires b != 0
  {
    Wrap(TruncDiv(a, b))
  }

  /** Java's `a % b` on two `int` operands; it never overflows. */
  function Rem(a: int, b: int): int
    requires b != 0
  {
    TruncRem(a, b)
  }

  /** A Euclidean remainder is determined by any quotient it fits with. */
  lemma ModUnique(a: int, m: int, q: int, r: int)
    requires m > 0 && a == q * m + r && 0 <= r < m
    ensures a % m == r
  {
    var d := a / m - q;
    assert d * m == r - a % m;
  }

  /** Results that differ by a multiple of 2^32 wrap to the same int. */
  lemma WrapCongruent(x: int, y: int, k: int)
    requires x - y == k * MODULUS
    ensures Wrap(x) == Wrap(y)
  {
    var a := y - MIN_INT;
    var q := a / MODULUS;
    assert a == q * MODULUS + a % MODULUS;
    assert x - MIN_INT == (q + k) * MODULUS + a % MODULUS;
    ModUnique(x - MIN_INT, MODULUS, q + k, a % MODULUS);
  }

  /** Wrapping an intermediate sum does not change the wrapped total. */
  lemma WrapAdd(x: int, y: int)
    ensures Wrap(Wrap(x) + y) == Wrap(x + y)
  {
    var d := Wrap(x) - x;
    assert d == (d / MODULUS) * MODULUS;
    WrapCongruent(Wrap(x) + y, x + y, d / MODULUS);
  }

  /** Wrapping an intermediate product does not change the wrapped total. */
  lemma WrapMul(x: int, y: int)
    ensures Wrap(Wrap(x) * y) == Wrap(x * y)
  {
    var d := Wrap(x) - x;
    var j := d / MODULUS;
    assert d == j * MODULUS;
    assert Wrap(x) * y - x * y == d * y;
    assert d * y == (j * y) * MODULUS;
    WrapCongruent(Wrap(x) * y, x * y, j * y);
  }
}
