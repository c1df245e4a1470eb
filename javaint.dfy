/**
 * Java `int` arithmetic on Dafny's unbounded integers: the 32-bit range, the
 * wrap-around of `+=` on an `int` field, integer division that truncates toward
 * zero, and `(int) Math.ceil((double) a / b)` for a positive divisor.
 */
module JavaInt {

  const MIN_INT: int := -0x8000_0000
  const MAX_INT: int := 0x7fff_ffff
  const TWO_32: int := 0x1_0000_0000

  predicate InInt32(x: int) {
    MIN_INT <= x <= MAX_INT
  }

  /** The value a Java `int` holds after an addition whose exact result is `x`. */
  function Wrap32(x: int): (r: int)
    ensures InInt32(r)
    ensures (r - x) % TWO_32 == 0
    ensures InInt32(x) ==> r == x
  {
    (x - MIN_INT) % TWO_32 + MIN_INT
  }

  /** Java's `a / b` on integers: the quotient truncated toward zero. */
  function JavaDiv(a: int, b: int): (q: int)
    requires b > 0
    ensures a >= 0 ==> q * b <= a < q * b + b
    ensures a < 0 ==> q * b - b < a <= q * b
  {
    if a >= 0 then a / b else -((-a) / b)
  }

  /**
   * `(int) Math.ceil((double) a / b)` for `b > 0`: the least `q` with `q * b >= a`.
   * The double quotient is exact enough here, because a non-integral quotient
   * of two 32-bit integers lies at least 1/b away from the next integer.
   */
  function CeilDiv(a: int, b: int): (q: int)
    requires b > 0
    ensures q * b >= a
    ensures (q - 1) * b < a
  {
    -((-a) / b)
  }

  /** Wrapping after every addition gives what wrapping once at the end gives. */
  lemma WrapAdd(a: int, b: int)
    ensures Wrap32(Wrap32(a) + b) == Wrap32(a + b)
  {
    var r := Wrap32(a);
    var k := (r - a) / TWO_32;
    assert r - a == k * TWO_32;
    ShiftMod(a + b - MIN_INT, k);
  }

  lemma ShiftMod(x: int, k: int)
    ensures (x + k * TWO_32) % TWO_32 == x % TWO_32
  {
  }
}
