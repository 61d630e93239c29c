/**
 * Java's 32-bit `int`. The service adds and subtracts stock and quantities
 * with plain `+` and `-`, which wrap around on overflow; `Wrap` makes that
 * wrap-around explicit.
 */
module JavaInt {
  const MIN: int := -0x8000_0000
  const MAX: int := 0x7FFF_FFFF
  const MODULUS: int := 0x1_0000_0000

  type int32 = x: int | MIN <= x <= MAX

  predicate InRange(x: int) {
    MIN <= x <= MAX
  }

  /** The value Java's `int` arithmetic produces for the mathematical result `x`. */
  function Wrap(x: int): (r: int32)
    ensures InRange(x) ==> r == x
    ensures (x - r) % MODULUS == 0
  {
    var m := x % MODULUS;
    if m <= MAX then m else m - MODULUS
  }

  /** Shifting by a multiple of the modulus keeps the remainder. */
  lemma ModShift(a: int, k: int)
    ensures (a + k * 0x1_0000_0000) % 0x1_0000_0000 == a % 0x1_0000_0000
  {
    var q, m := a / 0x1_0000_0000, a % 0x1_0000_0000;
    assert a + k * 0x1_0000_0000 == (q + k) * 0x1_0000_0000 + m;
  }

  /** Wrapping an intermediate result does not change the final one. */
  lemma WrapAdd(x: int, y: int)
    ensures Wrap(Wrap(x) + y) == Wrap(x + y)
  {
    var a, b := Wrap(x) + y, x + y;
    var k := (x - Wrap(x)) / MODULUS;
    assert b == a + k * MODULUS;
    ModShift(a, k);
  }
}
