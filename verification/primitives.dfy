/** Java's fixed-width primitive types, written out over Dafny's unbounded integers. */
module Primitives {

  /** A Java `byte`: a signed 8-bit integer. */
  newtype byte = x: int | -128 <= x < 128

  const INT_MIN: int := -0x8000_0000
  const INT_MAX: int := 0x7fff_ffff

  /** A value a Java `int` can hold. */
  predicate IsInt32(x: int) {
    INT_MIN <= x <= INT_MAX
  }

  /** Java's `int` arithmetic: the exact result reduced modulo 2^32 into [INT_MIN, INT_MAX]. */
  function Wrap32(x: int): (r: int)
    ensures IsInt32(r)
    ensures (r - x) % 0x1_0000_0000 == 0
    ensures IsInt32(x) ==> r == x
  {
    (x - INT_MIN) % 0x1_0000_0000 + INT_MIN
  }

  /** Wrapping twice is wrapping once: `(a + b) - 1` in `int` equals `a + b - 1` reduced once. */
  lemma Wrap32Congruent(x: int, y: int)
    requires (x - y) % 0x1_0000_0000 == 0
    ensures Wrap32(x) == Wrap32(y)
  {
    var q := (x - y) / 0x1_0000_0000;
    assert x - INT_MIN == (y - INT_MIN) + q * 0x1_0000_0000;
    ModShift(y - INT_MIN, q);
  }

  lemma ModShift(a: int, q: int)
    ensures (a + q * 0x1_0000_0000) % 0x1_0000_0000 == a % 0x1_0000_0000
  {
    var r := a % 0x1_0000_0000;
    var d := a / 0x1_0000_0000;
    assert a == d * 0x1_0000_0000 + r;
    assert a + q * 0x1_0000_0000 == (d + q) * 0x1_0000_0000 + r;
  }
}
