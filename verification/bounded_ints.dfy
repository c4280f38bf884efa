/**
 C# `int` is a 32-bit two's-complement integer, and arithmetic on it is
 unchecked by default: an addition that leaves the range wraps around modulo
 2^32. This module makes that wrap-around explicit for the unbounded `int` of
 Dafny.
 */
module BoundedInts {

  const TWO_TO_THE_32: int := 0x1_0000_0000
  const INT32_MIN: int := -0x8000_0000
  const INT32_MAX: int := 0x7FFF_FFFF

  type int32 = x: int | INT32_MIN <= x <= INT32_MAX

  predicate InInt32Range(x: int) {
    INT32_MIN <= x <= INT32_MAX
  }

  /** The 32-bit value a mathematical integer wraps to: the unique
      representative of `x` modulo 2^32 in the int32 range. */
  function WrapInt32(x: int): (r: int32)
    ensures (x - r) % TWO_TO_THE_32 == 0
    ensures InInt32Range(x) ==> r == x
  {
    var r := (x - INT32_MIN) % TWO_TO_THE_32 + INT32_MIN;
    assert x - r == TWO_TO_THE_32 * ((x - INT32_MIN) / TWO_TO_THE_32);
    MultipleIsCongruentToZero((x - INT32_MIN) / TWO_TO_THE_32);
    r
  }

  lemma MultipleIsCongruentToZero(q: int)
    ensures (TWO_TO_THE_32 * q) % TWO_TO_THE_32 == 0
  {
  }

  /** `a + b` evaluated in an unchecked C# context. */
  function AddWrapped(a: int32, b: int32): (r: int32)
    ensures (a + b - r) % TWO_TO_THE_32 == 0
    ensures InInt32Range(a + b) ==> r == a + b
  {
    WrapInt32(a + b)
  }

  /** Two integers congruent modulo 2^32 wrap to the same int32. */
  lemma {:induction false} CongruentWrapEqual(x: int, y: int)
    requires (x - y) % TWO_TO_THE_32 == 0
    ensures WrapInt32(x) == WrapInt32(y)
  {
    var rx, ry := WrapInt32(x), WrapInt32(y);
    // rx and ry are congruent and both lie in a window of width 2^32.
    var d := (x - y) / TWO_TO_THE_32;
    assert x - y == TWO_TO_THE_32 * d;
    var ex := (x - rx) / TWO_TO_THE_32;
    var ey := (y - ry) / TWO_TO_THE_32;
    assert x - rx == TWO_TO_THE_32 * ex;
    assert y - ry == TWO_TO_THE_32 * ey;
    assert rx - ry == TWO_TO_THE_32 * (d - ex + ey);
  }

  /** Wrapping an intermediate result does not change the final wrapped
      value: repeated unchecked additions equal one wrap of the exact sum. */
  lemma WrapOfWrappedSum(x: int, y: int)
    ensures WrapInt32(WrapInt32(x) + y) == WrapInt32(x + y)
  {
    var w := WrapInt32(x);
    var q := (x - w) / TWO_TO_THE_32;
    assert x - w == TWO_TO_THE_32 * q;
    MultipleIsCongruentToZero(q);
    assert ((x + y) - (w + y)) % TWO_TO_THE_32 == 0;
    CongruentWrapEqual(w + y, x + y);
  }

  /** One unchecked addition followed by exact ones wraps to the same value
      as the exact total: the step a running total takes. */
  lemma AddWrappedThenAdd(a: int32, b: int32, rest: int, total: int)
    requires total == b + rest
    ensures WrapInt32(AddWrapped(a, b) + rest) == WrapInt32(a + total)
  {
    WrapOfWrappedSum(a + b, rest);
    assert a + b + rest == a + total;
  }

  /** An int32 that is the wrapped value of `h` stays the wrapped value of
      the running total after one unchecked addition. */
  lemma WrappedStep(t: int32, h: int, m: int32)
    requires t == WrapInt32(h)
    ensures AddWrapped(t, m) == WrapInt32(h + m)
  {
    WrapOfWrappedSum(h, m);
  }

  /** Conversely, two integers that wrap to the same int32 are congruent
      modulo 2^32. */
  lemma WrapEqualCongruent(x: int, y: int)
    requires WrapInt32(x) == WrapInt32(y)
    ensures (x - y) % TWO_TO_THE_32 == 0
  {
    var w := WrapInt32(x);
    var qx := (x - w) / TWO_TO_THE_32;
    var qy := (y - w) / TWO_TO_THE_32;
    assert x - w == TWO_TO_THE_32 * qx;
    assert y - w == TWO_TO_THE_32 * qy;
    assert x - y == TWO_TO_THE_32 * (qx - qy);
    MultipleIsCongruentToZero(qx - qy);
  }

  /** Adding `h` to an int32 leaves its wrapped value unchanged exactly when
      `h` is a multiple of 2^32. */
  lemma WrapShiftFixed(h: int, m: int32)
    ensures WrapInt32(h + m) == m <==> h % TWO_TO_THE_32 == 0
  {
    if WrapInt32(h + m) == m {
      assert WrapInt32(h + m) == WrapInt32(m);
      WrapEqualCongruent(h + m, m);
      assert h + m - m == h;
    }
    if h % TWO_TO_THE_32 == 0 {
      assert (h + m - m) % TWO_TO_THE_32 == 0;
      CongruentWrapEqual(h + m, m);
    }
  }
}
