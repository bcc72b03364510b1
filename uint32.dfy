// Unsigned 32-bit arithmetic of C's uint_t, and the conversion of a
// floating-point value to uint_t, as the onset detector uses them.
module UInt32 {

  /** 2^32: the number of values of a 32-bit unsigned integer. */
  const U32: nat := 0x1_0000_0000

  predicate IsUint(n: int) { 0 <= n < U32 }

  /** `a + b` on uint_t: wraps modulo 2^32. */
  function Add32(a: nat, b: nat): (r: nat)
    requires IsUint(a) && IsUint(b)
    ensures IsUint(r)
    ensures a + b < U32 ==> r == a + b
    ensures a + b >= U32 ==> r == a + b - U32
  {
    if a + b < U32 then a + b else a + b - U32
  }

  /** `a - b` on uint_t: wraps modulo 2^32 when b > a. */
  function Sub32(a: nat, b: nat): (r: nat)
    requires IsUint(a) && IsUint(b)
    ensures IsUint(r)
    ensures b <= a ==> r == a - b
    ensures a < b ==> r == U32 + a - b
    ensures Add32(r, b) == a
  {
    if b <= a then a - b else U32 + a - b
  }

  /** C's conversion of a floating-point value to an integer: truncation toward zero. */
  function Trunc(x: real): (r: int)
    ensures 0.0 <= x ==> r as real <= x < r as real + 1.0
    ensures x < 0.0 ==> r as real - 1.0 < x <= r as real
  {
    if x >= 0.0 then x.Floor else -((-x).Floor)
  }

  /**
   * Conversion of a floating-point value to uint_t.  Inside the range C
   * defines (a truncated value in [0, 2^32)) this is the truncation; outside
   * it C leaves the result undefined and the model wraps modulo 2^32.
   */
  function ToUint(x: real): (r: nat)
    ensures IsUint(r)
    ensures 0.0 <= x < U32 as real ==> r as real <= x < r as real + 1.0
    ensures -1.0 < x < U32 as real ==> r == Trunc(x)
  {
    Trunc(x) % U32
  }

  /** A value between two uint_t values converts to a value between them. */
  lemma ToUintBetween(x: real, lo: nat, hi: nat)
    requires lo as real <= x <= hi as real && hi < U32
    ensures lo <= ToUint(x) <= hi
  {
    var r := ToUint(x);
    assert r as real <= x < r as real + 1.0;
  }

  /** Add32 is addition modulo 2^32. */
  lemma Add32IsMod(a: nat, b: nat)
    requires IsUint(a) && IsUint(b)
    ensures Add32(a, b) == (a + b) % U32
  {
  }
}
