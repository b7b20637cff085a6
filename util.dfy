/** The numeric helpers of include/util.h. */
module Util {
  import opened CMath

  /** Largest magnitude `validate` lets through (1e19). */
  const Huge: real := 10000000000000000000.0
  /** Magnitudes below this (1e-8) are flushed to zero by `validate`. */
  const Tiny: real := 0.00000001
  /** `sigmod` clamps its argument to [-Saturation, Saturation]. */
  const Saturation: real := 200.0

  /** `x` limited to `[lo, hi]` by two conditional assignments. */
  function Clamp(x: real, lo: real, hi: real): (r: real)
    requires lo <= hi
    ensures lo <= r <= hi
    ensures lo <= x <= hi ==> r == x
    ensures x < lo ==> r == lo
    ensures hi < x ==> r == hi
  {
    var y := if x > hi then hi else x;
    if y < lo then lo else y
  }

  /** `validate`: clamp to [-1e19, 1e19], then flush magnitudes below 1e-8 to 0. */
  function Validate(x: real): (r: real)
  {
    var c := Clamp(x, -Huge, Huge);
    if Abs(c) < Tiny then 0.0 else c
  }

  /** The result of `validate` is bounded and never a tiny non-zero value. */
  lemma ValidateRange(x: real)
    ensures -Huge <= Validate(x) <= Huge
    ensures Validate(x) == 0.0 || Tiny <= Abs(Validate(x))
  {
  }

  /** `validate` flushes exactly the clamped values of magnitude below 1e-8. */
  lemma ValidateFlush(x: real)
    ensures Abs(Clamp(x, -Huge, Huge)) < Tiny ==> Validate(x) == 0.0
    ensures Tiny <= Abs(Clamp(x, -Huge, Huge)) ==> Validate(x) == Clamp(x, -Huge, Huge)
  {
  }

  /** Applying `validate` twice is the same as applying it once. */
  lemma ValidateIdempotent(x: real)
    ensures Validate(Validate(x)) == Validate(x)
  {
    ValidateRange(x);
  }

  /** `sigmod`: `1 + exp(x)` with `x` clamped to [-200, 200] first (not the logistic function). */
  function Sigmod(m: Libm, x: real): real
  {
    1.0 + m.exp(Clamp(x, -Saturation, Saturation))
  }

  /** `sigmod` only sees the clamped argument, so it is constant beyond +-200. */
  lemma SigmodSaturates(m: Libm, x: real)
    ensures Sigmod(m, x) == Sigmod(m, Clamp(x, -Saturation, Saturation))
    ensures Saturation <= x ==> Sigmod(m, x) == Sigmod(m, Saturation)
    ensures x <= -Saturation ==> Sigmod(m, x) == Sigmod(m, -Saturation)
  {
  }

  /**
   * `product`: walks both vectors in step while neither is exhausted and
   * ASSIGNS `a[k] * b[k]` to the result each time, so the result is the
   * product of the last aligned pair, or 0 when either vector is empty.
   */
  method Product(a: seq<real>, b: seq<real>) returns (result: real)
    ensures var k := if |a| < |b| then |a| else |b|;
      result == if k == 0 then 0.0 else a[k - 1] * b[k - 1]
  {
    result := 0.0;
    var i := 0;
    while i < |a| && i < |b|
      invariant 0 <= i <= |a| && i <= |b|
      invariant result == if i == 0 then 0.0 else a[i - 1] * b[i - 1]
    {
      result := a[i] * b[i];
      i := i + 1;
    }
  }
}
