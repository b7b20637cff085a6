/**
 * The floating-point library functions the source calls (`exp`, `log`,
 * `sqrt`) and IEEE division, which is total (dividing by zero gives an
 * infinity or NaN instead of failing). They are left uninterpreted: the model
 * takes them as a parameter and proves nothing about their values.
 */
module CMath {
  datatype Libm = Libm(
    exp: real -> real,
    log: real -> real,
    sqrt: real -> real,
    div: (real, real) -> real)

  /** `fabs` */
  function Abs(x: real): (r: real)
    ensures 0.0 <= r
    ensures r == x || r == -x
  {
    if x < 0.0 then -x else x
  }
}
