/** The two `Math` helpers the bandwidth code and the client share, on reals. */
module Numbers {

  /** `Math.min` of two numbers. */
  function Min(a: real, b: real): real {
    if a <= b then a else b
  }

  /** `Math.max` of two numbers. */
  function Max(a: real, b: real): real {
    if a >= b then a else b
  }
}
