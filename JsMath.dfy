/** `Math.max` and `Math.min` on two numbers that are not NaN. */
module JsMath {
  function Max(a: real, b: real): real { if a >= b then a else b }

  function Min(a: real, b: real): real { if a <= b then a else b }
}
