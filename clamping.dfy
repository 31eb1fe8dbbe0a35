/** The three-way bound `clamp(a, x, b)` of src/main.cpp, used for pixel
    coordinates, intensity levels and color channels. */
module Clamping {

  /** `x` forced into `[a, b]`. The lower bound is tested first, so when
      `a > b` a value below `a` still yields `a`. */
  function Clamp(a: real, x: real, b: real): (r: real)
    ensures a <= b ==> a <= r <= b
    ensures a <= x <= b ==> r == x
    ensures x < a ==> r == a
  {
    if x < a then a else if x > b then b else x
  }

  function Distance(x: real, y: real): real {
    if x < y then y - x else x - y
  }

  /** With `a <= b`, the clamped value is the point of `[a, b]` nearest to `x`. */
  lemma ClampIsNearest(a: real, x: real, b: real, y: real)
    requires a <= b && a <= y <= b
    ensures Distance(Clamp(a, x, b), x) <= Distance(y, x)
  {
  }

  /** Clamping never reverses the order of two values. */
  lemma ClampMonotone(a: real, x1: real, x2: real, b: real)
    requires a <= b && x1 <= x2
    ensures Clamp(a, x1, b) <= Clamp(a, x2, b)
  {
  }

  /** A clamped value is left alone by a second clamp to the same bounds. */
  lemma ClampIdempotent(a: real, x: real, b: real)
    requires a <= b
    ensures Clamp(a, Clamp(a, x, b), b) == Clamp(a, x, b)
  {
  }
}
