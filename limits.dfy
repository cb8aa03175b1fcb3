/** The clamping helper `limit` (src/main.rs:255-266). */
module Limits {

  /** Clamps `x` into `[a, b]`. */
  function Limit(x: int, a: int, b: int): (r: int)
    ensures a <= b ==> a <= r <= b
    ensures a <= x <= b ==> r == x
    ensures r < x ==> r == b
    ensures x < r ==> r == a
  {
    if x < a then a
    else if x > b then b
    else x
  }

  /** Clamping a clamped value changes nothing. */
  lemma LimitIdempotent(x: int, a: int, b: int)
    requires a <= b
    ensures Limit(Limit(x, a, b), a, b) == Limit(x, a, b)
  {
  }

  /** Clamping preserves order, so normalised corners stay normalised. */
  lemma LimitMonotone(x: int, y: int, a: int, b: int)
    requires a <= b && x <= y
    ensures Limit(x, a, b) <= Limit(y, a, b)
  {
  }
}
