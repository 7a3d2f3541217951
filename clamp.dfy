/**
 * clamp (app.js lines 129-131): Math.max(min, Math.min(max, value)), used by
 * the renderer to bring visit and fitness ratios into [0, 1].
 */
module Clamping {

  function Clamp(value: real, lo: real, hi: real): (r: real)
    ensures lo <= hi ==> lo <= r <= hi
    ensures lo <= value <= hi ==> r == value
    ensures value < lo ==> r == lo
    ensures lo <= hi && hi < value ==> r == hi
    ensures hi < lo ==> r == lo
  {
    var upper := if hi <= value then hi else value;
    if lo >= upper then lo else upper
  }

  /** Clamping a clamped value changes nothing. */
  lemma ClampIdempotent(value: real, lo: real, hi: real)
    ensures Clamp(Clamp(value, lo, hi), lo, hi) == Clamp(value, lo, hi)
  {
  }
}
