/** The small progress bar (frontend/src/components/ui/MiniProgress.jsx):
    the shown value is the given one clamped to [0, 100]. */
module MiniProgress {
  /** `Math.max(0, Math.min(100, value))`. */
  function Clamp(value: real): (r: real)
    ensures 0.0 <= r <= 100.0
    ensures 0.0 <= value <= 100.0 ==> r == value
    ensures value < 0.0 ==> r == 0.0
    ensures value > 100.0 ==> r == 100.0
  {
    var upper := if value < 100.0 then value else 100.0;
    if upper > 0.0 then upper else 0.0
  }

  /** Clamping twice is clamping once, and clamping keeps the order of
      values. */
  lemma ClampIdempotentMonotone(a: real, b: real)
    ensures Clamp(Clamp(a)) == Clamp(a)
    ensures a <= b ==> Clamp(a) <= Clamp(b)
  {
  }
}
