/** The parts of a generated performance sample both generators share: the
    hour of a timestamp and the clamped process count. */
module Samples {
  const SecondsPerDay: int := 86400

  /** `datetime.hour` of a timestamp in whole seconds (one fixed time zone). */
  function HourOf(t: int): (h: int)
    ensures 0 <= h < 24
    ensures 3600 * h <= t % SecondsPerDay < 3600 * (h + 1)
  {
    (t % SecondsPerDay) / 3600
  }

  function Min(a: int, b: int): int {
    if a <= b then a else b
  }

  /** `min(200, int(base_processes * process_multiplier))`, the multiplier
      being 1.4 in peak hours and 1.0 otherwise; `base` is the
      `random.randint` draw. */
  function ProcessCount(base: nat, peak: bool): (r: int)
    ensures r <= 200
    ensures !peak ==> r == Min(base, 200)
    ensures peak && 14 * base < 2000 ==> 10 * r <= 14 * base < 10 * (r + 1)
    ensures peak && 14 * base >= 2000 ==> r == 200
  {
    Min(200, if peak then base * 14 / 10 else base)
  }

  /** For a draw of `randint(50, 150)` the count lies between the draw and
      200, and peak hours never lower it. */
  lemma ProcessCountRange(base: nat, peak: bool)
    requires 50 <= base <= 150
    ensures base <= ProcessCount(base, peak) <= 200
    ensures ProcessCount(base, false) <= ProcessCount(base, true)
  {
  }
}
