/** The linear-congruential step `(seed * 9301 + 49297) % 233280` that every
    pseudo-random status in the dashboard is drawn from, and the integer form of
    the `random < t` tests made on its result `random = v / 233280`. */
module Lcg {
  const Modulus: int := 233280

  /** JavaScript's `x % 233280`: the remainder takes the sign of the dividend. */
  function JsRem(a: int): (r: int)
    ensures a >= 0 ==> 0 <= r < Modulus
    ensures a < 0 ==> -Modulus < r <= 0
    ensures (a - r) % Modulus == 0
  {
    if a >= 0 then a % Modulus else -((-a) % Modulus)
  }

  /** One generator step; arithmetic is exact (inputs stay below 2^53 / 9301). */
  function Step(s: int): (r: int)
    ensures s >= 0 ==> 0 <= r < Modulus
  {
    JsRem(s * 9301 + 49297)
  }

  /** `s` stepped `k` times. */
  function Iterate(s: int, k: nat): int {
    if k == 0 then s else Step(Iterate(s, k - 1))
  }

  /** Stepping first and then `k` times is stepping `k + 1` times. */
  lemma {:induction false} IterateShift(s: int, k: nat)
    ensures Iterate(Step(s), k) == Iterate(s, k + 1)
  {
    if k > 0 {
      IterateShift(s, k - 1);
    }
  }

  /** From a non-negative state every later state is non-negative and, after at least
      one step, below the modulus. */
  lemma {:induction false} IterateRange(s: int, k: nat)
    requires s >= 0
    ensures Iterate(s, k) >= 0
    ensures k >= 1 ==> Iterate(s, k) < Modulus
  {
    if k > 0 {
      IterateRange(s, k - 1);
    }
  }

  // For a state v, `v / 233280 < t` holds exactly when `v < Below(t)`:
  const Below010: int := 23328   // 0.10
  const Below015: int := 34992   // 0.15
  const Below018: int := 41991   // 0.18 (0.18 * 233280 = 41990.4)
  const Below055: int := 128304  // 0.55
  const Below065: int := 151632  // 0.65
  const Below070: int := 163296  // 0.70
  const Below075: int := 174960  // 0.75
  const Below085: int := 198288  // 0.85
  const Below090: int := 209952  // 0.90
  const Below095: int := 221616  // 0.95

  /** The integer thresholds decide the same comparisons as the decimal literals
      of the source, read as exact rationals. */
  lemma ThresholdsExact(v: int)
    ensures (v < Below010) <==> (v as real) / 233280.0 < 0.10
    ensures (v < Below015) <==> (v as real) / 233280.0 < 0.15
    ensures (v < Below018) <==> (v as real) / 233280.0 < 0.18
    ensures (v < Below055) <==> (v as real) / 233280.0 < 0.55
    ensures (v < Below065) <==> (v as real) / 233280.0 < 0.65
    ensures (v < Below070) <==> (v as real) / 233280.0 < 0.70
    ensures (v < Below075) <==> (v as real) / 233280.0 < 0.75
    ensures (v < Below085) <==> (v as real) / 233280.0 < 0.85
    ensures (v < Below090) <==> (v as real) / 233280.0 < 0.90
    ensures (v < Below095) <==> (v as real) / 233280.0 < 0.95
  {
  }
}
