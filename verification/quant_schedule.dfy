/** The quantisation schedule of the redundancy decoder: the level used at
    loop index `i` is `DRED_ENC_Q0` moved towards `DRED_ENC_Q1` in proportion
    `i / (N - 2)`, rounded to the nearest integer.

    The decoder evaluates this in single-precision floating point and rounds
    with the C library's `round`; here the quotient is exact and the rounding
    is half away from zero.
 */
module QuantSchedule {
  import opened CArith
  import opened DredConfig

  /** `round(Q0 + (Q1 - Q0) * i / (N - 2))` as one fraction over `N - 2`. */
  function QLevel(cfg: Config, i: int): int
    requires cfg.Valid()
  {
    RoundHalfAway(Numerator(cfg, i), cfg.numRedundancyFrames - 2)
  }

  /** `Q0 + (Q1 - Q0) * i / (N - 2)` times `N - 2`. */
  function Numerator(cfg: Config, i: int): int
  {
    cfg.encQ0 * (cfg.numRedundancyFrames - 2) + (cfg.encQ1 - cfg.encQ0) * i
  }

  /** The numerator moves with the index in the direction from `Q0` to `Q1`. */
  lemma NumeratorMonotone(cfg: Config, i: int, j: int)
    requires i <= j
    ensures cfg.encQ0 <= cfg.encQ1 ==> Numerator(cfg, i) <= Numerator(cfg, j)
    ensures cfg.encQ1 <= cfg.encQ0 ==> Numerator(cfg, j) <= Numerator(cfg, i)
  {
    var d := cfg.encQ1 - cfg.encQ0;
    if d >= 0 {
      MulMonotone(i, j, d);
    } else {
      MulMonotone(i, j, -d);
    }
  }

  /** The smaller and the larger of the two endpoint levels. */
  function LowLevel(cfg: Config): int { IMin(cfg.encQ0, cfg.encQ1) }
  function HighLevel(cfg: Config): int { Max(cfg.encQ0, cfg.encQ1) }

  /** The first pass uses `Q0` and the pass at index `N - 2` uses `Q1`. */
  lemma QLevelEndpoints(cfg: Config)
    requires cfg.Valid()
    ensures QLevel(cfg, 0) == cfg.encQ0
    ensures QLevel(cfg, cfg.numRedundancyFrames - 2) == cfg.encQ1
  {
    var span := cfg.numRedundancyFrames - 2;
    RoundHalfAwayExact(cfg.encQ0, span);
    assert Numerator(cfg, span) == cfg.encQ1 * span;
    RoundHalfAwayExact(cfg.encQ1, span);
  }

  /** The level moves in the direction from `Q0` to `Q1` as the index grows:
      never down when `Q0 <= Q1`, never up when `Q1 <= Q0`. */
  lemma QLevelMonotone(cfg: Config, i: int, j: int)
    requires cfg.Valid() && i <= j
    ensures cfg.encQ0 <= cfg.encQ1 ==> QLevel(cfg, i) <= QLevel(cfg, j)
    ensures cfg.encQ1 <= cfg.encQ0 ==> QLevel(cfg, j) <= QLevel(cfg, i)
  {
    var span := cfg.numRedundancyFrames - 2;
    NumeratorMonotone(cfg, i, j);
    if cfg.encQ0 <= cfg.encQ1 {
      RoundHalfAwayMonotone(Numerator(cfg, i), Numerator(cfg, j), span);
    }
    if cfg.encQ1 <= cfg.encQ0 {
      RoundHalfAwayMonotone(Numerator(cfg, j), Numerator(cfg, i), span);
    }
  }

  /** Over the indices the loop can reach, the level stays between the two
      endpoints. */
  lemma QLevelInRange(cfg: Config, i: int)
    requires cfg.Valid() && 0 <= i <= cfg.numRedundancyFrames - 2
    ensures LowLevel(cfg) <= QLevel(cfg, i) <= HighLevel(cfg)
  {
    QLevelEndpoints(cfg);
    QLevelMonotone(cfg, 0, i);
    QLevelMonotone(cfg, i, cfg.numRedundancyFrames - 2);
  }

  /** With `Q0 = 2`, `Q1 = 6` and eight redundancy frames, the passes at
      indices 0, 2, 4 and 6 use levels 2, 3, 5 and 6 (2 + 4/3 rounds down,
      2 + 8/3 rounds up). */
  lemma QLevelExample(latentDim: int, numFeatures: int)
    requires latentDim > 0 && numFeatures > 0
    ensures var cfg := Config(8, 2, 6, latentDim, numFeatures, 4);
            && QLevel(cfg, 0) == 2
            && QLevel(cfg, 2) == 3
            && QLevel(cfg, 4) == 5
            && QLevel(cfg, 6) == 6
  {
  }

  /** A tie rounds away from zero. With six redundancy frames the loop reaches
      index 2, exactly halfway from `Q0 = 0` to `Q1`: the level is 1 for
      `Q1 = 1` and -1 for `Q1 = -1`. */
  lemma QLevelTieRoundsAway(latentDim: int, numFeatures: int)
    requires latentDim > 0 && numFeatures > 0
    ensures QLevel(Config(6, 0, 1, latentDim, numFeatures, 4), 2) == 1
    ensures QLevel(Config(6, 0, -1, latentDim, numFeatures, 4), 2) == -1
  {
  }
}
