/** The compile-time constants of the redundancy decoder and the integer
    bookkeeping derived from them: how far the decode loop may run, where each
    pass reads its per-level tables and where it writes its feature frames.

    The constants `DRED_NUM_REDUNDANCY_FRAMES`, `DRED_ENC_Q0`, `DRED_ENC_Q1`,
    `DRED_LATENT_DIM` and `DRED_NUM_FEATURES` are defined in headers outside
    this model, so they are fields of `Config` rather than numbers.
 */
module DredConfig {
  import opened CArith

  datatype Config = Config(
    numRedundancyFrames: int,  // DRED_NUM_REDUNDANCY_FRAMES
    encQ0: int,                // DRED_ENC_Q0, quantisation level of the first pass
    encQ1: int,                // DRED_ENC_Q1, quantisation level at index N - 2
    latentDim: int,            // DRED_LATENT_DIM, entries per table block and per latent vector
    numFeatures: int,          // DRED_NUM_FEATURES, floats per feature frame
    qframeFrames: int          // feature frames one RDOVAE step emits (assumed, at most 4)
  )
  {
    /** The configurations the decoder is built for. The evenness of the frame
        count is asserted by the decoder itself; it must exceed 2 because the
        quantisation schedule divides by `N - 2`. The RDOVAE step is assumed to
        emit between one and four frames, the spacing of the output offsets. */
    predicate Valid()
    {
      && numRedundancyFrames % 2 == 0
      && numRedundancyFrames > 2
      && latentDim > 0
      && numFeatures > 0
      && 1 <= qframeFrames <= 4
    }
  }

  /** The exclusive upper bound of the loop index:
      `IMIN(DRED_NUM_REDUNDANCY_FRAMES, (max_fec_frames+1)/2)` in C arithmetic. */
  function LoopBound(cfg: Config, maxFecFrames: int): (b: int)
    ensures b <= cfg.numRedundancyFrames
    ensures maxFecFrames >= 0 ==> 2 * b <= maxFecFrames + 1
  {
    IMin(cfg.numRedundancyFrames, CDiv(maxFecFrames + 1, 2))
  }

  /** An even index below a bound of at most `N` is at most `N - 2`, the last
      index of the schedule, because `N` is even. */
  lemma EvenIndexBelow(cfg: Config, i: int, bound: int)
    requires cfg.Valid() && bound <= cfg.numRedundancyFrames
    requires 0 <= i < bound && i % 2 == 0
    ensures i <= cfg.numRedundancyFrames - 2
  {
  }

  /** The number of passes the loop makes when the bit budget never runs out:
      the number of even indices below the bound. */
  function MaxPasses(cfg: Config, maxFecFrames: int): (n: nat)
    ensures LoopBound(cfg, maxFecFrames) <= 0 ==> n == 0
    ensures LoopBound(cfg, maxFecFrames) > 0 ==>
              2 * (n - 1) < LoopBound(cfg, maxFecFrames) <= 2 * n
  {
    var b := LoopBound(cfg, maxFecFrames);
    if b <= 0 then 0 else (b + 1) / 2
  }

  /** A request for no frames, or a negative one, makes no pass at all. */
  lemma NoPassesWithoutRequest(cfg: Config, maxFecFrames: int)
    requires maxFecFrames <= 0
    ensures LoopBound(cfg, maxFecFrames) <= 0
    ensures MaxPasses(cfg, maxFecFrames) == 0
  {
    CDivBelowDivisor(maxFecFrames + 1, 2);
  }

  /** Four frames per pass never exceed the `2 * N` frames the redundancy
      covers, and exceed the request by at most three. */
  lemma MaxPassesBounds(cfg: Config, maxFecFrames: int)
    requires cfg.Valid()
    ensures 4 * MaxPasses(cfg, maxFecFrames) <= 2 * cfg.numRedundancyFrames
    ensures 4 * MaxPasses(cfg, maxFecFrames) <= Max(0, maxFecFrames + 3)
  {
    if maxFecFrames <= 0 {
      NoPassesWithoutRequest(cfg, maxFecFrames);
    }
  }

  /** The bound is reached exactly: a request for a single frame still yields
      one whole pass of four frames. */
  lemma SingleFrameRequestYieldsFour(cfg: Config)
    requires cfg.Valid()
    ensures LoopBound(cfg, 1) == 1
    ensures 4 * MaxPasses(cfg, 1) == 4
  {
  }

  /** The floats the caller's feature buffer must hold: four frames of
      `DRED_NUM_FEATURES` floats for every pass the loop may make. */
  function FeatureCapacity(cfg: Config, maxFecFrames: int): int
  {
    4 * MaxPasses(cfg, maxFecFrames) * cfg.numFeatures
  }

  /** No request needs more than the `2 * N` frames the redundancy covers. */
  lemma FeatureCapacityBound(cfg: Config, maxFecFrames: int)
    requires cfg.Valid()
    ensures 0 <= FeatureCapacity(cfg, maxFecFrames)
    ensures FeatureCapacity(cfg, maxFecFrames) <= 2 * cfg.numRedundancyFrames * cfg.numFeatures
  {
    MaxPassesBounds(cfg, maxFecFrames);
    MulMonotone(0, 4 * MaxPasses(cfg, maxFecFrames), cfg.numFeatures);
    MulMonotone(4 * MaxPasses(cfg, maxFecFrames), 2 * cfg.numRedundancyFrames, cfg.numFeatures);
  }

  /** `q_level * DRED_LATENT_DIM`: where the tables of a level begin. */
  function TableOffset(cfg: Config, level: int): int
  {
    level * cfg.latentDim
  }

  /** Distinct levels select non-overlapping table blocks. */
  lemma TableBlocksDisjoint(cfg: Config, q1: int, q2: int)
    requires cfg.Valid() && q1 < q2
    ensures TableOffset(cfg, q1) + cfg.latentDim <= TableOffset(cfg, q2)
  {
    MulMonotone(q1 + 1, q2, cfg.latentDim);
  }

  /** `2 * i * DRED_NUM_FEATURES`: where the pass at index `i` writes. */
  function OutputOffset(cfg: Config, i: int): int
  {
    2 * i * cfg.numFeatures
  }

  /** Consecutive passes write four frames further on. */
  lemma OutputOffsetAdvances(cfg: Config, i: int)
    requires cfg.Valid()
    ensures OutputOffset(cfg, i + 2) == OutputOffset(cfg, i) + 4 * cfg.numFeatures
    ensures OutputOffset(cfg, i) < OutputOffset(cfg, i + 2)
  {
  }

  /** Offsets increase strictly with the index. */
  lemma OutputOffsetMonotone(cfg: Config, i: int, j: int)
    requires cfg.Valid() && i < j
    ensures OutputOffset(cfg, i) < OutputOffset(cfg, j)
  {
    MulMonotone(2 * i + 1, 2 * j, cfg.numFeatures);
  }

  /** Every index the loop can reach writes a four-frame block that ends within
      the first `2 * N` frames of the output. */
  lemma OutputOffsetInRange(cfg: Config, i: int)
    requires cfg.Valid() && 0 <= i <= cfg.numRedundancyFrames - 2
    ensures 0 <= OutputOffset(cfg, i)
    ensures OutputOffset(cfg, i) + 4 * cfg.numFeatures <= 2 * cfg.numRedundancyFrames * cfg.numFeatures
  {
    MulMonotone(0, 2 * i, cfg.numFeatures);
    MulMonotone(2 * i + 4, 2 * cfg.numRedundancyFrames, cfg.numFeatures);
  }

  /** A step emitting `frames` frames at index `i` stays clear of the step at
      `i + 2` exactly when it emits at most four frames. */
  lemma ConsecutiveWritesDisjoint(cfg: Config, i: int, frames: int)
    requires cfg.Valid()
    ensures OutputOffset(cfg, i) + frames * cfg.numFeatures <= OutputOffset(cfg, i + 2)
            <==> frames <= 4
  {
    OutputOffsetAdvances(cfg, i);
    if frames <= 4 {
      MulMonotone(frames, 4, cfg.numFeatures);
    } else {
      MulMonotone(5, frames, cfg.numFeatures);
    }
  }
}
