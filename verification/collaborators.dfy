/** The code the redundancy decoder calls but that lies outside this model:
    the entropy decoder (`ec_dec_init`, `ec_tell`), the state and latent
    decoders (`dred_decode_state`, `dred_decode_latents`), the RDOVAE decoder
    (`DRED_rdovae_create_decoder`, `DRED_rdovae_dec_init_states`,
    `DRED_rdovae_decode_qframe`) and the per-level probability and scale
    tables. Each is represented by what the driver can observe of it.
 */
module Collaborators {
  import opened CArith
  import opened DredConfig
  import opened QuantSchedule

  newtype byte = x: int | 0 <= x < 256
  newtype uint16 = x: int | 0 <= x < 0x1_0000

  /** One float of a state, latent or feature vector; only its identity
      matters to the driver, so it is an exact real. */
  type Sample = real
  type Vector = seq<Sample>

  /** The entropy decoder `ec_dec` as the driver sees it: the buffer it reads,
      the bit count `ec_tell` reports, and how many decoding calls it has
      served (so that two calls at the same bit position may differ). */
  datatype Cursor = Cursor(bytes: seq<byte>, tell: nat, calls: nat)

  /** `8*num_bytes - ec_tell(&ec)`: the bits of the buffer not yet consumed.
      Reading past the end is possible, so this can be negative. */
  function Budget(ec: Cursor): int
  {
    8 * |ec.bytes| - ec.tell
  }

  /** The cursor after a decoding call that read `bits` further bits. */
  function Advance(ec: Cursor, bits: nat): (r: Cursor)
    ensures r.bytes == ec.bytes
    ensures r.tell >= ec.tell
    ensures Budget(r) == Budget(ec) - bits
    ensures r.calls == ec.calls + 1
  {
    Cursor(ec.bytes, ec.tell + bits, ec.calls + 1)
  }

  /** The three per-level tables: quantiser scales, probability ranges and
      zero probabilities, each `DRED_LATENT_DIM` entries per level. */
  datatype Tables = Tables(quantScales: seq<uint16>, r: seq<uint16>, p0: seq<uint16>)

  /** The block of each table that one `dred_decode_latents` call reads. */
  datatype LevelTables = LevelTables(quantScales: seq<uint16>, r: seq<uint16>, p0: seq<uint16>)

  /** Every level the schedule can produce has a whole block in each table. */
  predicate Covers(cfg: Config, t: Tables)
  {
    && cfg.Valid()
    && 0 <= LowLevel(cfg)
    && TableOffset(cfg, HighLevel(cfg)) + cfg.latentDim <= |t.quantScales|
    && TableOffset(cfg, HighLevel(cfg)) + cfg.latentDim <= |t.r|
    && TableOffset(cfg, HighLevel(cfg)) + cfg.latentDim <= |t.p0|
  }

  /** The block of a level lies inside all three tables. */
  lemma TableBlockInRange(cfg: Config, t: Tables, level: int)
    requires Covers(cfg, t) && LowLevel(cfg) <= level <= HighLevel(cfg)
    ensures 0 <= TableOffset(cfg, level)
    ensures TableOffset(cfg, level) + cfg.latentDim <= |t.quantScales|
    ensures TableOffset(cfg, level) + cfg.latentDim <= |t.r|
    ensures TableOffset(cfg, level) + cfg.latentDim <= |t.p0|
  {
    MulMonotone(0, level, cfg.latentDim);
    MulMonotone(level, HighLevel(cfg), cfg.latentDim);
  }

  /** The `n` entries of `table` from `off` on. */
  function Window(table: seq<uint16>, off: int, n: int): (w: seq<uint16>)
    requires 0 <= off && 0 <= n && off + n <= |table|
    ensures |w| == n
    ensures forall j :: 0 <= j < n ==> w[j] == table[off + j]
  {
    table[off..off + n]
  }

  /** `quant_scales + offset`, `r + offset` and `p0 + offset` for
      `offset = level * DRED_LATENT_DIM`: entry `j` of every table in the block
      is entry `offset + j` of that table, the same offset for all three. */
  function TableBlock(cfg: Config, t: Tables, level: int): (b: LevelTables)
    requires Covers(cfg, t) && LowLevel(cfg) <= level <= HighLevel(cfg)
    ensures |b.quantScales| == |b.r| == |b.p0| == cfg.latentDim
    ensures 0 <= TableOffset(cfg, level)
    ensures TableOffset(cfg, level) + cfg.latentDim <= |t.quantScales|
    ensures TableOffset(cfg, level) + cfg.latentDim <= |t.r|
    ensures TableOffset(cfg, level) + cfg.latentDim <= |t.p0|
    ensures forall j :: 0 <= j < cfg.latentDim ==>
              && b.quantScales[j] == t.quantScales[TableOffset(cfg, level) + j]
              && b.r[j] == t.r[TableOffset(cfg, level) + j]
              && b.p0[j] == t.p0[TableOffset(cfg, level) + j]
  {
    TableBlockInRange(cfg, t, level);
    var off := TableOffset(cfg, level);
    var n := cfg.latentDim;
    LevelTables(Window(t.quantScales, off, n), Window(t.r, off, n), Window(t.p0, off, n))
  }

  /** The collaborators as total functions. A decoding call reports how many
      bits it consumed, which makes `ec_tell` non-decreasing by construction. */
  datatype Collaborators = Collaborators(
    openTell: seq<byte> -> nat,                              // ec_tell right after ec_dec_init
    decodeState: Cursor -> (nat, Vector),                    // dred_decode_state: bits read, state
    decodeLatents: (Cursor, LevelTables) -> (nat, Vector),   // dred_decode_latents: bits read, latents
    createdHidden: Vector,                                   // hidden state of a new RDOVAE decoder
    initStates: Vector -> Vector,                            // DRED_rdovae_dec_init_states
    decodeQframe: (Vector, Vector) -> (Vector, Vector)       // DRED_rdovae_decode_qframe: (hidden, latents) to (hidden, frames)
  )

  /** The vectors the collaborators return have the fixed lengths of the
      decoder: `DRED_LATENT_DIM` latents, and `qframeFrames` frames of
      `DRED_NUM_FEATURES` floats from each RDOVAE step. */
  ghost predicate WellFormed(cfg: Config, co: Collaborators)
  {
    && (forall ec, b :: |co.decodeLatents(ec, b).1| == cfg.latentDim)
    && (forall h, l :: |co.decodeQframe(h, l).1| == cfg.qframeFrames * cfg.numFeatures)
  }

  /** `ec_dec_init(&ec, bytes, num_bytes)`: a cursor at the start of the buffer. */
  function Open(co: Collaborators, bytes: seq<byte>): (ec: Cursor)
    ensures ec.bytes == bytes && ec.calls == 0
  {
    Cursor(bytes, co.openTell(bytes), 0)
  }
}
