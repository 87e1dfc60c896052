# DRED redundancy decoder — a Dafny model

This project models the deep-redundancy (DRED) decode driver of the Opus
codec, `silk/dred_decoder.c`. A DRED session owns one RDOVAE decoder (the
recurrent network that turns latent vectors into speech feature frames).
`dred_decode_redundancy_package` opens an entropy decoder over a redundancy
package and decodes an initial state, which seeds the RDOVAE decoder. It then
makes one pass per even index `i`. Each pass decodes one latent vector and runs
one RDOVAE step, whose frames go into the caller's feature buffer. The loop
ends at `IMIN(DRED_NUM_REDUNDANCY_FRAMES, (max_fec_frames+1)/2)`, or earlier
once fewer than 8 bits of the package are left. The function returns `2*i`.
`init_dred_decoder` zeroes the session and creates the RDOVAE decoder;
`dred_deinit_decoder` destroys it.

The model is integer bookkeeping around abstract collaborators:

- `c_arith.dfy` (`CArith`): C's truncating division and `round`, written out
  and characterised by their defining inequalities.
- `dred_config.dfy` (`DredConfig`): the unshown compile-time constants as a
  `Config`, plus the loop bound, the number of passes, and the table and
  output offsets.
- `quant_schedule.dfy` (`QuantSchedule`): the quantisation level of each pass.
- `collaborators.dfy` (`Collaborators`): the entropy cursor (`ec_tell` as a bit
  count that decoding calls only advance), the per-level tables, and the state,
  latent and RDOVAE decoders as total functions.
- `feature_buffer.dfy` (`FeatureBuffer`): writing a block into the flat
  feature buffer.
- `dred_decoder.dfy` (`DredDecoder`): the session, init, deinit, and the
  decode method. The method returns the count, the updated buffer, the session
  and a trace of the collaborator calls it made, in order.
- `dred_session.dfy` (`DredSession`): the session life cycle as a protocol over
  a "live" flag.

Where a comment in the source disagrees with the code, the model follows the
code. The comment on line 72 says the frames are stored oldest to newest.
Line 88 writes pass `i` at `2*i*DRED_NUM_FEATURES`, so the output offset grows
with decode order, and that is what is modelled (`PassesWriteAscendingBlocks`).
Line 94 returns `2*i`, four per pass, whatever the RDOVAE step writes. The
frames per step are therefore a parameter, `Config.qframeFrames`, and the model
assumes 1 to 4 of them. `ConsecutiveWritesDisjoint` shows that 4 is the most a
step can emit without overlapping the block of the next pass.

## Model

| member | source | states |
|---|---|---|
| CArith.CDiv | silk/dred_decoder.c:73 | `(max_fec_frames+1)/2` truncates toward zero: the remainder has the sign of the dividend and is smaller than the divisor |
| CArith.CDivTruncatesTowardZero | silk/dred_decoder.c:73 | C's `(-1)/2` is 0, where Euclidean division gives -1, so negative requests are modelled with C's rule |
| CArith.CDivBelowDivisor | silk/dred_decoder.c:73 | a dividend below the divisor, including any negative one, gives a quotient of at most 0 |
| CArith.RoundHalfAway | silk/dred_decoder.c:78 | `round` of a fraction is the integer within one half of it, with a tie going away from zero |
| CArith.RoundHalfAwayUnique | silk/dred_decoder.c:78 | only one integer meets that rounding characterisation |
| CArith.RoundHalfAwayExact | silk/dred_decoder.c:78 | rounding a whole number gives it back |
| CArith.RoundHalfAwayMonotone | silk/dred_decoder.c:78 | rounding preserves the order of the values rounded |
| DredConfig.LoopBound | silk/dred_decoder.c:73 | the loop bound is at most `DRED_NUM_REDUNDANCY_FRAMES`, and for a non-negative request twice the bound is at most `max_fec_frames + 1` |
| DredConfig.MaxPasses | silk/dred_decoder.c:73 | the passes of an uninterrupted loop are the even indices below the bound: none for a non-positive bound, otherwise the bound rounded up to even, divided by 2 |
| DredConfig.NoPassesWithoutRequest | silk/dred_decoder.c:73 | `max_fec_frames <= 0` makes the bound non-positive, so the loop body never runs |
| DredConfig.MaxPassesBounds | silk/dred_decoder.c:73-94 | four frames per pass never exceed `2 * DRED_NUM_REDUNDANCY_FRAMES`, and exceed `max_fec_frames` by at most 3 |
| DredConfig.SingleFrameRequestYieldsFour | silk/dred_decoder.c:73-94 | a request for one frame still allows one pass, which returns 4 |
| DredConfig.FeatureCapacityBound | silk/dred_decoder.c:88-94 | the feature buffer a request needs is never larger than `2 * N` frames |
| DredConfig.TableOffset | silk/dred_decoder.c:79 | a level `q` reads its table block at `q * DRED_LATENT_DIM`, one offset for all three tables |
| DredConfig.TableBlocksDisjoint | silk/dred_decoder.c:79 | the table blocks of two different levels do not overlap |
| DredConfig.OutputOffset | silk/dred_decoder.c:88 | the pass at index `i` writes its frames at `2 * i * DRED_NUM_FEATURES` |
| DredConfig.OutputOffsetAdvances | silk/dred_decoder.c:88 | the next pass writes exactly `4 * DRED_NUM_FEATURES` floats further on |
| DredConfig.OutputOffsetMonotone | silk/dred_decoder.c:88 | output offsets strictly increase with the loop index |
| DredConfig.OutputOffsetInRange | silk/dred_decoder.c:73-88 | every reachable index writes a four-frame block that ends within `2 * N * DRED_NUM_FEATURES` |
| DredConfig.ConsecutiveWritesDisjoint | silk/dred_decoder.c:88-92 | a step's block stays clear of the next pass's block if and only if the step emits at most four frames |
| QuantSchedule.QLevel | silk/dred_decoder.c:78 | the level at index `i` is `round((Q0*(N-2) + (Q1-Q0)*i) / (N-2))`, computed on exact rationals with ties away from zero |
| QuantSchedule.QLevelEndpoints | silk/dred_decoder.c:78 | the level is `DRED_ENC_Q0` at index 0 and `DRED_ENC_Q1` at index `N - 2` |
| QuantSchedule.QLevelMonotone | silk/dred_decoder.c:78 | as the index grows, the level never moves away from `Q1`: it never falls when `Q0 <= Q1` and never rises when `Q1 <= Q0` |
| QuantSchedule.QLevelInRange | silk/dred_decoder.c:73-78 | at every index the loop can reach, the level lies between `min(Q0, Q1)` and `max(Q0, Q1)` |
| QuantSchedule.QLevelExample | silk/dred_decoder.c:78 | with `Q0 = 2`, `Q1 = 6` and `N = 8`, indices 0, 2, 4, 6 use levels 2, 3, 5, 6 |
| QuantSchedule.QLevelTieRoundsAway | silk/dred_decoder.c:73-78 | example: with `N = 6` the loop reaches index 2, exactly halfway between the endpoints; for `Q0 = 0` the level there is 1 when `Q1 = 1` and -1 when `Q1 = -1`, a tie going away from zero in both directions |
| Collaborators.Budget | silk/dred_decoder.c:76 | the bits left are `8*num_bytes - ec_tell(&ec)`, negative once the decoder has read past the end |
| Collaborators.Advance | silk/dred_decoder.c:76-86 | a decoding call never moves `ec_tell` backwards, and it lowers the remaining budget by exactly the bits it read |
| Collaborators.Open | silk/dred_decoder.c:68 | `ec_dec_init` opens the cursor over exactly the package bytes |
| Collaborators.TableBlockInRange | silk/dred_decoder.c:79-85 | every level of the schedule selects a whole block inside each of the three tables |
| Collaborators.TableBlock | silk/dred_decoder.c:79-85 | the `quant_scales`, `r` and `p0` blocks passed to `dred_decode_latents` all start at the same offset, `q_level * DRED_LATENT_DIM` |
| FeatureBuffer.Splice | silk/dred_decoder.c:88-92 | a written block can be read back at its offset, and every other entry is unchanged |
| DredDecoder.InitDredDecoder | silk/dred_decoder.c:39-43 | init leaves the session with a live, newly created RDOVAE decoder |
| DredDecoder.DeinitDredDecoder | silk/dred_decoder.c:45-48 | deinit leaves the decoder destroyed, not live |
| DredDecoder.DecodeRedundancyPackage | silk/dred_decoder.c:50-95 | the state is decoded first and once. The result is 4 per latent vector decoded, a multiple of 4, at most `2 * N`, and 0 with the buffer unchanged when `max_fec_frames <= 0`. Fewer passes than the bound allows happen only when the last cursor has at most 7 bits left. Every pass follows its predecessor, and each pass's frames are readable at its offset, with nothing else changed |
| DredDecoder.DecodePass | silk/dred_decoder.c:76-92 | one loop pass with at least 8 bits left: the schedule's level picks the table block, the latents are decoded at the current cursor, the RDOVAE step runs on them, and its frames are written at the pass's offset. The trace grows by exactly this pass, the calls stay in order, and every block written so far stays readable with nothing else changed |
| DredDecoder.ProgressStart | silk/dred_decoder.c:67-70 | before the loop only the state has been decoded, and the feature buffer is untouched |
| DredDecoder.Conclude | silk/dred_decoder.c:73-94 | when the loop stops, at the bound or for lack of bits, `2*i` is 4 per pass, within the bound, and short of it only when at most 7 bits are left |
| DredDecoder.TellNonDecreasing | silk/dred_decoder.c:68-86 | along the calls of one decode, `ec_tell` never decreases |
| DredDecoder.PassesStartWithBudget | silk/dred_decoder.c:73-77 | pass `k` runs at index `2*(k-1)`, the cursor stays on the package, and every pass started with `8*num_bytes - ec_tell >= 8` |
| DredDecoder.PassesWriteAscendingBlocks | silk/dred_decoder.c:88-92 | each pass writes exactly four frames after the previous one, and every block ends within `2 * N` frames |
| DredDecoder.PassPlacement | silk/dred_decoder.c:73-88 | pass `k` runs at index `2*(k-1)`, at most `N - 2`, and writes at that index's offset |
| DredDecoder.ScheduledPass | silk/dred_decoder.c:78 | pass `k` uses the level the schedule gives index `2*(k-1)` |
| DredDecoder.PassesFollowSchedule | silk/dred_decoder.c:78-85 | the first pass uses `Q0`. Each level stays between the endpoints and selects its own table block, and the levels move monotonically towards `Q1` |
| DredDecoder.WriteFits | silk/dred_decoder.c:88-92 | a step's block at a reachable index fits the buffer sized for the request |
| DredDecoder.WrittenAppend | silk/dred_decoder.c:88-92 | after a new pass, the written entries are the earlier ones plus exactly the new block |
| DredDecoder.NothingWrittenWithoutPasses | silk/dred_decoder.c:68-94 | a decode that makes no pass returns the feature buffer unchanged |
| DredSession.Step | silk/dred_decoder.c:39-48 | init always gives a live decoder; a decode keeps a live decoder with its new hidden state; deinit destroys a live decoder; a decode or deinit without a live decoder is undefined |
| DredSession.Run | silk/dred_decoder.c:39-48 | a sequence of session calls takes effect one call at a time, and is undefined from the first undefined call on |
| DredSession.RunDefinedIffProtocol | silk/dred_decoder.c:39-48 | a sequence of session calls is defined if and only if every decode and deinit finds a live decoder. Liveness is then exactly the flag that init sets and deinit clears |
| DredSession.AcceptsUnfold | silk/dred_decoder.c:39-48 | the protocol holds exactly when the first call is allowed and the rest follow from the flag it leaves |
| DredSession.DecodeAfterDeinitUndefined | silk/dred_decoder.c:39-48 | a decode right after deinit is undefined, but it is defined again after a new init |
| DredSession.InitForgetsPreviousSession | silk/dred_decoder.c:39-43 | init gives the same session whatever the session held before, because zeroing comes first |

## Left out

- dnn/nnet.h and dnn/torch/osce/utils/layers/td_shaper.py: the first declares layer structures and kernel prototypes without their bodies. The second is floating-point training code. Neither is part of the decode driver.
- The entropy coder (`celt/entdec.h`), `dred_decode_state`, `dred_decode_latents` and the RDOVAE network are not part of this model. They are total functions in `Collaborators`. Decoding calls report the bits they read, so `ec_tell` is non-decreasing by construction. The bit count `ec_tell` reports right after `ec_dec_init` is a parameter.
- The contents of the state, latent and feature vectors: their entries are abstract reals. Only their lengths and where they are written are modelled.
- `memset`, allocation and freeing inside create and destroy: the session's decoder pointer is `Unset`, `Live(hidden)` or `Destroyed`.
- DredDecoder.DeinitDredDecoder: requires a live decoder. What C does when destroying a null or freed pointer is not modelled.
- `init_dred_decoder` on a session that still holds a live decoder zeroes the pointer without destroying the old decoder (lines 41-42), so that decoder leaks. The model treats init as always defined and does not track the leaked decoder.
- The length of the state `dred_decode_state` writes (`DRED_STATE_DIM`, line 61) is not constrained. The state only flows into `DRED_rdovae_dec_init_states`.
- DredDecoder.DecodeRedundancyPackage: `DRED_rdovae_dec_init_states` (line 70) is modelled as `initStates`, a function of the decoded state alone. The model therefore assumes that it replaces the decoder's whole hidden state, so whatever the decoder held before the call has no effect.
- DredDecoder.DecodeRedundancyPackage: requires `Covers`. This assumes `DRED_ENC_Q0` and `DRED_ENC_Q1` are non-negative, and that each of `quant_scales`, `r` and `p0` holds a whole block for the larger of the two levels. The source checks neither (lines 52-54, 79-85); the tables come from the RDOVAE model, which is outside this model.
- The constants `DRED_NUM_REDUNDANCY_FRAMES`, `DRED_ENC_Q0`, `DRED_ENC_Q1`, `DRED_LATENT_DIM` and `DRED_NUM_FEATURES` are defined in headers outside this model, so they are fields of `Config`. `Config.Valid` imposes the asserted evenness of the frame count. It also imposes `N > 2`, because the schedule divides by `N - 2`.
- QuantSchedule.QLevel: computes the level with exact rational arithmetic and rounds half away from zero. The source computes in single precision. For small constants the quotient is never close enough to a half for float error to change the result, but that is not proved.
- DredDecoder.DecodeRedundancyPackage: assumes each RDOVAE step emits `Config.qframeFrames` frames, between 1 and 4. The source does not show the step, and with more frames consecutive blocks would overlap.
- DredDecoder.DecodeRedundancyPackage: the package is a byte sequence whose length is `num_bytes`. A negative `num_bytes`, or one that differs from the buffer, is not modelled.
- 32-bit `int` overflow is not modelled, for example in `8*num_bytes`, `max_fec_frames+1` or `2*i*DRED_NUM_FEATURES`. The model uses unbounded integers.
- `celt_assert` on line 65 is not a run-time check here: it is part of `Config.Valid`.
