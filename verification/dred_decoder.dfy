/** The redundancy (DRED) decode driver: a session that owns one RDOVAE
    decoder, and the function that decodes a redundancy package into feature
    frames by alternating the entropy decoder and the RDOVAE decoder.
 */
module DredDecoder {
  import opened CArith
  import opened DredConfig
  import opened QuantSchedule
  import opened Collaborators
  import opened FeatureBuffer

  /** The `rdovae_dec` pointer of a session: null after the session is
      zeroed, a live decoder with its hidden state, or a destroyed one. */
  datatype Rdovae = Unset | Live(hidden: Vector) | Destroyed

  /** `DREDDec`: the decode session. */
  datatype DredDec = DredDec(rdovae: Rdovae)

  /** One call the decode function makes to its collaborators, with the
      entropy cursor and RDOVAE hidden state it leaves behind. */
  datatype Event =
    | StateDecoded(state: Vector, ec: Cursor, hidden: Vector)
    | LatentsDecoded(i: int, level: int, tableOffset: int, latents: Vector,
                     ec: Cursor, outOffset: int, frames: Vector, hidden: Vector)

  /** The first event of a decode: `ec_dec_init` over the package,
      `dred_decode_state` from that cursor, then `DRED_rdovae_dec_init_states`
      on the decoded state. */
  ghost predicate StartsFromState(co: Collaborators, bytes: seq<byte>, e: Event)
  {
    var ec0 := Open(co, bytes);
    && e.StateDecoded?
    && e.state == co.decodeState(ec0).1
    && e.ec == Advance(ec0, co.decodeState(ec0).0)
    && e.hidden == co.initStates(e.state)
  }

  /** Event `e` is pass number `n` of the loop, following event `prev`: the
      budget check passed at the cursor `prev` left; the level selects its
      block of all three tables, from which the latents were decoded at that
      cursor; the RDOVAE step ran from `prev`'s hidden state on those latents;
      its frames go to the pass's output offset. Which level the pass uses is
      stated apart, by `OnSchedule`. */
  ghost predicate PassFollows(cfg: Config, t: Tables, co: Collaborators, prev: Event, e: Event, n: int)
    requires Covers(cfg, t)
  {
    && e.LatentsDecoded?
    && e.i == 2 * n
    && Budget(prev.ec) >= 8
    && LowLevel(cfg) <= e.level <= HighLevel(cfg)
    && e.tableOffset == TableOffset(cfg, e.level)
    && var decoded := co.decodeLatents(prev.ec, TableBlock(cfg, t, e.level));
    && e.latents == decoded.1
    && e.ec == Advance(prev.ec, decoded.0)
    && e.outOffset == OutputOffset(cfg, e.i)
    && (e.hidden, e.frames) == co.decodeQframe(prev.hidden, e.latents)
  }

  /** The pass `e` uses the level the schedule gives its index. */
  ghost predicate OnSchedule(cfg: Config, e: Event)
    requires cfg.Valid()
  {
    e.LatentsDecoded? && e.level == QLevel(cfg, e.i)
  }

  /** Entry `j` of the output lies in the block some pass of `trace` wrote. */
  ghost predicate Written(trace: seq<Event>, j: int)
  {
    exists k :: 1 <= k < |trace| && trace[k].LatentsDecoded? &&
      trace[k].outOffset <= j < trace[k].outOffset + |trace[k].frames|
  }

  /** `init_dred_decoder`: the session is zeroed, which leaves no decoder,
      and then given a newly created RDOVAE decoder. Whatever the session
      held before is not consulted. */
  function InitDredDecoder(dec: DredDec, co: Collaborators): (r: DredDec)
    ensures r.rdovae.Live?
    ensures r.rdovae.hidden == co.createdHidden
  {
    var zeroed := DredDec(Unset);
    zeroed.(rdovae := Live(co.createdHidden))
  }

  /** `dred_deinit_decoder`: destroys the session's decoder and nothing else.
      What destroying a decoder that was never created or is already
      destroyed does is not modelled, so the session must hold a live one. */
  function DeinitDredDecoder(dec: DredDec): (r: DredDec)
    requires dec.rdovae.Live?
    ensures r.rdovae.Destroyed?
    ensures !r.rdovae.Live?
  {
    dec.(rdovae := Destroyed)
  }

  /** `dred_decode_redundancy_package`: decodes the initial state, then one
      latent vector and one RDOVAE step per even index `i` below
      `IMIN(N, (max_fec_frames+1)/2)` while at least 8 bits remain, and
      returns `2 * i`. Besides the count, the updated feature buffer and the
      session, it returns the trace of collaborator calls it made. */
  method DecodeRedundancyPackage(dec: DredDec, cfg: Config, tables: Tables, co: Collaborators,
                                 features: seq<Sample>, bytes: seq<byte>, maxFecFrames: int)
    returns (count: int, featuresOut: seq<Sample>, decOut: DredDec, trace: seq<Event>)
    requires Covers(cfg, tables) && WellFormed(cfg, co)
    requires dec.rdovae.Live?
    requires |features| >= FeatureCapacity(cfg, maxFecFrames)
    // the returned count: four frames per latent vector decoded
    ensures |trace| >= 1
    ensures count == 4 * (|trace| - 1)
    ensures count % 4 == 0
    ensures 0 <= count <= 4 * MaxPasses(cfg, maxFecFrames) <= 2 * cfg.numRedundancyFrames
    ensures maxFecFrames <= 0 ==> count == 0 && |trace| == 1 && featuresOut == features
    // running out of bits is the only way to return fewer passes than the bound allows
    ensures count < 4 * MaxPasses(cfg, maxFecFrames) ==> Budget(trace[|trace| - 1].ec) <= 7
    // the state first and once, then the passes in index order; their frames in place
    ensures CallsInOrder(cfg, tables, co, bytes, LoopBound(cfg, maxFecFrames), trace)
    ensures Layout(features, featuresOut, trace)
    // the session keeps its decoder, advanced to the last hidden state
    ensures decOut == DredDec(Live(trace[|trace| - 1].hidden))
  {
    var ec := Open(co, bytes);
    var (stateBits, state) := co.decodeState(ec);
    ec := Advance(ec, stateBits);
    var hidden := co.initStates(state);
    trace := [StateDecoded(state, ec, hidden)];
    featuresOut := features;

    var bound := LoopBound(cfg, maxFecFrames);
    var outOfBits := false;
    var i := 0;
    ProgressStart(cfg, tables, co, bytes, bound, features, trace);
    while i < bound
      invariant 0 <= i <= 2 * MaxPasses(cfg, maxFecFrames)
      invariant Progress(cfg, tables, co, bytes, bound, features, featuresOut, trace, i)
      invariant trace[|trace| - 1].ec == ec && trace[|trace| - 1].hidden == hidden
    {
      if 8 * |bytes| - ec.tell <= 7 {
        outOfBits := true;
        break;
      }
      var e;
      e, featuresOut := DecodePass(cfg, tables, co, bytes, maxFecFrames, features, featuresOut, trace, i);
      trace := trace + [e];
      ec, hidden := e.ec, e.hidden;
      i := i + 2;
    }
    count := 2 * i;
    decOut := dec.(rdovae := Live(hidden));
    Conclude(cfg, tables, co, bytes, maxFecFrames, features, featuresOut, trace, i);
  }

  /** The body of the loop at index `i`, following the last event of `trace`:
      the level of the schedule, `dred_decode_latents` from the current cursor
      with that level's block of the three tables, then one RDOVAE step from
      the current hidden state, whose frames are written at the output offset
      of `i`. The loop state moves on to index `i + 2`. */
  method DecodePass(cfg: Config, tables: Tables, co: Collaborators, bytes: seq<byte>, maxFecFrames: int,
                    features: seq<Sample>, out: seq<Sample>, trace: seq<Event>, i: int)
    returns (e: Event, out': seq<Sample>)
    requires Covers(cfg, tables) && WellFormed(cfg, co)
    requires |features| >= FeatureCapacity(cfg, maxFecFrames)
    requires Progress(cfg, tables, co, bytes, LoopBound(cfg, maxFecFrames), features, out, trace, i)
    requires i < LoopBound(cfg, maxFecFrames)
    requires 8 * |bytes| - trace[|trace| - 1].ec.tell >= 8
    ensures Progress(cfg, tables, co, bytes, LoopBound(cfg, maxFecFrames), features, out', trace + [e], i + 2)
  {
    var bound := LoopBound(cfg, maxFecFrames);
    EvenIndexBelow(cfg, i, bound);
    var prev := trace[|trace| - 1];
    var level := QLevel(cfg, i);
    QLevelInRange(cfg, i);
    var tableOffset := TableOffset(cfg, level);
    var (latentBits, latents) := co.decodeLatents(prev.ec, TableBlock(cfg, tables, level));
    var ec := Advance(prev.ec, latentBits);
    var offset := OutputOffset(cfg, i);
    var (hidden, frames) := co.decodeQframe(prev.hidden, latents);
    e := LatentsDecoded(i, level, tableOffset, latents, ec, offset, frames, hidden);
    WriteFits(cfg, maxFecFrames, i, |frames|);
    PassFollowsIntro(cfg, tables, co, prev, e, |trace| - 1, latentBits);
    ExtendCalls(cfg, tables, co, bytes, bound, trace, e);
    ExtendLayout(features, out, trace, e);
    out' := Splice(out, offset, frames);
  }

  /** The state of the loop before index `i`: one event per pass made so far,
      in order, on the package's cursor, with their frames in place and
      nothing written at or above the offset of index `i`. */
  ghost predicate Progress(cfg: Config, t: Tables, co: Collaborators, bytes: seq<byte>, bound: int,
                           features: seq<Sample>, out: seq<Sample>, trace: seq<Event>, i: int)
    requires Covers(cfg, t)
  {
    && 0 <= i && i % 2 == 0
    && |trace| == 1 + i / 2
    && trace[|trace| - 1].ec.bytes == bytes
    && CallsInOrder(cfg, t, co, bytes, bound, trace)
    && Layout(features, out, trace)
    && WrittenBelow(trace, OutputOffset(cfg, i))
  }

  /** Before the loop, the trace holds only the decoded state and nothing has
      been written. */
  lemma ProgressStart(cfg: Config, t: Tables, co: Collaborators, bytes: seq<byte>, bound: int,
                      features: seq<Sample>, trace: seq<Event>)
    requires Covers(cfg, t)
    requires |trace| == 1 && StartsFromState(co, bytes, trace[0])
    ensures Progress(cfg, t, co, bytes, bound, features, features, trace, 0)
  {
    assert forall j :: 0 <= j < |features| ==> !Written(trace, j);
  }

  /** The event a loop pass records follows the previous event. */
  lemma PassFollowsIntro(cfg: Config, t: Tables, co: Collaborators, prev: Event, e: Event, n: int, bits: nat)
    requires Covers(cfg, t)
    requires e.LatentsDecoded? && e.i == 2 * n
    requires Budget(prev.ec) >= 8
    requires e.tableOffset == TableOffset(cfg, e.level)
    requires LowLevel(cfg) <= e.level <= HighLevel(cfg)
    requires (bits, e.latents) == co.decodeLatents(prev.ec, TableBlock(cfg, t, e.level))
    requires e.ec == Advance(prev.ec, bits)
    requires e.outOffset == OutputOffset(cfg, e.i)
    requires (e.hidden, e.frames) == co.decodeQframe(prev.hidden, e.latents)
    ensures PassFollows(cfg, t, co, prev, e, n)
  {
  }

  /** When the loop stops, either at the bound or for lack of bits, the
      decode's result follows from the loop state. */
  lemma Conclude(cfg: Config, t: Tables, co: Collaborators, bytes: seq<byte>, maxFecFrames: int,
                 features: seq<Sample>, out: seq<Sample>, trace: seq<Event>, i: int)
    requires Covers(cfg, t)
    requires Progress(cfg, t, co, bytes, LoopBound(cfg, maxFecFrames), features, out, trace, i)
    requires 0 <= i <= 2 * MaxPasses(cfg, maxFecFrames)
    requires i >= LoopBound(cfg, maxFecFrames) || Budget(trace[|trace| - 1].ec) <= 7
    ensures |trace| >= 1
    ensures 2 * i == 4 * (|trace| - 1)
    ensures (2 * i) % 4 == 0
    ensures 0 <= 2 * i <= 4 * MaxPasses(cfg, maxFecFrames) <= 2 * cfg.numRedundancyFrames
    ensures maxFecFrames <= 0 ==> 2 * i == 0 && |trace| == 1 && out == features
    ensures 2 * i < 4 * MaxPasses(cfg, maxFecFrames) ==> Budget(trace[|trace| - 1].ec) <= 7
    ensures CallsInOrder(cfg, t, co, bytes, LoopBound(cfg, maxFecFrames), trace)
    ensures Layout(features, out, trace)
  {
    MaxPassesBounds(cfg, maxFecFrames);
    if maxFecFrames <= 0 {
      NoPassesWithoutRequest(cfg, maxFecFrames);
      NothingWrittenWithoutPasses(features, out, trace);
    }
  }

  /** The calls recorded in `trace` were made in the order the decoder makes
      them: the state first, then passes 0, 1, ... at indices below `bound`,
      each following its predecessor and using the schedule's level. The
      schedule is only unfolded where a proof names `OnSchedule`, which keeps
      the rounding arithmetic out of the other proofs. */
  ghost predicate CallsInOrder(cfg: Config, t: Tables, co: Collaborators, bytes: seq<byte>,
                               bound: int, trace: seq<Event>)
    requires Covers(cfg, t)
  {
    && |trace| >= 1
    && StartsFromState(co, bytes, trace[0])
    && (forall k :: 1 <= k < |trace| ==> trace[k].LatentsDecoded? && trace[k].i < bound)
    && (forall k :: 1 <= k < |trace| ==> PassFollows(cfg, t, co, trace[k - 1], trace[k], k - 1))
    && (forall k {:trigger OnSchedule(cfg, trace[k])} :: 1 <= k < |trace| ==> OnSchedule(cfg, trace[k]))
  }

  /** `out` is `features` with the frames of every pass of `trace` written at
      that pass's offset, and nothing else changed. */
  ghost predicate Layout(features: seq<Sample>, out: seq<Sample>, trace: seq<Event>)
  {
    && |out| == |features|
    && (forall k :: 1 <= k < |trace| ==>
          && trace[k].LatentsDecoded?
          && 0 <= trace[k].outOffset
          && trace[k].outOffset + |trace[k].frames| <= |features|
          && out[trace[k].outOffset .. trace[k].outOffset + |trace[k].frames|] == trace[k].frames)
    && (forall j :: 0 <= j < |features| && !Written(trace, j) ==> out[j] == features[j])
  }

  /** Every pass of `trace` wrote below `limit`. */
  ghost predicate WrittenBelow(trace: seq<Event>, limit: int)
  {
    forall k :: 1 <= k < |trace| && trace[k].LatentsDecoded? ==> trace[k].outOffset + |trace[k].frames| <= limit
  }

  /** A pass that follows the last event keeps the calls in order. */
  lemma ExtendCalls(cfg: Config, t: Tables, co: Collaborators, bytes: seq<byte>,
                    bound: int, trace: seq<Event>, e: Event)
    requires Covers(cfg, t)
    requires CallsInOrder(cfg, t, co, bytes, bound, trace)
    requires PassFollows(cfg, t, co, trace[|trace| - 1], e, |trace| - 1) && e.i < bound
    requires OnSchedule(cfg, e)
    ensures CallsInOrder(cfg, t, co, bytes, bound, trace + [e])
  {
    var t' := trace + [e];
    forall k | 1 <= k < |t'|
      ensures PassFollows(cfg, t, co, t'[k - 1], t'[k], k - 1)
      ensures OnSchedule(cfg, t'[k])
    {
      if k < |trace| {
        assert t'[k - 1] == trace[k - 1] && t'[k] == trace[k];
        assert OnSchedule(cfg, trace[k]);
      }
    }
  }

  /** Along a trace of calls made in order, `ec_tell` never decreases: each
      decoding call only moves the entropy cursor forward. */
  lemma {:induction false} TellNonDecreasing(cfg: Config, t: Tables, co: Collaborators, bytes: seq<byte>,
                                             bound: int, trace: seq<Event>)
    requires Covers(cfg, t)
    requires CallsInOrder(cfg, t, co, bytes, bound, trace)
    ensures forall k, l :: 0 <= k <= l < |trace| ==> trace[k].ec.tell <= trace[l].ec.tell
  {
    if |trace| > 1 {
      var front := trace[..|trace| - 1];
      assert forall k :: 0 <= k < |front| ==> front[k] == trace[k];
      TellNonDecreasing(cfg, t, co, bytes, bound, front);
      var last := |trace| - 1;
      assert PassFollows(cfg, t, co, trace[last - 1], trace[last], last - 1);
      forall k, l | 0 <= k <= l < |trace|
        ensures trace[k].ec.tell <= trace[l].ec.tell
      {
        if l == last && k < l {
          assert front[k] == trace[k] && front[l - 1] == trace[l - 1];
        } else if l < last {
          assert front[k] == trace[k] && front[l] == trace[l];
        }
      }
    }
  }

  /** Pass `k` of an ordered trace runs at the even index `2 * (k - 1)`, and
      every event but the last left `8*num_bytes - ec_tell(&ec)` at 8 or more:
      a latent vector is only decoded when the budget allows one. */
  lemma {:induction false} PassesStartWithBudget(cfg: Config, t: Tables, co: Collaborators, bytes: seq<byte>,
                                                 bound: int, trace: seq<Event>)
    requires Covers(cfg, t)
    requires CallsInOrder(cfg, t, co, bytes, bound, trace)
    ensures forall k :: 0 <= k < |trace| ==> trace[k].ec.bytes == bytes
    ensures forall k :: 1 <= k < |trace| ==> trace[k].i == 2 * (k - 1)
    ensures forall k :: 0 <= k < |trace| - 1 ==> 8 * |bytes| - trace[k].ec.tell >= 8
  {
    if |trace| > 1 {
      var front := trace[..|trace| - 1];
      assert forall k :: 0 <= k < |front| ==> front[k] == trace[k];
      PassesStartWithBudget(cfg, t, co, bytes, bound, front);
      var last := |trace| - 1;
      assert PassFollows(cfg, t, co, trace[last - 1], trace[last], last - 1);
      assert trace[last - 1] == front[last - 1];
      forall k | 0 <= k < |trace|
        ensures trace[k].ec.bytes == bytes
      {
        if k < last {
          assert trace[k] == front[k];
        }
      }
      forall k | 0 <= k < |trace| - 1
        ensures 8 * |bytes| - trace[k].ec.tell >= 8
        ensures trace[k + 1].i == 2 * k
      {
        assert PassFollows(cfg, t, co, trace[k], trace[k + 1], k);
        assert trace[k] == front[k];
      }
    }
  }

  /** Each pass of an ordered trace writes four frames further on than the
      pass before it, inside the first `2 * N` frames of the output. */
  lemma PassesWriteAscendingBlocks(cfg: Config, t: Tables, co: Collaborators, bytes: seq<byte>,
                                   bound: int, trace: seq<Event>)
    requires Covers(cfg, t) && bound <= cfg.numRedundancyFrames
    requires CallsInOrder(cfg, t, co, bytes, bound, trace)
    ensures forall k :: 2 <= k < |trace| ==>
              trace[k].outOffset == trace[k - 1].outOffset + 4 * cfg.numFeatures
    ensures forall k :: 1 <= k < |trace| ==>
              && 0 <= trace[k].outOffset
              && trace[k].outOffset + 4 * cfg.numFeatures <= 2 * cfg.numRedundancyFrames * cfg.numFeatures
  {
    forall k | 1 <= k < |trace|
      ensures 0 <= trace[k].outOffset
      ensures trace[k].outOffset + 4 * cfg.numFeatures <= 2 * cfg.numRedundancyFrames * cfg.numFeatures
    {
      PassPlacement(cfg, t, co, bytes, bound, trace, k);
      OutputOffsetInRange(cfg, 2 * (k - 1));
    }
    forall k | 2 <= k < |trace|
      ensures trace[k].outOffset == trace[k - 1].outOffset + 4 * cfg.numFeatures
    {
      PassPlacement(cfg, t, co, bytes, bound, trace, k - 1);
      PassPlacement(cfg, t, co, bytes, bound, trace, k);
      OutputOffsetAdvances(cfg, 2 * (k - 2));
    }
  }

  /** Pass `k` of an ordered trace runs at index `2 * (k - 1)`, below the
      bound and inside the schedule, and writes at that index's offset. */
  lemma PassPlacement(cfg: Config, t: Tables, co: Collaborators, bytes: seq<byte>,
                      bound: int, trace: seq<Event>, k: int)
    requires Covers(cfg, t) && bound <= cfg.numRedundancyFrames
    requires CallsInOrder(cfg, t, co, bytes, bound, trace)
    requires 1 <= k < |trace|
    ensures 0 <= 2 * (k - 1) <= cfg.numRedundancyFrames - 2
    ensures trace[k].outOffset == OutputOffset(cfg, 2 * (k - 1))
  {
    assert PassFollows(cfg, t, co, trace[k - 1], trace[k], k - 1);
    EvenIndexBelow(cfg, 2 * (k - 1), bound);
  }

  /** The passes of an ordered trace use the schedule's levels: the first pass
      uses `Q0`, every level lies between the endpoints and selects its own
      table block, and later passes move towards `Q1`. */
  lemma PassesFollowSchedule(cfg: Config, t: Tables, co: Collaborators, bytes: seq<byte>,
                             bound: int, trace: seq<Event>)
    requires Covers(cfg, t)
    requires CallsInOrder(cfg, t, co, bytes, bound, trace)
    ensures |trace| > 1 ==> trace[1].level == cfg.encQ0
    ensures forall k :: 1 <= k < |trace| ==>
              && LowLevel(cfg) <= trace[k].level <= HighLevel(cfg)
              && trace[k].tableOffset == trace[k].level * cfg.latentDim
    ensures cfg.encQ0 <= cfg.encQ1 ==>
              forall k, l :: 1 <= k <= l < |trace| ==> trace[k].level <= trace[l].level
    ensures cfg.encQ1 <= cfg.encQ0 ==>
              forall k, l :: 1 <= k <= l < |trace| ==> trace[l].level <= trace[k].level
  {
    if |trace| > 1 {
      ScheduledPass(cfg, t, co, bytes, bound, trace, 1);
      QLevelEndpoints(cfg);
    }
    forall k | 1 <= k < |trace|
      ensures LowLevel(cfg) <= trace[k].level <= HighLevel(cfg)
      ensures trace[k].tableOffset == trace[k].level * cfg.latentDim
    {
      assert PassFollows(cfg, t, co, trace[k - 1], trace[k], k - 1);
    }
    forall k, l | 1 <= k <= l < |trace|
      ensures cfg.encQ0 <= cfg.encQ1 ==> trace[k].level <= trace[l].level
      ensures cfg.encQ1 <= cfg.encQ0 ==> trace[l].level <= trace[k].level
    {
      ScheduledPass(cfg, t, co, bytes, bound, trace, k);
      ScheduledPass(cfg, t, co, bytes, bound, trace, l);
      QLevelMonotone(cfg, 2 * (k - 1), 2 * (l - 1));
    }
  }

  /** Pass `k` of an ordered trace uses the level of index `2 * (k - 1)`. */
  lemma ScheduledPass(cfg: Config, t: Tables, co: Collaborators, bytes: seq<byte>,
                      bound: int, trace: seq<Event>, k: int)
    requires Covers(cfg, t)
    requires CallsInOrder(cfg, t, co, bytes, bound, trace)
    requires 1 <= k < |trace|
    ensures trace[k].level == QLevel(cfg, 2 * (k - 1))
  {
    assert PassFollows(cfg, t, co, trace[k - 1], trace[k], k - 1);
    assert OnSchedule(cfg, trace[k]);
  }

  /** With only the state decoded, the feature buffer comes back unchanged. */
  lemma NothingWrittenWithoutPasses(features: seq<Sample>, out: seq<Sample>, trace: seq<Event>)
    requires |trace| == 1 && Layout(features, out, trace)
    ensures out == features
  {
    assert forall j :: 0 <= j < |features| ==> !Written(trace, j);
  }

  /** Writing a pass's frames above everything written so far keeps every
      earlier block readable. */
  lemma ExtendLayout(features: seq<Sample>, out: seq<Sample>, trace: seq<Event>, e: Event)
    requires |trace| >= 1 && Layout(features, out, trace)
    requires e.LatentsDecoded? && 0 <= e.outOffset && e.outOffset + |e.frames| <= |features|
    requires WrittenBelow(trace, e.outOffset)
    ensures Layout(features, Splice(out, e.outOffset, e.frames), trace + [e])
    ensures WrittenBelow(trace + [e], e.outOffset + |e.frames|)
  {
    var out' := Splice(out, e.outOffset, e.frames);
    var t' := trace + [e];
    forall k | 1 <= k < |t'|
      ensures out'[t'[k].outOffset .. t'[k].outOffset + |t'[k].frames|] == t'[k].frames
    {
      if k < |trace| {
        assert t'[k] == trace[k];
        assert forall j :: t'[k].outOffset <= j < t'[k].outOffset + |t'[k].frames| ==>
                 j < e.outOffset && out'[j] == out[j];
      }
    }
    forall j | 0 <= j < |features| && !Written(t', j)
      ensures out'[j] == features[j]
    {
      WrittenAppend(trace, e, j);
    }
  }

  /** Appending a pass to a trace adds exactly the entries that pass wrote. */
  lemma WrittenAppend(trace: seq<Event>, e: Event, j: int)
    requires |trace| >= 1 && e.LatentsDecoded?
    ensures Written(trace + [e], j) <==> Written(trace, j) || e.outOffset <= j < e.outOffset + |e.frames|
  {
    var t := trace + [e];
    if Written(trace, j) {
      var k :| 1 <= k < |trace| && trace[k].LatentsDecoded? &&
               trace[k].outOffset <= j < trace[k].outOffset + |trace[k].frames|;
      assert t[k] == trace[k];
    }
    if e.outOffset <= j < e.outOffset + |e.frames| {
      assert t[|t| - 1] == e;
    }
    if Written(t, j) {
      var k :| 1 <= k < |t| && t[k].LatentsDecoded? &&
               t[k].outOffset <= j < t[k].outOffset + |t[k].frames|;
      if k < |trace| {
        assert t[k] == trace[k];
        assert Written(trace, j);
      } else {
        assert t[k] == e;
      }
    }
  }

  /** The pass at index `i` writes `frames` floats at `OutputOffset(cfg, i)`;
      when `frames` is one RDOVAE step's output, the block fits the buffer the
      caller sized for the request and stays within four frames. */
  lemma WriteFits(cfg: Config, maxFecFrames: int, i: int, frames: int)
    requires cfg.Valid()
    requires 0 <= i < LoopBound(cfg, maxFecFrames) && i % 2 == 0
    requires frames == cfg.qframeFrames * cfg.numFeatures
    ensures 0 <= OutputOffset(cfg, i)
    ensures frames <= 4 * cfg.numFeatures
    ensures OutputOffset(cfg, i) + frames <= OutputOffset(cfg, i + 2)
    ensures OutputOffset(cfg, i) + frames <= FeatureCapacity(cfg, maxFecFrames)
  {
    OutputOffsetAdvances(cfg, i);
    var passes := MaxPasses(cfg, maxFecFrames);
    var nf := cfg.numFeatures;
    assert i + 2 <= 2 * passes;
    MulMonotone(0, 2 * i, nf);
    MulMonotone(cfg.qframeFrames, 4, nf);
    MulMonotone(2 * i + 4, 4 * passes, nf);
    assert OutputOffset(cfg, i) + 4 * nf == (2 * i + 4) * nf;
  }
}
