/** The life cycle of a decode session: `init_dred_decoder`, any number of
    decodes, `dred_deinit_decoder`. A decode or a deinit is only defined on a
    session whose RDOVAE decoder is live; init is always defined and may
    start a new life after a deinit.
 */
module DredSession {
  import opened Collaborators
  import opened DredDecoder

  /** A call on a session. `Decode(h)` stands for a decode call that left the
      RDOVAE decoder in hidden state `h`. */
  datatype SessionOp = Init | Decode(hidden: Vector) | Deinit

  datatype Outcome = Defined(session: DredDec) | Undefined

  /** The effect of one call; `Undefined` where the call would use a decoder
      that was never created or is already destroyed, a case not modelled. */
  function Step(d: DredDec, op: SessionOp, co: Collaborators): Outcome
  {
    match op
    case Init => Defined(InitDredDecoder(d, co))
    case Decode(h) => if d.rdovae.Live? then Defined(DredDec(Live(h))) else Undefined
    case Deinit => if d.rdovae.Live? then Defined(DeinitDredDecoder(d)) else Undefined
  }

  /** The calls in order, stopping at the first undefined one. */
  function Run(d: DredDec, ops: seq<SessionOp>, co: Collaborators): Outcome
    decreases |ops|
  {
    if ops == [] then Defined(d)
    else match Step(d, ops[0], co)
      case Undefined => Undefined
      case Defined(d') => Run(d', ops[1..], co)
  }

  /** The "live" flag of the session after the calls, starting from `live`:
      set by init, cleared by deinit, kept by decode. */
  function LiveAfter(live: bool, ops: seq<SessionOp>): bool
    decreases |ops|
  {
    if ops == [] then live
    else LiveAfter(if ops[0].Init? then true else if ops[0].Deinit? then false else live, ops[1..])
  }

  /** The protocol: every decode and every deinit finds the flag set. */
  ghost predicate Accepts(live: bool, ops: seq<SessionOp>)
  {
    forall k :: 0 <= k < |ops| && !ops[k].Init? ==> LiveAfter(live, ops[..k])
  }

  /** A sequence of calls is defined exactly when it follows the protocol, and
      then the session holds a live decoder exactly when the flag says so. */
  lemma {:induction false} RunDefinedIffProtocol(d: DredDec, ops: seq<SessionOp>, co: Collaborators)
    ensures Run(d, ops, co).Defined? <==> Accepts(d.rdovae.Live?, ops)
    ensures Run(d, ops, co).Defined? ==>
              Run(d, ops, co).session.rdovae.Live? == LiveAfter(d.rdovae.Live?, ops)
    decreases |ops|
  {
    if ops != [] {
      var live := d.rdovae.Live?;
      var op := ops[0];
      var rest := ops[1..];
      var live' := if op.Init? then true else if op.Deinit? then false else live;
      AcceptsUnfold(live, ops);
      match Step(d, op, co)
      case Undefined =>
      case Defined(d') =>
        assert d'.rdovae.Live? == live';
        RunDefinedIffProtocol(d', rest, co);
    }
  }

  /** Following the protocol is: the first call is allowed, and the rest follow
      it from the flag the first call leaves. */
  lemma AcceptsUnfold(live: bool, ops: seq<SessionOp>)
    requires ops != []
    ensures Accepts(live, ops) <==>
              && (ops[0].Init? || live)
              && Accepts(if ops[0].Init? then true else if ops[0].Deinit? then false else live, ops[1..])
  {
    var live' := if ops[0].Init? then true else if ops[0].Deinit? then false else live;
    forall k | 0 <= k < |ops| - 1
      ensures LiveAfter(live, ops[..k + 1]) == LiveAfter(live', ops[1..][..k])
      ensures ops[k + 1] == ops[1..][k]
    {
      assert ops[..k + 1][1..] == ops[1..][..k];
    }
    assert ops[..0] == [];
    if Accepts(live, ops) {
      forall k | 0 <= k < |ops[1..]| && !ops[1..][k].Init?
        ensures LiveAfter(live', ops[1..][..k])
      {
        assert !ops[k + 1].Init?;
      }
    }
    if (ops[0].Init? || live) && Accepts(live', ops[1..]) {
      forall k | 0 <= k < |ops| && !ops[k].Init?
        ensures LiveAfter(live, ops[..k])
      {
        if k > 0 {
          assert !ops[1..][k - 1].Init?;
        }
      }
    }
  }

  /** A decode after a deinit is undefined until the next init. */
  lemma DecodeAfterDeinitUndefined(d: DredDec, h: Vector, co: Collaborators)
    requires d.rdovae.Live?
    ensures Run(d, [Deinit, Decode(h)], co) == Undefined
    ensures Run(d, [Deinit, Init, Decode(h)], co) == Defined(DredDec(Live(h)))
  {
    assert [Deinit, Decode(h)][1..] == [Decode(h)];
    assert [Deinit, Init, Decode(h)][1..] == [Init, Decode(h)];
    assert [Init, Decode(h)][1..] == [Decode(h)];
    assert [Decode(h)][1..] == [];
    var renewed := InitDredDecoder(DeinitDredDecoder(d), co);
    assert Run(renewed, [Decode(h)], co) == Defined(DredDec(Live(h)));
    assert Run(DeinitDredDecoder(d), [Init, Decode(h)], co) == Defined(DredDec(Live(h)));
  }

  /** Init does not look at what the session held: zeroing comes first. */
  lemma InitForgetsPreviousSession(d1: DredDec, d2: DredDec, co: Collaborators)
    ensures InitDredDecoder(d1, co) == InitDredDecoder(d2, co)
    ensures InitDredDecoder(d1, co) == DredDec(Live(co.createdHidden))
  {
  }
}
