/**
 * The two stacked reservation stores under concurrency. Any number of deliveries are handled at once: each calls
 * Execute on the outer store, whose operation either rejects or calls Execute on the inner store with the same key,
 * whose operation is one atomic reserve on the shared ledger. Stock updates and releases happen at any time.
 */
module StackedStores {
  import opened Prelude
  import opened Inventory
  import Ledger
  import LedgerRuns
  import opened Requests
  import Handlers
  import opened SingleFlight
  import SingleFlightRuns

  datatype Stack = Stack(
    outer: Store<ReservationResult>,
    inner: Store<ReservationResult>,
    ledger: Ledger.Ledger,
    requests: map<CallerId, ReservationRequest>)

  datatype Act =
    | Receive(t: CallerId, req: ReservationRequest)
    | OuterStep(outer: Action<ReservationResult>)
    | RejectByMode(t: CallerId)
    | EnterInner(t: CallerId)
    | InnerStep(inner: Action<ReservationResult>)
    | RunReserve(t: CallerId, env: Handlers.Env)
    | LeaveInner(t: CallerId)
    | OtherLedgerStep(op: LedgerRuns.Op)

  const ZERO_METADATA := Metadata("", "", "", "", 0, 0, 0)
  const ZERO_RESULT := ReservationResult(Undecided, false, ReservationRequest(ZERO_METADATA, "", "", "", 0), None, NotRejected)

  /** A handler's result as the pair its caller receives. */
  function AsOutcome(r: Result<ReservationResult>): Outcome<ReservationResult> {
    match r
    case Ok(v) => Outcome(v, None)
    case Err(e) => Outcome(ZERO_RESULT, Some(e))
  }

  /** What the inner handler makes of the inner store's return. */
  function InnerAnswer(ret: Return<ReservationResult>, req: ReservationRequest): Outcome<ReservationResult> {
    if ret.err.Some? then AsOutcome(Err(ret.err.value))
    else if ret.value.None? then AsOutcome(Err(Cancelled))
    else AsOutcome(Handlers.Deliver(Ok((ret.value.value, ret.hit)), req, false))
  }

  /** A step inside Execute that neither starts a call nor returns from the operation. */
  predicate Internal(a: Action<ReservationResult>) {
    !a.Arrive? && !a.OperationReturns?
  }

  predicate Operating(s: Store<ReservationResult>, t: CallerId) {
    t in s.callers && s.callers[t].pc.Running?
  }

  predicate StackEnabled(s: Stack, a: Act) {
    match a
    case Receive(t, req) => t !in s.outer.callers && t !in s.requests
    case OuterStep(b) => Internal(b) && Enabled(s.outer, b)
    case RejectByMode(t) => Operating(s.outer, t) && t !in s.inner.callers && t in s.requests
    case EnterInner(t) => Operating(s.outer, t) && t !in s.inner.callers && t in s.requests
    case InnerStep(b) => Internal(b) && Enabled(s.inner, b)
    case RunReserve(t, env) => Operating(s.inner, t) && t in s.requests
    case LeaveInner(t) => Operating(s.outer, t) && t in s.requests && t in s.inner.callers && s.inner.callers[t].pc.Done?
    case OtherLedgerStep(op) => !op.ReserveOp?
  }

  function StackNext(s: Stack, a: Act): Stack
    requires StackEnabled(s, a)
  {
    match a
    case Receive(t, req) =>
      s.(outer := Next(s.outer, Arrive(t, req.metadata.idempotencyKey)), requests := s.requests[t := req])
    case OuterStep(b) => s.(outer := Next(s.outer, b))
    case RejectByMode(t) =>
      var v := ReservationResult(Rejected, false, s.requests[t], None, FailureMode);
      s.(outer := Next(s.outer, OperationReturns(t, Outcome(v, None))))
    case EnterInner(t) => s.(inner := Next(s.inner, Arrive(t, s.requests[t].metadata.idempotencyKey)))
    case InnerStep(b) => s.(inner := Next(s.inner, b))
    case RunReserve(t, env) =>
      var (l', op) := Handlers.ReserveOperation(s.ledger, s.requests[t], env);
      s.(ledger := l', inner := Next(s.inner, OperationReturns(t, AsOutcome(op))))
    case LeaveInner(t) =>
      s.(outer := Next(s.outer, OperationReturns(t, InnerAnswer(s.inner.callers[t].pc.ret, s.requests[t]))))
    case OtherLedgerStep(op) => s.(ledger := LedgerRuns.Apply(Unbounded, s.ledger, op))
  }

  // ---------------------------------------------------------------------------
  // Invariant
  // ---------------------------------------------------------------------------

  /** The outcome of the caller's own operation, once it has one. */
  function OwnOutcome(pc: Pc<ReservationResult>): Option<Outcome<ReservationResult>> {
    match pc
    case WantCommit(_, out) => Some(out)
    case Commit(_, out) => Some(out)
    case Stored(_, out) => Some(out)
    case Filled(_, out) => Some(out)
    case Closed(_, out) => Some(out)
    case Deleted(_, out) => Some(out)
    case Done(r) => if !r.hit && r.value.Some? then Some(Outcome(r.value.value, r.err)) else None
    case _ => None
  }

  predicate Confirms(out: Option<Outcome<ReservationResult>>) {
    out.Some? && out.value.err.None? && out.value.value.decision == Confirmed
  }

  /** A delivery inside the inner store runs inside the outer operation, or has carried its answer out of it. */
  predicate InsideOk(s: Stack, t: CallerId)
    requires t in s.inner.callers
  {
    var pc := s.inner.callers[t].pc;
    && t in s.outer.callers && t in s.requests
    && s.outer.callers[t].raw == s.inner.callers[t].raw
    && !pc.Hit? && !pc.Join? && !pc.Waiting? && (pc.Done? ==> !pc.ret.hit)
    && (Confirms(OwnOutcome(pc)) ==> OwnOutcome(pc).value.value.reservation.Some?)
    && (|| s.outer.callers[t].pc.Running?
        || (pc.Done? && OwnOutcome(s.outer.callers[t].pc) == Some(InnerAnswer(pc.ret, s.requests[t]))))
  }

  predicate AllInside(s: Stack) {
    forall t {:trigger InsideOk(s, t)} | t in s.inner.callers :: InsideOk(s, t)
  }

  /** A confirmation that the outer operation returned came out of the inner store. */
  predicate SourceOk(s: Stack, t: CallerId)
    requires t in s.outer.callers
  {
    Confirms(OwnOutcome(s.outer.callers[t].pc)) ==> t in s.inner.callers
  }

  predicate AllSourced(s: Stack) {
    forall t {:trigger SourceOk(s, t)} | t in s.outer.callers :: SourceOk(s, t)
  }

  predicate RequestsOk(s: Stack) {
    && s.requests.Keys == s.outer.callers.Keys
    && forall t | t in s.requests :: s.outer.callers[t].raw == s.requests[t].metadata.idempotencyKey
  }

  /** The reserve operation of delivery `t` created reservation `id`. */
  predicate ConfirmedBy(inner: Store<ReservationResult>, t: CallerId, id: string) {
    && t in inner.callers
    && var out := OwnOutcome(inner.callers[t].pc);
       && Confirms(out)
       && out.value.value.reservation.Some? && out.value.value.reservation.value.id == id
  }

  function Snapshot(inner: Store<ReservationResult>, t: CallerId, id: string): Reservation
    requires ConfirmedBy(inner, t, id)
  {
    OwnOutcome(inner.callers[t].pc).value.value.reservation.value
  }

  ghost predicate HasCreator(inner: Store<ReservationResult>, id: string) {
    exists t :: ConfirmedBy(inner, t, id)
  }

  /** Reservations and successful reserve operations are in bijection. */
  ghost predicate LedgerTied(s: Stack) {
    && (forall id {:trigger HasCreator(s.inner, id)} | id in s.ledger.reservations :: HasCreator(s.inner, id))
    && (forall t, id {:trigger ConfirmedBy(s.inner, t, id)} | ConfirmedBy(s.inner, t, id) ::
          id in s.ledger.reservations && LedgerRuns.MayBecome(Snapshot(s.inner, t, id), s.ledger.reservations[id]))
    && (forall t, u, id {:trigger ConfirmedBy(s.inner, t, id), ConfirmedBy(s.inner, u, id)} |
          ConfirmedBy(s.inner, t, id) && ConfirmedBy(s.inner, u, id) :: t == u)
  }

  ghost predicate StackInv(s: Stack) {
    Inv(s.outer) && Inv(s.inner) && Ledger.Inv(s.ledger) && RequestsOk(s) && AllInside(s) && AllSourced(s) && LedgerTied(s)
  }

  // ---------------------------------------------------------------------------
  // The inner store is never contended
  // ---------------------------------------------------------------------------

  lemma MissIsGood(ret: Return<ReservationResult>, req: ReservationRequest)
    requires ret.err.None? && ret.value.Some? && !ret.hit
    ensures InnerAnswer(ret, req).err.None?
  {
  }

  /** Whoever has been through the inner operation with success is still in flight outside, or cached there. */
  lemma OuterSideOfWinner(s: Stack, u: CallerId, k: string)
    requires Inv(s.outer) && Inv(s.inner) && AllInside(s) && WinnerOf(s.inner, u, k)
    ensures u in s.outer.callers && KeyOf(s.outer, u) == k
    ensures Flies(s.outer.callers[u].pc) || k in s.outer.entries
  {
    assert InsideOk(s, u);
    assert CallerOk(s.outer, u);
    assert CallerOk(s.inner, u);
    var pc := s.inner.callers[u].pc;
    if pc.Done? { MissIsGood(pc.ret, s.requests[u]); }
  }

  lemma WinnerBlocks(s: Stack, t: CallerId, u: CallerId, k: string)
    requires Inv(s.outer) && Inv(s.inner) && AllInside(s)
    requires Operating(s.outer, t) && KeyOf(s.outer, t) == k
    requires WinnerOf(s.inner, u, k)
    ensures u == t
  {
    OuterSideOfWinner(s, u, k);
    assert CallerOk(s.outer, t);
    OneFlightPerKey(s.outer, t, u);
  }

  /** While a delivery looks its key up in the inner store, the store has neither an entry nor a call for it. */
  lemma InnerLookupMisses(s: Stack, t: CallerId)
    requires Inv(s.outer) && Inv(s.inner) && AllInside(s)
    requires t in s.inner.callers && s.inner.callers[t].pc.Lookup?
    ensures KeyOf(s.inner, t) !in s.inner.entries && KeyOf(s.inner, t) !in s.inner.inFlight
  {
    var k := KeyOf(s.inner, t);
    assert InsideOk(s, t);
    if k in s.inner.entries {
      assert HasWinner(s.inner, k);
      var u :| WinnerOf(s.inner, u, k);
      WinnerBlocks(s, t, u, k);
    }
    if k in s.inner.inFlight {
      assert FlightOk(s.inner, k);
      var u := s.inner.calls[s.inner.inFlight[k]].owner;
      assert InsideOk(s, u);
      OneFlightPerKey(s.outer, t, u);
    }
  }

  /** Every key the inner store knows is in the outer store: cached, or in flight. */
  lemma InnerKeysAreOuterKeys(s: Stack)
    requires Inv(s.outer) && Inv(s.inner) && AllInside(s)
    ensures forall k | k in s.inner.inFlight :: k in s.outer.inFlight
    ensures forall k | k in s.inner.entries :: k in s.outer.inFlight || k in s.outer.entries
  {
    forall k | k in s.inner.inFlight ensures k in s.outer.inFlight {
      assert FlightOk(s.inner, k);
      var u := s.inner.calls[s.inner.inFlight[k]].owner;
      assert InsideOk(s, u);
      assert CallerOk(s.outer, u);
    }
    forall k | k in s.inner.entries ensures k in s.outer.inFlight || k in s.outer.entries {
      assert HasWinner(s.inner, k);
      var u :| WinnerOf(s.inner, u, k);
      OuterSideOfWinner(s, u, k);
      assert CallerOk(s.outer, u);
    }
  }

  /** The outer store says of a key what the inner store says. */
  predicate SameResult(outer: ReservationResult, inner: ReservationResult) {
    && outer.decision == inner.decision && outer.reservation == inner.reservation && outer.reason == inner.reason
    && SameReservation(outer.request, inner.request)
  }

  lemma SameAnswerOutside(s: Stack, k: string)
    requires Inv(s.outer) && Inv(s.inner) && AllInside(s) && k in s.inner.entries && k in s.outer.entries
    ensures SameResult(s.outer.entries[k], s.inner.entries[k])
  {
    assert HasWinner(s.inner, k);
    var u :| WinnerOf(s.inner, u, k);
    assert InsideOk(s, u) && CallerOk(s.outer, u) && CallerOk(s.inner, u);
    var pc := s.inner.callers[u].pc;
    if pc.Done? { MissIsGood(pc.ret, s.requests[u]); }
  }

  // ---------------------------------------------------------------------------
  // Every step keeps the invariant
  // ---------------------------------------------------------------------------

  /** A step inside Execute changes one caller and never the outcome of its operation. */
  lemma InternalStep(s: Store<ReservationResult>, a: Action<ReservationResult>)
    requires Enabled(s, a) && Internal(a)
    ensures
      var s' := Next(s, a);
      && a.t in s'.callers && s'.callers == s.callers[a.t := s'.callers[a.t]]
      && s'.callers[a.t].raw == s.callers[a.t].raw
      && OwnOutcome(s'.callers[a.t].pc) == OwnOutcome(s.callers[a.t].pc)
      && !s.callers[a.t].pc.Running? && !s.callers[a.t].pc.Done?
  {
    SingleFlightRuns.OneCallerMoves(s, a);
  }

  lemma OuterStepKeepsInv(s: Stack, b: Action<ReservationResult>)
    requires StackInv(s) && Internal(b) && Enabled(s.outer, b)
    ensures StackInv(s.(outer := Next(s.outer, b)))
  {
    var s' := s.(outer := Next(s.outer, b));
    NextKeepsInv(s.outer, b);
    InternalStep(s.outer, b);
    forall t | t in s'.inner.callers ensures InsideOk(s', t) { assert InsideOk(s, t); }
    forall t | t in s'.outer.callers ensures SourceOk(s', t) { assert SourceOk(s, t); }
    SameTies(s, s');
  }

  /** The ties between ledger and operations depend on the inner outcomes only. */
  lemma SameTies(s: Stack, s': Stack)
    requires LedgerTied(s) && s'.ledger == s.ledger
    requires forall t, id {:trigger ConfirmedBy(s'.inner, t, id)} ::
               (ConfirmedBy(s'.inner, t, id) <==> ConfirmedBy(s.inner, t, id))
               && (ConfirmedBy(s.inner, t, id) ==> Snapshot(s'.inner, t, id) == Snapshot(s.inner, t, id))
    ensures LedgerTied(s')
  {
    forall id | id in s'.ledger.reservations ensures HasCreator(s'.inner, id) {
      assert HasCreator(s.inner, id);
      var t :| ConfirmedBy(s.inner, t, id);
      assert ConfirmedBy(s'.inner, t, id);
    }
  }

  lemma ReceiveKeepsInv(s: Stack, t: CallerId, req: ReservationRequest)
    requires StackInv(s) && StackEnabled(s, Receive(t, req))
    ensures StackInv(StackNext(s, Receive(t, req)))
  {
    var s' := StackNext(s, Receive(t, req));
    NextKeepsInv(s.outer, Arrive(t, req.metadata.idempotencyKey));
    forall u | u in s'.inner.callers ensures InsideOk(s', u) { assert InsideOk(s, u); }
    forall u | u in s'.outer.callers ensures SourceOk(s', u) { if u != t { assert SourceOk(s, u); } }
    SameTies(s, s');
  }

  lemma EnterKeepsInv(s: Stack, t: CallerId)
    requires StackInv(s) && StackEnabled(s, EnterInner(t))
    ensures StackInv(StackNext(s, EnterInner(t)))
  {
    var s' := StackNext(s, EnterInner(t));
    NextKeepsInv(s.inner, Arrive(t, s.requests[t].metadata.idempotencyKey));
    forall u | u in s'.inner.callers ensures InsideOk(s', u) {
      if u != t { assert InsideOk(s, u); }
    }
    forall u | u in s'.outer.callers ensures SourceOk(s', u) { assert SourceOk(s, u); }
    forall u, id {:trigger ConfirmedBy(s'.inner, u, id)}
      ensures ConfirmedBy(s'.inner, u, id) <==> ConfirmedBy(s.inner, u, id)
      ensures ConfirmedBy(s.inner, u, id) ==> Snapshot(s'.inner, u, id) == Snapshot(s.inner, u, id)
    {
      if u != t && u in s.inner.callers { assert s'.inner.callers[u] == s.inner.callers[u]; }
    }
    SameTies(s, s');
  }

  lemma InnerStepKeepsInv(s: Stack, b: Action<ReservationResult>)
    requires StackInv(s) && Internal(b) && Enabled(s.inner, b)
    ensures StackInv(s.(inner := Next(s.inner, b)))
  {
    var s' := s.(inner := Next(s.inner, b));
    NextKeepsInv(s.inner, b);
    InnerStepStaysInside(s, b);
    InnerStepKeepsTies(s, b);
    InternalStep(s.inner, b);
    forall t | t in s'.outer.callers ensures SourceOk(s', t) { assert SourceOk(s, t); }
  }

  lemma InnerStepKeepsTies(s: Stack, b: Action<ReservationResult>)
    requires LedgerTied(s) && Internal(b) && Enabled(s.inner, b)
    ensures LedgerTied(s.(inner := Next(s.inner, b)))
  {
    var s' := s.(inner := Next(s.inner, b));
    InternalStep(s.inner, b);
    forall t, id {:trigger ConfirmedBy(s'.inner, t, id)}
      ensures ConfirmedBy(s'.inner, t, id) <==> ConfirmedBy(s.inner, t, id)
      ensures ConfirmedBy(s.inner, t, id) ==> Snapshot(s'.inner, t, id) == Snapshot(s.inner, t, id)
    {
      if t != b.t && t in s.inner.callers { assert s'.inner.callers[t] == s.inner.callers[t]; }
    }
    SameTies(s, s');
  }

  lemma MoverStaysInside(s: Stack, b: Action<ReservationResult>)
    requires StackInv(s) && Internal(b) && Enabled(s.inner, b)
    ensures
      var s' := s.(inner := Next(s.inner, b));
      b.t in s'.inner.callers && InsideOk(s', b.t)
  {
    InternalStep(s.inner, b);
    assert InsideOk(s, b.t);
    if s.inner.callers[b.t].pc.Lookup? { InnerLookupMisses(s, b.t); }
  }

  lemma InnerStepStaysInside(s: Stack, b: Action<ReservationResult>)
    requires StackInv(s) && Internal(b) && Enabled(s.inner, b)
    ensures AllInside(s.(inner := Next(s.inner, b)))
  {
    var s' := s.(inner := Next(s.inner, b));
    InternalStep(s.inner, b);
    forall t | t in s'.inner.callers ensures InsideOk(s', t) {
      assert InsideOk(s, t);
      if t == b.t { MoverStaysInside(s, b); }
    }
  }

  lemma OuterReturnKeepsInv(s: Stack, t: CallerId, out: Outcome<ReservationResult>)
    requires StackInv(s) && Operating(s.outer, t) && t in s.requests
    requires if t in s.inner.callers
             then s.inner.callers[t].pc.Done? && out == InnerAnswer(s.inner.callers[t].pc.ret, s.requests[t])
             else out.value.decision != Confirmed
    ensures StackInv(s.(outer := Next(s.outer, OperationReturns(t, out))))
  {
    var s' := s.(outer := Next(s.outer, OperationReturns(t, out)));
    NextKeepsInv(s.outer, OperationReturns(t, out));
    OuterReturnStaysInside(s, t, out);
    SameTies(s, s');
  }

  lemma OuterReturnStaysInside(s: Stack, t: CallerId, out: Outcome<ReservationResult>)
    requires AllInside(s) && AllSourced(s) && Operating(s.outer, t) && t in s.requests
    requires if t in s.inner.callers
             then s.inner.callers[t].pc.Done? && out == InnerAnswer(s.inner.callers[t].pc.ret, s.requests[t])
             else out.value.decision != Confirmed
    ensures
      var s' := s.(outer := Next(s.outer, OperationReturns(t, out)));
      AllInside(s') && AllSourced(s')
  {
    var s' := s.(outer := Next(s.outer, OperationReturns(t, out)));
    forall u | u in s'.inner.callers ensures InsideOk(s', u) { assert InsideOk(s, u); }
    forall u | u in s'.outer.callers ensures SourceOk(s', u) { assert SourceOk(s, u); }
  }

  lemma ReserveKeepsInv(s: Stack, t: CallerId, env: Handlers.Env)
    requires StackInv(s) && StackEnabled(s, RunReserve(t, env))
    ensures StackInv(StackNext(s, RunReserve(t, env)))
  {
    var (l', op) := Handlers.ReserveOperation(s.ledger, s.requests[t], env);
    var s' := StackNext(s, RunReserve(t, env));
    NextKeepsInv(s.inner, OperationReturns(t, AsOutcome(op)));
    var req := s.requests[t];
    LedgerRuns.ApplyInv(s.ledger, LedgerRuns.ReserveOp(env.repoCancelled, req.reservationId, req.sku, req.quantity, env.now));
    ReserveStaysInside(s, t, env);
    ReserveKeepsTies(s, t, env);
  }

  lemma ReserveStaysInside(s: Stack, t: CallerId, env: Handlers.Env)
    requires AllInside(s) && AllSourced(s) && StackEnabled(s, RunReserve(t, env))
    ensures AllInside(StackNext(s, RunReserve(t, env))) && AllSourced(StackNext(s, RunReserve(t, env)))
  {
    var s' := StackNext(s, RunReserve(t, env));
    forall u | u in s'.inner.callers ensures InsideOk(s', u) { assert InsideOk(s, u); }
    forall u | u in s'.outer.callers ensures SourceOk(s', u) { assert SourceOk(s, u); }
  }

  lemma ReserveKeepsTies(s: Stack, t: CallerId, env: Handlers.Env)
    requires Ledger.Inv(s.ledger) && LedgerTied(s) && StackEnabled(s, RunReserve(t, env))
    ensures LedgerTied(StackNext(s, RunReserve(t, env)))
  {
    var s' := StackNext(s, RunReserve(t, env));
    var (l', op) := Handlers.ReserveOperation(s.ledger, s.requests[t], env);
    ReserveOperationEffect(s.ledger, s.requests[t], env);
    ReserveMovesCaller(s, t, env);
    if op.Ok? && op.value.decision == Confirmed {
      TieNew(s, s', t, op.value.reservation.value);
    } else {
      TieNone(s, s', t);
    }
  }

  /** A confirmation comes with a new record, anything else leaves the ledger alone. */
  lemma ReserveOperationEffect(l: Ledger.Ledger, req: ReservationRequest, env: Handlers.Env)
    requires Ledger.Inv(l)
    ensures
      var (l', op) := Handlers.ReserveOperation(l, req, env);
      if op.Ok? && op.value.decision == Confirmed
      then
        && op.value.reservation.Some?
        && var r := op.value.reservation.value;
           r.id !in l.reservations && l'.reservations == l.reservations[r.id := r]
      else l' == l
  {
    Ledger.ReserveEffect(l, env.repoCancelled, req.reservationId, req.sku, req.quantity, env.now);
  }

  lemma ReserveMovesCaller(s: Stack, t: CallerId, env: Handlers.Env)
    requires StackEnabled(s, RunReserve(t, env))
    ensures
      var s' := StackNext(s, RunReserve(t, env));
      var (l', op) := Handlers.ReserveOperation(s.ledger, s.requests[t], env);
      && s'.ledger == l' && t in s'.inner.callers
      && s'.inner.callers == s.inner.callers[t := s'.inner.callers[t]]
      && OwnOutcome(s'.inner.callers[t].pc) == Some(AsOutcome(op)) && OwnOutcome(s.inner.callers[t].pc) == None
  {
  }

  lemma TieNone(s: Stack, s': Stack, t: CallerId)
    requires LedgerTied(s) && s'.ledger == s.ledger
    requires t in s.inner.callers && t in s'.inner.callers
    requires s'.inner.callers == s.inner.callers[t := s'.inner.callers[t]]
    requires forall id :: !ConfirmedBy(s.inner, t, id) && !ConfirmedBy(s'.inner, t, id)
    ensures LedgerTied(s')
  {
    forall u, id {:trigger ConfirmedBy(s'.inner, u, id)}
      ensures ConfirmedBy(s'.inner, u, id) <==> ConfirmedBy(s.inner, u, id)
      ensures ConfirmedBy(s.inner, u, id) ==> Snapshot(s'.inner, u, id) == Snapshot(s.inner, u, id)
    {
      assert !ConfirmedBy(s.inner, t, id) && !ConfirmedBy(s'.inner, t, id);
    }
    SameTies(s, s');
  }

  lemma TieNew(s: Stack, s': Stack, t: CallerId, r: Reservation)
    requires LedgerTied(s) && r.id !in s.ledger.reservations && s'.ledger.reservations == s.ledger.reservations[r.id := r]
    requires ConfirmedBy(s'.inner, t, r.id) && Snapshot(s'.inner, t, r.id) == r
    requires t in s.inner.callers && s'.inner.callers == s.inner.callers[t := s'.inner.callers[t]]
    requires forall id :: !ConfirmedBy(s.inner, t, id)
    ensures LedgerTied(s')
  {
    forall id | id in s'.ledger.reservations ensures HasCreator(s'.inner, id) {
      if id != r.id {
        assert HasCreator(s.inner, id);
        var u :| ConfirmedBy(s.inner, u, id);
        assert ConfirmedBy(s'.inner, u, id);
      }
    }
    forall u, id | ConfirmedBy(s'.inner, u, id)
      ensures id in s'.ledger.reservations && LedgerRuns.MayBecome(Snapshot(s'.inner, u, id), s'.ledger.reservations[id])
    {
      if u != t { assert ConfirmedBy(s.inner, u, id); }
    }
    forall u, v, id | ConfirmedBy(s'.inner, u, id) && ConfirmedBy(s'.inner, v, id) ensures u == v {
      if u != t { assert ConfirmedBy(s.inner, u, id); }
      if v != t { assert ConfirmedBy(s.inner, v, id); }
    }
  }

  lemma OtherLedgerStepKeepsInv(s: Stack, op: LedgerRuns.Op)
    requires StackInv(s) && !op.ReserveOp?
    ensures StackInv(s.(ledger := LedgerRuns.Apply(Unbounded, s.ledger, op)))
  {
    var s' := s.(ledger := LedgerRuns.Apply(Unbounded, s.ledger, op));
    OtherOpsKeepKeys(s.ledger, op);
    forall t | t in s'.inner.callers ensures InsideOk(s', t) { assert InsideOk(s, t); }
    forall t | t in s'.outer.callers ensures SourceOk(s', t) { assert SourceOk(s, t); }
    TiesSurvive(s, s'.ledger);
  }

  lemma OtherOpsKeepKeys(l: Ledger.Ledger, op: LedgerRuns.Op)
    requires Ledger.Inv(l) && !op.ReserveOp?
    ensures
      var l' := LedgerRuns.Apply(Unbounded, l, op);
      Ledger.Inv(l') && LedgerRuns.Evolves(l, l') && l'.reservations.Keys == l.reservations.Keys
  {
    LedgerRuns.ApplyInv(l, op);
    LedgerRuns.ApplyEvolves(l, op);
    if op.ReleaseOp? { Ledger.ReleaseEffect(l, op.cancelled, op.id, op.now); }
  }

  lemma TiesSurvive(s: Stack, l': Ledger.Ledger)
    requires LedgerTied(s) && LedgerRuns.Evolves(s.ledger, l') && l'.reservations.Keys == s.ledger.reservations.Keys
    ensures LedgerTied(s.(ledger := l'))
  {
    forall id | id in l'.reservations ensures HasCreator(s.inner, id) { assert id in s.ledger.reservations; }
  }

  lemma StackNextKeepsInv(s: Stack, a: Act)
    requires StackInv(s) && StackEnabled(s, a)
    ensures StackInv(StackNext(s, a))
  {
    match a
    case Receive(t, req) => ReceiveKeepsInv(s, t, req);
    case OuterStep(b) => OuterStepKeepsInv(s, b);
    case RejectByMode(t) =>
      OuterReturnKeepsInv(s, t, Outcome(ReservationResult(Rejected, false, s.requests[t], None, FailureMode), None));
    case EnterInner(t) => EnterKeepsInv(s, t);
    case InnerStep(b) => InnerStepKeepsInv(s, b);
    case RunReserve(t, env) => ReserveKeepsInv(s, t, env);
    case LeaveInner(t) => OuterReturnKeepsInv(s, t, InnerAnswer(s.inner.callers[t].pc.ret, s.requests[t]));
    case OtherLedgerStep(op) => OtherLedgerStepKeepsInv(s, op);
  }

  // ---------------------------------------------------------------------------
  // Runs
  // ---------------------------------------------------------------------------

  function StackStart(l: Ledger.Ledger): Stack {
    Stack(EmptyStore(), EmptyStore(), l, map[])
  }

  predicate ValidRun(s: Stack, acts: seq<Act>)
    decreases |acts|
  {
    acts == [] || (StackEnabled(s, acts[0]) && ValidRun(StackNext(s, acts[0]), acts[1..]))
  }

  function Exec(s: Stack, acts: seq<Act>): Stack
    requires ValidRun(s, acts)
    decreases |acts|
  {
    if acts == [] then s else Exec(StackNext(s, acts[0]), acts[1..])
  }

  lemma {:induction false} ExecKeepsInv(s: Stack, acts: seq<Act>)
    requires StackInv(s) && ValidRun(s, acts)
    ensures StackInv(Exec(s, acts))
    decreases |acts|
  {
    if acts != [] {
      StackNextKeepsInv(s, acts[0]);
      ExecKeepsInv(StackNext(s, acts[0]), acts[1..]);
    }
  }

  lemma StartInv(l: Ledger.Ledger)
    requires Ledger.Inv(l) && l.reservations == map[]
    ensures StackInv(StackStart(l))
  {
  }

  /**
   * The stack refines one cache. In every reachable state the keys of the inner store are keys of the outer one, keys
   * cached in both have the same result in both, no delivery has found anything in the inner store or waits there, and every inner return is a miss.
   */
  lemma InnerStoreIsTransparent(l: Ledger.Ledger, acts: seq<Act>)
    requires Ledger.Inv(l) && l.reservations == map[] && ValidRun(StackStart(l), acts)
    ensures
      var s := Exec(StackStart(l), acts);
      && (forall k | k in s.inner.inFlight :: k in s.outer.inFlight)
      && (forall k | k in s.inner.entries :: k in s.outer.inFlight || k in s.outer.entries)
      && (forall k | k in s.inner.entries && k in s.outer.entries :: SameResult(s.outer.entries[k], s.inner.entries[k]))
      && (forall t | t in s.inner.callers ::
            var pc := s.inner.callers[t].pc;
            && !pc.Hit? && !pc.Join? && !pc.Waiting? && (pc.Done? ==> !pc.ret.hit)
            && (pc.Lookup? ==> KeyOf(s.inner, t) !in s.inner.entries && KeyOf(s.inner, t) !in s.inner.inFlight))
  {
    StartInv(l);
    ExecKeepsInv(StackStart(l), acts);
    var s := Exec(StackStart(l), acts);
    InnerKeysAreOuterKeys(s);
    forall k | k in s.inner.entries && k in s.outer.entries ensures SameResult(s.outer.entries[k], s.inner.entries[k]) {
      SameAnswerOutside(s, k);
    }
    forall t | t in s.inner.callers
      ensures
        var pc := s.inner.callers[t].pc;
        && !pc.Hit? && !pc.Join? && !pc.Waiting? && (pc.Done? ==> !pc.ret.hit)
        && (pc.Lookup? ==> KeyOf(s.inner, t) !in s.inner.entries && KeyOf(s.inner, t) !in s.inner.inFlight)
    {
      assert InsideOk(s, t);
      if s.inner.callers[t].pc.Lookup? { InnerLookupMisses(s, t); }
    }
  }

  /** The inner conflict branch is dead: what leaves the inner store without an error is passed on unchanged. */
  lemma InnerNeverConflicts(l: Ledger.Ledger, acts: seq<Act>, t: CallerId)
    requires Ledger.Inv(l) && l.reservations == map[] && ValidRun(StackStart(l), acts)
    requires StackEnabled(Exec(StackStart(l), acts), LeaveInner(t))
    ensures
      var s := Exec(StackStart(l), acts);
      var ret := s.inner.callers[t].pc.ret;
      ret.err.None? ==>
        && InnerAnswer(ret, s.requests[t]).err.None?
        && InnerAnswer(ret, s.requests[t]).value.decision == ret.value.value.decision
        && InnerAnswer(ret, s.requests[t]).value.reservation == ret.value.value.reservation
  {
    StartInv(l);
    ExecKeepsInv(StackStart(l), acts);
    var s := Exec(StackStart(l), acts);
    assert InsideOk(s, t) && CallerOk(s.inner, t);
  }

  /** At most one reserve operation per key ever succeeds. */
  lemma OneSuccessPerKey(s: Stack, t: CallerId, u: CallerId)
    requires Inv(s.inner) && AllInside(s) && t in s.inner.callers && u in s.inner.callers
    requires KeyOf(s.inner, t) == KeyOf(s.inner, u)
    requires OwnOutcome(s.inner.callers[t].pc).Some? && OwnOutcome(s.inner.callers[t].pc).value.err.None?
    requires OwnOutcome(s.inner.callers[u].pc).Some? && OwnOutcome(s.inner.callers[u].pc).value.err.None?
    ensures t == u
  {
    var k := KeyOf(s.inner, t);
    assert CallerOk(s.inner, t) && CallerOk(s.inner, u);
    var x, y := s.inner.callers[t].pc, s.inner.callers[u].pc;
    if Flies(x) && Flies(y) {
      OneFlightPerKey(s.inner, t, u);
    } else if !x.WantCommit? && !x.Commit? && !y.WantCommit? && !y.Commit? {
      assert WinnerOf(s.inner, t, k) && WinnerOf(s.inner, u, k);
    }
  }

  /**
   * Exactly once under concurrency: in every interleaving each reservation was created by exactly one delivery, it
   * still matches what that delivery was told, and all reservations created under one key are the same one.
   */
  lemma ConcurrentExactlyOnce(l: Ledger.Ledger, acts: seq<Act>)
    requires Ledger.Inv(l) && l.reservations == map[] && ValidRun(StackStart(l), acts)
    ensures
      var s := Exec(StackStart(l), acts);
      && Ledger.Inv(s.ledger)
      && (forall id | id in s.ledger.reservations ::
            exists t :: ConfirmedBy(s.inner, t, id) && forall u | ConfirmedBy(s.inner, u, id) :: u == t)
      && (forall t, id | ConfirmedBy(s.inner, t, id) ::
            id in s.ledger.reservations && LedgerRuns.MayBecome(Snapshot(s.inner, t, id), s.ledger.reservations[id]))
      && (forall t, u, i, j | ConfirmedBy(s.inner, t, i) && ConfirmedBy(s.inner, u, j) && KeyOf(s.inner, t) == KeyOf(s.inner, u) ::
            t == u && i == j)
  {
    StartInv(l);
    ExecKeepsInv(StackStart(l), acts);
    var s := Exec(StackStart(l), acts);
    forall id | id in s.ledger.reservations
      ensures exists t :: ConfirmedBy(s.inner, t, id) && forall u | ConfirmedBy(s.inner, u, id) :: u == t
    {
      assert HasCreator(s.inner, id);
      var t :| ConfirmedBy(s.inner, t, id);
      assert forall u | ConfirmedBy(s.inner, u, id) :: u == t;
    }
    forall t, u, i, j | ConfirmedBy(s.inner, t, i) && ConfirmedBy(s.inner, u, j) && KeyOf(s.inner, t) == KeyOf(s.inner, u)
      ensures t == u && i == j
    {
      OneSuccessPerKey(s, t, u);
    }
  }

  predicate Quiet(s: Stack) {
    forall t | t in s.outer.callers :: s.outer.callers[t].pc.Done?
  }

  predicate CachedConfirmation(s: Stack, k: string, id: string) {
    && k in s.outer.entries && s.outer.entries[k].decision == Confirmed
    && s.outer.entries[k].reservation.Some? && s.outer.entries[k].reservation.value.id == id
  }

  ghost predicate HasConfirmation(s: Stack, id: string) {
    exists k :: CachedConfirmation(s, k, id)
  }

  /**
   * Once everyone has returned, reservations and confirmed entries of the outer store are in bijection: every
   * reservation is cached as confirmed under exactly one key, every confirmed entry has its reservation, and the
   * two differ at most by a release.
   */
  lemma QuietBijection(l: Ledger.Ledger, acts: seq<Act>)
    requires Ledger.Inv(l) && l.reservations == map[] && ValidRun(StackStart(l), acts)
    requires Quiet(Exec(StackStart(l), acts))
    ensures
      var s := Exec(StackStart(l), acts);
      && (forall id | id in s.ledger.reservations :: HasConfirmation(s, id))
      && (forall j, k, id | CachedConfirmation(s, j, id) && CachedConfirmation(s, k, id) :: j == k)
      && (forall k | k in s.outer.entries && s.outer.entries[k].decision == Confirmed ::
            && s.outer.entries[k].reservation.Some?
            && var r := s.outer.entries[k].reservation.value;
               r.id in s.ledger.reservations && LedgerRuns.MayBecome(r, s.ledger.reservations[r.id]))
  {
    StartInv(l);
    ExecKeepsInv(StackStart(l), acts);
    var s := Exec(StackStart(l), acts);
    forall id | id in s.ledger.reservations ensures HasConfirmation(s, id) {
      assert HasCreator(s.inner, id);
      var t :| ConfirmedBy(s.inner, t, id);
      assert InsideOk(s, t);
      CreatorIsCached(s, t, id);
    }
    forall k | k in s.outer.entries && s.outer.entries[k].decision == Confirmed
      ensures
        && s.outer.entries[k].reservation.Some?
        && var r := s.outer.entries[k].reservation.value;
           r.id in s.ledger.reservations && LedgerRuns.MayBecome(r, s.ledger.reservations[r.id])
    {
      var t := CreatorOfEntry(s, k);
    }
    forall j, k, id | CachedConfirmation(s, j, id) && CachedConfirmation(s, k, id) ensures j == k {
      var t := CreatorOfEntry(s, j);
      var u := CreatorOfEntry(s, k);
    }
  }

  /** A confirmed entry of a quiet outer store goes back to the delivery that created its reservation. */
  lemma CreatorOfEntry(s: Stack, k: string) returns (t: CallerId)
    requires Inv(s.outer) && AllInside(s) && AllSourced(s) && Quiet(s)
    requires k in s.outer.entries && s.outer.entries[k].decision == Confirmed
    ensures t in s.outer.callers && KeyOf(s.outer, t) == k && s.outer.entries[k].reservation.Some?
    ensures ConfirmedBy(s.inner, t, s.outer.entries[k].reservation.value.id)
    ensures Snapshot(s.inner, t, s.outer.entries[k].reservation.value.id) == s.outer.entries[k].reservation.value
  {
    assert HasWinner(s.outer, k);
    t :| WinnerOf(s.outer, t, k);
    assert CallerOk(s.outer, t);
    assert SourceOk(s, t);
    assert InsideOk(s, t);
  }

  lemma CreatorIsCached(s: Stack, t: CallerId, id: string)
    requires Inv(s.outer) && AllInside(s) && ConfirmedBy(s.inner, t, id)
    requires t in s.outer.callers && s.outer.callers[t].pc.Done?
    ensures CachedConfirmation(s, KeyOf(s.outer, t), id)
    ensures s.outer.entries[KeyOf(s.outer, t)].reservation.value == Snapshot(s.inner, t, id)
  {
    assert InsideOk(s, t) && CallerOk(s.outer, t);
    MissIsGood(s.inner.callers[t].pc.ret, s.requests[t]);
  }
}
