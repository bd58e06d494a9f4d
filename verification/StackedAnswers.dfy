/** What the stacked stores answer under concurrency: every cached answer fits a request received under its key. */
module StackedAnswers {
  import opened Prelude
  import opened Text
  import opened Inventory
  import Ledger
  import opened Requests
  import Handlers
  import HandlerAnswers
  import opened SingleFlight
  import opened StackedStores

  /** The answer of the reserve operation: a confirmation with the reservation asked for, or a refusal for lack of stock. */
  predicate FromStock(req: ReservationRequest, v: ReservationResult) {
    && v.request == req && !v.idempotencyHit
    && match v.decision
       case Confirmed =>
         && v.reason == NotRejected && v.reservation.Some?
         && var r := v.reservation.value;
            r.id == Trim(req.reservationId) && r.sku == Trim(req.sku) && r.quantity == req.quantity && r.status == Active
       case Rejected => v.reason == OutOfStock && v.reservation.None?
       case Undecided => false
  }

  /** The answer of the failure mode. */
  predicate FromMode(req: ReservationRequest, v: ReservationResult) {
    v == ReservationResult(Rejected, false, req, None, FailureMode)
  }

  predicate InnerTells(s: Stack, t: CallerId)
    requires t in s.inner.callers
  {
    var out := OwnOutcome(s.inner.callers[t].pc);
    out.Some? && out.value.err.None? ==> t in s.requests && FromStock(s.requests[t], out.value.value)
  }

  predicate OuterTells(s: Stack, t: CallerId)
    requires t in s.outer.callers
  {
    var out := OwnOutcome(s.outer.callers[t].pc);
    out.Some? && out.value.err.None? ==>
      && t in s.requests
      && if t in s.inner.callers then FromStock(s.requests[t], out.value.value) else FromMode(s.requests[t], out.value.value)
  }

  predicate AllTell(s: Stack) {
    && (forall t {:trigger InnerTells(s, t)} | t in s.inner.callers :: InnerTells(s, t))
    && (forall t {:trigger OuterTells(s, t)} | t in s.outer.callers :: OuterTells(s, t))
  }

  // ---------------------------------------------------------------------------
  // Every step
  // ---------------------------------------------------------------------------

  lemma ReserveTells(l: Ledger.Ledger, req: ReservationRequest, env: Handlers.Env)
    requires Ledger.Inv(l)
    ensures var op := Handlers.ReserveOperation(l, req, env).1; op.Ok? ==> FromStock(req, op.value)
  {
    HandlerAnswers.ReserveOperationIs(l, req, env);
  }

  lemma PassedOn(ret: Return<ReservationResult>, req: ReservationRequest)
    requires ret.err.None? && ret.value.Some? ==> FromStock(req, ret.value.value)
    requires !ret.hit && InnerAnswer(ret, req).err.None?
    ensures FromStock(req, InnerAnswer(ret, req).value)
  {
  }

  lemma ReceiveTells(s: Stack, t: CallerId, req: ReservationRequest)
    requires AllTell(s) && StackEnabled(s, Receive(t, req))
    ensures AllTell(StackNext(s, Receive(t, req)))
  {
    var s' := StackNext(s, Receive(t, req));
    forall u | u in s'.inner.callers ensures InnerTells(s', u) { assert InnerTells(s, u); }
    forall u | u in s'.outer.callers ensures OuterTells(s', u) { if u != t { assert OuterTells(s, u); } }
  }

  lemma OuterStepTells(s: Stack, b: Action<ReservationResult>)
    requires AllTell(s) && StackEnabled(s, OuterStep(b))
    ensures AllTell(StackNext(s, OuterStep(b)))
  {
    var s' := StackNext(s, OuterStep(b));
    InternalStep(s.outer, b);
    forall u | u in s'.inner.callers ensures InnerTells(s', u) { assert InnerTells(s, u); }
    forall u | u in s'.outer.callers ensures OuterTells(s', u) { assert OuterTells(s, u); }
  }

  lemma InnerStepTells(s: Stack, b: Action<ReservationResult>)
    requires AllTell(s) && StackEnabled(s, InnerStep(b))
    ensures AllTell(StackNext(s, InnerStep(b)))
  {
    var s' := StackNext(s, InnerStep(b));
    InternalStep(s.inner, b);
    forall u | u in s'.inner.callers ensures InnerTells(s', u) { assert InnerTells(s, u); }
    forall u | u in s'.outer.callers ensures OuterTells(s', u) { assert OuterTells(s, u); }
  }

  lemma EnterTells(s: Stack, t: CallerId)
    requires AllTell(s) && StackEnabled(s, EnterInner(t))
    ensures AllTell(StackNext(s, EnterInner(t)))
  {
    var s' := StackNext(s, EnterInner(t));
    forall u | u in s'.inner.callers ensures InnerTells(s', u) { if u != t { assert InnerTells(s, u); } }
    forall u | u in s'.outer.callers ensures OuterTells(s', u) { if u != t { assert OuterTells(s, u); } }
  }

  lemma RunReserveTells(s: Stack, t: CallerId, env: Handlers.Env)
    requires AllTell(s) && Ledger.Inv(s.ledger) && StackEnabled(s, RunReserve(t, env))
    ensures AllTell(StackNext(s, RunReserve(t, env)))
  {
    var (l', op) := Handlers.ReserveOperation(s.ledger, s.requests[t], env);
    ReserveTells(s.ledger, s.requests[t], env);
    InnerReturnTells(s, l', t, AsOutcome(op));
  }

  /** The inner operation returns. */
  lemma InnerReturnTells(s: Stack, l: Ledger.Ledger, t: CallerId, out: Outcome<ReservationResult>)
    requires AllTell(s) && Operating(s.inner, t) && t in s.requests
    requires out.err.None? ==> FromStock(s.requests[t], out.value)
    ensures AllTell(s.(ledger := l, inner := Next(s.inner, OperationReturns(t, out))))
  {
    var s' := s.(ledger := l, inner := Next(s.inner, OperationReturns(t, out)));
    forall u | u in s'.inner.callers ensures InnerTells(s', u) { if u != t { assert InnerTells(s, u); } }
    forall u | u in s'.outer.callers ensures OuterTells(s', u) { assert OuterTells(s, u); }
  }

  /** The outer operation returns, with a refusal by the mode or with what came out of the inner store. */
  lemma OuterReturnTells(s: Stack, t: CallerId, out: Outcome<ReservationResult>)
    requires AllTell(s) && Operating(s.outer, t) && t in s.requests
    requires out.err.None? ==>
               if t in s.inner.callers then FromStock(s.requests[t], out.value) else FromMode(s.requests[t], out.value)
    ensures AllTell(s.(outer := Next(s.outer, OperationReturns(t, out))))
  {
    var s' := s.(outer := Next(s.outer, OperationReturns(t, out)));
    forall u | u in s'.inner.callers ensures InnerTells(s', u) { assert InnerTells(s, u); }
    forall u | u in s'.outer.callers ensures OuterTells(s', u) { if u != t { assert OuterTells(s, u); } }
  }

  lemma LeaveTells(s: Stack, t: CallerId)
    requires StackInv(s) && AllTell(s) && StackEnabled(s, LeaveInner(t))
    ensures AllTell(StackNext(s, LeaveInner(t)))
  {
    var ret := s.inner.callers[t].pc.ret;
    assert InsideOk(s, t) && InnerTells(s, t);
    if InnerAnswer(ret, s.requests[t]).err.None? { PassedOn(ret, s.requests[t]); }
    OuterReturnTells(s, t, InnerAnswer(ret, s.requests[t]));
  }

  lemma OtherStepTells(s: Stack, a: Act)
    requires AllTell(s) && StackEnabled(s, a) && a.OtherLedgerStep?
    ensures AllTell(StackNext(s, a))
  {
    var s' := StackNext(s, a);
    forall u | u in s'.inner.callers ensures InnerTells(s', u) { assert InnerTells(s, u); }
    forall u | u in s'.outer.callers ensures OuterTells(s', u) { assert OuterTells(s, u); }
  }

  lemma StepTells(s: Stack, a: Act)
    requires StackInv(s) && AllTell(s) && StackEnabled(s, a)
    ensures AllTell(StackNext(s, a))
  {
    match a
    case Receive(t, req) => ReceiveTells(s, t, req);
    case OuterStep(b) => OuterStepTells(s, b);
    case RejectByMode(t) =>
      OuterReturnTells(s, t, Outcome(ReservationResult(Rejected, false, s.requests[t], None, FailureMode), None));
    case EnterInner(t) => EnterTells(s, t);
    case InnerStep(b) => InnerStepTells(s, b);
    case RunReserve(t, env) => RunReserveTells(s, t, env);
    case LeaveInner(t) => LeaveTells(s, t);
    case OtherLedgerStep(_) => OtherStepTells(s, a);
  }

  lemma {:induction false} RunTells(s: Stack, acts: seq<Act>)
    requires StackInv(s) && AllTell(s) && ValidRun(s, acts)
    ensures AllTell(Exec(s, acts))
    decreases |acts|
  {
    if acts != [] {
      StepTells(s, acts[0]);
      StackNextKeepsInv(s, acts[0]);
      RunTells(StackNext(s, acts[0]), acts[1..]);
    }
  }

  // ---------------------------------------------------------------------------
  // What is cached
  // ---------------------------------------------------------------------------

  /** Request `t` was received under key `k`, and the cached answer fits it. */
  predicate AnswersRequest(s: Stack, k: string, t: CallerId)
    requires k in s.outer.entries
  {
    && t in s.requests && Trim(s.requests[t].metadata.idempotencyKey) == k
    && if k in s.inner.entries then FromStock(s.requests[t], s.outer.entries[k]) else FromMode(s.requests[t], s.outer.entries[k])
  }

  lemma InnerEntryIsFromStock(s: Stack, k: string)
    requires StackInv(s) && AllTell(s) && k in s.inner.entries
    ensures s.inner.entries[k].reason != FailureMode
  {
    assert HasWinner(s.inner, k);
    var u :| WinnerOf(s.inner, u, k);
    assert CallerOk(s.inner, u) && InnerTells(s, u);
  }

  lemma CachedAnswer(s: Stack, k: string)
    requires StackInv(s) && AllTell(s) && k in s.outer.entries
    ensures exists t :: AnswersRequest(s, k, t)
  {
    assert HasWinner(s.outer, k);
    var t :| WinnerOf(s.outer, t, k);
    assert CallerOk(s.outer, t) && OuterTells(s, t);
    if k in s.inner.entries {
      SameAnswerOutside(s, k);
      InnerEntryIsFromStock(s, k);
    }
    if t in s.inner.callers { InnerWinner(s, t, k); }
    assert AnswersRequest(s, k, t);
  }

  lemma InnerWinner(s: Stack, t: CallerId, k: string)
    requires StackInv(s) && WinnerOf(s.outer, t, k) && t in s.inner.callers
    ensures k in s.inner.entries
  {
    assert CallerOk(s.outer, t) && InsideOk(s, t) && CallerOk(s.inner, t);
  }

  /**
   * In every interleaving, every cached answer belongs to a request received under its key: with the reservation asked
   * for or a refusal for lack of stock if the key went through the inner store, with a refusal by the failure mode if not.
   */
  lemma EntriesAnswerTheirRequest(l: Ledger.Ledger, acts: seq<Act>)
    requires Ledger.Inv(l) && l.reservations == map[] && ValidRun(StackStart(l), acts)
    ensures
      var s := Exec(StackStart(l), acts);
      forall k | k in s.outer.entries :: exists t :: AnswersRequest(s, k, t)
  {
    StartInv(l);
    ExecKeepsInv(StackStart(l), acts);
    RunTells(StackStart(l), acts);
    var s := Exec(StackStart(l), acts);
    forall k | k in s.outer.entries ensures exists t :: AnswersRequest(s, k, t) { CachedAnswer(s, k); }
  }
}
