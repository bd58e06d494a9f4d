/** What every event keeps: the ledger invariant and the tie between caches and ledger. */
module HandlerInvariant {
  import opened Prelude
  import opened Text
  import opened Inventory
  import Ledger
  import LedgerRuns
  import opened Requests
  import opened Handlers

  /** A confirmed result holds the snapshot of a reservation that the ledger still has. */
  predicate ConfirmedOk(l: Ledger.Ledger, v: ReservationResult) {
    && v.reservation.Some? && v.reason == NotRejected
    && var r := v.reservation.value;
       && r.status == Active && r.releasedAt.None?
       && r.id == Trim(v.request.reservationId) && r.sku == Trim(v.request.sku) && r.quantity == v.request.quantity
       && r.id in l.reservations && LedgerRuns.MayBecome(r, l.reservations[r.id])
  }

  predicate EntryOk(a: App, k: string, v: ReservationResult) {
    && Ledger.IsKey(k) && !v.idempotencyHit && Trim(v.request.metadata.idempotencyKey) == k
    && match v.decision
       case Confirmed => k in a.inner && ConfirmedOk(a.ledger, v)
       case Rejected => v.reservation.None? && v.reason == (if k in a.inner then OutOfStock else FailureMode)
       case Undecided => false
  }

  predicate OuterOk(a: App) {
    forall k {:trigger EntryOk(a, k, a.outer[k])} | k in a.outer :: EntryOk(a, k, a.outer[k])
  }

  /** The inner cache is part of the outer one. */
  predicate InnerWithinOuter(a: App) {
    forall k | k in a.inner :: k in a.outer && a.outer[k] == a.inner[k]
  }

  /** `k` is the key under which reservation `id` was confirmed. */
  predicate ConfirmedUnder(a: App, k: string, id: string) {
    k in a.outer && a.outer[k].decision == Confirmed && a.outer[k].reservation.Some? && a.outer[k].reservation.value.id == id
  }

  ghost predicate HasKey(a: App, id: string) {
    exists k :: ConfirmedUnder(a, k, id)
  }

  /** Every reservation was confirmed under exactly one key. */
  ghost predicate OneKeyEach(a: App) {
    && (forall id {:trigger HasKey(a, id)} | id in a.ledger.reservations :: HasKey(a, id))
    && (forall j, k, id {:trigger ConfirmedUnder(a, j, id), ConfirmedUnder(a, k, id)} |
          ConfirmedUnder(a, j, id) && ConfirmedUnder(a, k, id) :: j == k)
  }

  predicate ReleaseOk(l: Ledger.Ledger, k: string, v: ReleaseResult) {
    && Ledger.IsKey(k) && !v.idempotencyHit && Trim(v.request.metadata.idempotencyKey) == k
    && match v.decision
       case ReleaseDone =>
         && v.failure == NotFailed && v.reservation.Some?
         && var r := v.reservation.value;
            && r.id == Trim(v.request.reservationId) && r.status == Released && r.releasedAt.Some?
            && r.id in l.reservations && l.reservations[r.id] == r
       case ReleaseFailed =>
         && v.failure != NotFailed && v.reservation.None?
         && (v.failure == NotActive ==>
               var id := Trim(v.request.reservationId);
               id in l.reservations && l.reservations[id].status == Released)
       case ReleaseUndecided => false
  }

  predicate ReleasesOk(a: App) {
    forall k {:trigger ReleaseOk(a.ledger, k, a.releases[k])} | k in a.releases :: ReleaseOk(a.ledger, k, a.releases[k])
  }

  ghost predicate Inv(a: App) {
    Ledger.Inv(a.ledger) && OuterOk(a) && InnerWithinOuter(a) && OneKeyEach(a) && ReleasesOk(a)
  }

  lemma StartInv(seed: seq<Ledger.Seed>)
    requires Ledger.Seeded(seed).Ok?
    ensures Inv(Start(Ledger.Opened(seed)))
  {
    Ledger.SeededInv(seed);
  }

  // ---------------------------------------------------------------------------
  // What one reservation delivery does
  // ---------------------------------------------------------------------------

  /** The delivery gets as far as the operation of the outer store. */
  predicate Reaches(a: App, req: ReservationRequest, env: Env) {
    !(env.mode == ProcessingDelay && env.delayCancelled) && Misses(a.outer, req.metadata.idempotencyKey, env.outerCancelled)
  }

  /** A delivery that does not reach the operation changes nothing and answers from the cache or with an error. */
  lemma ReservationShort(a: App, req: ReservationRequest, env: Env)
    requires !Reaches(a, req, env)
    ensures
      var (a', r) := HandleReservation(a, req, env);
      var k := Trim(req.metadata.idempotencyKey);
      && a' == a
      && (r.Ok? ==>
            && k in a.outer && SameReservation(a.outer[k].request, req)
            && r.value == a.outer[k].(idempotencyHit := true, request := a.outer[k].request.(metadata := req.metadata)))
  {
  }

  /**
   * A delivery that reaches the outer operation never finds its key in the inner cache, so the inner store never
   * reports a hit and never a conflict: either the wrapper rejects, or the reserve operation runs.
   */
  lemma ReservationFull(a: App, req: ReservationRequest, env: Env)
    requires InnerWithinOuter(a) && Reaches(a, req, env)
    ensures
      var (a', r) := HandleReservation(a, req, env);
      var k := Trim(req.metadata.idempotencyKey);
      var (l', op) := ReserveOperation(a.ledger, req, env);
      && k !in a.inner
      && (if ShouldReject(env) then
            var v := ReservationResult(Rejected, false, req, None, FailureMode);
            a' == a.(outer := a.outer[k := v]) && r == Ok(v)
          else if env.innerCancelled then a' == a && r == Err(Cancelled)
          else if op.Err? then a' == a.(ledger := l') && r == op
          else a' == App(l', a.outer[k := op.value], a.inner[k := op.value], a.releases) && r == op)
  {
  }

  /** The three ways a reservation delivery can end, with all that changes. */
  lemma ReservationCases(a: App, req: ReservationRequest, env: Env)
    requires Inv(a)
    ensures
      var (a', r) := HandleReservation(a, req, env);
      var k := Trim(req.metadata.idempotencyKey);
      || a' == a
      || (Reaches(a, req, env) && ShouldReject(env)
          && a' == a.(outer := a.outer[k := ReservationResult(Rejected, false, req, None, FailureMode)]))
      || (Reaches(a, req, env) && !ShouldReject(env) && Stored(a, a', req, env))
  {
    if Reaches(a, req, env) {
      ReservationFull(a, req, env);
      Ledger.ReserveEffect(a.ledger, env.repoCancelled, req.reservationId, req.sku, req.quantity, env.now);
    } else {
      ReservationShort(a, req, env);
    }
  }

  /** The reserve operation ran, and its result went into both caches. */
  predicate Stored(a: App, a': App, req: ReservationRequest, env: Env) {
    var k := Trim(req.metadata.idempotencyKey);
    var (l', op) := ReserveOperation(a.ledger, req, env);
    op.Ok? && a' == App(l', a.outer[k := op.value], a.inner[k := op.value], a.releases)
  }

  // ---------------------------------------------------------------------------
  // Every event keeps the invariant
  // ---------------------------------------------------------------------------

  /** Cached results survive any ledger change under which records only evolve. */
  lemma CachesSurvive(a: App, l': Ledger.Ledger)
    requires OuterOk(a) && ReleasesOk(a) && LedgerRuns.Evolves(a.ledger, l')
    ensures OuterOk(a.(ledger := l')) && ReleasesOk(a.(ledger := l'))
  {
    var a' := a.(ledger := l');
    forall k | k in a'.outer ensures EntryOk(a', k, a'.outer[k]) { assert EntryOk(a, k, a.outer[k]); }
    forall k | k in a'.releases ensures ReleaseOk(l', k, a'.releases[k]) { assert ReleaseOk(a.ledger, k, a.releases[k]); }
  }

  lemma KeysSurvive(a: App, a': App)
    requires OneKeyEach(a) && a'.ledger.reservations.Keys == a.ledger.reservations.Keys
    requires forall k, id {:trigger ConfirmedUnder(a', k, id)} :: ConfirmedUnder(a', k, id) <==> ConfirmedUnder(a, k, id)
    ensures OneKeyEach(a')
  {
    forall id | id in a'.ledger.reservations ensures HasKey(a', id) {
      assert HasKey(a, id);
      var k :| ConfirmedUnder(a, k, id);
      assert ConfirmedUnder(a', k, id);
    }
  }

  lemma RejectionKeepsInv(a: App, k: string, v: ReservationResult)
    requires Inv(a) && Ledger.IsKey(k) && k !in a.outer
    requires v == ReservationResult(Rejected, false, v.request, None, FailureMode)
    requires Trim(v.request.metadata.idempotencyKey) == k
    ensures Inv(a.(outer := a.outer[k := v]))
  {
    var a' := a.(outer := a.outer[k := v]);
    forall j | j in a'.outer ensures EntryOk(a', j, a'.outer[j]) {
      if j != k { assert EntryOk(a, j, a.outer[j]); }
    }
    KeysSurvive(a, a');
    forall j | j in a'.releases ensures ReleaseOk(a'.ledger, j, a'.releases[j]) { assert ReleaseOk(a.ledger, j, a.releases[j]); }
  }

  lemma ReserveEvolves(l: Ledger.Ledger, req: ReservationRequest, env: Env)
    requires Ledger.Inv(l)
    ensures Ledger.Inv(ReserveOperation(l, req, env).0)
    ensures LedgerRuns.Evolves(l, ReserveOperation(l, req, env).0)
  {
    var op := LedgerRuns.ReserveOp(env.repoCancelled, req.reservationId, req.sku, req.quantity, env.now);
    LedgerRuns.ApplyInv(l, op);
    LedgerRuns.ApplyEvolves(l, op);
  }

  lemma StoredKeepsOuter(a: App, a': App, req: ReservationRequest, env: Env)
    requires Inv(a) && Reaches(a, req, env) && Stored(a, a', req, env)
    ensures OuterOk(a') && ReleasesOk(a')
  {
    var k := Trim(req.metadata.idempotencyKey);
    ReserveEvolves(a.ledger, req, env);
    CachesSurvive(a, a'.ledger);
    TrimIdempotent(req.metadata.idempotencyKey);
    Ledger.ReserveEffect(a.ledger, env.repoCancelled, req.reservationId, req.sku, req.quantity, env.now);
    var mid := a.(ledger := a'.ledger);
    forall j | j in a'.outer ensures EntryOk(a', j, a'.outer[j]) {
      if j != k { assert EntryOk(mid, j, mid.outer[j]); }
    }
    forall j | j in a'.releases ensures ReleaseOk(a'.ledger, j, a'.releases[j]) { assert ReleaseOk(mid.ledger, j, mid.releases[j]); }
  }

  lemma StoredKeepsKeys(a: App, a': App, req: ReservationRequest, env: Env)
    requires Inv(a) && Reaches(a, req, env) && Stored(a, a', req, env)
    ensures OneKeyEach(a')
  {
    var k := Trim(req.metadata.idempotencyKey);
    Ledger.ReserveEffect(a.ledger, env.repoCancelled, req.reservationId, req.sku, req.quantity, env.now);
    forall j, id | j != k ensures ConfirmedUnder(a', j, id) <==> ConfirmedUnder(a, j, id) {}
    forall id | id in a'.ledger.reservations ensures HasKey(a', id) {
      if id in a.ledger.reservations {
        assert HasKey(a, id);
        var j :| ConfirmedUnder(a, j, id);
        assert ConfirmedUnder(a', j, id);
      } else {
        assert ConfirmedUnder(a', k, id);
      }
    }
    forall i, j, id | ConfirmedUnder(a', i, id) && ConfirmedUnder(a', j, id) ensures i == j {
      if i != k { assert EntryOk(a, i, a.outer[i]) && ConfirmedUnder(a, i, id); }
      if j != k { assert EntryOk(a, j, a.outer[j]) && ConfirmedUnder(a, j, id); }
    }
  }

  lemma ReserveEventKeepsInv(a: App, req: ReservationRequest, env: Env)
    requires Inv(a)
    ensures Inv(HandleReservation(a, req, env).0)
  {
    var a' := HandleReservation(a, req, env).0;
    ReservationCases(a, req, env);
    TrimIdempotent(req.metadata.idempotencyKey);
    if a' == a {
    } else if ShouldReject(env) {
      RejectionKeepsInv(a, Trim(req.metadata.idempotencyKey), ReservationResult(Rejected, false, req, None, FailureMode));
    } else {
      ReserveEvolves(a.ledger, req, env);
      StoredKeepsOuter(a, a', req, env);
      StoredKeepsKeys(a, a', req, env);
    }
  }

  predicate ReleaseReaches(a: App, req: ReleaseRequest, env: Env) {
    !(env.mode == ProcessingDelay && env.delayCancelled) && Misses(a.releases, req.metadata.idempotencyKey, env.innerCancelled)
  }

  /** The ways a release delivery can end, with all that changes. */
  lemma ReleaseCases(a: App, req: ReleaseRequest, env: Env)
    requires Ledger.Inv(a.ledger)
    ensures
      var (a', r) := HandleRelease(a, req, env);
      var k := Trim(req.metadata.idempotencyKey);
      var (l', op) := ReleaseOperation(a.ledger, req, env);
      && (!ReleaseReaches(a, req, env) ==>
            && a' == a
            && (r.Ok? ==>
                  && k in a.releases && SameRelease(a.releases[k].request, req)
                  && r.value == a.releases[k].(idempotencyHit := true, request := a.releases[k].request.(metadata := req.metadata))))
      && (ReleaseReaches(a, req, env) ==>
            && r == op
            && a' == (if op.Ok? then a.(ledger := l', releases := a.releases[k := op.value]) else a))
  {
    Ledger.ReleaseEffect(a.ledger, env.repoCancelled, req.reservationId, env.now);
  }

  /** The record a release result holds is the one now in the ledger. */
  lemma ReleaseResultOk(l: Ledger.Ledger, req: ReleaseRequest, env: Env)
    requires Ledger.Inv(l) && Trim(req.metadata.idempotencyKey) != ""
    requires ReleaseOperation(l, req, env).1.Ok?
    ensures ReleaseOk(ReleaseOperation(l, req, env).0, Trim(req.metadata.idempotencyKey), ReleaseOperation(l, req, env).1.value)
  {
    TrimIdempotent(req.metadata.idempotencyKey);
    Ledger.ReleaseEffect(l, env.repoCancelled, req.reservationId, env.now);
    assert Trim(req.reservationId) in l.reservations ==>
        Ledger.ReservationWellFormed(Trim(req.reservationId), l.reservations[Trim(req.reservationId)]);
  }

  lemma ReleaseKeepsKeys(l: Ledger.Ledger, op: LedgerRuns.Op)
    requires Ledger.Inv(l) && op.ReleaseOp?
    ensures LedgerRuns.Apply(Unbounded, l, op).reservations.Keys == l.reservations.Keys
  {
    Ledger.ReleaseEffect(l, op.cancelled, op.id, op.now);
  }

  lemma ReleaseEvolves(l: Ledger.Ledger, req: ReleaseRequest, env: Env)
    requires Ledger.Inv(l)
    ensures
      var l' := ReleaseOperation(l, req, env).0;
      Ledger.Inv(l') && LedgerRuns.Evolves(l, l') && l'.reservations.Keys == l.reservations.Keys
  {
    var op := LedgerRuns.ReleaseOp(env.repoCancelled, req.reservationId, env.now);
    assert ReleaseOperation(l, req, env).0 == LedgerRuns.Apply(Unbounded, l, op);
    LedgerRuns.ApplyInv(l, op);
    LedgerRuns.ApplyEvolves(l, op);
    ReleaseKeepsKeys(l, op);
  }

  lemma ReleaseEventKeepsInv(a: App, req: ReleaseRequest, env: Env)
    requires Inv(a)
    ensures Inv(HandleRelease(a, req, env).0)
  {
    var a' := HandleRelease(a, req, env).0;
    ReleaseCases(a, req, env);
    if a' != a {
      var k := Trim(req.metadata.idempotencyKey);
      ReleaseEvolves(a.ledger, req, env);
      ReleaseResultOk(a.ledger, req, env);
      CachesSurvive(a, a'.ledger);
      var mid := a.(ledger := a'.ledger);
      KeysSurvive(a, a');
      forall j | j in a'.outer ensures EntryOk(a', j, a'.outer[j]) { assert EntryOk(mid, j, mid.outer[j]); }
      forall j | j in a'.releases ensures ReleaseOk(a'.ledger, j, a'.releases[j]) {
        if j != k { assert ReleaseOk(mid.ledger, j, mid.releases[j]); }
      }
    }
  }

  lemma StockEventKeepsInv(a: App, cancelled: bool, sku: string, available: int)
    requires Inv(a)
    ensures Inv(a.(ledger := Ledger.SetStock(a.ledger, cancelled, sku, available).0))
  {
    var l' := Ledger.SetStock(a.ledger, cancelled, sku, available).0;
    var op := LedgerRuns.SetStockOp(cancelled, sku, available);
    LedgerRuns.ApplyInv(a.ledger, op);
    LedgerRuns.ApplyEvolves(a.ledger, op);
    CachesSurvive(a, l');
    KeysSurvive(a, a.(ledger := l'));
  }

  lemma StepKeepsInv(a: App, e: Event)
    requires Inv(a)
    ensures Inv(Step(a, e))
  {
    match e
    case ReserveEvent(req, env) => ReserveEventKeepsInv(a, req, env);
    case ReleaseEvent(req, env) => ReleaseEventKeepsInv(a, req, env);
    case SetStockEvent(c, sku, n) => StockEventKeepsInv(a, c, sku, n);
  }

  lemma {:induction false} RunKeepsInv(a: App, es: seq<Event>)
    requires Inv(a)
    ensures Inv(Run(a, es))
  {
    if es != [] {
      RunKeepsInv(a, es[..|es| - 1]);
      StepKeepsInv(Run(a, es[..|es| - 1]), es[|es| - 1]);
    }
  }
}
