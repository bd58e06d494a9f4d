/**
 * What the handlers answer, in one place. The layers behind a handler call (wrapper, outer store, inner store, repository,
 * service) are proved to amount to one flat table: which delivery changes what, and is answered how.
 */
module HandlerAnswers {
  import opened Prelude
  import opened Text
  import opened Inventory
  import Ledger
  import opened Requests
  import opened Handlers
  import opened HandlerInvariant
  import opened ExactlyOnce

  // ---------------------------------------------------------------------------
  // Reservations
  // ---------------------------------------------------------------------------

  function Refusal(req: ReservationRequest, reason: RejectionReason): ReservationResult {
    ReservationResult(Rejected, false, req, None, reason)
  }

  /** The record that a successful reservation creates. */
  function Record(req: ReservationRequest, now: Time): Reservation {
    Reservation(Trim(req.reservationId), Trim(req.sku), req.quantity, Active, now, None)
  }

  /** The ledger with the requested units taken. */
  function Taken(l: Ledger.Ledger, req: ReservationRequest, now: Time): Ledger.Ledger
    requires Trim(req.sku) in l.stock
  {
    var k := Trim(req.sku);
    var item := l.stock[k];
    Ledger.Ledger(l.stock[k := StockItem(k, item.available - req.quantity, item.reserved + req.quantity)],
                  l.reservations[Trim(req.reservationId) := Record(req, now)])
  }

  /** A new result of the inventory handler goes into both caches. */
  function Cached(a: App, l: Ledger.Ledger, k: string, v: ReservationResult): (App, Result<ReservationResult>) {
    (App(l, a.outer[k := v], a.inner[k := v], a.releases), Ok(v))
  }

  /** How a reservation delivery is answered that finds nothing cached and is not rejected by the failure mode. */
  function ReservationFromStock(a: App, req: ReservationRequest, env: Env): (App, Result<ReservationResult>) {
    var k := Trim(req.metadata.idempotencyKey);
    var (id, sku) := (Trim(req.reservationId), Trim(req.sku));
    if env.innerCancelled || env.repoCancelled then (a, Err(Cancelled))
    else if id == "" || sku == "" then (a, Err(InvalidArgument))
    else if id in a.ledger.reservations then (a, Err(ReservationAlreadyExists))
    else if sku !in a.ledger.stock then Cached(a, a.ledger, k, Refusal(req, OutOfStock))
    else if req.quantity <= 0 then (a, Err(InvalidArgument))
    else if a.ledger.stock[sku].available < req.quantity then Cached(a, a.ledger, k, Refusal(req, OutOfStock))
    else
      Cached(a, Taken(a.ledger, req, env.now), k, ReservationResult(Confirmed, false, req, Some(Record(req, env.now)), NotRejected))
  }

  /** How any reservation delivery is answered. */
  function ReservationAnswer(a: App, req: ReservationRequest, env: Env): (App, Result<ReservationResult>) {
    var k := Trim(req.metadata.idempotencyKey);
    if env.mode == ProcessingDelay && env.delayCancelled then (a, Err(Cancelled))
    else if k == "" then (a, Err(InvalidIdempotencyKey))
    else if env.outerCancelled then (a, Err(Cancelled))
    else if k in a.outer then
      if a.outer[k].request.(metadata := req.metadata) == req
      then (a, Ok(a.outer[k].(idempotencyHit := true, request := req)))
      else (a, Err(IdempotencyConflict))
    else if env.mode == AlwaysReject || (env.mode == RandomReject && env.draw) then
      (a.(outer := a.outer[k := Refusal(req, FailureMode)]), Ok(Refusal(req, FailureMode)))
    else ReservationFromStock(a, req, env)
  }

  /** The layers of the reservation handler amount to that table. */
  lemma ReservationHandlerIs(a: App, req: ReservationRequest, env: Env)
    requires Inv(a)
    ensures HandleReservation(a, req, env) == ReservationAnswer(a, req, env)
  {
    if Reaches(a, req, env) {
      ReservationFull(a, req, env);
      ReserveOperationIs(a.ledger, req, env);
    } else {
      ReservationHitIs(a, req, env);
    }
  }

  lemma ReservationHitIs(a: App, req: ReservationRequest, env: Env)
    requires !Reaches(a, req, env)
    ensures HandleReservation(a, req, env) == ReservationAnswer(a, req, env)
  {
    var k := Trim(req.metadata.idempotencyKey);
    if k in a.outer { SameReservationIff(a.outer[k].request, req); }
  }

  lemma ReserveOperationIs(l: Ledger.Ledger, req: ReservationRequest, env: Env)
    requires Ledger.Inv(l)
    ensures
      var (l', op) := ReserveOperation(l, req, env);
      var (id, sku) := (Trim(req.reservationId), Trim(req.sku));
      if env.repoCancelled then (l', op) == (l, Err(Cancelled))
      else if id == "" || sku == "" then (l', op) == (l, Err(InvalidArgument))
      else if id in l.reservations then (l', op) == (l, Err(ReservationAlreadyExists))
      else if sku !in l.stock then (l', op) == (l, Ok(Refusal(req, OutOfStock)))
      else if req.quantity <= 0 then (l', op) == (l, Err(InvalidArgument))
      else if l.stock[sku].available < req.quantity then (l', op) == (l, Ok(Refusal(req, OutOfStock)))
      else
        && l' == Taken(l, req, env.now)
        && op == Ok(ReservationResult(Confirmed, false, req, Some(Record(req, env.now)), NotRejected))
  {
    Ledger.ReserveEffect(l, env.repoCancelled, req.reservationId, req.sku, req.quantity, env.now);
    var (l', r) := Ledger.Reserve(Unbounded, l, env.repoCancelled, req.reservationId, req.sku, req.quantity, env.now);
    ReserveOperationMaps(l, req, env);
    if r.Ok? { ReserveTakes(l, req, env.now); }
  }

  /** The operation changes the ledger as the repository does, and turns two of its errors into refusals. */
  lemma ReserveOperationMaps(l: Ledger.Ledger, req: ReservationRequest, env: Env)
    ensures
      var (l', r) := Ledger.Reserve(Unbounded, l, env.repoCancelled, req.reservationId, req.sku, req.quantity, env.now);
      ReserveOperation(l, req, env) ==
        (l', if r.Ok? then Ok(ReservationResult(Confirmed, false, req, Some(r.value), NotRejected))
             else if r.error == InsufficientStock || r.error == StockItemNotFound then Ok(Refusal(req, OutOfStock))
             else Err(r.error))
  {
  }

  lemma ReserveTakes(l: Ledger.Ledger, req: ReservationRequest, now: Time)
    requires Ledger.Inv(l) && Trim(req.reservationId) != "" && Trim(req.reservationId) !in l.reservations
    requires Trim(req.sku) in l.stock && 0 < req.quantity <= l.stock[Trim(req.sku)].available
    ensures Ledger.Reserve(Unbounded, l, false, req.reservationId, req.sku, req.quantity, now) ==
              (Taken(l, req, now), Ok(Record(req, now)))
  {
    StockIsOk(l, Trim(req.sku));
    ReserveTakesFrom(l, req, now);
  }

  lemma StockIsOk(l: Ledger.Ledger, k: string)
    requires Ledger.Inv(l) && k in l.stock
    ensures Ledger.StockWellFormed(k, l.stock[k]) && 0 <= l.stock[k].reserved
  {
    Ledger.ReservedCovers(l);
  }

  lemma ReserveTakesFrom(l: Ledger.Ledger, req: ReservationRequest, now: Time)
    requires Trim(req.reservationId) != "" && Trim(req.reservationId) !in l.reservations && Trim(req.sku) != ""
    requires Trim(req.sku) in l.stock && 0 < req.quantity <= l.stock[Trim(req.sku)].available
    requires Ledger.StockWellFormed(Trim(req.sku), l.stock[Trim(req.sku)]) && 0 <= l.stock[Trim(req.sku)].reserved
    ensures Ledger.Reserve(Unbounded, l, false, req.reservationId, req.sku, req.quantity, now) ==
              (Taken(l, req, now), Ok(Record(req, now)))
  {
    Ledger.ReserveFound(l, req.reservationId, req.sku, req.quantity, now);
  }

  // ---------------------------------------------------------------------------
  // Releases
  // ---------------------------------------------------------------------------

  function ReleaseRefusal(req: ReleaseRequest, failure: ReleaseFailure): ReleaseResult {
    ReleaseResult(ReleaseFailed, failure, false, req, None)
  }

  /** The ledger with the units of an active reservation given back. */
  function GivenBack(l: Ledger.Ledger, id: string, now: Time): Ledger.Ledger
    requires id in l.reservations && l.reservations[id].sku in l.stock
  {
    var r := l.reservations[id];
    var item := l.stock[r.sku];
    Ledger.Ledger(l.stock[r.sku := StockItem(r.sku, item.available + r.quantity, item.reserved - r.quantity)],
                  l.reservations[id := r.(status := Released, releasedAt := Some(now))])
  }

  function ReleaseCached(a: App, l: Ledger.Ledger, k: string, v: ReleaseResult): (App, Result<ReleaseResult>) {
    (a.(ledger := l, releases := a.releases[k := v]), Ok(v))
  }

  /** How any release delivery is answered. */
  function ReleaseAnswer(a: App, req: ReleaseRequest, env: Env): (App, Result<ReleaseResult>)
    requires Ledger.Inv(a.ledger)
  {
    var (k, id) := (Trim(req.metadata.idempotencyKey), Trim(req.reservationId));
    if env.mode == ProcessingDelay && env.delayCancelled then (a, Err(Cancelled))
    else if k == "" then (a, Err(InvalidIdempotencyKey))
    else if env.innerCancelled then (a, Err(Cancelled))
    else if k in a.releases then
      if a.releases[k].request.(metadata := req.metadata) == req
      then (a, Ok(a.releases[k].(idempotencyHit := true, request := req)))
      else (a, Err(IdempotencyConflict))
    else if env.repoCancelled then (a, Err(Cancelled))
    else if id == "" then (a, Err(InvalidArgument))
    else if id !in a.ledger.reservations then ReleaseCached(a, a.ledger, k, ReleaseRefusal(req, NotFound))
    else if a.ledger.reservations[id].status == Released then ReleaseCached(a, a.ledger, k, ReleaseRefusal(req, NotActive))
    else
      var released := a.ledger.reservations[id].(status := Released, releasedAt := Some(env.now));
      ReleaseCached(a, GivenBack(a.ledger, id, env.now), k, ReleaseResult(ReleaseDone, NotFailed, false, req, Some(released)))
  }

  /** The layers of the release handler amount to that table. */
  lemma ReleaseHandlerIs(a: App, req: ReleaseRequest, env: Env)
    requires Ledger.Inv(a.ledger)
    ensures HandleRelease(a, req, env) == ReleaseAnswer(a, req, env)
  {
    ReleaseCases(a, req, env);
    if ReleaseReaches(a, req, env) {
      ReleaseOperationIs(a.ledger, req, env);
    } else {
      ReleaseHitIs(a, req, env);
    }
  }

  lemma ReleaseHitIs(a: App, req: ReleaseRequest, env: Env)
    requires Ledger.Inv(a.ledger) && !ReleaseReaches(a, req, env)
    ensures HandleRelease(a, req, env) == ReleaseAnswer(a, req, env)
  {
    var k := Trim(req.metadata.idempotencyKey);
    if k in a.releases { SameReleaseIff(a.releases[k].request, req); }
  }

  lemma ReleaseOperationIs(l: Ledger.Ledger, req: ReleaseRequest, env: Env)
    requires Ledger.Inv(l)
    ensures
      var (l', op) := ReleaseOperation(l, req, env);
      var id := Trim(req.reservationId);
      if env.repoCancelled then (l', op) == (l, Err(Cancelled))
      else if id == "" then (l', op) == (l, Err(InvalidArgument))
      else if id !in l.reservations then (l', op) == (l, Ok(ReleaseRefusal(req, NotFound)))
      else if l.reservations[id].status == Released then (l', op) == (l, Ok(ReleaseRefusal(req, NotActive)))
      else
        && l' == GivenBack(l, id, env.now)
        && op == Ok(ReleaseResult(ReleaseDone, NotFailed, false, req,
                                  Some(l.reservations[id].(status := Released, releasedAt := Some(env.now)))))
  {
    Ledger.ReleaseEffect(l, env.repoCancelled, req.reservationId, env.now);
    var id := Trim(req.reservationId);
    assert id in l.reservations ==> Ledger.ReservationWellFormed(id, l.reservations[id]);
    ReleaseOperationMaps(l, req, env);
    if Ledger.Release(Unbounded, l, env.repoCancelled, req.reservationId, env.now).1.Ok? { ReleaseGivesBack(l, req, env); }
  }

  lemma ReleaseOperationMaps(l: Ledger.Ledger, req: ReleaseRequest, env: Env)
    ensures
      var (l', r) := Ledger.Release(Unbounded, l, env.repoCancelled, req.reservationId, env.now);
      ReleaseOperation(l, req, env) ==
        (l', if r.Ok? then Ok(ReleaseResult(ReleaseDone, NotFailed, false, req, Some(r.value)))
             else if r.error == ReservationNotFound then Ok(ReleaseRefusal(req, NotFound))
             else if r.error == ReservationNotActive then Ok(ReleaseRefusal(req, NotActive))
             else Err(r.error))
  {
  }

  lemma ReleaseGivesBack(l: Ledger.Ledger, req: ReleaseRequest, env: Env)
    requires Ledger.Inv(l) && Ledger.Release(Unbounded, l, env.repoCancelled, req.reservationId, env.now).1.Ok?
    ensures
      var (l', r) := Ledger.Release(Unbounded, l, env.repoCancelled, req.reservationId, env.now);
      var id := Trim(req.reservationId);
      && id in l.reservations && l' == GivenBack(l, id, env.now)
      && r == Ok(l.reservations[id].(status := Released, releasedAt := Some(env.now)))
  {
    Ledger.ReleaseEffect(l, env.repoCancelled, req.reservationId, env.now);
    var (l', r) := Ledger.Release(Unbounded, l, env.repoCancelled, req.reservationId, env.now);
    GivenBackIs(l, Trim(req.reservationId), env.now, l', r.value);
  }

  lemma GivenBackIs(l: Ledger.Ledger, id: string, now: Time, l': Ledger.Ledger, r: Reservation)
    requires id in l.reservations && l.reservations[id].sku in l.stock
    requires r == l.reservations[id].(status := Released, releasedAt := Some(now))
    requires l'.reservations == l.reservations[id := r]
    requires
      var was := l.reservations[id];
      var item := l.stock[was.sku];
      l'.stock == l.stock[was.sku := StockItem(was.sku, item.available + was.quantity, item.reserved - was.quantity)]
    ensures l' == GivenBack(l, id, now)
  {
  }

  // ---------------------------------------------------------------------------
  // Conflicting reuse of a key
  // ---------------------------------------------------------------------------

  /**
   * Once a reservation delivery has been answered, every later live delivery under its key that asks for something else
   * in any field fails with a conflict and changes nothing at all, however many events lie in between.
   */
  lemma ReservationConflictsForGood(l: Ledger.Ledger, es: seq<Event>, i: nat, req: ReservationRequest, env: Env)
    requires Inv(Start(l)) && i < |es| && es[i].ReserveEvent? && Succeeds(Run(Start(l), es[..i]), es[i])
    requires Trim(req.metadata.idempotencyKey) == Trim(es[i].reservation.metadata.idempotencyKey)
    requires es[i].reservation.(metadata := req.metadata) != req && Live(env)
    ensures HandleReservation(Run(Start(l), es), req, env) == (Run(Start(l), es), Err(IdempotencyConflict))
  {
    var k := Trim(req.metadata.idempotencyKey);
    var x, a := Run(Start(l), es[..i]), Run(Start(l), es);
    RunKeepsInv(Start(l), es[..i]);
    RunKeepsInv(Start(l), es);
    AnswerIsCached(x, es[i].reservation, es[i].env);
    AnsweredStays(l, es, i);
    var cached := a.outer[k].request;
    SameReservationIff(HandleReservation(x, es[i].reservation, es[i].env).1.value.request, cached);
    SameReservationIff(HandleReservation(x, es[i].reservation, es[i].env).1.value.request, es[i].reservation);
    ReservationHandlerIs(a, req, env);
    ReservationHandlerIs(x, es[i].reservation, es[i].env);
  }

  lemma AnsweredStays(l: Ledger.Ledger, es: seq<Event>, i: nat)
    requires Inv(Start(l)) && i < |es|
    ensures Grows(Step(Run(Start(l), es[..i]), es[i]), Run(Start(l), es))
  {
    RunGrows(Start(l), es, i + 1, |es|);
    assert es[..i + 1][..i] == es[..i] && es[..|es|] == es;
  }

  lemma ReleaseConflictsForGood(l: Ledger.Ledger, es: seq<Event>, i: nat, req: ReleaseRequest, env: Env)
    requires Inv(Start(l)) && i < |es| && es[i].ReleaseEvent? && Succeeds(Run(Start(l), es[..i]), es[i])
    requires Trim(req.metadata.idempotencyKey) == Trim(es[i].release.metadata.idempotencyKey)
    requires es[i].release.(metadata := req.metadata) != req && Live(env)
    ensures HandleRelease(Run(Start(l), es), req, env) == (Run(Start(l), es), Err(IdempotencyConflict))
  {
    var k := Trim(req.metadata.idempotencyKey);
    var x, a := Run(Start(l), es[..i]), Run(Start(l), es);
    RunKeepsInv(Start(l), es[..i]);
    RunKeepsInv(Start(l), es);
    ReleaseAnswerIsCached(x, es[i].release, es[i].env);
    AnsweredStays(l, es, i);
    var answer := HandleRelease(x, es[i].release, es[i].env).1.value;
    SameReleaseIff(answer.request, a.releases[k].request);
    SameReleaseIff(answer.request, es[i].release);
    ReleaseHandlerIs(a, req, env);
  }
}
