/**
 * The request handlers as functions of the whole application state. The consumer handles one delivery at a time, so
 * a handler call is one step here; the concurrent form of the stores is in SingleFlight and StackedStores.
 */
module Handlers {
  import opened Prelude
  import opened Text
  import opened Inventory
  import Ledger
  import opened Requests

  /** The ledger and the three idempotency caches. `outer` belongs to the failure-simulation wrapper. */
  datatype App = App(
    ledger: Ledger.Ledger,
    outer: map<string, ReservationResult>,
    inner: map<string, ReservationResult>,
    releases: map<string, ReleaseResult>)

  /** What the environment decides during one handler call: mode, random draw, cancellations, clock. */
  datatype Env = Env(
    mode: Mode, draw: bool, now: Time,
    delayCancelled: bool, outerCancelled: bool, innerCancelled: bool, repoCancelled: bool)

  // ---------------------------------------------------------------------------
  // Execute, when nobody else is inside
  // ---------------------------------------------------------------------------

  /** Execute reaches the operation. */
  predicate Misses<V>(entries: map<string, V>, raw: string, cancelled: bool) {
    Trim(raw) != "" && !cancelled && Trim(raw) !in entries
  }

  /** Entries and return value of Execute, given what the operation returns if it is reached. */
  function Execute<V>(entries: map<string, V>, raw: string, cancelled: bool, op: Result<V>)
    : (map<string, V>, Result<(V, bool)>)
  {
    if Trim(raw) == "" then (entries, Err(InvalidIdempotencyKey))
    else if cancelled then (entries, Err(Cancelled))
    else if Trim(raw) in entries then (entries, Ok((entries[Trim(raw)], true)))
    else
      match op
      case Err(e) => (entries, Err(e))
      case Ok(v) => (entries[Trim(raw) := v], Ok((v, false)))
  }

  // ---------------------------------------------------------------------------
  // Reservations
  // ---------------------------------------------------------------------------

  function ReserveOperation(l: Ledger.Ledger, req: ReservationRequest, env: Env)
    : (Ledger.Ledger, Result<ReservationResult>)
  {
    var (l', r) := Ledger.Reserve(Unbounded, l, env.repoCancelled, req.reservationId, req.sku, req.quantity, env.now);
    match r
    case Ok(reservation) => (l', Ok(ReservationResult(Confirmed, false, req, Some(reservation), NotRejected)))
    case Err(e) =>
      if e == InsufficientStock || e == StockItemNotFound
      then (l', Ok(ReservationResult(Rejected, false, req, None, OutOfStock)))
      else (l', Err(e))
  }

  /** The checks and rewrites a handler applies to what its store returned. */
  function Deliver(r: Result<(ReservationResult, bool)>, req: ReservationRequest, keepHit: bool): Result<ReservationResult> {
    match r
    case Err(e) => Err(e)
    case Ok((result, hit)) =>
      if hit && !SameReservation(result.request, req) then Err(IdempotencyConflict)
      else
        Ok(result.(idempotencyHit := hit || (keepHit && result.idempotencyHit),
                   request := result.request.(metadata := req.metadata)))
  }

  /** The inventory handler behind the wrapper. */
  function HandleInner(a: App, req: ReservationRequest, env: Env): (App, Result<ReservationResult>) {
    var raw := req.metadata.idempotencyKey;
    var (l', op) :=
      if Misses(a.inner, raw, env.innerCancelled) then ReserveOperation(a.ledger, req, env) else (a.ledger, Err(Cancelled));
    var (inner', r) := Execute(a.inner, raw, env.innerCancelled, op);
    (a.(ledger := l', inner := inner'), Deliver(r, req, false))
  }

  predicate ShouldReject(env: Env) {
    env.mode == AlwaysReject || (env.mode == RandomReject && env.draw)
  }

  function OuterOperation(a: App, req: ReservationRequest, env: Env): (App, Result<ReservationResult>) {
    if ShouldReject(env) then (a, Ok(ReservationResult(Rejected, false, req, None, FailureMode)))
    else HandleInner(a, req, env)
  }

  /** The failure-simulation wrapper, the handler the consumer calls. */
  function HandleReservation(a: App, req: ReservationRequest, env: Env): (App, Result<ReservationResult>) {
    if env.mode == ProcessingDelay && env.delayCancelled then (a, Err(Cancelled))
    else
      var raw := req.metadata.idempotencyKey;
      var (a', op) :=
        if Misses(a.outer, raw, env.outerCancelled) then OuterOperation(a, req, env) else (a, Err(Cancelled));
      var (outer', r) := Execute(a.outer, raw, env.outerCancelled, op);
      (a'.(outer := outer'), Deliver(r, req, true))
  }

  // ---------------------------------------------------------------------------
  // Releases
  // ---------------------------------------------------------------------------

  function ReleaseOperation(l: Ledger.Ledger, req: ReleaseRequest, env: Env): (Ledger.Ledger, Result<ReleaseResult>) {
    var (l', r) := Ledger.Release(Unbounded, l, env.repoCancelled, req.reservationId, env.now);
    match r
    case Ok(reservation) => (l', Ok(ReleaseResult(ReleaseDone, NotFailed, false, req, Some(reservation))))
    case Err(ReservationNotFound) => (l', Ok(ReleaseResult(ReleaseFailed, NotFound, false, req, None)))
    case Err(ReservationNotActive) => (l', Ok(ReleaseResult(ReleaseFailed, NotActive, false, req, None)))
    case Err(e) => (l', Err(e))
  }

  function DeliverRelease(r: Result<(ReleaseResult, bool)>, req: ReleaseRequest): Result<ReleaseResult> {
    match r
    case Err(e) => Err(e)
    case Ok((result, hit)) =>
      if hit && !SameRelease(result.request, req) then Err(IdempotencyConflict)
      else Ok(result.(idempotencyHit := hit, request := result.request.(metadata := req.metadata)))
  }

  function HandleRelease(a: App, req: ReleaseRequest, env: Env): (App, Result<ReleaseResult>) {
    if env.mode == ProcessingDelay && env.delayCancelled then (a, Err(Cancelled))
    else
      var raw := req.metadata.idempotencyKey;
      var (l', op) :=
        if Misses(a.releases, raw, env.innerCancelled) then ReleaseOperation(a.ledger, req, env) else (a.ledger, Err(Cancelled));
      var (releases', r) := Execute(a.releases, raw, env.innerCancelled, op);
      (a.(ledger := l', releases := releases'), DeliverRelease(r, req))
  }

  // ---------------------------------------------------------------------------
  // Events
  // ---------------------------------------------------------------------------

  datatype Event =
    | ReserveEvent(reservation: ReservationRequest, env: Env)
    | ReleaseEvent(release: ReleaseRequest, env: Env)
    | SetStockEvent(cancelled: bool, sku: string, available: int)

  function Step(a: App, e: Event): App {
    match e
    case ReserveEvent(req, env) => HandleReservation(a, req, env).0
    case ReleaseEvent(req, env) => HandleRelease(a, req, env).0
    case SetStockEvent(c, sku, n) => a.(ledger := Ledger.SetStock(a.ledger, c, sku, n).0)
  }

  function Start(l: Ledger.Ledger): App {
    App(l, map[], map[], map[])
  }

  /** The state after all events, the last one applied last. */
  function Run(a: App, es: seq<Event>): App {
    if es == [] then a else Step(Run(a, es[..|es| - 1]), es[|es| - 1])
  }
}
