/** Outcome messages: how a handler result becomes a routing key, a payload and headers, and how often it is sent. */
module Outcomes {
  import opened Prelude
  import opened Text
  import opened Inventory
  import opened Requests
  import opened Handlers
  import opened HandlerInvariant
  import ExactlyOnce

  datatype RoutingKey = ConfirmedKey | RejectedKey | ReleasedKey | ReleaseFailedKey

  datatype Payload =
    | ConfirmedPayload(reservationId: string, orderId: string, sku: string, quantity: int, reservedAt: Time)
    | RejectedPayload(reservationId: string, orderId: string, sku: string, quantity: int, reason: RejectionReason)
    | ReleasedPayload(reservationId: string, releasedAt: Time)
    | ReleaseFailedPayload(reservationId: string, failure: ReleaseFailure)

  datatype OutcomeMessage = OutcomeMessage(
    routingKey: RoutingKey, payload: Payload, messageId: string, correlationId: string, causationId: string,
    idempotencyKey: string, occurredAt: Time, schemaVersion: int, retryCount: int)

  /** Why a result could not be turned into a message. */
  datatype Built<+T> = Built(value: T) | MissingTimestamp | UnsupportedDecision

  const ZERO_TIME: Time := 0

  function CreatedAt(r: Option<Reservation>): Time {
    if r.Some? then r.value.createdAt else ZERO_TIME
  }

  function ReservationPayloadOf(v: ReservationResult): Built<(RoutingKey, Payload)> {
    match v.decision
    case Confirmed =>
      Built((ConfirmedKey,
             ConfirmedPayload(v.request.reservationId, v.request.orderId, v.request.sku, v.request.quantity, CreatedAt(v.reservation))))
    case Rejected =>
      Built((RejectedKey,
             RejectedPayload(v.request.reservationId, v.request.orderId, v.request.sku, v.request.quantity, v.reason)))
    case Undecided => UnsupportedDecision
  }

  function ReleasePayloadOf(v: ReleaseResult): Built<(RoutingKey, Payload)> {
    match v.decision
    case ReleaseDone =>
      if v.reservation.None? || v.reservation.value.releasedAt.None? then MissingTimestamp
      else Built((ReleasedKey, ReleasedPayload(v.request.reservationId, v.reservation.value.releasedAt.value)))
    case ReleaseFailed => Built((ReleaseFailedKey, ReleaseFailedPayload(v.request.reservationId, v.failure)))
    case ReleaseUndecided => UnsupportedDecision
  }

  function DecisionSuffix(k: RoutingKey): string {
    match k
    case ConfirmedKey => ":confirmed"
    case RejectedKey => ":rejected"
    case ReleasedKey => ":released"
    case ReleaseFailedKey => ":release_failed"
  }

  function MessageOf(kp: (RoutingKey, Payload), m: Metadata, messageId: string, now: Time): OutcomeMessage {
    OutcomeMessage(kp.0, kp.1, messageId, m.correlationId, m.messageId, m.idempotencyKey + DecisionSuffix(kp.0), now, 1, 0)
  }

  // ---------------------------------------------------------------------------
  // What an outcome says
  // ---------------------------------------------------------------------------

  /** The outcome is one of a reservation request, and repeats what was asked for. */
  predicate AnswersReservation(kp: (RoutingKey, Payload), id: string, orderId: string, sku: string, quantity: int) {
    match kp.1
    case ConfirmedPayload(i, o, s, q, _) => kp.0 == ConfirmedKey && (i, o, s, q) == (id, orderId, sku, quantity)
    case RejectedPayload(i, o, s, q, reason) =>
      kp.0 == RejectedKey && (i, o, s, q) == (id, orderId, sku, quantity) && (reason == OutOfStock || reason == FailureMode)
    case _ => false
  }

  predicate AnswersRelease(kp: (RoutingKey, Payload), id: string) {
    match kp.1
    case ReleasedPayload(i, _) => kp.0 == ReleasedKey && i == id
    case ReleaseFailedPayload(i, failure) =>
      kp.0 == ReleaseFailedKey && i == id && (failure == NotFound || failure == NotActive)
    case _ => false
  }

  /** What the process knows bears the outcome out: the ledger has the record it tells of, or the caches the refusal. */
  predicate BorneOut(a: App, k: string, kp: (RoutingKey, Payload)) {
    var rs := a.ledger.reservations;
    match kp.1
    case ConfirmedPayload(i, _, sku, q, at) =>
      Trim(i) in rs && var r := rs[Trim(i)]; r.sku == Trim(sku) && r.quantity == q && r.createdAt == at
    case RejectedPayload(_, _, _, _, reason) => k in a.outer && reason == if k in a.inner then OutOfStock else FailureMode
    case ReleasedPayload(i, at) => Trim(i) in rs && rs[Trim(i)].status == Released && rs[Trim(i)].releasedAt == Some(at)
    case ReleaseFailedPayload(i, failure) => failure == NotActive ==> Trim(i) in rs && rs[Trim(i)].status == Released
  }

  /** A cached answer can be published, and is borne out for as long as it is cached. */
  lemma CachedIsBorneOut(a: App, k: string)
    requires Inv(a)
    ensures k in a.outer ==>
              && ReservationPayloadOf(a.outer[k]).Built?
              && var (kp, req) := (ReservationPayloadOf(a.outer[k]).value, a.outer[k].request);
                 AnswersReservation(kp, req.reservationId, req.orderId, req.sku, req.quantity) && BorneOut(a, k, kp)
    ensures k in a.releases ==>
              && ReleasePayloadOf(a.releases[k]).Built?
              && var kp := ReleasePayloadOf(a.releases[k]).value;
                 AnswersRelease(kp, a.releases[k].request.reservationId) && BorneOut(a, k, kp)
  {
    if k in a.outer { assert EntryOk(a, k, a.outer[k]); }
    if k in a.releases { assert ReleaseOk(a.ledger, k, a.releases[k]); }
  }

  // ---------------------------------------------------------------------------
  // Handler results can always be published, and equal answers give equal payloads
  // ---------------------------------------------------------------------------

  /** Every answer has an outcome: it repeats the request, agrees with what is cached for the key, and is borne out. */
  lemma ReservationResultsCanBePublished(a: App, req: ReservationRequest, env: Env)
    requires Inv(a) && HandleReservation(a, req, env).1.Ok?
    ensures
      var (a', r) := HandleReservation(a, req, env);
      var k := Trim(req.metadata.idempotencyKey);
      && k in a'.outer
      && ReservationPayloadOf(r.value).Built?
      && ReservationPayloadOf(r.value) == ReservationPayloadOf(a'.outer[k])
      && AnswersReservation(ReservationPayloadOf(r.value).value, req.reservationId, req.orderId, req.sku, req.quantity)
      && BorneOut(a', k, ReservationPayloadOf(r.value).value)
      && r.value.request.metadata == req.metadata
  {
    ReserveEventKeepsInv(a, req, env);
    ExactlyOnce.AnswerIsCached(a, req, env);
    var a' := HandleReservation(a, req, env).0;
    var k := Trim(req.metadata.idempotencyKey);
    CachedIsBorneOut(a', k);
  }

  /** In particular the publisher's missing-timestamp error is unreachable for handler results. */
  lemma ReleaseResultsCanBePublished(a: App, req: ReleaseRequest, env: Env)
    requires Inv(a) && HandleRelease(a, req, env).1.Ok?
    ensures
      var (a', r) := HandleRelease(a, req, env);
      var k := Trim(req.metadata.idempotencyKey);
      && k in a'.releases
      && ReleasePayloadOf(r.value).Built?
      && ReleasePayloadOf(r.value) == ReleasePayloadOf(a'.releases[k])
      && AnswersRelease(ReleasePayloadOf(r.value).value, req.reservationId)
      && BorneOut(a', k, ReleasePayloadOf(r.value).value)
      && r.value.request.metadata == req.metadata
  {
    ReleaseEventKeepsInv(a, req, env);
    ExactlyOnce.ReleaseAnswerIsCached(a, req, env);
    var a' := HandleRelease(a, req, env).0;
    var k := Trim(req.metadata.idempotencyKey);
    CachedIsBorneOut(a', k);
  }

  // ---------------------------------------------------------------------------
  // Zero, one or two publishes
  // ---------------------------------------------------------------------------

  /**
   * How one publish ends: whether the broker then holds the message, and whether the publisher reports success. That
   * success may be reported for a message the broker refused is what ConfirmedDelivery is about.
   */
  datatype Fate = Accepted | LandedUnconfirmed | Lost | Misreported

  predicate Landed(f: Fate) {
    f.Accepted? || f.LandedUnconfirmed?
  }

  predicate Reported(f: Fate) {
    f.Accepted? || f.Misreported?
  }

  /** How many copies of the outcome land, and whether the publisher wrapper reports success. */
  function PublishResult(mode: Mode, first: Fate, second: Fate): (nat, bool) {
    match mode
    case PublishFailure => (0, false)
    case DuplicateResponse =>
      var one := if Landed(first) then 1 else 0;
      if !Reported(first) then (one, false)
      else (one + if Landed(second) then 1 else 0, Reported(second))
    case _ => (if Landed(first) then 1 else 0, Reported(first))
  }

  /** How the publishes that PublishResult really makes end, in order. */
  function Sent(mode: Mode, first: Fate, second: Fate): seq<Fate> {
    match mode
    case PublishFailure => []
    case DuplicateResponse => if Reported(first) then [first, second] else [first]
    case _ => [first]
  }

  /** When success is reported, all copies are at the broker if and only if no publish was misreported. */
  lemma ReportedMeansLanded(mode: Mode, first: Fate, second: Fate)
    ensures
      var (landed, ok) := PublishResult(mode, first, second);
      var fates := Sent(mode, first, second);
      ok ==> |fates| == (if mode == DuplicateResponse then 2 else 1) && (landed == |fates| <==> Misreported !in fates)
  {
  }
}
