/** What the first delivery of a key publishes, told from the ledger it finds and the request alone. */
module FirstOutcomes {
  import opened Prelude
  import opened Text
  import opened Inventory
  import Ledger
  import opened Requests
  import Handlers
  import HandlerInvariant
  import ExactlyOnce
  import opened HandlerAnswers
  import opened Messages
  import opened Outcomes
  import opened Delivery
  import opened HandledDeliveries

  /** The outcome of a reservation request under a new key, or why there is none. */
  function FirstReservation(l: Ledger.Ledger, req: ReservationRequest, env: Handlers.Env): Result<(RoutingKey, Payload)> {
    var (id, sku) := (Trim(req.reservationId), Trim(req.sku));
    if env.mode == AlwaysReject || (env.mode == RandomReject && env.draw) then
      Ok((RejectedKey, RejectedPayload(req.reservationId, req.orderId, req.sku, req.quantity, FailureMode)))
    else if id in l.reservations then Err(ReservationAlreadyExists)
    else if sku in l.stock && req.quantity <= l.stock[sku].available then
      Ok((ConfirmedKey, ConfirmedPayload(req.reservationId, req.orderId, req.sku, req.quantity, env.now)))
    else Ok((RejectedKey, RejectedPayload(req.reservationId, req.orderId, req.sku, req.quantity, OutOfStock)))
  }

  /** The outcome of a release request under a new key. */
  function FirstRelease(l: Ledger.Ledger, req: ReleaseRequest, env: Handlers.Env): (RoutingKey, Payload) {
    var id := Trim(req.reservationId);
    if id !in l.reservations then (ReleaseFailedKey, ReleaseFailedPayload(req.reservationId, NotFound))
    else if l.reservations[id].status == Released then (ReleaseFailedKey, ReleaseFailedPayload(req.reservationId, NotActive))
    else (ReleasedKey, ReleasedPayload(req.reservationId, env.now))
  }

  lemma DecodedIsNotBlank(codec: Codec, d: Messages.Delivery)
    ensures DecodeReservation(codec, d).Ok? ==>
              var req := DecodeReservation(codec, d).value;
              Trim(req.metadata.idempotencyKey) != "" && Trim(req.reservationId) != "" && Trim(req.sku) != "" && 0 < req.quantity
    ensures DecodeRelease(codec, d).Ok? ==>
              var req := DecodeRelease(codec, d).value;
              Trim(req.metadata.idempotencyKey) != "" && Trim(req.reservationId) != ""
  {
  }

  /** The handler's answer to a new key, as an outcome. */
  function OutcomeOfReservation(r: Result<ReservationResult>): Result<Built<(RoutingKey, Payload)>> {
    if r.Err? then Err(r.error) else Ok(ReservationPayloadOf(r.value))
  }

  function OutcomeOfRelease(r: Result<ReleaseResult>): Result<Built<(RoutingKey, Payload)>> {
    if r.Err? then Err(r.error) else Ok(ReleasePayloadOf(r.value))
  }

  function AsBuilt(r: Result<(RoutingKey, Payload)>): Result<Built<(RoutingKey, Payload)>> {
    if r.Err? then Err(r.error) else Ok(Built(r.value))
  }

  lemma FirstReservationAnswer(a: Handlers.App, req: ReservationRequest, env: Handlers.Env)
    requires HandlerInvariant.Inv(a) && ExactlyOnce.Live(env)
    requires Trim(req.metadata.idempotencyKey) != "" && Trim(req.metadata.idempotencyKey) !in a.outer
    requires Trim(req.reservationId) != "" && Trim(req.sku) != "" && 0 < req.quantity
    ensures OutcomeOfReservation(Handlers.HandleReservation(a, req, env).1) == AsBuilt(FirstReservation(a.ledger, req, env))
  {
    ReservationHandlerIs(a, req, env);
  }

  lemma FirstReleaseAnswer(a: Handlers.App, req: ReleaseRequest, env: Handlers.Env)
    requires HandlerInvariant.Inv(a) && ExactlyOnce.Live(env)
    requires Trim(req.metadata.idempotencyKey) != "" && Trim(req.metadata.idempotencyKey) !in a.releases
    requires Trim(req.reservationId) != ""
    ensures OutcomeOfRelease(Handlers.HandleRelease(a, req, env).1) == Ok(Built(FirstRelease(a.ledger, req, env)))
  {
    ReleaseHandlerIs(a, req, env);
  }

  /** The request of either flow decodes, and its key is new to the running process. */
  predicate FirstSeen(codec: Codec, a: Handlers.App, f: Flow, d: Messages.Delivery) {
    if f == Reservations then
      var req := DecodeReservation(codec, d);
      req.Ok? && Trim(req.value.metadata.idempotencyKey) !in a.outer
    else
      var req := DecodeRelease(codec, d);
      req.Ok? && Trim(req.value.metadata.idempotencyKey) !in a.releases
  }

  /** Its outcome. */
  function FirstOutcome(codec: Codec, a: Handlers.App, f: Flow, d: Messages.Delivery, env: Handlers.Env)
    : Result<(RoutingKey, Payload)>
    requires FirstSeen(codec, a, f, d)
  {
    if f == Reservations then FirstReservation(a.ledger, DecodeReservation(codec, d).value, env)
    else Ok(FirstRelease(a.ledger, DecodeRelease(codec, d).value, env))
  }

  lemma FirstIsProcessed(codec: Codec, a: Handlers.App, f: Flow, d: Messages.Delivery, env: Handlers.Env)
    requires HandlerInvariant.Inv(a) && ExactlyOnce.Live(env) && FirstSeen(codec, a, f, d)
    ensures
      var p := Process(codec, a, f, d, env);
      p.Some? && p.value.result == AsBuilt(FirstOutcome(codec, a, f, d, env)) && DecodeMetadata(codec, d.headers) == Ok(p.value.m)
  {
    DecodedIsNotBlank(codec, d);
    if f == Reservations {
      FirstReservationAnswer(a, DecodeReservation(codec, d).value, env);
    } else {
      FirstReleaseAnswer(a, DecodeRelease(codec, d).value, env);
    }
  }

  /** Exactly one publish of the outcome, which gets through. */
  predicate PublishedOnce(w: Conditions) {
    w.publishMode != PublishFailure && w.publishMode != DuplicateResponse && w.first == Accepted
  }

  lemma OneLands(p: Option<Processed>, w: Conditions, kp: (RoutingKey, Payload))
    requires PublishedOnce(w) && p.Some? && p.value.result == Ok(Built(kp))
    ensures LandedOutcomes(p, w) == [OutcomeOf(kp, p.value.m, w.firstId, w.firstAt)] && Answered(p, w)
  {
  }

  lemma OneRecord(epoch: nat, f: Flow, o: nat, message: OutcomeMessage)
    ensures Records(epoch, f, o, [message]) == [Record(epoch, f, o, message)]
  {
  }

  lemma OneOutcomeGained(codec: Codec, max: int, s: System, e: Event, m: Metadata, kp: (RoutingKey, Payload))
    requires e.HandleOne? && Enabled(s, e) && PublishedOnce(e.w) && ProcessedBy(codec, s, e).Some?
    requires ProcessedBy(codec, s, e).value.m == m && ProcessedBy(codec, s, e).value.result == Ok(Built(kp))
    ensures
      Next(codec, max, s, e).outcomes ==
        s.outcomes + [Record(s.epoch, e.flow, e.copy.origin, OutcomeOf(kp, m, e.w.firstId, e.w.firstAt))]
  {
    HandledNext(codec, max, s, e);
    ConcludedOutcomes(max, s.app, ProcessedBy(codec, s, e), e.w);
    OneLands(ProcessedBy(codec, s, e), e.w, kp);
    OneRecord(s.epoch, e.flow, e.copy.origin, OutcomeOf(kp, m, e.w.firstId, e.w.firstAt));
  }

  /**
   * The first delivery of a key, if nothing goes wrong: a reservation is confirmed with the current time if the stock
   * suffices, refused as out of stock if not, refused by the failure mode if that says so, and dropped if its reservation
   * exists; a release is answered with the current time, as not found, or as not active. That outcome is published once,
   * and the delivery is acknowledged.
   */
  lemma FirstOutcomeIsPublished(codec: Codec, max: int, s: System, e: Event)
    requires e.HandleOne? && Enabled(s, e) && HandlerInvariant.Inv(s.app) && ExactlyOnce.Live(e.w.env)
    requires FirstSeen(codec, s.app, e.flow, e.copy.d) && PublishedOnce(e.w)
    ensures DecodeMetadata(codec, e.copy.d.headers).Ok?
    ensures
      var m := DecodeMetadata(codec, e.copy.d.headers).value;
      var s' := Next(codec, max, s, e);
      match FirstOutcome(codec, s.app, e.flow, e.copy.d, e.w.env)
      case Ok(kp) =>
        && s'.outcomes == s.outcomes + [Record(s.epoch, e.flow, e.copy.origin, OutcomeOf(kp, m, e.w.firstId, e.w.firstAt))]
        && QueuesOf(s', e.flow) == Settled(QueuesOf(s, e.flow), e)
      case Err(error) => error == ReservationAlreadyExists && s'.outcomes == s.outcomes
  {
    FirstIsProcessed(codec, s.app, e.flow, e.copy.d, e.w.env);
    var r := FirstOutcome(codec, s.app, e.flow, e.copy.d, e.w.env);
    if r.Ok? {
      OneLands(ProcessedBy(codec, s, e), e.w, r.value);
      OneOutcomeGained(codec, max, s, e, DecodeMetadata(codec, e.copy.d.headers).value, r.value);
      AnsweredIsAcknowledged(codec, max, s, e);
    } else {
      HopelessIsDropped(codec, max, s, e);
    }
  }
}
