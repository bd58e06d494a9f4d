/** Requests, results and failure modes as the application layer passes them around. */
module Requests {
  import opened Prelude
  import opened Inventory

  datatype Metadata = Metadata(
    messageId: string, correlationId: string, causationId: string, idempotencyKey: string,
    occurredAt: Time, schemaVersion: int, retryCount: int)

  datatype ReservationRequest = ReservationRequest(
    metadata: Metadata, reservationId: string, orderId: string, sku: string, quantity: int)

  datatype ReleaseRequest = ReleaseRequest(metadata: Metadata, reservationId: string, reason: string)

  datatype Decision = Undecided | Confirmed | Rejected

  datatype RejectionReason = NotRejected | OutOfStock | FailureMode

  /** `reservation` is None where the service leaves the zero reservation. */
  datatype ReservationResult = ReservationResult(
    decision: Decision, idempotencyHit: bool, request: ReservationRequest,
    reservation: Option<Reservation>, reason: RejectionReason)

  datatype ReleaseDecision = ReleaseUndecided | ReleaseDone | ReleaseFailed

  datatype ReleaseFailure = NotFailed | NotFound | NotActive

  datatype ReleaseResult = ReleaseResult(
    decision: ReleaseDecision, failure: ReleaseFailure, idempotencyHit: bool,
    request: ReleaseRequest, reservation: Option<Reservation>)

  datatype Mode = Normal | AlwaysReject | RandomReject | ProcessingDelay | PublishFailure | DuplicateResponse

  predicate SameReservation(left: ReservationRequest, right: ReservationRequest) {
    && left.reservationId == right.reservationId
    && left.orderId == right.orderId
    && left.sku == right.sku
    && left.quantity == right.quantity
  }

  /** Two requests are the same exactly when they differ in nothing but the message they came with. */
  lemma SameReservationIff(x: ReservationRequest, y: ReservationRequest)
    ensures SameReservation(x, y) <==> x.(metadata := y.metadata) == y
  {
  }

  lemma SameReleaseIff(x: ReleaseRequest, y: ReleaseRequest)
    ensures SameRelease(x, y) <==> x.(metadata := y.metadata) == y
  {
  }

  predicate SameRelease(left: ReleaseRequest, right: ReleaseRequest) {
    left.reservationId == right.reservationId && left.reason == right.reason
  }
}
