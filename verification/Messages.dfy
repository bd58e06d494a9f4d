/** Broker messages: decoding requests from headers and body, and forwarding a delivery with a new retry count. */
module Messages {
  import opened Prelude
  import opened Text
  import opened Requests

  /** A header value. The library hands integers over as one of three types, each kept with its width. */
  datatype Header = HString(s: string) | HInt(n: int) | HInt32(n: int) | HInt64(n: int) | HOther

  type Headers = map<string, Header>

  datatype Delivery = Delivery(
    headers: Headers, contentType: string, correlationId: string, messageId: string, timestamp: Time, body: string)

  datatype Publishing = Publishing(
    headers: Headers, contentType: string, persistent: bool, correlationId: string, messageId: string,
    timestamp: Time, body: string)

  datatype ReservationPayload = ReservationPayload(reservationId: string, orderId: string, sku: string, quantity: int)

  datatype ReleasePayload = ReleasePayload(reservationId: string, reason: string)

  /** Library parsers: RFC 3339 timestamps, and bodies holding a single JSON object without unknown fields. */
  datatype Codec = Codec(
    parseTime: string -> Option<Time>,
    parseReservation: string -> Option<ReservationPayload>,
    parseRelease: string -> Option<ReleasePayload>)

  const MESSAGE_ID := "message_id"
  const CORRELATION_ID := "correlation_id"
  const CAUSATION_ID := "causation_id"
  const IDEMPOTENCY_KEY := "idempotency_key"
  const OCCURRED_AT := "occurred_at"
  const SCHEMA_VERSION := "schema_version"
  const RETRY_COUNT := "retry_count"

  // ---------------------------------------------------------------------------
  // Decoding
  // ---------------------------------------------------------------------------

  predicate IsHexDigit(c: char) {
    '0' <= c <= '9' || 'a' <= c <= 'f' || 'A' <= c <= 'F'
  }

  predicate IsUuid(s: string) {
    && |s| == 36
    && forall i | 0 <= i < 36 :: if i in {8, 13, 18, 23} then s[i] == '-' else IsHexDigit(s[i])
  }

  function RequiredString(h: Headers, name: string): Result<string> {
    if name in h && h[name].HString? && Trim(h[name].s) != "" then Ok(h[name].s) else Err(InvalidMessage)
  }

  function RequiredUuid(h: Headers, name: string): Result<string> {
    match RequiredString(h, name)
    case Err(e) => Err(e)
    case Ok(s) => if IsUuid(s) then Ok(s) else Err(InvalidMessage)
  }

  function RequiredInteger(h: Headers, name: string): Result<int> {
    if name !in h then Err(InvalidMessage)
    else
      match h[name]
      case HInt(n) => Ok(n)
      case HInt32(n) => Ok(n)
      case HInt64(n) => Ok(n)
      case _ => Err(InvalidMessage)
  }

  /** Everything but the retry count, in the order in which the service checks it. */
  function DecodeFixed(codec: Codec, h: Headers): Result<Metadata> {
    var messageId := RequiredUuid(h, MESSAGE_ID);
    if messageId.Err? then Err(InvalidMessage) else
    var correlationId := RequiredUuid(h, CORRELATION_ID);
    if correlationId.Err? then Err(InvalidMessage) else
    var causationId := RequiredString(h, CAUSATION_ID);
    if causationId.Err? then Err(InvalidMessage) else
    var key := RequiredString(h, IDEMPOTENCY_KEY);
    if key.Err? then Err(InvalidMessage) else
    var occurred := RequiredString(h, OCCURRED_AT);
    if occurred.Err? then Err(InvalidMessage) else
    var occurredAt := codec.parseTime(occurred.value);
    if occurredAt.None? then Err(InvalidMessage) else
    var version := RequiredInteger(h, SCHEMA_VERSION);
    if version.Err? || version.value != 1 then Err(InvalidMessage) else
    Ok(Metadata(messageId.value, correlationId.value, causationId.value, key.value, occurredAt.value, version.value, 0))
  }

  function DecodeMetadata(codec: Codec, h: Headers): Result<Metadata> {
    match DecodeFixed(codec, h)
    case Err(e) => Err(e)
    case Ok(m) =>
      var count := RequiredInteger(h, RETRY_COUNT);
      if count.Err? || count.value < 0 then Err(InvalidMessage) else Ok(m.(retryCount := count.value))
  }

  function DecodeReservation(codec: Codec, d: Delivery): Result<ReservationRequest> {
    match DecodeMetadata(codec, d.headers)
    case Err(e) => Err(e)
    case Ok(m) =>
      match codec.parseReservation(d.body)
      case None => Err(InvalidMessage)
      case Some(p) =>
        if Trim(p.reservationId) == "" || Trim(p.orderId) == "" || Trim(p.sku) == "" || p.quantity <= 0
        then Err(InvalidMessage)
        else Ok(ReservationRequest(m, p.reservationId, p.orderId, p.sku, p.quantity))
  }

  function DecodeRelease(codec: Codec, d: Delivery): Result<ReleaseRequest> {
    match DecodeMetadata(codec, d.headers)
    case Err(e) => Err(e)
    case Ok(m) =>
      match codec.parseRelease(d.body)
      case None => Err(InvalidMessage)
      case Some(p) =>
        if Trim(p.reservationId) == "" then Err(InvalidMessage)
        else Ok(ReleaseRequest(m, p.reservationId, p.reason))
  }

  // ---------------------------------------------------------------------------
  // Forwarding
  // ---------------------------------------------------------------------------

  /** A delivery republished with a new retry count, which is truncated to 32 bits. */
  function Forward(d: Delivery, retryCount: int): Publishing {
    Publishing(d.headers[RETRY_COUNT := HInt32(Wrap32(retryCount))],
               d.contentType, true, d.correlationId, d.messageId, d.timestamp, d.body)
  }

  /** The loop that builds the forwarded message copies every header before it sets the count. */
  method NewForwardedDelivery(d: Delivery, retryCount: int) returns (p: Publishing)
    ensures p == Forward(d, retryCount)
    ensures p.contentType == d.contentType && p.correlationId == d.correlationId && p.messageId == d.messageId
    ensures p.timestamp == d.timestamp && p.body == d.body && p.persistent
    ensures p.headers.Keys == d.headers.Keys + {"retry_count"} && p.headers["retry_count"] == HInt32(Wrap32(retryCount))
    ensures forall name | name in d.headers && name != "retry_count" :: p.headers[name] == d.headers[name]
  {
    var headers: Headers := map[];
    var todo := d.headers.Keys;
    while todo != {}
      invariant todo <= d.headers.Keys
      invariant headers.Keys == d.headers.Keys - todo
      invariant forall name | name in headers :: headers[name] == d.headers[name]
      decreases |todo|
    {
      var name :| name in todo;
      headers := headers[name := d.headers[name]];
      todo := todo - {name};
    }
    assert headers == d.headers;
    headers := headers[RETRY_COUNT := HInt32(Wrap32(retryCount))];
    p := Publishing(headers, d.contentType, true, d.correlationId, d.messageId, d.timestamp, d.body);
  }

  /** What a consumer receives of a published message: the broker may have added headers of its own. */
  function Delivered(p: Publishing, added: Headers): Delivery {
    Delivery(p.headers + added, p.contentType, p.correlationId, p.messageId, p.timestamp, p.body)
  }

  /** Headers a broker adds, such as its death records, never use the names of the message contract. */
  predicate BrokerHeaders(added: Headers) {
    && MESSAGE_ID !in added && CORRELATION_ID !in added && CAUSATION_ID !in added && IDEMPOTENCY_KEY !in added
    && OCCURRED_AT !in added && SCHEMA_VERSION !in added && RETRY_COUNT !in added
  }

  lemma RetryCountIsItsOwnName()
    ensures MESSAGE_ID != RETRY_COUNT && CORRELATION_ID != RETRY_COUNT && CAUSATION_ID != RETRY_COUNT
    ensures IDEMPOTENCY_KEY != RETRY_COUNT && OCCURRED_AT != RETRY_COUNT && SCHEMA_VERSION != RETRY_COUNT
  {
    assert OCCURRED_AT[0] != RETRY_COUNT[0];
  }

  /** Two header tables that agree on the contract's names, the retry count aside. */
  predicate SameButCount(h: Headers, g: Headers) {
    forall name | name in {MESSAGE_ID, CORRELATION_ID, CAUSATION_ID, IDEMPOTENCY_KEY, OCCURRED_AT, SCHEMA_VERSION} ::
      (name in h <==> name in g) && (name in h ==> h[name] == g[name])
  }

  lemma FixedPartIsSame(codec: Codec, h: Headers, g: Headers)
    requires SameButCount(h, g)
    ensures DecodeFixed(codec, h) == DecodeFixed(codec, g)
  {
    var names := {MESSAGE_ID, CORRELATION_ID, CAUSATION_ID, IDEMPOTENCY_KEY, OCCURRED_AT, SCHEMA_VERSION};
    assert forall name | name in names :: RequiredString(h, name) == RequiredString(g, name);
    assert forall name | name in names :: RequiredInteger(h, name) == RequiredInteger(g, name);
    assert MESSAGE_ID in names && CORRELATION_ID in names && CAUSATION_ID in names;
    assert IDEMPOTENCY_KEY in names && OCCURRED_AT in names && SCHEMA_VERSION in names;
  }

  lemma ForwardedHeaders(d: Delivery, n: int, added: Headers)
    requires BrokerHeaders(added)
    ensures SameButCount(Delivered(Forward(d, n), added).headers, d.headers)
    ensures RequiredInteger(Delivered(Forward(d, n), added).headers, RETRY_COUNT) == Ok(Wrap32(n))
  {
    RetryCountIsItsOwnName();
  }

  /** Whatever the forwarded count, the rest of the metadata decodes as before, and the count as its low 32 bits. */
  lemma ForwardedMetadata(codec: Codec, d: Delivery, n: int, added: Headers)
    requires BrokerHeaders(added) && DecodeMetadata(codec, d.headers).Ok?
    ensures DecodeMetadata(codec, Delivered(Forward(d, n), added).headers) ==
              if 0 <= Wrap32(n) then Ok(DecodeMetadata(codec, d.headers).value.(retryCount := Wrap32(n)))
              else Err(InvalidMessage)
  {
    ForwardedHeaders(d, n, added);
    FixedPartIsSame(codec, Delivered(Forward(d, n), added).headers, d.headers);
  }

  /**
   * Forwarding round trip: a decodable request comes back with nothing but its retry count replaced by `n`
   * if and only if `n` is a non-negative 32-bit integer.
   */
  lemma ForwardRoundTrip(codec: Codec, d: Delivery, n: int, added: Headers)
    requires BrokerHeaders(added) && DecodeReservation(codec, d).Ok?
    ensures
      var req := DecodeReservation(codec, d).value;
      0 <= n <= MAX_INT32 <==>
        DecodeReservation(codec, Delivered(Forward(d, n), added)) ==
          Ok(req.(metadata := req.metadata.(retryCount := n)))
  {
    ForwardedMetadata(codec, d, n, added);
  }

  lemma ForwardReleaseRoundTrip(codec: Codec, d: Delivery, n: int, added: Headers)
    requires BrokerHeaders(added) && DecodeRelease(codec, d).Ok?
    ensures
      var req := DecodeRelease(codec, d).value;
      0 <= n <= MAX_INT32 <==>
        DecodeRelease(codec, Delivered(Forward(d, n), added)) ==
          Ok(req.(metadata := req.metadata.(retryCount := n)))
  {
    ForwardedMetadata(codec, d, n, added);
  }

  /** Forwarding twice is forwarding once with the last count; broker headers ride along. */
  lemma ForwardTwice(d: Delivery, m: int, n: int, added: Headers)
    requires BrokerHeaders(added)
    ensures Forward(Delivered(Forward(d, m), added), n) ==
              Forward(d.(headers := d.headers + added), n)
    ensures Forward(Delivered(Forward(d, m), map[]), n) == Forward(d, n)
  {
    var h := d.headers;
    assert (h[RETRY_COUNT := HInt32(Wrap32(m))] + added)[RETRY_COUNT := HInt32(Wrap32(n))] ==
           (h + added)[RETRY_COUNT := HInt32(Wrap32(n))];
    assert (h[RETRY_COUNT := HInt32(Wrap32(m))] + map[])[RETRY_COUNT := HInt32(Wrap32(n))] ==
           h[RETRY_COUNT := HInt32(Wrap32(n))];
  }

  /** Headers the broker adds never change what a message decodes to. */
  lemma BrokerHeadersAreInvisible(codec: Codec, d: Delivery, added: Headers)
    requires BrokerHeaders(added)
    ensures DecodeReservation(codec, d.(headers := d.headers + added)) == DecodeReservation(codec, d)
    ensures DecodeRelease(codec, d.(headers := d.headers + added)) == DecodeRelease(codec, d)
  {
    FixedPartIsSame(codec, d.headers + added, d.headers);
    assert RequiredInteger(d.headers + added, RETRY_COUNT) == RequiredInteger(d.headers, RETRY_COUNT);
  }
}
