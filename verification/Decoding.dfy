/** What a message must hold to be accepted, field by field, and what it then means. */
module Decoding {
  import opened Prelude
  import opened Text
  import opened Requests
  import opened Messages

  // ---------------------------------------------------------------------------
  // Headers
  // ---------------------------------------------------------------------------

  /** The header is there, and holds this text, which is not blank. */
  predicate HasText(h: Headers, name: string, text: string) {
    name in h && h[name] == HString(text) && !AllSpace(text)
  }

  /** The header is there, and holds this integer in one of the library's types. */
  predicate HasInteger(h: Headers, name: string, n: int) {
    name in h && (h[name] == HInt(n) || h[name] == HInt32(n) || h[name] == HInt64(n))
  }

  const HEX := "0123456789abcdefABCDEF"

  lemma HexDigits(c: char)
    ensures IsHexDigit(c) <==> c in HEX
  {
    if '0' <= c <= '9' {
      assert HEX[c as int - '0' as int] == c;
    } else if 'a' <= c <= 'f' {
      assert HEX[c as int - 'a' as int + 10] == c;
    } else if 'A' <= c <= 'F' {
      assert HEX[c as int - 'A' as int + 16] == c;
    } else {
      assert forall i | 0 <= i < |HEX| :: IsHexDigit(HEX[i]);
    }
  }

  predicate AllHex(s: string, n: nat) {
    |s| == n && forall i | 0 <= i < n :: s[i] in HEX
  }

  /** Five groups of hexadecimal digits joined by hyphens. */
  predicate Groups(s: string, a: string, b: string, c: string, d: string, e: string) {
    && AllHex(a, 8) && AllHex(b, 4) && AllHex(c, 4) && AllHex(d, 4) && AllHex(e, 12)
    && s == a + "-" + b + "-" + c + "-" + d + "-" + e
  }

  ghost predicate UuidText(s: string) {
    exists a, b, c, d, e :: Groups(s, a, b, c, d, e)
  }

  lemma UuidIff(s: string)
    ensures IsUuid(s) <==> UuidText(s)
  {
    forall c: char ensures IsHexDigit(c) <==> c in HEX { HexDigits(c); }
    if IsUuid(s) { GroupsOfUuid(s); }
    if UuidText(s) {
      var a, b, c, d, e :| Groups(s, a, b, c, d, e);
      UuidOfGroups(s, a, b, c, d, e);
    }
  }

  lemma GroupsOfUuid(s: string)
    requires IsUuid(s) && forall c: char :: IsHexDigit(c) <==> c in HEX
    ensures UuidText(s)
  {
    assert s[8] == '-' && s[13] == '-' && s[18] == '-' && s[23] == '-';
    assert Groups(s, s[..8], s[9..13], s[14..18], s[19..23], s[24..]);
  }

  lemma UuidOfGroups(s: string, a: string, b: string, c: string, d: string, e: string)
    requires Groups(s, a, b, c, d, e) && forall c: char :: IsHexDigit(c) <==> c in HEX
    ensures IsUuid(s)
  {
    forall i | 0 <= i < 36 ensures if i in {8, 13, 18, 23} then s[i] == '-' else IsHexDigit(s[i]) {
      if i < 8 { assert s[i] == a[i]; }
      else if 8 < i < 13 { assert s[i] == b[i - 9]; }
      else if 13 < i < 18 { assert s[i] == c[i - 14]; }
      else if 18 < i < 23 { assert s[i] == d[i - 19]; }
      else if 23 < i { assert s[i] == e[i - 24]; }
    }
  }

  // ---------------------------------------------------------------------------
  // Metadata
  // ---------------------------------------------------------------------------

  /** The headers carry this metadata. */
  ghost predicate Carries(codec: Codec, h: Headers, m: Metadata) {
    && HasText(h, "message_id", m.messageId) && UuidText(m.messageId)
    && HasText(h, "correlation_id", m.correlationId) && UuidText(m.correlationId)
    && HasText(h, "causation_id", m.causationId)
    && HasText(h, "idempotency_key", m.idempotencyKey)
    && (exists text :: HasText(h, "occurred_at", text) && codec.parseTime(text) == Some(m.occurredAt))
    && HasInteger(h, "schema_version", 1) && m.schemaVersion == 1
    && HasInteger(h, "retry_count", m.retryCount) && 0 <= m.retryCount
  }

  lemma TextIff(h: Headers, name: string)
    ensures RequiredString(h, name) ==
              if exists text :: HasText(h, name, text) then Ok(h[name].s) else Err(InvalidMessage)
    ensures forall text :: RequiredString(h, name) == Ok(text) <==> HasText(h, name, text)
  {
    if name in h && h[name].HString? {
      BlankIffAllSpace(h[name].s);
      assert HasText(h, name, h[name].s) <==> !AllSpace(h[name].s);
    }
  }

  lemma UuidHeaderIff(h: Headers, name: string, text: string)
    ensures RequiredUuid(h, name) == Ok(text) <==> HasText(h, name, text) && UuidText(text)
    ensures RequiredUuid(h, name).Ok? || RequiredUuid(h, name) == Err(InvalidMessage)
  {
    TextIff(h, name);
    UuidIff(text);
  }

  lemma IntegerIff(h: Headers, name: string, n: int)
    ensures RequiredInteger(h, name) == Ok(n) <==> HasInteger(h, name, n)
    ensures RequiredInteger(h, name).Ok? || RequiredInteger(h, name) == Err(InvalidMessage)
  {
  }

  /** Metadata is decoded exactly if the headers carry it; nothing but an invalid message is ever reported otherwise. */
  lemma MetadataIff(codec: Codec, h: Headers, m: Metadata)
    ensures DecodeMetadata(codec, h) == Ok(m) <==> Carries(codec, h, m)
    ensures DecodeMetadata(codec, h).Ok? || DecodeMetadata(codec, h) == Err(InvalidMessage)
  {
    FixedIff(codec, h, m);
    IntegerIff(h, "retry_count", m.retryCount);
  }

  ghost predicate CarriesFixed(codec: Codec, h: Headers, m: Metadata) {
    && HasText(h, "message_id", m.messageId) && UuidText(m.messageId)
    && HasText(h, "correlation_id", m.correlationId) && UuidText(m.correlationId)
    && HasText(h, "causation_id", m.causationId)
    && HasText(h, "idempotency_key", m.idempotencyKey)
    && (exists text :: HasText(h, "occurred_at", text) && codec.parseTime(text) == Some(m.occurredAt))
    && HasInteger(h, "schema_version", 1) && m.schemaVersion == 1
  }

  lemma FixedIff(codec: Codec, h: Headers, m: Metadata)
    ensures DecodeFixed(codec, h) == Ok(m.(retryCount := 0)) <==> CarriesFixed(codec, h, m)
    ensures DecodeFixed(codec, h).Ok? || DecodeFixed(codec, h) == Err(InvalidMessage)
  {
    UuidHeaderIff(h, "message_id", m.messageId);
    UuidHeaderIff(h, "correlation_id", m.correlationId);
    TextIff(h, "causation_id");
    TextIff(h, "idempotency_key");
    TextIff(h, "occurred_at");
    IntegerIff(h, "schema_version", 1);
  }

  // ---------------------------------------------------------------------------
  // Requests
  // ---------------------------------------------------------------------------

  /** A reservation request is decoded exactly if headers and body carry it. */
  lemma ReservationIff(codec: Codec, d: Delivery, req: ReservationRequest)
    ensures DecodeReservation(codec, d) == Ok(req) <==>
              && Carries(codec, d.headers, req.metadata)
              && codec.parseReservation(d.body) == Some(ReservationPayload(req.reservationId, req.orderId, req.sku, req.quantity))
              && !AllSpace(req.reservationId) && !AllSpace(req.orderId) && !AllSpace(req.sku) && 0 < req.quantity
    ensures DecodeReservation(codec, d).Ok? || DecodeReservation(codec, d) == Err(InvalidMessage)
  {
    MetadataIff(codec, d.headers, req.metadata);
    BlankIffAllSpace(req.reservationId);
    BlankIffAllSpace(req.orderId);
    BlankIffAllSpace(req.sku);
  }

  /** A release request is decoded exactly if headers and body carry it; its reason may be blank. */
  lemma ReleaseIff(codec: Codec, d: Delivery, req: ReleaseRequest)
    ensures DecodeRelease(codec, d) == Ok(req) <==>
              && Carries(codec, d.headers, req.metadata)
              && codec.parseRelease(d.body) == Some(ReleasePayload(req.reservationId, req.reason))
              && !AllSpace(req.reservationId)
    ensures DecodeRelease(codec, d).Ok? || DecodeRelease(codec, d) == Err(InvalidMessage)
  {
    MetadataIff(codec, d.headers, req.metadata);
    BlankIffAllSpace(req.reservationId);
  }
}
