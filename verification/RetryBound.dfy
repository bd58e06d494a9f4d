/** How often one copy of a request can be retried. */
module RetryBound {
  import opened Prelude
  import opened Messages
  import opened Delivery

  function CountOf(codec: Codec, d: Messages.Delivery): int
    requires DecodeMetadata(codec, d.headers).Ok?
  {
    DecodeMetadata(codec, d.headers).value.retryCount
  }

  /** `d` was retried, and `d'` is what came back through the retry queue. */
  ghost predicate Hop(codec: Codec, max: int, d: Messages.Delivery, d': Messages.Delivery) {
    && DecodeMetadata(codec, d.headers).Ok?
    && var forwarding := RetryOrDeadLetter(max, CountOf(codec, d));
       && forwarding.ToRetry?
       && exists added :: BrokerHeaders(added) && d' == Delivered(Forward(d, forwarding.count), added)
  }

  /** A hop raises the count by one, without passing the maximum, exactly for counts below the 32-bit limit. */
  lemma HopRaisesCount(codec: Codec, max: int, d: Messages.Delivery, d': Messages.Delivery)
    requires max <= MAX_INT64 && Hop(codec, max, d, d') && IsInt64(CountOf(codec, d))
    ensures
      (&& DecodeMetadata(codec, d'.headers).Ok?
       && CountOf(codec, d') == CountOf(codec, d) + 1
       && CountOf(codec, d') <= max)
      <==> CountOf(codec, d) < MAX_INT32
    ensures DecodeMetadata(codec, d'.headers).Ok? ==> CountOf(codec, d') <= MAX_INT32
  {
    var r := CountOf(codec, d);
    var n := RetryOrDeadLetter(max, r).count;
    var added :| BrokerHeaders(added) && d' == Delivered(Forward(d, n), added);
    ForwardedMetadata(codec, d, n, added);
  }

  /** A count at the 64-bit limit wraps around and starts again from zero. */
  lemma TopCountStartsOver(codec: Codec, max: int, d: Messages.Delivery, d': Messages.Delivery)
    requires 0 < max <= MAX_INT64 && Hop(codec, max, d, d') && CountOf(codec, d) == MAX_INT64
    ensures DecodeMetadata(codec, d'.headers).Ok? && CountOf(codec, d') == 0
  {
    var n := RetryOrDeadLetter(max, MAX_INT64).count;
    assert n == -MAX_INT64 - 1 && Wrap32(n) == 0;
    var added :| BrokerHeaders(added) && d' == Delivered(Forward(d, n), added);
    ForwardedMetadata(codec, d, n, added);
  }

  /** The deliveries a copy goes through on its way round the retry queue, all of them decodable. */
  ghost predicate Chain(codec: Codec, max: int, ds: seq<Messages.Delivery>) {
    && |ds| > 0
    && (forall i | 0 <= i < |ds| :: DecodeMetadata(codec, ds[i].headers).Ok?)
    && (forall i | 0 <= i < |ds| - 1 :: Hop(codec, max, ds[i], ds[i + 1]))
  }

  function Limit(max: int): int {
    if max < MAX_INT32 then max else MAX_INT32
  }

  /** A chain's hop stays below the 32-bit limit, since what it forwards is handled again. */
  lemma HandledHop(codec: Codec, max: int, d: Messages.Delivery, d': Messages.Delivery, r: int)
    requires max <= MAX_INT64 && Hop(codec, max, d, d') && DecodeMetadata(codec, d'.headers).Ok?
    requires CountOf(codec, d) == r && 0 <= r <= MAX_INT32
    ensures CountOf(codec, d') == r + 1 <= Limit(max)
  {
    if r < MAX_INT32 {
      HopRaisesCount(codec, max, d, d');
    } else {
      LastHop(codec, max, d, d');
    }
  }

  /** The hop that would leave the 32-bit range makes the message undecodable. */
  lemma LastHop(codec: Codec, max: int, d: Messages.Delivery, d': Messages.Delivery)
    requires max <= MAX_INT64 && Hop(codec, max, d, d') && CountOf(codec, d) == MAX_INT32
    ensures DecodeMetadata(codec, d'.headers).Err?
  {
    var n := RetryOrDeadLetter(max, MAX_INT32).count;
    assert n == MAX_INT32 + 1 && Wrap32(n) == -MAX_INT32 - 1;
    var added :| BrokerHeaders(added) && d' == Delivered(Forward(d, n), added);
    ForwardedMetadata(codec, d, n, added);
  }

  /** Counts that rise by one below a limit are soon exhausted. */
  lemma {:induction false} RisingCounts(cs: seq<int>, limit: int)
    requires |cs| > 0 && 0 <= cs[0] <= MAX_INT32 && limit <= MAX_INT32
    requires forall i | 0 <= i < |cs| - 1 :: 0 <= cs[i] <= MAX_INT32 ==> cs[i + 1] == cs[i] + 1 <= limit
    ensures forall i | 0 <= i < |cs| :: cs[i] == cs[0] + i
    ensures |cs| > 1 ==> |cs| <= limit - cs[0] + 1
    decreases |cs|
  {
    if |cs| > 1 {
      var n := |cs| - 1;
      RisingCounts(cs[..n], limit);
      assert cs[..n][n - 1] == cs[n - 1] && cs[n - 1 + 1] == cs[n];
    }
  }

  lemma CountIsNatural(codec: Codec, d: Messages.Delivery)
    requires DecodeMetadata(codec, d.headers).Ok?
    ensures 0 <= CountOf(codec, d)
  {
  }

  /**
   * The retry bound: along any chain the counts go up by one, so a copy that starts at `r` is handled at most
   * `max - r + 1` times, and never more often than 32-bit counts allow.
   */
  lemma RetriesAreBounded(codec: Codec, max: int, ds: seq<Messages.Delivery>)
    requires 0 < max <= MAX_INT64 && Chain(codec, max, ds) && CountOf(codec, ds[0]) <= MAX_INT32
    ensures forall i | 0 <= i < |ds| :: CountOf(codec, ds[i]) == CountOf(codec, ds[0]) + i
    ensures |ds| > 1 ==> |ds| <= Limit(max) - CountOf(codec, ds[0]) + 1
  {
    var cs := seq(|ds|, i requires 0 <= i < |ds| => CountOf(codec, ds[i]));
    CountIsNatural(codec, ds[0]);
    forall i | 0 <= i < |cs| - 1 && 0 <= cs[i] <= MAX_INT32 ensures cs[i + 1] == cs[i] + 1 <= Limit(max) {
      HandledHop(codec, max, ds[i], ds[i + 1], cs[i]);
    }
    RisingCounts(cs, Limit(max));
    assert forall i | 0 <= i < |ds| :: CountOf(codec, ds[i]) == cs[i];
  }
}
