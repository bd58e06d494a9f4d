/** What every copy of a request decodes to, and when all of them stay readable. */
module ReadableCopies {
  import opened Prelude
  import Ledger
  import opened Requests
  import Handlers
  import HandlerInvariant
  import opened Messages
  import opened Outcomes
  import opened Delivery
  import opened NoLoss
  import opened RetryBound
  import Agreement
  import opened RunParts
  import opened RetryRuns

  /** The count that a copy carries after the first time it is forwarded. */
  function FirstCount(max: int, sent: int): int {
    Wrap32(RetryOrDeadLetter(max, sent).count)
  }

  /** A retry count that a copy may carry if the request was sent with count `sent`. */
  predicate CountFits(max: int, sent: int, r: int) {
    && (r <= max || r <= sent)
    && (r <= MAX_INT32 || r == sent)
    && (max <= MAX_INT32 && 0 <= FirstCount(max, sent) ==> 0 <= r)
  }

  /** A copy of a readable request carries a fitting retry count. */
  predicate CountOk(codec: Codec, max: int, s: System, f: Flow, c: Copy) {
    && (f, c.origin) in s.sent
    && var d := s.sent[(f, c.origin)];
       DecodeMetadata(codec, d.headers).Ok? ==>
         && var r := RequiredInteger(c.d.headers, RETRY_COUNT);
            r.Ok? && CountFits(max, CountOf(codec, d), r.value)
  }

  ghost predicate CountsOk(codec: Codec, max: int, s: System) {
    forall f, c {:trigger CountOk(codec, max, s, f, c)} | InSome(QueuesOf(s, f), c) :: CountOk(codec, max, s, f, c)
  }

  // ---------------------------------------------------------------------------
  // The copies a step makes
  // ---------------------------------------------------------------------------

  /** A hop or the move to the dead-letter queue keeps the count fitting, even where it is cut or wraps around. */
  lemma NextCountFits(max: int, sent: int, r: int)
    requires 0 < max && 0 <= sent && 0 <= r && CountFits(max, sent, r)
    ensures CountFits(max, sent, FirstCount(max, r))
  {
    if r <= MAX_INT32 {
      assert Wrap64(r + 1) == r + 1;
      if r == MAX_INT32 { assert Wrap32(r + 1) == -MAX_INT32 - 1; }
    }
  }

  lemma AddedHeadersKeepCount(codec: Codec, max: int, s: System, f: Flow, c: Copy, added: Headers)
    requires CountOk(codec, max, s, f, c) && BrokerHeaders(added)
    ensures CountOk(codec, max, s, f, WithHeaders(c, added))
  {
    assert RequiredInteger(c.d.headers + added, RETRY_COUNT) == RequiredInteger(c.d.headers, RETRY_COUNT);
  }

  lemma ForwardedCountIs(c: Copy, n: int)
    ensures RequiredInteger(Forwarded(c, n).d.headers, RETRY_COUNT) == Ok(Wrap32(n))
  {
    ForwardedHeaders(c.d, n, map[]);
  }

  lemma ResetKeepsCount(codec: Codec, max: int, s: System, f: Flow, c: Copy)
    requires CountOk(codec, max, s, f, c) && 0 < max
    ensures CountOk(codec, max, s, f, Forwarded(c, 0))
  {
    ForwardedCountIs(c, 0);
  }

  lemma RetryKeepsCount(codec: Codec, max: int, s: System, f: Flow, c: Copy)
    requires CountOk(codec, max, s, f, c) && 0 < max && DecodeMetadata(codec, c.d.headers).Ok?
    ensures CountOk(codec, max, s, f, ForwardedBy(c, RetryOrDeadLetter(max, CountOf(codec, c.d))))
  {
    var r := CountOf(codec, c.d);
    var d := s.sent[(f, c.origin)];
    CountIsNatural(codec, c.d);
    ForwardedCountIs(c, RetryOrDeadLetter(max, r).count);
    if DecodeMetadata(codec, d.headers).Ok? {
      CountIsNatural(codec, d);
      NextCountFits(max, CountOf(codec, d), r);
    }
  }

  /** What a handled delivery is forwarded with depends on its own retry count only. */
  lemma ForwardingOfHandled(codec: Codec, max: int, a: Handlers.App, f: Flow, d: Messages.Delivery, w: Conditions)
    ensures
      var forwarding := Handle(codec, max, a, f, d, w).forwarding;
      !forwarding.NoForward? ==>
        DecodeMetadata(codec, d.headers).Ok? && forwarding == RetryOrDeadLetter(max, CountOf(codec, d))
  {
    var p := Process(codec, a, f, d, w.env);
    if p.Some? {
      Agreement.ProcessedMetadata(codec, a, f, d, w.env);
      ForwardingOfProcessed(max, a, p, w);
    }
  }

  lemma ForwardingOfProcessed(max: int, a: Handlers.App, p: Option<Processed>, w: Conditions)
    requires p.Some?
    ensures Conclude(max, a, p, w).forwarding in {NoForward, RetryOrDeadLetter(max, p.value.m.retryCount)}
  {
  }

  // ---------------------------------------------------------------------------
  // Every event
  // ---------------------------------------------------------------------------

  lemma MoveKeepsCounts(codec: Codec, max: int, s: System, s': System, f: Flow, gone: Copy, x: Copy, y: Copy)
    requires CountsOk(codec, max, s) && FlowMoves(s, s', f, gone, x, y)
    requires CountOk(codec, max, s, f, x) && CountOk(codec, max, s, f, y)
    ensures CountsOk(codec, max, s')
  {
    forall g, c | InSome(QueuesOf(s', g), c) ensures CountOk(codec, max, s', g, c) {
      if InSome(QueuesOf(s, g), c) { assert CountOk(codec, max, s, g, c); }
    }
  }

  lemma HandleKeepsCounts(codec: Codec, max: int, s: System, e: Event)
    requires CountsOk(codec, max, s) && 0 < max && e.HandleOne? && Enabled(s, e)
    ensures CountsOk(codec, max, Next(codec, max, s, e))
  {
    var (f, c, w) := (e.flow, e.copy, e.w);
    var h := Handle(codec, max, s.app, f, c.d, w);
    HandleMovesFlow(codec, max, s, e);
    assert InSome(QueuesOf(s, f), c) && CountOk(codec, max, s, f, c);
    ForwardingOfHandled(codec, max, s.app, f, c.d, w);
    if !h.forwarding.NoForward? { RetryKeepsCount(codec, max, s, f, c); }
    AddedHeadersKeepCount(codec, max, s, f, c, w.deathHeaders);
    MoveKeepsCounts(codec, max, s, Next(codec, max, s, e), f, c, ForwardedBy(c, h.forwarding), WithHeaders(c, w.deathHeaders));
  }

  lemma SendKeepsCounts(codec: Codec, max: int, s: System, e: Event)
    requires CountsOk(codec, max, s) && e.Send? && Enabled(s, e)
    ensures CountsOk(codec, max, Next(codec, max, s, e))
  {
    var s' := Next(codec, max, s, e);
    forall g, c | InSome(QueuesOf(s', g), c) ensures CountOk(codec, max, s', g, c) {
      if InSome(QueuesOf(s, g), c) {
        assert CountOk(codec, max, s, g, c);
      } else if DecodeMetadata(codec, e.d.headers).Ok? {
        SentCountFits(codec, max, e.d);
      }
    }
  }

  lemma SentCountFits(codec: Codec, max: int, d: Messages.Delivery)
    requires DecodeMetadata(codec, d.headers).Ok?
    ensures RequiredInteger(d.headers, RETRY_COUNT) == Ok(CountOf(codec, d))
    ensures CountFits(max, CountOf(codec, d), CountOf(codec, d))
  {
  }

  /** An event that moves copy `c` of flow `f` and at most puts a new copy `x` in its place. */
  lemma TransferKeepsCounts(codec: Codec, max: int, s: System, f: Flow, q': Queues, c: Copy, x: Copy)
    requires CountsOk(codec, max, s) && Moves(QueuesOf(s, f), q', c, x, x) && CountOk(codec, max, s, f, x)
    ensures CountsOk(codec, max, WithQueues(s, f, q'))
  {
    MoveKeepsCounts(codec, max, s, WithQueues(s, f, q'), f, c, x, x);
  }

  lemma ProcessEventKeepsCounts(codec: Codec, max: int, s: System, e: Event)
    requires CountsOk(codec, max, s) && (e.Restock? || e.Restart?)
    ensures CountsOk(codec, max, Next(codec, max, s, e))
  {
    var s' := Next(codec, max, s, e);
    RecoveredHasTheSame(s.reservations);
    RecoveredHasTheSame(s.releases);
    forall f, c | InSome(QueuesOf(s', f), c) ensures CountOk(codec, max, s', f, c) {
      assert InSome(QueuesOf(s, f), c);
      assert CountOk(codec, max, s, f, c);
    }
  }

  lemma NextKeepsCounts(codec: Codec, max: int, s: System, e: Event)
    requires CountsOk(codec, max, s) && 0 < max && Enabled(s, e)
    ensures CountsOk(codec, max, Next(codec, max, s, e))
  {
    match e
    case Send(_, _, _) => SendKeepsCounts(codec, max, s, e);
    case HandleOne(_, _, _) => HandleKeepsCounts(codec, max, s, e);
    case Restart(_) => ProcessEventKeepsCounts(codec, max, s, e);
    case Restock(_, _, _) => ProcessEventKeepsCounts(codec, max, s, e);
    case Receive(f, c) =>
      TakenMoves(QueuesOf(s, f), c);
      assert InSome(QueuesOf(s, f), c);
      TransferKeepsCounts(codec, max, s, f, Taken(QueuesOf(s, f), c), c, c);
    case Redeliver(f, c) =>
      TakenMoves(QueuesOf(s, f), c);
      assert InSome(QueuesOf(s, f), c);
      TransferKeepsCounts(codec, max, s, f, Returned(QueuesOf(s, f), c), c, c);
    case Expire(f, c, added) =>
      assert InSome(QueuesOf(s, f), c);
      AddedHeadersKeepCount(codec, max, s, f, c, added);
      ExpiredMoves(QueuesOf(s, f), c, added);
      TransferKeepsCounts(codec, max, s, f, Expired(QueuesOf(s, f), c, added), c, WithHeaders(c, added));
    case RequeueDead(f, c, fate, settles) =>
      assert InSome(QueuesOf(s, f), c);
      ResetKeepsCount(codec, max, s, f, c);
      RequeuedMoves(QueuesOf(s, f), c, fate, settles);
      TransferKeepsCounts(codec, max, s, f, Requeued(QueuesOf(s, f), c, fate, settles), c, RequeuedAs(c, fate));
  }

  lemma {:induction false} ReachKeepsCounts(codec: Codec, max: int, l: Ledger.Ledger, es: seq<Event>)
    requires Valid(codec, max, Start(l), es) && 0 < max
    ensures CountsOk(codec, max, Reach(codec, max, Start(l), es))
  {
    if es != [] {
      ReachKeepsCounts(codec, max, l, es[..|es| - 1]);
      NextKeepsCounts(codec, max, Reach(codec, max, Start(l), es[..|es| - 1]), es[|es| - 1]);
    }
  }

  // ---------------------------------------------------------------------------
  // What the copies decode to
  // ---------------------------------------------------------------------------

  /** The copy is the request with only the retry count changed, or unreadable because that count is negative. */
  ghost predicate SaysTheSame(codec: Codec, c: Messages.Delivery, d: Messages.Delivery) {
    && RequiredInteger(c.headers, RETRY_COUNT).Ok?
    && var r := RequiredInteger(c.headers, RETRY_COUNT).value;
       && (DecodeReservation(codec, d).Ok? ==>
             var req := DecodeReservation(codec, d).value;
             DecodeReservation(codec, c) ==
               if 0 <= r then Ok(req.(metadata := req.metadata.(retryCount := r))) else Err(InvalidMessage))
       && (DecodeRelease(codec, d).Ok? ==>
             var req := DecodeRelease(codec, d).value;
             DecodeRelease(codec, c) ==
               if 0 <= r then Ok(req.(metadata := req.metadata.(retryCount := r))) else Err(InvalidMessage))
  }

  lemma SameContractSaysTheSame(codec: Codec, c: Messages.Delivery, d: Messages.Delivery)
    requires RequiredInteger(c.headers, RETRY_COUNT).Ok? && DecodeMetadata(codec, d.headers).Ok?
    requires SameButCount(c.headers, d.headers) && c.body == d.body
    ensures SaysTheSame(codec, c, d)
  {
    FixedPartIsSame(codec, c.headers, d.headers);
  }

  /**
   * In every run, across retries, dead-lettering, redeliveries, manual requeues and restarts, every copy of a readable
   * request decodes to that request with only the retry count changed, unless the count was cut to a negative number.
   * No count exceeds both the maximum and the count sent. None is cut if the maximum is a 32-bit number and the first
   * forwarding does not cut the count.
   */
  lemma CopiesDecodeToTheirRequest(codec: Codec, max: int, l: Ledger.Ledger, es: seq<Event>, f: Flow, c: Copy)
    requires Valid(codec, max, Start(l), es) && 0 < max
    requires InSome(QueuesOf(Reach(codec, max, Start(l), es), f), c)
    ensures
      var sent := Reach(codec, max, Start(l), es).sent;
      && (f, c.origin) in sent
      && var d := sent[(f, c.origin)];
         DecodeMetadata(codec, d.headers).Ok? ==>
           && SaysTheSame(codec, c.d, d)
           && CountFits(max, CountOf(codec, d), RequiredInteger(c.d.headers, RETRY_COUNT).value)
  {
    var s := Reach(codec, max, Start(l), es);
    ReachKeepsCounts(codec, max, l, es);
    CopiesKeepTheirRequest(codec, max, l, es);
    assert CopyOk(s, f, c) && CountOk(codec, max, s, f, c);
    var d := s.sent[(f, c.origin)];
    if DecodeMetadata(codec, d.headers).Ok? { SameContractSaysTheSame(codec, c.d, d); }
  }

  // ---------------------------------------------------------------------------
  // When all copies stay readable
  // ---------------------------------------------------------------------------

  /** Some run leaves a copy of this request that no longer decodes. */
  ghost predicate CanSpoil(codec: Codec, max: int, seed: seq<Ledger.Seed>, f: Flow, d: Messages.Delivery)
    requires Ledger.Seeded(seed).Ok?
  {
    exists es, c :: Spoils(codec, max, seed, f, d, es, c)
  }

  predicate Spoils(codec: Codec, max: int, seed: seq<Ledger.Seed>, f: Flow, d: Messages.Delivery, es: seq<Event>, c: Copy)
    requires Ledger.Seeded(seed).Ok?
  {
    && Valid(codec, max, Start(Ledger.Opened(seed)), es)
    && Spoiled(codec, Reach(codec, max, Start(Ledger.Opened(seed)), es), f, d, c)
  }

  predicate Spoiled(codec: Codec, s: System, f: Flow, d: Messages.Delivery, c: Copy) {
    && (f, c.origin) in s.sent && s.sent[(f, c.origin)] == d
    && InSome(QueuesOf(s, f), c) && !Decodes(codec, f, c.d)
  }

  /**
   * A request of either flow can become unreadable if and only if the maximum is no 32-bit number, or the count it is
   * sent with is cut to a negative number when it is forwarded for the first time.
   */
  lemma SpoilsIff(codec: Codec, max: int, seed: seq<Ledger.Seed>, f: Flow, d: Messages.Delivery)
    requires Ledger.Seeded(seed).Ok? && 0 < max && Decodes(codec, f, d)
    ensures DecodeMetadata(codec, d.headers).Ok?
    ensures CanSpoil(codec, max, seed, f, d) <==> max > MAX_INT32 || FirstCount(max, CountOf(codec, d)) < 0
  {
    DecodesHasCount(codec, f, d);
    if max > MAX_INT32 || FirstCount(max, CountOf(codec, d)) < 0 {
      var es, c := SpoilingRun(codec, max, seed, f, d);
      assert Spoils(codec, max, seed, f, d, es, c);
    }
    if CanSpoil(codec, max, seed, f, d) {
      var es, c :| Spoils(codec, max, seed, f, d, es, c);
      SpoiledOnlyIf(codec, max, seed, f, d, es, c);
    }
  }

  /** For counts as the service writes them, only the maximum matters; the next one up spoils under any maximum. */
  lemma FirstCountOfService(max: int, sent: int)
    requires 0 < max
    ensures 0 <= sent <= MAX_INT32 && max <= MAX_INT32 ==> 0 <= FirstCount(max, sent)
    ensures max <= MAX_INT32 ==> FirstCount(max, MAX_INT32 + 1) < 0
  {
    if 0 <= sent <= MAX_INT32 { assert Wrap64(sent + 1) == sent + 1; }
    assert Wrap64(MAX_INT32 + 2) == MAX_INT32 + 2 && Wrap32(MAX_INT32 + 1) == -MAX_INT32 - 1;
  }

  /**
   * A request sent with a count of at most 2^31-1 can become unreadable if and only if the maximum is larger than that;
   * one sent with count 2^31 always can.
   */
  lemma SpoilsIffMaximumTooLarge(codec: Codec, max: int, seed: seq<Ledger.Seed>, f: Flow, d: Messages.Delivery)
    requires Ledger.Seeded(seed).Ok? && 0 < max && Decodes(codec, f, d)
    ensures DecodeMetadata(codec, d.headers).Ok?
    ensures CountOf(codec, d) <= MAX_INT32 ==> (CanSpoil(codec, max, seed, f, d) <==> max > MAX_INT32)
    ensures CountOf(codec, d) == MAX_INT32 + 1 ==> CanSpoil(codec, max, seed, f, d)
  {
    SpoilsIff(codec, max, seed, f, d);
    CountIsNatural(codec, d);
    FirstCountOfService(max, CountOf(codec, d));
  }

  lemma SpoiledOnlyIf(codec: Codec, max: int, seed: seq<Ledger.Seed>, f: Flow, d: Messages.Delivery, es: seq<Event>, c: Copy)
    requires Ledger.Seeded(seed).Ok? && 0 < max && Decodes(codec, f, d) && Spoils(codec, max, seed, f, d, es, c)
    ensures DecodeMetadata(codec, d.headers).Ok? && (max > MAX_INT32 || FirstCount(max, CountOf(codec, d)) < 0)
  {
    DecodesHasCount(codec, f, d);
    CopiesDecodeToTheirRequest(codec, max, Ledger.Opened(seed), es, f, c);
  }

  // ---------------------------------------------------------------------------
  // The run that spoils a copy
  // ---------------------------------------------------------------------------

  /** A copy of `d` that decodes if its count is not negative. */
  predicate IsCopy(c: Messages.Delivery, d: Messages.Delivery, r: int) {
    SameButCount(c.headers, d.headers) && c.body == d.body && RequiredInteger(c.headers, RETRY_COUNT) == Ok(r)
  }

  lemma CopyDecodesIff(codec: Codec, f: Flow, c: Messages.Delivery, d: Messages.Delivery, r: int)
    requires IsCopy(c, d, r) && Decodes(codec, f, d)
    ensures Decodes(codec, f, c) <==> 0 <= r
    ensures 0 <= r ==> DecodeMetadata(codec, c.headers).Ok? && CountOf(codec, c) == r
  {
    DecodesHasCount(codec, f, d);
    SameContractSaysTheSame(codec, c, d);
    FixedPartIsSame(codec, c.headers, d.headers);
  }

  lemma CopyIsKnown(codec: Codec, a: Handlers.App, f: Flow, c: Messages.Delivery, d: Messages.Delivery, r: int)
    requires IsCopy(c, d, r) && Decodes(codec, f, d) && 0 <= r && Known(codec, a, f, d)
    ensures Known(codec, a, f, c)
  {
    DecodesHasCount(codec, f, d);
    SameContractSaysTheSame(codec, c, d);
  }

  lemma ForwardedIsCopy(c: Copy, d: Messages.Delivery, r: int, n: int)
    requires IsCopy(c.d, d, r)
    ensures IsCopy(Forwarded(c, n).d, d, Wrap32(n))
  {
    ForwardedHeaders(c.d, n, map[]);
  }

  /** The system holds request `d` as number 0, knows it, and has a ready copy of it with count `r`. */
  ghost predicate Climbing(codec: Codec, s: System, f: Flow, d: Messages.Delivery, c: Copy, r: int) {
    && HandlerInvariant.Inv(s.app) && Known(codec, s.app, f, d)
    && (f, 0) in s.sent && s.sent[(f, 0)] == d && c.origin == 0
    && IsCopy(c.d, d, r) && c in QueuesOf(s, f).ready
  }

  /** The same with the copy in the retry queue. */
  ghost predicate Parked(codec: Codec, s: System, f: Flow, d: Messages.Delivery, c: Copy, r: int) {
    && HandlerInvariant.Inv(s.app) && Known(codec, s.app, f, d)
    && (f, 0) in s.sent && s.sent[(f, 0)] == d && c.origin == 0
    && IsCopy(c.d, d, r) && c in QueuesOf(s, f).retry
  }

  /** The same with the copy among the dead letters. */
  ghost predicate Buried(codec: Codec, s: System, f: Flow, d: Messages.Delivery, c: Copy, r: int) {
    && HandlerInvariant.Inv(s.app) && Known(codec, s.app, f, d)
    && (f, 0) in s.sent && s.sent[(f, 0)] == d && c.origin == 0
    && IsCopy(c.d, d, r) && c in QueuesOf(s, f).dead
  }

  /** What is forwarded is in the queue it was sent to. */
  lemma ForwardedArrives(codec: Codec, max: int, q: Queues, c: Copy)
    requires DecodeMetadata(codec, c.d.headers).Ok?
    ensures
      var forwarding := RetryOrDeadLetter(max, CountOf(codec, c.d));
      var q' := AfterAttempt(codec, max, q, c, Accepted);
      Forwarded(c, forwarding.count) in if forwarding.ToRetry? then q'.retry else q'.dead
  {
  }

  lemma FirstForward(codec: Codec, max: int, seed: seq<Ledger.Seed>, f: Flow, d: Messages.Delivery)
    returns (s: System, c: Copy)
    requires Ledger.Seeded(seed).Ok? && Decodes(codec, f, d)
    ensures DecodeMetadata(codec, d.headers).Ok?
    ensures RunsTo(codec, max, Start(Ledger.Opened(seed)), Attempt(f, Copy(0, d), Accepted), s)
    ensures
      var r := CountOf(codec, d);
      if RetryOrDeadLetter(max, r).ToRetry? then Parked(codec, s, f, d, c, FirstCount(max, r))
      else Buried(codec, s, f, d, c, FirstCount(max, r))
  {
    var s0 := Start(Ledger.Opened(seed));
    var sent := Copy(0, d);
    NewProcessAnswers(codec, seed, f, d);
    AttemptPart(codec, max, s0, f, sent, Accepted);
    s := AttemptedSystem(codec, max, s0, f, sent, Accepted);
    ForwardedArrives(codec, max, QueuesOf(s0, f), sent);
    SentIsCopy(codec, f, d);
    var n := RetryOrDeadLetter(max, CountOf(codec, d)).count;
    ForwardedIsCopy(sent, d, CountOf(codec, d), n);
    c := Forwarded(sent, n);
  }

  lemma SentIsCopy(codec: Codec, f: Flow, d: Messages.Delivery)
    requires Decodes(codec, f, d)
    ensures DecodeMetadata(codec, d.headers).Ok? && IsCopy(d, d, CountOf(codec, d))
  {
  }

  lemma NextIsRetry(max: int, r: int)
    requires 0 <= r <= MAX_INT32 && r < max
    ensures RetryOrDeadLetter(max, r) == ToRetry(r + 1)
  {
    assert Wrap64(r + 1) == r + 1;
  }

  lemma ClimbingIsAnswered(codec: Codec, s: System, f: Flow, d: Messages.Delivery, c: Copy, r: int)
    requires Decodes(codec, f, d) && Climbing(codec, s, f, d, c, r) && 0 <= r
    ensures DecodeMetadata(codec, c.d.headers).Ok? && CountOf(codec, c.d) == r
    ensures Answers(codec, s.app, f, c.d, ENV) && AppAfter(codec, s.app, f, c.d, ENV) == s.app
  {
    CopyDecodesIff(codec, f, c.d, d, r);
    CopyIsKnown(codec, s.app, f, c.d, d, r);
    KnownIsAnswered(codec, s.app, f, c.d, PublishFailure);
  }

  lemma RoundParks(codec: Codec, max: int, s: System, f: Flow, d: Messages.Delivery, c: Copy, r: int)
    requires Climbing(codec, s, f, d, c, r) && DecodeMetadata(codec, c.d.headers).Ok? && CountOf(codec, c.d) == r
    requires AppAfter(codec, s.app, f, c.d, ENV) == s.app && RetryOrDeadLetter(max, r) == ToRetry(r + 1)
    ensures Parked(codec, RoundSystem(codec, max, s, f, c, Accepted), f, d, Forwarded(c, r + 1), Wrap32(r + 1))
  {
    var q := QueuesOf(s, f);
    ForwardedArrives(codec, max, q.(ready := q.ready - multiset{c}), c);
    ForwardedIsCopy(c, d, r, r + 1);
  }

  /** A round takes a ready copy one step up. */
  lemma ClimbRound(codec: Codec, max: int, s: System, f: Flow, d: Messages.Delivery, c: Copy, r: int)
    returns (s': System, c': Copy)
    requires Decodes(codec, f, d) && Climbing(codec, s, f, d, c, r) && 0 <= r <= MAX_INT32 && r < max
    ensures RunsTo(codec, max, s, Round(f, c, Accepted), s') && Parked(codec, s', f, d, c', Wrap32(r + 1))
  {
    ClimbingIsAnswered(codec, s, f, d, c, r);
    NextIsRetry(max, r);
    RoundPart(codec, max, s, f, c, Accepted);
    RoundParks(codec, max, s, f, d, c, r);
    s', c' := RoundSystem(codec, max, s, f, c, Accepted), Forwarded(c, r + 1);
  }

  /** A parked copy expires and is ready again. */
  lemma Unpark(codec: Codec, max: int, s: System, f: Flow, d: Messages.Delivery, c: Copy, r: int)
    returns (s': System, c': Copy)
    requires Parked(codec, s, f, d, c, r)
    ensures RunsTo(codec, max, s, [Expire(f, c, map[])], s') && Climbing(codec, s', f, d, c', r)
  {
    ExpirePart(codec, max, s, f, c);
    s', c' := ExpiredSystem(s, f, c), c;
    NoHeadersAdded(QueuesOf(s, f), c);
  }

  lemma NoHeadersAdded(q: Queues, c: Copy)
    requires c in q.retry
    ensures c in Expired(q, c, map[]).ready
  {
    assert c.d.headers + map[] == c.d.headers;
    assert WithHeaders(c, map[]) == c;
  }

  /** An operator requeues a dead copy, which starts again from zero. */
  lemma DigUp(codec: Codec, max: int, s: System, f: Flow, d: Messages.Delivery, c: Copy, r: int)
    returns (s': System, c': Copy)
    requires Buried(codec, s, f, d, c, r)
    ensures RunsTo(codec, max, s, [RequeueDead(f, c, Accepted, true)], s') && Climbing(codec, s', f, d, c', 0)
  {
    RequeuePart(codec, max, s, f, c, Accepted);
    s', c' := RequeuedSystem(s, f, c, Accepted), Forwarded(c, 0);
    ForwardedIsCopy(c, d, r, 0);
  }

  lemma NegativeIsSpoiled(codec: Codec, s: System, f: Flow, d: Messages.Delivery, c: Copy, r: int)
    requires Decodes(codec, f, d) && r < 0 && (Parked(codec, s, f, d, c, r) || Buried(codec, s, f, d, c, r))
    ensures Spoiled(codec, s, f, d, c)
  {
    CopyDecodesIff(codec, f, c.d, d, r);
  }

  /** The run leaves a copy of `d` that does not decode. */
  predicate EndsSpoiled(codec: Codec, max: int, s: System, es: seq<Event>, s': System, f: Flow, d: Messages.Delivery, c: Copy) {
    RunsTo(codec, max, s, es, s') && Spoiled(codec, s', f, d, c)
  }

  lemma SpoiledLater(codec: Codec, max: int, s: System, xs: seq<Event>, t: System, ys: seq<Event>, u: System,
                     f: Flow, d: Messages.Delivery, c: Copy)
    requires RunsTo(codec, max, s, xs, t) && EndsSpoiled(codec, max, t, ys, u, f, d, c)
    ensures EndsSpoiled(codec, max, s, xs + ys, u, f, d, c)
  {
    Joined(codec, max, s, xs, t, ys, u);
  }

  /** The run so far has brought a ready copy up to count `r`. */
  ghost predicate ClimbedTo(codec: Codec, max: int, s0: System, es: seq<Event>, s: System,
                            f: Flow, d: Messages.Delivery, c: Copy, r: int)
  {
    RunsTo(codec, max, s0, es, s) && Climbing(codec, s, f, d, c, r)
  }

  /** A round and the expiry of its copy. */
  lemma ClimbOn(codec: Codec, max: int, s: System, f: Flow, d: Messages.Delivery, c: Copy, r: int)
    returns (es: seq<Event>, s': System, x: Copy, c': Copy)
    requires Decodes(codec, f, d) && Climbing(codec, s, f, d, c, r) && 0 <= r < MAX_INT32 && r < max
    ensures ClimbedTo(codec, max, s, es, s', f, d, c', r + 1) && es == Round(f, c, Accepted) + [Expire(f, x, map[])]
  {
    var t;
    t, x := ClimbRound(codec, max, s, f, d, c, r);
    assert Wrap32(r + 1) == r + 1;
    s', c' := Unpark(codec, max, t, f, d, x, r + 1);
    es := Round(f, c, Accepted) + [Expire(f, x, map[])];
    Joined(codec, max, s, Round(f, c, Accepted), t, [Expire(f, x, map[])], s');
  }

  ghost predicate CanClimbTo(codec: Codec, max: int, s0: System, f: Flow, d: Messages.Delivery, r: int) {
    exists es, s, c :: ClimbedTo(codec, max, s0, es, s, f, d, c, r)
  }

  lemma ClimbFurther(codec: Codec, max: int, s0: System, f: Flow, d: Messages.Delivery, r: int)
    requires Decodes(codec, f, d) && CanClimbTo(codec, max, s0, f, d, r) && 0 <= r < MAX_INT32 < max
    ensures CanClimbTo(codec, max, s0, f, d, r + 1)
  {
    var xs, s, c :| ClimbedTo(codec, max, s0, xs, s, f, d, c, r);
    var ys, s', _, c' := ClimbOn(codec, max, s, f, d, c, r);
    Joined(codec, max, s0, xs, s, ys, s');
    assert ClimbedTo(codec, max, s0, xs + ys, s', f, d, c', r + 1);
  }

  /** A ready copy climbs to the top of the 32-bit range. */
  lemma {:induction false} Climb(codec: Codec, max: int, s0: System, f: Flow, d: Messages.Delivery, r: int)
    requires Decodes(codec, f, d) && 0 <= r <= MAX_INT32 < max && CanClimbTo(codec, max, s0, f, d, r)
    ensures CanClimbTo(codec, max, s0, f, d, MAX_INT32)
    decreases MAX_INT32 - r
  {
    if r != MAX_INT32 {
      ClimbFurther(codec, max, s0, f, d, r);
      Climb(codec, max, s0, f, d, r + 1);
    }
  }

  lemma ClimbLast(codec: Codec, max: int, s: System, f: Flow, d: Messages.Delivery, c: Copy)
    returns (es: seq<Event>, s': System, c': Copy)
    requires Decodes(codec, f, d) && Climbing(codec, s, f, d, c, MAX_INT32) && MAX_INT32 < max
    ensures EndsSpoiled(codec, max, s, es, s', f, d, c')
  {
    es := Round(f, c, Accepted);
    s', c' := ClimbRound(codec, max, s, f, d, c, MAX_INT32);
    ParkedTopIsSpoiled(codec, s', f, d, c');
  }

  lemma ParkedTopIsSpoiled(codec: Codec, s: System, f: Flow, d: Messages.Delivery, c: Copy)
    requires Decodes(codec, f, d) && Parked(codec, s, f, d, c, Wrap32(MAX_INT32 + 1))
    ensures Spoiled(codec, s, f, d, c)
  {
    assert Wrap32(MAX_INT32 + 1) == -MAX_INT32 - 1;
    CopyDecodesIff(codec, f, c.d, d, -MAX_INT32 - 1);
  }

  /** A copy that is ready under too large a maximum climbs, and the next hop cuts its count. */
  lemma ClimbAndSpoil(codec: Codec, max: int, s: System, f: Flow, d: Messages.Delivery, c: Copy, r: int)
    returns (es: seq<Event>, s': System, c': Copy)
    requires Decodes(codec, f, d) && Climbing(codec, s, f, d, c, r) && 0 <= r <= MAX_INT32 < max
    ensures EndsSpoiled(codec, max, s, es, s', f, d, c')
  {
    assert ClimbedTo(codec, max, s, [], s, f, d, c, r);
    Climb(codec, max, s, f, d, r);
    var xs, t, x :| ClimbedTo(codec, max, s, xs, t, f, d, x, MAX_INT32);
    var ys;
    ys, s', c' := ClimbLast(codec, max, t, f, d, x);
    SpoiledLater(codec, max, s, xs, t, ys, s', f, d, c');
    es := xs + ys;
  }

  /** After the first forward the copy is cut, or it can be made ready and climbs. */
  lemma SpoilingRun(codec: Codec, max: int, seed: seq<Ledger.Seed>, f: Flow, d: Messages.Delivery)
    returns (es: seq<Event>, c: Copy)
    requires Ledger.Seeded(seed).Ok? && Decodes(codec, f, d) && DecodeMetadata(codec, d.headers).Ok?
    requires max > MAX_INT32 || FirstCount(max, CountOf(codec, d)) < 0
    ensures Spoils(codec, max, seed, f, d, es, c)
  {
    var s0 := Start(Ledger.Opened(seed));
    var r := FirstCount(max, CountOf(codec, d));
    es := Attempt(f, Copy(0, d), Accepted);
    var s;
    s, c := FirstForward(codec, max, seed, f, d);
    if r < 0 {
      NegativeIsSpoiled(codec, s, f, d, c, r);
    } else {
      var xs, t, x, n := Ready(codec, max, s, f, d, c, r);
      var ys, u, y := ClimbAndSpoil(codec, max, t, f, d, x, n);
      Joined(codec, max, s0, es, s, xs, t);
      Joined(codec, max, s0, es + xs, t, ys, u);
      es, c := es + xs + ys, y;
    }
  }

  lemma Ready(codec: Codec, max: int, s: System, f: Flow, d: Messages.Delivery, c: Copy, r: int)
    returns (es: seq<Event>, s': System, c': Copy, n: int)
    requires 0 <= r <= MAX_INT32 && (Parked(codec, s, f, d, c, r) || Buried(codec, s, f, d, c, r))
    ensures RunsTo(codec, max, s, es, s') && Climbing(codec, s', f, d, c', n) && 0 <= n <= MAX_INT32
  {
    if Parked(codec, s, f, d, c, r) {
      s', c' := Unpark(codec, max, s, f, d, c, r);
      es, n := [Expire(f, c, map[])], r;
    } else {
      s', c' := DigUp(codec, max, s, f, d, c, r);
      es, n := [RequeueDead(f, c, Accepted, true)], 0;
    }
  }
}
