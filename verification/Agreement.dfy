/** The joint guarantees of ledger, caches and delivery protocol over every run of the whole system. */
module Agreement {
  import opened Prelude
  import opened Text
  import Ledger
  import Handlers
  import HandlerInvariant
  import ExactlyOnce
  import opened Messages
  import opened Outcomes
  import opened Delivery
  import opened NoLoss

  // ---------------------------------------------------------------------------
  // The system's runs are runs of the handlers
  // ---------------------------------------------------------------------------

  /** The handler event behind a system event, if there is one. */
  function HandlerEvents(codec: Codec, e: Event): seq<Handlers.Event> {
    match e
    case HandleOne(f, c, w) =>
      if f == Reservations then
        match DecodeReservation(codec, c.d)
        case Err(_) => []
        case Ok(req) => [Handlers.ReserveEvent(req, w.env)]
      else
        (match DecodeRelease(codec, c.d)
         case Err(_) => []
         case Ok(req) => [Handlers.ReleaseEvent(req, w.env)])
    case Restock(c, sku, n) => [Handlers.SetStockEvent(c, sku, n)]
    case _ => []
  }

  /** The event begins a new process. */
  predicate Starts(e: Event) {
    e.Restart? && Ledger.Seeded(e.seed).Ok?
  }

  /** The handler events of the process that runs at the end. */
  function Trace(codec: Codec, es: seq<Event>): seq<Handlers.Event> {
    if es == [] || Starts(es[|es| - 1]) then [] else Trace(codec, es[..|es| - 1]) + HandlerEvents(codec, es[|es| - 1])
  }

  /** The ledger that process began with. */
  function Base(l: Ledger.Ledger, es: seq<Event>): Ledger.Ledger {
    if es == [] then l
    else if Starts(es[|es| - 1]) then Ledger.Opened(es[|es| - 1].seed)
    else Base(l, es[..|es| - 1])
  }

  lemma {:induction false} BaseInv(l: Ledger.Ledger, es: seq<Event>)
    requires HandlerInvariant.Inv(Handlers.Start(l))
    ensures HandlerInvariant.Inv(Handlers.Start(Base(l, es)))
  {
    if es != [] {
      if Starts(es[|es| - 1]) {
        HandlerInvariant.StartInv(es[|es| - 1].seed);
      } else {
        BaseInv(l, es[..|es| - 1]);
      }
    }
  }

  lemma RunOneMore(a: Handlers.App, es: seq<Handlers.Event>, e: Handlers.Event)
    ensures Handlers.Run(a, es + [e]) == Handlers.Step(Handlers.Run(a, es), e)
  {
    assert (es + [e])[..|es|] == es;
  }

  lemma ConcludeKeepsApp(max: int, a: Handlers.App, p: Option<Processed>, w: Conditions)
    ensures Conclude(max, a, p, w).app == if p.Some? then p.value.app else a
  {
  }

  lemma NextIsHandlerStep(codec: Codec, max: int, s: System, e: Event)
    requires !Starts(e)
    ensures Next(codec, max, s, e).app ==
              if HandlerEvents(codec, e) == [] then s.app else Handlers.Step(s.app, HandlerEvents(codec, e)[0])
  {
    if e.HandleOne? { ConcludeKeepsApp(max, s.app, Process(codec, s.app, e.flow, e.copy.d, e.w.env), e.w); }
  }

  /** The application state is that of the handler calls since the process began. */
  lemma {:induction false} SystemRunsHandlers(codec: Codec, max: int, l: Ledger.Ledger, es: seq<Event>)
    ensures Reach(codec, max, Start(l), es).app == Handlers.Run(Handlers.Start(Base(l, es)), Trace(codec, es))
  {
    if es != [] && !Starts(es[|es| - 1]) {
      var n := |es| - 1;
      SystemRunsHandlers(codec, max, l, es[..n]);
      NextIsHandlerStep(codec, max, Reach(codec, max, Start(l), es[..n]), es[n]);
      var events := HandlerEvents(codec, es[n]);
      if events == [] {
        assert Trace(codec, es) == Trace(codec, es[..n]);
      } else {
        assert events == [events[0]];
        RunOneMore(Handlers.Start(Base(l, es)), Trace(codec, es[..n]), events[0]);
      }
    }
  }

  /**
   * Exactly once, end to end: whatever the broker redelivers, loses, retries, dead-letters or requeues, and whatever
   * the failure modes do, the ledger is the one obtained from the seed of the running process by taking each stock
   * update and, per flow and key, the first delivery this process answered, at face value; no key counts twice.
   */
  lemma LedgerCountsEachKeyOnce(codec: Codec, max: int, seed: seq<Ledger.Seed>, es: seq<Event>)
    requires Ledger.Seeded(seed).Ok?
    ensures
      var l := Base(Ledger.Opened(seed), es);
      Reach(codec, max, Start(Ledger.Opened(seed)), es).app.ledger ==
        ExactlyOnce.Replay(l, ExactlyOnce.Counted(Handlers.Start(l), Trace(codec, es)))
    ensures
      var a, events := Handlers.Start(Base(Ledger.Opened(seed), es)), Trace(codec, es);
      forall i, j | 0 <= i < |events| && 0 <= j < |events| && ExactlyOnce.SameKey(events[i], events[j])
                 && ExactlyOnce.Counts(a, events, i) && ExactlyOnce.Counts(a, events, j) :: i == j
  {
    HandlerInvariant.StartInv(seed);
    BaseInv(Ledger.Opened(seed), es);
    SystemRunsHandlers(codec, max, Ledger.Opened(seed), es);
    ExactlyOnce.LedgerIsReplay(Base(Ledger.Opened(seed), es), Trace(codec, es));
    ExactlyOnce.EachKeyCountsOnce(Handlers.Start(Base(Ledger.Opened(seed), es)), Trace(codec, es));
  }

  // ---------------------------------------------------------------------------
  // Outcome agreement
  // ---------------------------------------------------------------------------

  /** The outcome that the cache of a flow holds for a key. */
  function Decided(a: Handlers.App, f: Flow, k: string): Built<(RoutingKey, Payload)> {
    if f == Reservations
    then if k in a.outer then ReservationPayloadOf(a.outer[k]) else UnsupportedDecision
    else if k in a.releases then ReleasePayloadOf(a.releases[k]) else UnsupportedDecision
  }

  /** The name of the outcome, as it ends the idempotency key. */
  function NameOf(payload: Payload): string {
    match payload
    case ConfirmedPayload(_, _, _, _, _) => ":confirmed"
    case RejectedPayload(_, _, _, _, _) => ":rejected"
    case ReleasedPayload(_, _) => ":released"
    case ReleaseFailedPayload(_, _) => ":release_failed"
  }

  /** An outcome repeats what the body of its request asks for. */
  predicate Repeats(codec: Codec, f: Flow, body: string, kp: (RoutingKey, Payload)) {
    if f == Reservations then
      var asked := codec.parseReservation(body);
      asked.Some? && AnswersReservation(kp, asked.value.reservationId, asked.value.orderId, asked.value.sku, asked.value.quantity)
    else
      var asked := codec.parseRelease(body);
      asked.Some? && AnswersRelease(kp, asked.value.reservationId)
  }

  /**
   * A published outcome names the request that caused it and repeats what that request asks for, and if this process sent
   * it, it repeats the cached decision.
   */
  predicate RecordOk(codec: Codec, s: System, r: Record) {
    && (r.flow, r.origin) in s.sent
    && var fixed := DecodeFixed(codec, s.sent[(r.flow, r.origin)].headers);
       && fixed.Ok?
       && r.message.causationId == fixed.value.messageId
       && r.message.correlationId == fixed.value.correlationId
       && r.message.idempotencyKey == fixed.value.idempotencyKey + NameOf(r.message.payload)
       && r.message.schemaVersion == 1 && r.message.retryCount == 0
       && Repeats(codec, r.flow, s.sent[(r.flow, r.origin)].body, (r.message.routingKey, r.message.payload))
       && r.epoch <= s.epoch
       && (r.epoch == s.epoch ==>
             Decided(s.app, r.flow, Trim(fixed.value.idempotencyKey)) == Built((r.message.routingKey, r.message.payload)))
  }

  predicate RecordsOk(codec: Codec, s: System) {
    forall i {:trigger RecordOk(codec, s, s.outcomes[i])} | 0 <= i < |s.outcomes| :: RecordOk(codec, s, s.outcomes[i])
  }

  /** What a processed delivery wants to publish is what the cache now holds for its key. */
  lemma ProcessedIsDecided(codec: Codec, a: Handlers.App, f: Flow, d: Messages.Delivery, env: Handlers.Env)
    requires HandlerInvariant.Inv(a)
    ensures
      var p := Process(codec, a, f, d, env);
      p.Some? && p.value.result.Ok? ==>
        && p.value.result.value.Built?
        && Decided(p.value.app, f, Trim(p.value.m.idempotencyKey)) == p.value.result.value
        && Repeats(codec, f, d.body, p.value.result.value.value)
  {
    var p := Process(codec, a, f, d, env);
    if p.Some? && p.value.result.Ok? {
      if f == Reservations {
        ReservationResultsCanBePublished(a, DecodeReservation(codec, d).value, env);
      } else {
        ReleaseResultsCanBePublished(a, DecodeRelease(codec, d).value, env);
      }
    }
  }

  lemma ProcessedMetadata(codec: Codec, a: Handlers.App, f: Flow, d: Messages.Delivery, env: Handlers.Env)
    ensures
      var p := Process(codec, a, f, d, env);
      p.Some? ==> DecodeMetadata(codec, d.headers) == Ok(p.value.m)
  {
  }

  /** Every message of a handling carries the built outcome and the request's metadata. */
  lemma ConcludedMessages(max: int, a: Handlers.App, p: Option<Processed>, w: Conditions, i: nat)
    requires i < |Conclude(max, a, p, w).messages|
    ensures p.Some? && p.value.result.Ok? && p.value.result.value.Built?
    ensures exists id, at :: Conclude(max, a, p, w).messages[i] == MessageOf(p.value.result.value.value, p.value.m, id, at)
  {
  }

  lemma NewRecordOk(codec: Codec, max: int, s: System, e: Event, i: nat)
    requires HandlerInvariant.Inv(s.app) && CopiesOk(s) && e.HandleOne? && Enabled(s, e)
    ensures
      var h := Handle(codec, max, s.app, e.flow, e.copy.d, e.w);
      i < |h.messages| ==> RecordOk(codec, s.(app := h.app), Record(s.epoch, e.flow, e.copy.origin, h.messages[i]))
  {
    var (f, c, w) := (e.flow, e.copy, e.w);
    var p := Process(codec, s.app, f, c.d, w.env);
    if i >= |Handle(codec, max, s.app, f, c.d, w).messages| { return; }
    ConcludedMessages(max, s.app, p, w, i);
    ConcludeKeepsApp(max, s.app, p, w);
    ProcessedIsDecided(codec, s.app, f, c.d, w.env);
    ProcessedMetadata(codec, s.app, f, c.d, w.env);
    assert InSome(QueuesOf(s, f), c) && CopyOk(s, f, c);
    FixedPartIsSame(codec, c.d.headers, s.sent[(f, c.origin)].headers);
    SuffixIsName(codec, f, c.d.body, p.value.result.value.value);
  }

  lemma SuffixIsName(codec: Codec, f: Flow, body: string, kp: (RoutingKey, Payload))
    requires Repeats(codec, f, body, kp)
    ensures DecisionSuffix(kp.0) == NameOf(kp.1)
  {
  }

  lemma OldRecordOk(codec: Codec, s: System, s': System, r: Record)
    requires RecordOk(codec, s, r) && s.epoch <= s'.epoch
    requires s.epoch == s'.epoch ==> ExactlyOnce.Grows(s.app, s'.app)
    requires forall x | x in s.sent :: x in s'.sent && s'.sent[x] == s.sent[x]
    ensures RecordOk(codec, s', r)
  {
  }

  lemma NextGrows(codec: Codec, max: int, s: System, e: Event)
    requires HandlerInvariant.Inv(s.app)
    ensures HandlerInvariant.Inv(Next(codec, max, s, e).app)
    ensures !Starts(e) ==> ExactlyOnce.Grows(s.app, Next(codec, max, s, e).app)
  {
    if Starts(e) {
      HandlerInvariant.StartInv(e.seed);
    } else {
      NextIsHandlerStep(codec, max, s, e);
      var events := HandlerEvents(codec, e);
      if events != [] {
        HandlerInvariant.StepKeepsInv(s.app, events[0]);
        ExactlyOnce.StepGrows(s.app, events[0]);
      }
    }
  }

  lemma NextOutcomes(codec: Codec, max: int, s: System, e: Event)
    requires Enabled(s, e)
    ensures !e.HandleOne? ==> Next(codec, max, s, e).outcomes == s.outcomes
    ensures Next(codec, max, s, e).epoch == if Starts(e) then s.epoch + 1 else s.epoch
    ensures forall x | x in s.sent :: x in Next(codec, max, s, e).sent && Next(codec, max, s, e).sent[x] == s.sent[x]
  {
  }

  lemma NextKeepsRecords(codec: Codec, max: int, s: System, e: Event)
    requires HandlerInvariant.Inv(s.app) && CopiesOk(s) && RecordsOk(codec, s) && Enabled(s, e)
    ensures RecordsOk(codec, Next(codec, max, s, e))
  {
    var s' := Next(codec, max, s, e);
    NextGrows(codec, max, s, e);
    NextOutcomes(codec, max, s, e);
    forall i | 0 <= i < |s.outcomes| ensures RecordOk(codec, s', s.outcomes[i]) {
      assert RecordOk(codec, s, s.outcomes[i]);
      OldRecordOk(codec, s, s', s.outcomes[i]);
    }
    if e.HandleOne? { HandledRecordsOk(codec, max, s, e); }
  }

  lemma HandledRecordsOk(codec: Codec, max: int, s: System, e: Event)
    requires HandlerInvariant.Inv(s.app) && CopiesOk(s) && Enabled(s, e) && e.HandleOne?
    requires forall i | 0 <= i < |s.outcomes| :: RecordOk(codec, Next(codec, max, s, e), s.outcomes[i])
    ensures RecordsOk(codec, Next(codec, max, s, e))
  {
    var s' := Next(codec, max, s, e);
    var n := |s.outcomes|;
    forall i | n <= i < |s'.outcomes| ensures RecordOk(codec, s', s'.outcomes[i]) {
      NewRecordOk(codec, max, s, e, i - n);
    }
  }

  /** The trimmed idempotency key of the request behind an outcome. */
  function KeyOfRecord(codec: Codec, s: System, r: Record): Option<string> {
    if (r.flow, r.origin) !in s.sent then None
    else
      match DecodeFixed(codec, s.sent[(r.flow, r.origin)].headers)
      case Err(_) => None
      case Ok(m) => Some(Trim(m.idempotencyKey))
  }

  /** Two outcomes that one process sent for the same key of the same flow. */
  predicate Kin(codec: Codec, s: System, x: Record, y: Record) {
    x.epoch == y.epoch && x.flow == y.flow && KeyOfRecord(codec, s, x) == KeyOfRecord(codec, s, y)
  }

  predicate SameOutcome(x: OutcomeMessage, y: OutcomeMessage) {
    x.routingKey == y.routingKey && x.payload == y.payload
  }

  predicate KinAgree(codec: Codec, s: System) {
    forall i, j {:trigger s.outcomes[i], s.outcomes[j]} |
      0 <= i < |s.outcomes| && 0 <= j < |s.outcomes| && Kin(codec, s, s.outcomes[i], s.outcomes[j]) ::
      SameOutcome(s.outcomes[i].message, s.outcomes[j].message)
  }

  /** Both outcomes of the running process repeat what its cache holds for the key. */
  lemma RecordsAgree(codec: Codec, s: System, x: Record, y: Record)
    requires RecordOk(codec, s, x) && RecordOk(codec, s, y) && x.epoch == s.epoch && Kin(codec, s, x, y)
    ensures SameOutcome(x.message, y.message)
  {
  }

  lemma NextKeepsKin(codec: Codec, max: int, s: System, e: Event)
    requires RecordsOk(codec, s) && RecordsOk(codec, Next(codec, max, s, e)) && KinAgree(codec, s) && Enabled(s, e)
    ensures KinAgree(codec, Next(codec, max, s, e))
  {
    var s' := Next(codec, max, s, e);
    NextOutcomes(codec, max, s, e);
    forall i, j | 0 <= i < |s'.outcomes| && 0 <= j < |s'.outcomes| && Kin(codec, s', s'.outcomes[i], s'.outcomes[j])
      ensures SameOutcome(s'.outcomes[i].message, s'.outcomes[j].message)
    {
      var x, y := s'.outcomes[i], s'.outcomes[j];
      assert RecordOk(codec, s', x) && RecordOk(codec, s', y);
      if x.epoch == s'.epoch {
        RecordsAgree(codec, s', x, y);
      } else {
        OlderRecord(codec, max, s, e, i);
        OlderRecord(codec, max, s, e, j);
        assert Kin(codec, s, s.outcomes[i], s.outcomes[j]);
      }
    }
  }

  /** An outcome of an earlier process was there before the event. */
  lemma OlderRecord(codec: Codec, max: int, s: System, e: Event, i: nat)
    requires Enabled(s, e) && RecordsOk(codec, s)
    requires i < |Next(codec, max, s, e).outcomes| && Next(codec, max, s, e).outcomes[i].epoch != Next(codec, max, s, e).epoch
    ensures i < |s.outcomes| && Next(codec, max, s, e).outcomes[i] == s.outcomes[i]
    ensures KeyOfRecord(codec, s, s.outcomes[i]) == KeyOfRecord(codec, Next(codec, max, s, e), s.outcomes[i])
  {
    NextOutcomes(codec, max, s, e);
    if i < |s.outcomes| { assert RecordOk(codec, s, s.outcomes[i]); }
  }

  lemma {:induction false} ReachKeepsRecords(codec: Codec, max: int, l: Ledger.Ledger, es: seq<Event>)
    requires HandlerInvariant.Inv(Handlers.Start(l)) && Valid(codec, max, Start(l), es)
    ensures
      var s := Reach(codec, max, Start(l), es);
      HandlerInvariant.Inv(s.app) && RecordsOk(codec, s) && KinAgree(codec, s)
  {
    if es != [] {
      var init := es[..|es| - 1];
      var s := Reach(codec, max, Start(l), init);
      ReachKeepsRecords(codec, max, l, init);
      CopiesKeepTheirRequest(codec, max, l, init);
      NextGrows(codec, max, s, es[|es| - 1]);
      NextKeepsRecords(codec, max, s, es[|es| - 1]);
      NextKeepsKin(codec, max, s, es[|es| - 1]);
    }
  }

  /**
   * Outcome agreement: all outcomes that one process ever gets to the broker for one key of one flow have the same
   * routing key and payload, whatever deliveries, retries, duplicates and modes produced them; and each outcome of
   * any process is caused by the message ID, and carries the correlation ID, key and contents, of the request it answers.
   * What the running process has published is borne out by its ledger and caches for as long as it runs.
   */
  lemma OutcomesAgree(codec: Codec, max: int, seed: seq<Ledger.Seed>, es: seq<Event>)
    requires Ledger.Seeded(seed).Ok? && Valid(codec, max, Start(Ledger.Opened(seed)), es)
    ensures
      var s := Reach(codec, max, Start(Ledger.Opened(seed)), es);
      && (forall x | x in s.outcomes :: RecordOk(codec, s, x) && KeyOfRecord(codec, s, x).Some?)
      && (forall x, y | x in s.outcomes && y in s.outcomes && Kin(codec, s, x, y) :: SameOutcome(x.message, y.message))
      && (forall x | x in s.outcomes && x.epoch == s.epoch ::
            BorneOut(s.app, KeyOfRecord(codec, s, x).value, (x.message.routingKey, x.message.payload)))
  {
    HandlerInvariant.StartInv(seed);
    ReachKeepsRecords(codec, max, Ledger.Opened(seed), es);
    RecordsOfReach(codec, Reach(codec, max, Start(Ledger.Opened(seed)), es));
  }

  lemma RecordsOfReach(codec: Codec, s: System)
    requires RecordsOk(codec, s) && KinAgree(codec, s) && HandlerInvariant.Inv(s.app)
    ensures forall x | x in s.outcomes :: RecordOk(codec, s, x) && KeyOfRecord(codec, s, x).Some?
    ensures forall x | x in s.outcomes && x.epoch == s.epoch ::
              BorneOut(s.app, KeyOfRecord(codec, s, x).value, (x.message.routingKey, x.message.payload))
    ensures forall x, y | x in s.outcomes && y in s.outcomes && Kin(codec, s, x, y) :: SameOutcome(x.message, y.message)
  {
    forall x | x in s.outcomes ensures RecordOk(codec, s, x) && KeyOfRecord(codec, s, x).Some? {
      var i :| 0 <= i < |s.outcomes| && s.outcomes[i] == x;
      assert RecordOk(codec, s, s.outcomes[i]);
    }
    forall x | x in s.outcomes && x.epoch == s.epoch
      ensures BorneOut(s.app, KeyOfRecord(codec, s, x).value, (x.message.routingKey, x.message.payload))
    {
      CachedIsBorneOut(s.app, KeyOfRecord(codec, s, x).value);
    }
  }

  // ---------------------------------------------------------------------------
  // When a delivery is retried
  // ---------------------------------------------------------------------------

  /**
   * With a live context a delivery is forwarded only because its outcome could not be published: a handler error
   * is then always permanent, and drops the delivery.
   */
  lemma RetriesAreUnpublishedOutcomes(codec: Codec, max: int, l: Ledger.Ledger, es: seq<Event>, f: Flow, c: Copy, w: Conditions)
    requires HandlerInvariant.Inv(Handlers.Start(l)) && ExactlyOnce.Live(w.env)
    ensures
      var s := Reach(codec, max, Start(l), es);
      var p := Process(codec, s.app, f, c.d, w.env);
      var h := Handle(codec, max, s.app, f, c.d, w);
      && (p.Some? && p.value.result.Err? ==> Permanent(p.value.result.error) && h.settlement == NackDrop)
      && (!h.forwarding.NoForward? <==> p.Some? && p.value.result.Ok? && !PublishResult(w.publishMode, w.first, w.second).1)
  {
    SystemRunsHandlers(codec, max, l, es);
    BaseInv(l, es);
    var base := Base(l, es);
    var events := Trace(codec, es);
    HandlerInvariant.RunKeepsInv(Handlers.Start(base), events);
    var a := Handlers.Run(Handlers.Start(base), events);
    var p := Process(codec, a, f, c.d, w.env);
    if p.Some? {
      if f == Reservations {
        ExactlyOnce.LiveReservationErrors(base, events, DecodeReservation(codec, c.d).value, w.env);
      } else {
        ExactlyOnce.LiveReleaseErrors(base, events, DecodeRelease(codec, c.d).value, w.env);
      }
      if p.value.result.Ok? { ProcessedIsDecided(codec, a, f, c.d, w.env); }
    }
    ForwardedIff(max, a, p, w);
  }

  lemma ForwardedIff(max: int, a: Handlers.App, p: Option<Processed>, w: Conditions)
    ensures !Conclude(max, a, p, w).forwarding.NoForward? <==>
              p.Some? && (if p.value.result.Err? then !Permanent(p.value.result.error)
                          else !p.value.result.value.Built? || !PublishResult(w.publishMode, w.first, w.second).1)
    ensures p.Some? && p.value.result.Err? && Permanent(p.value.result.error) ==> Conclude(max, a, p, w).settlement == NackDrop
  {
  }
}
