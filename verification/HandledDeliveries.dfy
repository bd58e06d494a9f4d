/**
 * What one handled delivery does to the system, case by case and in terms of the queues: it is dropped for good, answered,
 * or sent round the retry queue. Every handled delivery falls under one of the three.
 */
module HandledDeliveries {
  import opened Prelude
  import opened Requests
  import Handlers
  import opened Messages
  import opened Outcomes
  import opened Delivery
  import opened RetryBound
  import Agreement

  /** The delivery cannot be decoded, or its handler failed in a way that no retry can mend. */
  predicate Hopeless(p: Option<Processed>) {
    match p
    case None => true
    case Some(Processed(_, _, result)) =>
      result == Err(InvalidArgument) || result == Err(ReservationAlreadyExists) || result == Err(IdempotencyConflict)
  }

  /** There is an outcome, and every copy of it that the failure mode asks for is reported as published. */
  predicate Answered(p: Option<Processed>, w: Conditions) {
    && p.Some? && p.value.result.Ok? && p.value.result.value.Built?
    && w.publishMode != PublishFailure && Reported(w.first)
    && (w.publishMode == DuplicateResponse ==> Reported(w.second))
  }

  function ProcessedBy(codec: Codec, s: System, e: Event): Option<Processed>
    requires e.HandleOne?
  {
    Process(codec, s.app, e.flow, e.copy.d, e.w.env)
  }

  function AppAfter(s: System, p: Option<Processed>): Handlers.App {
    if p.Some? then p.value.app else s.app
  }

  /** The queues of the flow without the handled copy, if its settlement gets through. */
  function Settled(q: Queues, e: Event): Queues
    requires e.HandleOne?
  {
    if e.w.settles then q.(unacked := q.unacked - multiset{e.copy}) else q
  }

  /** A hopeless delivery goes to the dead-letter queue with the broker's headers, and nothing is published. */
  lemma HopelessIsDropped(codec: Codec, max: int, s: System, e: Event)
    requires e.HandleOne? && Enabled(s, e) && Hopeless(ProcessedBy(codec, s, e))
    ensures
      var q := Settled(QueuesOf(s, e.flow), e);
      var dead := Copy(e.copy.origin, e.copy.d.(headers := e.copy.d.headers + e.w.deathHeaders));
      Next(codec, max, s, e) ==
        WithQueues(s, e.flow, if e.w.settles then q.(dead := q.dead + multiset{dead}) else q).(
          app := AppAfter(s, ProcessedBy(codec, s, e)))
  {
    HopelessConcludes(max, s.app, ProcessedBy(codec, s, e), e.w);
    assert s.outcomes + Records(s.epoch, e.flow, e.copy.origin, []) == s.outcomes;
  }

  lemma HopelessConcludes(max: int, a: Handlers.App, p: Option<Processed>, w: Conditions)
    requires Hopeless(p)
    ensures Conclude(max, a, p, w) == Handling(if p.Some? then p.value.app else a, [], false, NoForward, NackDrop)
  {
  }

  /** The message that carries an outcome: its identifiers and key come from the request it answers. */
  function OutcomeOf(kp: (RoutingKey, Payload), m: Metadata, id: string, at: Time): OutcomeMessage {
    var name := match kp.0
                case ConfirmedKey => "confirmed"
                case RejectedKey => "rejected"
                case ReleasedKey => "released"
                case ReleaseFailedKey => "release_failed";
    OutcomeMessage(kp.0, kp.1, id, m.correlationId, m.messageId, m.idempotencyKey + ":" + name, at, 1, 0)
  }

  /** The outcomes that land: none in the failing mode, up to two in the duplicating one, else up to one. */
  function LandedOutcomes(p: Option<Processed>, w: Conditions): seq<OutcomeMessage> {
    if p.None? || p.value.result.Err? || !p.value.result.value.Built? || w.publishMode == PublishFailure then []
    else
      var (kp, m) := (p.value.result.value.value, p.value.m);
      (if w.first == Accepted || w.first == LandedUnconfirmed then [OutcomeOf(kp, m, w.firstId, w.firstAt)] else [])
      + (if w.publishMode == DuplicateResponse && (w.first == Accepted || w.first == Misreported)
            && (w.second == Accepted || w.second == LandedUnconfirmed)
         then [OutcomeOf(kp, m, w.secondId, w.secondAt)] else [])
  }

  lemma ConcludedOutcomes(max: int, a: Handlers.App, p: Option<Processed>, w: Conditions)
    ensures Conclude(max, a, p, w).messages == LandedOutcomes(p, w)
  {
    if p.Some? && p.value.result.Ok? && p.value.result.value.Built? {
      var (kp, m) := (p.value.result.value.value, p.value.m);
      MessageIsOutcome(kp, m, w.firstId, w.firstAt);
      MessageIsOutcome(kp, m, w.secondId, w.secondAt);
    }
  }

  lemma MessageIsOutcome(kp: (RoutingKey, Payload), m: Metadata, id: string, at: Time)
    ensures MessageOf(kp, m, id, at) == OutcomeOf(kp, m, id, at)
  {
    assert forall name: string :: (m.idempotencyKey + ":") + name == m.idempotencyKey + (":" + name);
    assert ":" + "confirmed" == ":confirmed" && ":" + "rejected" == ":rejected";
    assert ":" + "released" == ":released" && ":" + "release_failed" == ":release_failed";
  }

  /** Whatever becomes of the delivery, these are the outcomes the broker gains. */
  lemma OutcomesGained(codec: Codec, max: int, s: System, e: Event)
    requires e.HandleOne? && Enabled(s, e)
    ensures
      var landed := LandedOutcomes(ProcessedBy(codec, s, e), e.w);
      var s' := Next(codec, max, s, e);
      && |s'.outcomes| == |s.outcomes| + |landed| && s.outcomes <= s'.outcomes
      && forall i | 0 <= i < |landed| ::
           s'.outcomes[|s.outcomes| + i] == Record(s.epoch, e.flow, e.copy.origin, landed[i])
  {
    ConcludedOutcomes(max, s.app, ProcessedBy(codec, s, e), e.w);
    HandledNext(codec, max, s, e);
    RecordsAre(s.outcomes, s.epoch, e.flow, e.copy.origin, LandedOutcomes(ProcessedBy(codec, s, e), e.w));
  }

  lemma RecordsAre(before: seq<Record>, epoch: nat, f: Flow, o: nat, landed: seq<OutcomeMessage>)
    ensures
      var now := before + Records(epoch, f, o, landed);
      && |now| == |before| + |landed| && before <= now
      && forall i | 0 <= i < |landed| :: now[|before| + i] == Record(epoch, f, o, landed[i])
  {
  }

  /** An answered delivery is acknowledged, and not forwarded. */
  lemma AnsweredIsAcknowledged(codec: Codec, max: int, s: System, e: Event)
    requires e.HandleOne? && Enabled(s, e) && Answered(ProcessedBy(codec, s, e), e.w)
    ensures
      var s' := Next(codec, max, s, e);
      && QueuesOf(s', e.flow) == Settled(QueuesOf(s, e.flow), e)
      && (forall g | g != e.flow :: QueuesOf(s', g) == QueuesOf(s, g))
      && s'.app == AppAfter(s, ProcessedBy(codec, s, e))
      && s'.answered == s.answered + {(e.flow, e.copy.origin)} && s'.sent == s.sent && s'.epoch == s.epoch
  {
    AnsweredConcludes(max, s.app, ProcessedBy(codec, s, e), e.w);
  }

  lemma AnsweredConcludes(max: int, a: Handlers.App, p: Option<Processed>, w: Conditions)
    requires Answered(p, w)
    ensures
      var h := Conclude(max, a, p, w);
      h.app == p.value.app && h.answered && h.forwarding == NoForward && h.settlement == Ack
  {
  }

  /** A handled delivery changes its own flow's queues and what its handling says. */
  lemma HandledNext(codec: Codec, max: int, s: System, e: Event)
    requires e.HandleOne? && Enabled(s, e)
    ensures
      var h := Conclude(max, s.app, ProcessedBy(codec, s, e), e.w);
      var s' := Next(codec, max, s, e);
      && QueuesOf(s', e.flow) == Settle(AddForwarded(QueuesOf(s, e.flow), e.copy, h.forwarding, e.w.forward), e.copy, h.settlement, e.w)
      && (forall g | g != e.flow :: QueuesOf(s', g) == QueuesOf(s, g))
      && s'.app == h.app && s'.sent == s.sent && s'.epoch == s.epoch
      && s'.answered == (if h.answered then s.answered + {(e.flow, e.copy.origin)} else s.answered)
      && s'.outcomes == s.outcomes + Records(s.epoch, e.flow, e.copy.origin, h.messages)
  {
  }

  // ---------------------------------------------------------------------------
  // Retries
  // ---------------------------------------------------------------------------

  /** The queues after a delivery with count `r` could be neither dropped nor answered. */
  function RetriedQueues(max: int, q: Queues, e: Event, r: int): Queues
    requires e.HandleOne?
  {
    var lands := e.w.forward == Accepted || e.w.forward == LandedUnconfirmed;
    var reported := e.w.forward == Accepted || e.w.forward == Misreported;
    var up := Copy(e.copy.origin, Delivered(Forward(e.copy.d, r + 1), map[]));
    var same := Copy(e.copy.origin, Delivered(Forward(e.copy.d, r), map[]));
    var q' := if !lands then q
              else if r + 1 <= max then q.(retry := q.retry + multiset{up})
              else q.(dead := q.dead + multiset{same});
    if !e.w.settles then q'
    else if reported then q'.(unacked := q'.unacked - multiset{e.copy})
    else q'.(unacked := q'.unacked - multiset{e.copy}, ready := q'.ready + multiset{e.copy})
  }

  /**
   * Any other delivery goes to the retry queue with its count raised by one, as long as that does not pass the maximum,
   * and to the dead-letter queue with the same count otherwise. The original is acknowledged if the forward is reported
   * as published, and is ready again if not. Counts up to 2^31-1 are those the service writes.
   */
  lemma OthersAreRetried(codec: Codec, max: int, s: System, e: Event)
    requires e.HandleOne? && Enabled(s, e)
    requires !Hopeless(ProcessedBy(codec, s, e)) && !Answered(ProcessedBy(codec, s, e), e.w)
    ensures DecodeMetadata(codec, e.copy.d.headers).Ok?
    ensures
      var r := CountOf(codec, e.copy.d);
      var s' := Next(codec, max, s, e);
      r <= MAX_INT32 ==>
        && QueuesOf(s', e.flow) == RetriedQueues(max, QueuesOf(s, e.flow), e, r)
        && (forall g | g != e.flow :: QueuesOf(s', g) == QueuesOf(s, g))
        && s'.app == AppAfter(s, ProcessedBy(codec, s, e))
        && s'.answered == s.answered && s'.sent == s.sent && s'.epoch == s.epoch
  {
    var p := ProcessedBy(codec, s, e);
    Agreement.ProcessedMetadata(codec, s.app, e.flow, e.copy.d, e.w.env);
    OthersConclude(max, s.app, p, e.w);
    HandledNext(codec, max, s, e);
    var r := CountOf(codec, e.copy.d);
    CountIsNatural(codec, e.copy.d);
    if r <= MAX_INT32 {
      RetryOrDead(max, r);
      RetriedQueuesAre(max, QueuesOf(s, e.flow), e, r);
    }
  }

  lemma OthersConclude(max: int, a: Handlers.App, p: Option<Processed>, w: Conditions)
    requires !Hopeless(p) && !Answered(p, w)
    ensures
      var h := Conclude(max, a, p, w);
      && p.Some? && h.app == p.value.app && !h.answered
      && h.forwarding == RetryOrDeadLetter(max, p.value.m.retryCount)
      && h.settlement == (if w.forward == Accepted || w.forward == Misreported then Ack else NackRequeue)
  {
  }

  lemma RetryOrDead(max: int, r: int)
    requires 0 <= r <= MAX_INT32
    ensures RetryOrDeadLetter(max, r) == if r + 1 <= max then ToRetry(r + 1) else ToDead(r)
  {
    assert Wrap64(r + 1) == r + 1;
  }

  lemma RetriedQueuesAre(max: int, q: Queues, e: Event, r: int)
    requires e.HandleOne? && RetryOrDeadLetter(max, r) == if r + 1 <= max then ToRetry(r + 1) else ToDead(r)
    ensures
      var settlement := if e.w.forward == Accepted || e.w.forward == Misreported then Ack else NackRequeue;
      Settle(AddForwarded(q, e.copy, RetryOrDeadLetter(max, r), e.w.forward), e.copy, settlement, e.w) ==
        RetriedQueues(max, q, e, r)
  {
    var q' := AddForwarded(q, e.copy, RetryOrDeadLetter(max, r), e.w.forward);
    var c := e.copy;
    if e.w.forward == Accepted || e.w.forward == LandedUnconfirmed {
      if r + 1 <= max {
        assert q' == q.(retry := q.retry + multiset{Copy(c.origin, Delivered(Forward(c.d, r + 1), map[]))});
      } else {
        assert q' == q.(dead := q.dead + multiset{Copy(c.origin, Delivered(Forward(c.d, r), map[]))});
      }
    } else {
      assert q' == q;
    }
  }

  /** The delivery is not answered, but its forward gets through, and so does its settlement. */
  predicate ForwardedOnce(codec: Codec, s: System, e: Event)
    requires e.HandleOne?
  {
    && !Hopeless(ProcessedBy(codec, s, e)) && !Answered(ProcessedBy(codec, s, e), e.w)
    && e.w.forward == Accepted && e.w.settles
  }

  /**
   * Below the maximum, the retry queue gains a copy that decodes to the same request with the next count, and the original
   * is gone.
   */
  lemma RetriedOnce(codec: Codec, max: int, s: System, e: Event, n: int)
    requires e.HandleOne? && Enabled(s, e) && ForwardedOnce(codec, s, e)
    requires DecodeMetadata(codec, e.copy.d.headers).Ok? && n == CountOf(codec, e.copy.d) + 1
    requires n <= MAX_INT32 && n <= max
    ensures GoesToRetry(codec, QueuesOf(s, e.flow), QueuesOf(Next(codec, max, s, e), e.flow), e, n)
  {
    OthersAreRetried(codec, max, s, e);
    OthersDecode(codec, s, e);
    CountIsNatural(codec, e.copy.d);
    UpOne(codec, max, QueuesOf(s, e.flow), QueuesOf(Next(codec, max, s, e), e.flow), e, CountOf(codec, e.copy.d), n);
  }

  /** At the maximum and above, the dead-letter queue gains a copy that decodes to the same request with the same count. */
  lemma DeadLetteredOnce(codec: Codec, max: int, s: System, e: Event)
    requires e.HandleOne? && Enabled(s, e) && ForwardedOnce(codec, s, e)
    ensures DecodeMetadata(codec, e.copy.d.headers).Ok?
    ensures
      var r := CountOf(codec, e.copy.d);
      max <= r <= MAX_INT32 ==> GoesToDead(codec, QueuesOf(s, e.flow), QueuesOf(Next(codec, max, s, e), e.flow), e, r)
  {
    OthersAreRetried(codec, max, s, e);
    OthersDecode(codec, s, e);
    var r := CountOf(codec, e.copy.d);
    CountIsNatural(codec, e.copy.d);
    if max <= r <= MAX_INT32 { ToTheDead(codec, max, QueuesOf(s, e.flow), QueuesOf(Next(codec, max, s, e), e.flow), e, r); }
  }

  lemma OthersDecode(codec: Codec, s: System, e: Event)
    requires e.HandleOne? && ProcessedBy(codec, s, e).Some?
    ensures if e.flow == Reservations then DecodeReservation(codec, e.copy.d).Ok? else DecodeRelease(codec, e.copy.d).Ok?
  {
  }

  /** The retry queue gains a copy with count `n`, and the handled copy is gone. */
  ghost predicate GoesToRetry(codec: Codec, q: Queues, q': Queues, e: Event, n: int)
    requires e.HandleOne?
  {
    exists x: Copy ::
      && Counts(codec, e.flow, e.copy, x, n)
      && q' == q.(unacked := q.unacked - multiset{e.copy}, retry := q.retry + multiset{x})
  }

  ghost predicate GoesToDead(codec: Codec, q: Queues, q': Queues, e: Event, n: int)
    requires e.HandleOne?
  {
    exists x: Copy ::
      && Counts(codec, e.flow, e.copy, x, n)
      && q' == q.(unacked := q.unacked - multiset{e.copy}, dead := q.dead + multiset{x})
  }

  lemma UpOne(codec: Codec, max: int, q: Queues, q': Queues, e: Event, r: int, n: int)
    requires e.HandleOne? && e.w.forward == Accepted && e.w.settles
    requires if e.flow == Reservations then DecodeReservation(codec, e.copy.d).Ok? else DecodeRelease(codec, e.copy.d).Ok?
    requires 0 <= r < MAX_INT32 && r + 1 <= max && n == r + 1 && q' == RetriedQueues(max, q, e, r)
    ensures GoesToRetry(codec, q, q', e, n)
  {
    ForwardedCounts(codec, e.flow, e.copy, n);
  }

  lemma ToTheDead(codec: Codec, max: int, q: Queues, q': Queues, e: Event, r: int)
    requires e.HandleOne? && e.w.forward == Accepted && e.w.settles
    requires if e.flow == Reservations then DecodeReservation(codec, e.copy.d).Ok? else DecodeRelease(codec, e.copy.d).Ok?
    requires 0 <= r <= MAX_INT32 && max <= r && q' == RetriedQueues(max, q, e, r)
    ensures GoesToDead(codec, q, q', e, r)
  {
    ForwardedCounts(codec, e.flow, e.copy, r);
  }

  /** Copy `x` is of the same request as `c`, and decodes to it with count `n`. */
  ghost predicate Counts(codec: Codec, f: Flow, c: Copy, x: Copy, n: int) {
    && x.origin == c.origin
    && if f == Reservations then
         && DecodeReservation(codec, c.d).Ok?
         && var req := DecodeReservation(codec, c.d).value;
            DecodeReservation(codec, x.d) == Ok(req.(metadata := req.metadata.(retryCount := n)))
       else
         && DecodeRelease(codec, c.d).Ok?
         && var req := DecodeRelease(codec, c.d).value;
            DecodeRelease(codec, x.d) == Ok(req.(metadata := req.metadata.(retryCount := n)))
  }

  lemma ForwardedCounts(codec: Codec, f: Flow, c: Copy, n: int)
    requires 0 <= n <= MAX_INT32
    requires if f == Reservations then DecodeReservation(codec, c.d).Ok? else DecodeRelease(codec, c.d).Ok?
    ensures Counts(codec, f, c, Copy(c.origin, Delivered(Forward(c.d, n), map[])), n)
  {
    if f == Reservations { ForwardRoundTrip(codec, c.d, n, map[]); } else { ForwardReleaseRoundTrip(codec, c.d, n, map[]); }
  }

  // ---------------------------------------------------------------------------
  // Copies are conserved
  // ---------------------------------------------------------------------------

  function Size(q: Queues): nat {
    |q.ready| + |q.unacked| + |q.retry| + |q.dead|
  }

  lemma MovesConserve(q: Queues, c: Copy, added: Headers)
    ensures c in q.ready ==> Size(Taken(q, c)) == Size(q)
    ensures c in q.unacked ==> Size(Returned(q, c)) == Size(q)
    ensures c in q.retry ==> Size(Expired(q, c, added)) == Size(q)
    ensures Size(Recovered(q)) == Size(q)
  {
  }

  lemma RequeueSizes(q: Queues, c: Copy, fate: Fate, settles: bool)
    requires c in q.dead
    ensures Size(Requeued(q, c, fate, settles)) ==
              Size(q) + (if Landed(fate) then 1 else 0) - (if Reported(fate) && settles then 1 else 0)
  {
  }

  /** The broker's own moves neither make nor lose copies; sending and requeueing add exactly what lands. */
  lemma BrokerConservesCopies(codec: Codec, max: int, s: System, e: Event, f: Flow)
    requires Enabled(s, e) && !e.HandleOne?
    ensures
      var q, q' := QueuesOf(s, f), QueuesOf(Next(codec, max, s, e), f);
      match e
      case Send(g, _, _) => Size(q') == Size(q) + if g == f then 1 else 0
      case RequeueDead(g, _, fate, settles) =>
        Size(q') == if g != f then Size(q)
                    else Size(q) + (if Landed(fate) then 1 else 0) - (if Reported(fate) && settles then 1 else 0)
      case _ => Size(q') == Size(q)
  {
    match e
    case Send(_, _, _) => SendSizes(codec, max, s, e, f);
    case RequeueDead(_, _, _, _) => RequeueDeadSizes(codec, max, s, e, f);
    case Restart(_) => RestartSizes(codec, max, s, e, f);
    case Restock(_, _, _) =>
    case _ => MoveSizes(codec, max, s, e, f);
  }

  lemma SendSizes(codec: Codec, max: int, s: System, e: Event, f: Flow)
    requires e.Send?
    ensures Size(QueuesOf(Next(codec, max, s, e), f)) == Size(QueuesOf(s, f)) + if e.flow == f then 1 else 0
  {
    var q := QueuesOf(s, e.flow);
    assert QueuesOf(Next(codec, max, s, e), e.flow) == q.(ready := q.ready + multiset{Copy(e.origin, e.d)});
  }

  lemma RequeueDeadSizes(codec: Codec, max: int, s: System, e: Event, f: Flow)
    requires e.RequeueDead? && Enabled(s, e)
    ensures
      Size(QueuesOf(Next(codec, max, s, e), f)) ==
        if e.flow != f then Size(QueuesOf(s, f))
        else Size(QueuesOf(s, f)) + (if Landed(e.fate) then 1 else 0) - (if Reported(e.fate) && e.settles then 1 else 0)
  {
    RequeueSizes(QueuesOf(s, e.flow), e.copy, e.fate, e.settles);
  }

  lemma MoveSizes(codec: Codec, max: int, s: System, e: Event, f: Flow)
    requires (e.Receive? || e.Redeliver? || e.Expire?) && Enabled(s, e)
    ensures Size(QueuesOf(Next(codec, max, s, e), f)) == Size(QueuesOf(s, f))
  {
    MovesConserve(QueuesOf(s, e.flow), e.copy, if e.Expire? then e.added else map[]);
  }

  lemma RestartSizes(codec: Codec, max: int, s: System, e: Event, f: Flow)
    requires e.Restart?
    ensures Size(QueuesOf(Next(codec, max, s, e), f)) == Size(QueuesOf(s, f))
  {
    if QueuesOf(Next(codec, max, s, e), f) != QueuesOf(s, f) {
      MovesConserve(QueuesOf(s, f), Copy(0, Messages.Delivery(map[], "", "", "", 0, "")), map[]);
    }
  }
}
