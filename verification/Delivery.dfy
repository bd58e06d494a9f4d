/**
 * The delivery protocol. Each of the two request flows has a main, a retry and a dead-letter queue under one routing
 * key. All bindings use that literal key, so topic matching (section 3.1.3.3 of AMQP 0-9-1) is equality. The broker's
 * extensions are assumed: a rejected message of the main queue goes to the dead-letter queue of its key, an expired
 * message of the retry queue goes back to the main queue, both with extra headers.
 */
module Delivery {
  import opened Prelude
  import Ledger
  import opened Requests
  import Handlers
  import opened Messages
  import opened Outcomes
  import opened Folds

  datatype Flow = Reservations | Releases

  // ---------------------------------------------------------------------------
  // Handling one delivery
  // ---------------------------------------------------------------------------

  datatype Settlement = Ack | NackDrop | NackRequeue

  datatype Forwarding = NoForward | ToRetry(count: int) | ToDead(count: int)

  /** Everything one handled delivery does; the type allows exactly one settlement. */
  datatype Handling = Handling(
    app: Handlers.App, messages: seq<OutcomeMessage>, answered: bool, forwarding: Forwarding, settlement: Settlement)

  /** What the environment decides while one delivery is handled. */
  datatype Conditions = Conditions(
    env: Handlers.Env, publishMode: Mode, first: Fate, second: Fate, firstId: string, secondId: string,
    firstAt: Time, secondAt: Time, forward: Fate, settles: bool, deathHeaders: Headers)

  predicate Permanent(e: Error) {
    e == InvalidArgument || e == ReservationAlreadyExists || e == IdempotencyConflict
  }

  /** The retry count is a 64-bit integer, so its increment may wrap around. */
  function RetryOrDeadLetter(max: int, retryCount: int): Forwarding {
    var next := Wrap64(retryCount + 1);
    if next > max then ToDead(retryCount) else ToRetry(next)
  }

  function AfterForward(forward: Fate): Settlement {
    if Reported(forward) then Ack else NackRequeue
  }

  function Retry(max: int, a: Handlers.App, messages: seq<OutcomeMessage>, m: Metadata, w: Conditions): Handling {
    Handling(a, messages, false, RetryOrDeadLetter(max, m.retryCount), AfterForward(w.forward))
  }

  /** The outcome messages that land, each with an ID and a publication time of its own. */
  function Copies(kp: (RoutingKey, Payload), m: Metadata, w: Conditions): seq<OutcomeMessage> {
    var fates := Sent(w.publishMode, w.first, w.second);
    (if |fates| >= 1 && Landed(fates[0]) then [MessageOf(kp, m, w.firstId, w.firstAt)] else [])
    + (if |fates| >= 2 && Landed(fates[1]) then [MessageOf(kp, m, w.secondId, w.secondAt)] else [])
  }

  function Publish(max: int, a: Handlers.App, built: Built<(RoutingKey, Payload)>, m: Metadata, w: Conditions): Handling {
    match built
    case Built(kp) =>
      if PublishResult(w.publishMode, w.first, w.second).1 then Handling(a, Copies(kp, m, w), true, NoForward, Ack)
      else Retry(max, a, Copies(kp, m, w), m, w)
    case _ => Retry(max, a, [], m, w)
  }

  /** A decoded delivery after its handler: the new state, the request's metadata, the error or the outcome to send. */
  datatype Processed = Processed(app: Handlers.App, m: Metadata, result: Result<Built<(RoutingKey, Payload)>>)

  function ProcessReservation(codec: Codec, a: Handlers.App, d: Messages.Delivery, env: Handlers.Env): Option<Processed> {
    match DecodeReservation(codec, d)
    case Err(_) => None
    case Ok(req) =>
      var (a', r) := Handlers.HandleReservation(a, req, env);
      Some(Processed(a', req.metadata, if r.Err? then Err(r.error) else Ok(ReservationPayloadOf(r.value))))
  }

  function ProcessRelease(codec: Codec, a: Handlers.App, d: Messages.Delivery, env: Handlers.Env): Option<Processed> {
    match DecodeRelease(codec, d)
    case Err(_) => None
    case Ok(req) =>
      var (a', r) := Handlers.HandleRelease(a, req, env);
      Some(Processed(a', req.metadata, if r.Err? then Err(r.error) else Ok(ReleasePayloadOf(r.value))))
  }

  /** An undecodable delivery is dropped, a failed one dropped or retried, an answered one published. */
  function Conclude(max: int, a: Handlers.App, p: Option<Processed>, w: Conditions): Handling {
    match p
    case None => Handling(a, [], false, NoForward, NackDrop)
    case Some(Processed(a', m, Err(e))) =>
      if Permanent(e) then Handling(a', [], false, NoForward, NackDrop) else Retry(max, a', [], m, w)
    case Some(Processed(a', m, Ok(built))) => Publish(max, a', built, m, w)
  }

  function Process(codec: Codec, a: Handlers.App, flow: Flow, d: Messages.Delivery, env: Handlers.Env): Option<Processed> {
    if flow == Reservations then ProcessReservation(codec, a, d, env) else ProcessRelease(codec, a, d, env)
  }

  /** How the publishes made while a delivery is handled end, in order: its outcome, then its forwarded copy. */
  function Attempted(p: Option<Processed>, h: Handling, w: Conditions): seq<Fate> {
    (if p.Some? && p.value.result.Ok? && p.value.result.value.Built? then Sent(w.publishMode, w.first, w.second) else [])
    + (if h.forwarding.NoForward? then [] else [w.forward])
  }

  function Handle(codec: Codec, max: int, a: Handlers.App, flow: Flow, d: Messages.Delivery, w: Conditions): Handling {
    Conclude(max, a, Process(codec, a, flow, d, w.env), w)
  }

  // ---------------------------------------------------------------------------
  // The broker
  // ---------------------------------------------------------------------------

  /** One copy of a request in the broker. `origin` identifies the request it descends from. */
  datatype Copy = Copy(origin: nat, d: Messages.Delivery)

  datatype Queues = Queues(ready: multiset<Copy>, unacked: multiset<Copy>, retry: multiset<Copy>, dead: multiset<Copy>)

  const NO_COPIES := Queues(multiset{}, multiset{}, multiset{}, multiset{})

  /** An outcome that reached the broker, the request whose delivery triggered it, and the process that sent it. */
  datatype Record = Record(epoch: nat, flow: Flow, origin: nat, message: OutcomeMessage)

  /**
   * Queues and messages are durable; `app` belongs to the running process. `epoch` counts the restarts, `answered` the
   * requests with an outcome publish reported as successful.
   */
  datatype System = System(
    epoch: nat,
    app: Handlers.App,
    reservations: Queues,
    releases: Queues,
    sent: map<(Flow, nat), Messages.Delivery>,
    answered: set<(Flow, nat)>,
    outcomes: seq<Record>)

  function QueuesOf(s: System, f: Flow): Queues {
    if f == Reservations then s.reservations else s.releases
  }

  function WithQueues(s: System, f: Flow, q: Queues): System {
    if f == Reservations then s.(reservations := q) else s.(releases := q)
  }

  datatype Event =
    | Send(flow: Flow, origin: nat, d: Messages.Delivery)
    | Receive(flow: Flow, copy: Copy)
    | HandleOne(flow: Flow, copy: Copy, w: Conditions)
    | Redeliver(flow: Flow, copy: Copy)
    | Expire(flow: Flow, copy: Copy, added: Headers)
    | RequeueDead(flow: Flow, copy: Copy, fate: Fate, settles: bool)
    | Restart(seed: seq<Ledger.Seed>)
    | Restock(cancelled: bool, sku: string, available: int)

  predicate Enabled(s: System, e: Event) {
    match e
    case Send(f, o, d) => (f, o) !in s.sent
    case Receive(f, c) => c in QueuesOf(s, f).ready
    case HandleOne(f, c, w) => c in QueuesOf(s, f).unacked && BrokerHeaders(w.deathHeaders)
    case Redeliver(f, c) => c in QueuesOf(s, f).unacked
    case Expire(f, c, added) => c in QueuesOf(s, f).retry && BrokerHeaders(added)
    case RequeueDead(f, c, _, _) => c in QueuesOf(s, f).dead
    case Restart(seed) => Ledger.Seeded(seed).Ok?
    case Restock(_, _, _) => true
  }

  function Forwarded(c: Copy, count: int): Copy {
    Copy(c.origin, Delivered(Forward(c.d, count), map[]))
  }

  function WithHeaders(c: Copy, added: Headers): Copy {
    Copy(c.origin, c.d.(headers := c.d.headers + added))
  }

  /** The forwarded copy, if it lands, joins its queue. */
  function AddForwarded(q: Queues, c: Copy, forwarding: Forwarding, fate: Fate): Queues {
    if !Landed(fate) then q
    else
      match forwarding
      case NoForward => q
      case ToRetry(n) => q.(retry := q.retry + multiset{Forwarded(c, n)})
      case ToDead(n) => q.(dead := q.dead + multiset{Forwarded(c, n)})
  }

  /** The handled copy leaves the unacknowledged messages; if the settlement fails it stays there. */
  function Settle(q: Queues, c: Copy, settlement: Settlement, w: Conditions): Queues {
    if !w.settles then q
    else
      var q' := q.(unacked := q.unacked - multiset{c});
      match settlement
      case Ack => q'
      case NackDrop => q'.(dead := q'.dead + multiset{WithHeaders(c, w.deathHeaders)})
      case NackRequeue => q'.(ready := q'.ready + multiset{c})
  }

  /** The broker hands a ready message to the consumer. */
  function Taken(q: Queues, c: Copy): Queues {
    q.(ready := q.ready - multiset{c}, unacked := q.unacked + multiset{c})
  }

  /** The broker takes an unsettled message back. */
  function Returned(q: Queues, c: Copy): Queues {
    q.(unacked := q.unacked - multiset{c}, ready := q.ready + multiset{c})
  }

  /** A message of the retry queue reaches its time to live and goes back to the main queue. */
  function Expired(q: Queues, c: Copy, added: Headers): Queues {
    q.(retry := q.retry - multiset{c}, ready := q.ready + multiset{WithHeaders(c, added)})
  }

  /** An operator requeues a dead letter; it leaves the dead-letter queue only if publish and ack both succeed. */
  function Requeued(q: Queues, c: Copy, fate: Fate, settles: bool): Queues {
    var q' := if Landed(fate) then q.(ready := q.ready + multiset{Forwarded(c, 0)}) else q;
    if Reported(fate) && settles then q'.(dead := q'.dead - multiset{c}) else q'
  }

  function Records(epoch: nat, f: Flow, o: nat, messages: seq<OutcomeMessage>): seq<Record> {
    seq(|messages|, i requires 0 <= i < |messages| => Record(epoch, f, o, messages[i]))
  }

  /** All unsettled messages of a lost connection are ready again. */
  function Recovered(q: Queues): Queues {
    q.(ready := q.ready + q.unacked, unacked := multiset{})
  }

  /**
   * A lost connection or a failed settlement ends the process. The next one starts with the seeded stock and empty
   * stores, and finds the queues as the broker kept them.
   */
  function Restarted(s: System, l: Ledger.Ledger): System {
    System(s.epoch + 1, Handlers.Start(l), Recovered(s.reservations), Recovered(s.releases),
           s.sent, s.answered, s.outcomes)
  }

  function Next(codec: Codec, max: int, s: System, e: Event): System {
    match e
    case Send(f, o, d) =>
      var q := QueuesOf(s, f);
      WithQueues(s, f, q.(ready := q.ready + multiset{Copy(o, d)})).(sent := s.sent[(f, o) := d])
    case Receive(f, c) => WithQueues(s, f, Taken(QueuesOf(s, f), c))
    case HandleOne(f, c, w) =>
      var h := Handle(codec, max, s.app, f, c.d, w);
      var q := Settle(AddForwarded(QueuesOf(s, f), c, h.forwarding, w.forward), c, h.settlement, w);
      WithQueues(s, f, q).(
        app := h.app,
        answered := if h.answered then s.answered + {(f, c.origin)} else s.answered,
        outcomes := s.outcomes + Records(s.epoch, f, c.origin, h.messages))
    case Redeliver(f, c) => WithQueues(s, f, Returned(QueuesOf(s, f), c))
    case Expire(f, c, added) => WithQueues(s, f, Expired(QueuesOf(s, f), c, added))
    case RequeueDead(f, c, fate, settles) => WithQueues(s, f, Requeued(QueuesOf(s, f), c, fate, settles))
    case Restart(seed) => if Ledger.Seeded(seed).Ok? then Restarted(s, Ledger.Opened(seed)) else s
    case Restock(c, sku, n) => s.(app := s.app.(ledger := Ledger.SetStock(s.app.ledger, c, sku, n).0))
  }

  function Start(l: Ledger.Ledger): System {
    System(0, Handlers.Start(l), NO_COPIES, NO_COPIES, map[], {}, [])
  }

  function NextOf(codec: Codec, max: int): (System, Event) -> System {
    (s, e) => Next(codec, max, s, e)
  }

  function EnabledOf(): (System, Event) -> bool {
    (s, e) => Enabled(s, e)
  }

  /** The system after a run. */
  function Reach(codec: Codec, max: int, s: System, es: seq<Event>): System {
    Fold(NextOf(codec, max), s, es)
  }

  /** Each event of the run is enabled where it happens. */
  predicate Valid(codec: Codec, max: int, s: System, es: seq<Event>) {
    Allowed(EnabledOf(), NextOf(codec, max), s, es)
  }

  // ---------------------------------------------------------------------------
  // The publishes of a run
  // ---------------------------------------------------------------------------

  /** How the publishes of the consumer's connection end in one event. */
  function ConsumerPublishes(codec: Codec, max: int, s: System, e: Event): seq<Fate> {
    if e.HandleOne?
    then Attempted(Process(codec, s.app, e.flow, e.copy.d, e.w.env), Handle(codec, max, s.app, e.flow, e.copy.d, e.w), e.w)
    else []
  }

  /** How the publish of the operator's connection ends. */
  function AdminPublishes(e: Event): seq<Fate> {
    if e.RequeueDead? then [e.fate] else []
  }

  /** No publish of the event reports success for a message that the broker does not hold. */
  predicate Honest(codec: Codec, max: int, s: System, e: Event) {
    Misreported !in ConsumerPublishes(codec, max, s, e) && Misreported !in AdminPublishes(e)
  }

  predicate HonestRun(codec: Codec, max: int, s: System, es: seq<Event>) {
    es == [] ||
    (&& HonestRun(codec, max, s, es[..|es| - 1])
     && Honest(codec, max, Reach(codec, max, s, es[..|es| - 1]), es[|es| - 1]))
  }
}
