/**
 * Short runs in which no outcome can be published, so that every delivery is retried: building blocks for the runs that
 * show where a promise ends.
 */
module RetryRuns {
  import opened Prelude
  import opened Text
  import Ledger
  import opened Requests
  import Handlers
  import HandlerInvariant
  import ExactlyOnce
  import opened Messages
  import opened Outcomes
  import opened Delivery
  import opened RetryBound
  import Agreement
  import opened RunParts

  /** What a handler sees in the given failure mode if nothing is cancelled. */
  function Live(mode: Mode): Handlers.Env {
    Handlers.Env(mode, false, 0, false, false, false, false)
  }

  /** The failure mode in which every outcome publish fails. */
  const ENV := Live(PublishFailure)

  /** The forwarding publish ends as given, and the settlement succeeds. */
  function Unpublished(forward: Fate): Conditions {
    Conditions(ENV, PublishFailure, Lost, Lost, "", "", 0, 0, forward, true, map[])
  }

  // ---------------------------------------------------------------------------
  // Handling without failures
  // ---------------------------------------------------------------------------

  /** The message is a request of the flow. */
  predicate Decodes(codec: Codec, f: Flow, d: Messages.Delivery) {
    if f == Reservations then DecodeReservation(codec, d).Ok? else DecodeRelease(codec, d).Ok?
  }

  /** The request decodes, and its handler answers it. */
  predicate Answers(codec: Codec, a: Handlers.App, f: Flow, d: Messages.Delivery, env: Handlers.Env) {
    var p := Process(codec, a, f, d, env);
    p.Some? && p.value.result.Ok?
  }

  function AppAfter(codec: Codec, a: Handlers.App, f: Flow, d: Messages.Delivery, env: Handlers.Env): Handlers.App {
    var p := Process(codec, a, f, d, env);
    if p.Some? then p.value.app else a
  }

  lemma DecodesHasCount(codec: Codec, f: Flow, d: Messages.Delivery)
    requires Decodes(codec, f, d)
    ensures DecodeMetadata(codec, d.headers).Ok?
  {
  }

  /** The cache of the flow has an answer to the very request. */
  predicate Known(codec: Codec, a: Handlers.App, f: Flow, d: Messages.Delivery) {
    if f == Reservations then
      match DecodeReservation(codec, d)
      case Err(_) => false
      case Ok(req) =>
        var k := Trim(req.metadata.idempotencyKey);
        k in a.outer && SameReservation(a.outer[k].request, req)
    else
      match DecodeRelease(codec, d)
      case Err(_) => false
      case Ok(req) =>
        var k := Trim(req.metadata.idempotencyKey);
        k in a.releases && SameRelease(a.releases[k].request, req)
  }

  /** A known request is answered from the cache, in every mode. */
  lemma KnownIsAnswered(codec: Codec, a: Handlers.App, f: Flow, d: Messages.Delivery, mode: Mode)
    requires Known(codec, a, f, d)
    ensures Answers(codec, a, f, d, Live(mode)) && AppAfter(codec, a, f, d, Live(mode)) == a
  {
  }

  /** A new process answers any request, and knows it from then on. */
  lemma NewProcessAnswers(codec: Codec, seed: seq<Ledger.Seed>, f: Flow, d: Messages.Delivery)
    requires Ledger.Seeded(seed).Ok? && Decodes(codec, f, d)
    ensures
      var a := Handlers.Start(Ledger.Opened(seed));
      && HandlerInvariant.Inv(a) && Answers(codec, a, f, d, ENV)
      && HandlerInvariant.Inv(AppAfter(codec, a, f, d, ENV)) && Known(codec, AppAfter(codec, a, f, d, ENV), f, d)
  {
    HandlerInvariant.StartInv(seed);
    if f == Reservations { NewProcessReserves(codec, seed, d); } else { NewProcessReleases(codec, seed, d); }
  }

  lemma NewProcessReserves(codec: Codec, seed: seq<Ledger.Seed>, d: Messages.Delivery)
    requires Ledger.Seeded(seed).Ok? && DecodeReservation(codec, d).Ok?
    ensures
      var a := Handlers.Start(Ledger.Opened(seed));
      && Answers(codec, a, Reservations, d, ENV)
      && HandlerInvariant.Inv(AppAfter(codec, a, Reservations, d, ENV))
      && Known(codec, AppAfter(codec, a, Reservations, d, ENV), Reservations, d)
  {
    var a := Handlers.Start(Ledger.Opened(seed));
    var req := DecodeReservation(codec, d).value;
    HandlerInvariant.StartInv(seed);
    ExactlyOnce.LiveReservationErrors(a.ledger, [], req, ENV);
    HandlerInvariant.ReserveEventKeepsInv(a, req, ENV);
    ExactlyOnce.AnswerIsCached(a, req, ENV);
  }

  lemma NewProcessReleases(codec: Codec, seed: seq<Ledger.Seed>, d: Messages.Delivery)
    requires Ledger.Seeded(seed).Ok? && DecodeRelease(codec, d).Ok?
    ensures
      var a := Handlers.Start(Ledger.Opened(seed));
      && Answers(codec, a, Releases, d, ENV)
      && HandlerInvariant.Inv(AppAfter(codec, a, Releases, d, ENV))
      && Known(codec, AppAfter(codec, a, Releases, d, ENV), Releases, d)
  {
    var a := Handlers.Start(Ledger.Opened(seed));
    var req := DecodeRelease(codec, d).value;
    HandlerInvariant.StartInv(seed);
    ExactlyOnce.LiveReleaseErrors(a.ledger, [], req, ENV);
    HandlerInvariant.ReleaseEventKeepsInv(a, req, ENV);
    ExactlyOnce.ReleaseAnswerIsCached(a, req, ENV);
  }

  // ---------------------------------------------------------------------------
  // One delivery that cannot be published
  // ---------------------------------------------------------------------------

  lemma UnpublishedHandling(codec: Codec, max: int, a: Handlers.App, f: Flow, d: Messages.Delivery, forward: Fate)
    requires HandlerInvariant.Inv(a) && Answers(codec, a, f, d, ENV)
    ensures DecodeMetadata(codec, d.headers).Ok?
    ensures
      var w := Unpublished(forward);
      var h := Handle(codec, max, a, f, d, w);
      && h == Handling(AppAfter(codec, a, f, d, ENV), [], false, RetryOrDeadLetter(max, CountOf(codec, d)), AfterForward(forward))
      && Attempted(Process(codec, a, f, d, w.env), h, w) == [forward]
  {
    Agreement.ProcessedIsDecided(codec, a, f, d, ENV);
    Agreement.ProcessedMetadata(codec, a, f, d, ENV);
    UnpublishedConclusion(max, a, Process(codec, a, f, d, ENV), forward);
  }

  lemma UnpublishedConclusion(max: int, a: Handlers.App, p: Option<Processed>, forward: Fate)
    requires p.Some? && p.value.result.Ok? && p.value.result.value.Built?
    ensures
      var w := Unpublished(forward);
      var h := Conclude(max, a, p, w);
      && h == Handling(p.value.app, [], false, RetryOrDeadLetter(max, p.value.m.retryCount), AfterForward(forward))
      && Attempted(p, h, w) == [forward]
  {
  }

  /** What the handled copy leaves behind: the forwarded copy if it lands, and itself unless success is reported. */
  function AfterAttempt(codec: Codec, max: int, q: Queues, c: Copy, forward: Fate): Queues
    requires DecodeMetadata(codec, c.d.headers).Ok?
  {
    var q' := AddForwarded(q, c, RetryOrDeadLetter(max, CountOf(codec, c.d)), forward);
    if Reported(forward) then q' else q'.(ready := q'.ready + multiset{c})
  }

  lemma UnpublishedStep(codec: Codec, max: int, s: System, f: Flow, c: Copy, forward: Fate)
    requires HandlerInvariant.Inv(s.app) && Answers(codec, s.app, f, c.d, ENV) && c in QueuesOf(s, f).unacked
    ensures DecodeMetadata(codec, c.d.headers).Ok?
    ensures
      var q := QueuesOf(s, f).(unacked := QueuesOf(s, f).unacked - multiset{c});
      var e := HandleOne(f, c, Unpublished(forward));
      && Enabled(s, e)
      && Next(codec, max, s, e) ==
           WithQueues(s, f, AfterAttempt(codec, max, q, c, forward)).(app := AppAfter(codec, s.app, f, c.d, ENV))
      && ConsumerPublishes(codec, max, s, e) == [forward]
  {
    UnpublishedHandling(codec, max, s.app, f, c.d, forward);
    UnpublishedNext(codec, max, s, f, c, forward);
    UnpublishedQueues(codec, max, QueuesOf(s, f), c, forward);
  }

  lemma UnpublishedNext(codec: Codec, max: int, s: System, f: Flow, c: Copy, forward: Fate)
    ensures
      var e := HandleOne(f, c, Unpublished(forward));
      var h := Handle(codec, max, s.app, f, c.d, e.w);
      h.messages == [] && !h.answered ==>
        Next(codec, max, s, e) ==
          WithQueues(s, f, Settle(AddForwarded(QueuesOf(s, f), c, h.forwarding, forward), c, h.settlement, e.w)).(app := h.app)
  {
    assert s.outcomes + Records(s.epoch, f, c.origin, []) == s.outcomes;
  }

  lemma UnpublishedQueues(codec: Codec, max: int, q: Queues, c: Copy, forward: Fate)
    requires DecodeMetadata(codec, c.d.headers).Ok?
    ensures
      Settle(AddForwarded(q, c, RetryOrDeadLetter(max, CountOf(codec, c.d)), forward), c, AfterForward(forward), Unpublished(forward)) ==
        AfterAttempt(codec, max, q.(unacked := q.unacked - multiset{c}), c, forward)
  {
  }

  function UnpublishedSystem(codec: Codec, max: int, s: System, f: Flow, c: Copy, forward: Fate): System
    requires DecodeMetadata(codec, c.d.headers).Ok?
  {
    var q := QueuesOf(s, f);
    WithQueues(s, f, AfterAttempt(codec, max, q.(unacked := q.unacked - multiset{c}), c, forward)).(
      app := AppAfter(codec, s.app, f, c.d, ENV))
  }

  lemma UnpublishedPart(codec: Codec, max: int, s: System, f: Flow, c: Copy, forward: Fate)
    requires HandlerInvariant.Inv(s.app) && Answers(codec, s.app, f, c.d, ENV) && c in QueuesOf(s, f).unacked
    ensures DecodeMetadata(codec, c.d.headers).Ok?
    ensures Part(codec, max, s, [HandleOne(f, c, Unpublished(forward))], UnpublishedSystem(codec, max, s, f, c, forward), [forward], [])
  {
    UnpublishedStep(codec, max, s, f, c, forward);
    OnePart(codec, max, s, HandleOne(f, c, Unpublished(forward)));
  }

  // ---------------------------------------------------------------------------
  // Runs
  // ---------------------------------------------------------------------------

  /** A ready copy is received and retried. */
  function Round(f: Flow, c: Copy, forward: Fate): seq<Event> {
    [Receive(f, c), HandleOne(f, c, Unpublished(forward))]
  }

  /** A new request is sent, received and retried. */
  function Attempt(f: Flow, c: Copy, forward: Fate): seq<Event> {
    [Send(f, c.origin, c.d), Receive(f, c), HandleOne(f, c, Unpublished(forward))]
  }

  function RoundSystem(codec: Codec, max: int, s: System, f: Flow, c: Copy, forward: Fate): System
    requires DecodeMetadata(codec, c.d.headers).Ok?
  {
    var q := QueuesOf(s, f);
    WithQueues(s, f, AfterAttempt(codec, max, q.(ready := q.ready - multiset{c}), c, forward)).(
      app := AppAfter(codec, s.app, f, c.d, ENV))
  }

  /** The system after an attempt with a new request. */
  function AttemptedSystem(codec: Codec, max: int, s: System, f: Flow, c: Copy, forward: Fate): System
    requires DecodeMetadata(codec, c.d.headers).Ok?
  {
    WithQueues(s, f, AfterAttempt(codec, max, QueuesOf(s, f), c, forward)).(
      app := AppAfter(codec, s.app, f, c.d, ENV),
      sent := s.sent[(f, c.origin) := c.d])
  }

  lemma RoundPart(codec: Codec, max: int, s: System, f: Flow, c: Copy, forward: Fate)
    requires HandlerInvariant.Inv(s.app) && Answers(codec, s.app, f, c.d, ENV) && c in QueuesOf(s, f).ready
    ensures DecodeMetadata(codec, c.d.headers).Ok?
    ensures Part(codec, max, s, Round(f, c, forward), RoundSystem(codec, max, s, f, c, forward), [forward], [])
  {
    var t := ReceivedSystem(s, f, c);
    ReceivePart(codec, max, s, f, c);
    UnpublishedPart(codec, max, t, f, c, forward);
    RoundIsTheSame(codec, max, s, f, c, forward);
    TwoParts(codec, max, s, Receive(f, c), t, HandleOne(f, c, Unpublished(forward)), RoundSystem(codec, max, s, f, c, forward), [forward], []);
  }

  lemma RoundIsTheSame(codec: Codec, max: int, s: System, f: Flow, c: Copy, forward: Fate)
    requires DecodeMetadata(codec, c.d.headers).Ok?
    ensures UnpublishedSystem(codec, max, ReceivedSystem(s, f, c), f, c, forward) == RoundSystem(codec, max, s, f, c, forward)
  {
    assert Taken(QueuesOf(s, f), c).unacked - multiset{c} == QueuesOf(s, f).unacked;
  }

  lemma AttemptPart(codec: Codec, max: int, s: System, f: Flow, c: Copy, forward: Fate)
    requires HandlerInvariant.Inv(s.app) && Answers(codec, s.app, f, c.d, ENV) && (f, c.origin) !in s.sent
    ensures DecodeMetadata(codec, c.d.headers).Ok?
    ensures Part(codec, max, s, Attempt(f, c, forward), AttemptedSystem(codec, max, s, f, c, forward), [forward], [])
  {
    var t := SentSystem(s, f, c);
    SendPart(codec, max, s, f, c);
    RoundPart(codec, max, t, f, c, forward);
    AttemptIsTheSame(codec, max, s, f, c, forward);
    ThreeParts(codec, max, s, Send(f, c.origin, c.d), t, Receive(f, c), HandleOne(f, c, Unpublished(forward)),
               AttemptedSystem(codec, max, s, f, c, forward), [forward], []);
  }

  lemma AttemptIsTheSame(codec: Codec, max: int, s: System, f: Flow, c: Copy, forward: Fate)
    requires DecodeMetadata(codec, c.d.headers).Ok?
    ensures RoundSystem(codec, max, SentSystem(s, f, c), f, c, forward) == AttemptedSystem(codec, max, s, f, c, forward)
  {
    assert QueuesOf(SentSystem(s, f, c), f).ready - multiset{c} == QueuesOf(s, f).ready;
  }
}
