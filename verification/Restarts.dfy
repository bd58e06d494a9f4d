/**
 * What a restart forgets. Ledger and stores live in memory, so the agreement of outcomes ends with the process: a
 * request can be confirmed by one process and rejected by the next.
 */
module Restarts {
  import opened Prelude
  import opened Text
  import opened Requests
  import Handlers
  import HandlerInvariant
  import Ledger
  import opened Messages
  import opened Outcomes
  import opened Delivery
  import Agreement
  import opened Folds
  import opened RunParts
  import opened RetryRuns

  // ---------------------------------------------------------------------------
  // Answering a delivery
  // ---------------------------------------------------------------------------

  /** The failure modes used here, both of which publish an outcome once. */
  predicate Publishing(mode: Mode) {
    mode == Normal || mode == AlwaysReject
  }

  /** The outcome is published; whether the acknowledgement gets through is left open. */
  function Published(mode: Mode, settles: bool): Conditions {
    Conditions(Live(mode), mode, Accepted, Lost, "", "", 0, 0, Lost, settles, map[])
  }

  /** The process answers the copy, with something that can be published. */
  ghost predicate Ready(codec: Codec, s: System, c: Copy, mode: Mode) {
    HandlerInvariant.Inv(s.app) && Answers(codec, s.app, Reservations, c.d, Live(mode)) && Publishing(mode)
  }

  function AppOf(codec: Codec, s: System, c: Copy, mode: Mode): Handlers.App {
    AppAfter(codec, s.app, Reservations, c.d, Live(mode))
  }

  /** The outcome that goes out for the copy. */
  ghost function OutcomeOf(codec: Codec, s: System, c: Copy, mode: Mode): Record
    requires Ready(codec, s, c, mode)
  {
    Agreement.ProcessedIsDecided(codec, s.app, Reservations, c.d, Live(mode));
    var p := Process(codec, s.app, Reservations, c.d, Live(mode)).value;
    Record(s.epoch, Reservations, c.origin, MessageOf(p.result.value.value, p.m, "", 0))
  }

  /** The system after an unsettled copy has been answered. */
  ghost function AnsweredSystem(codec: Codec, s: System, c: Copy, mode: Mode, settles: bool): System
    requires Ready(codec, s, c, mode)
  {
    var q := s.reservations;
    s.(app := AppOf(codec, s, c, mode),
       reservations := if settles then q.(unacked := q.unacked - multiset{c}) else q,
       answered := s.answered + {(Reservations, c.origin)},
       outcomes := s.outcomes + [OutcomeOf(codec, s, c, mode)])
  }

  lemma AnswerHandling(codec: Codec, max: int, s: System, c: Copy, mode: Mode, settles: bool)
    requires Ready(codec, s, c, mode)
    ensures
      Handle(codec, max, s.app, Reservations, c.d, Published(mode, settles)) ==
        Handling(AppOf(codec, s, c, mode), [OutcomeOf(codec, s, c, mode).message], true, NoForward, Ack)
  {
    Agreement.ProcessedIsDecided(codec, s.app, Reservations, c.d, Live(mode));
    AnswerConclusion(max, s.app, Process(codec, s.app, Reservations, c.d, Live(mode)), mode, settles);
  }

  lemma AnswerConclusion(max: int, a: Handlers.App, p: Option<Processed>, mode: Mode, settles: bool)
    requires p.Some? && p.value.result.Ok? && p.value.result.value.Built? && Publishing(mode)
    ensures Conclude(max, a, p, Published(mode, settles)) ==
              Handling(p.value.app, [MessageOf(p.value.result.value.value, p.value.m, "", 0)], true, NoForward, Ack)
  {
  }

  lemma AnswerStep(codec: Codec, max: int, s: System, c: Copy, mode: Mode, settles: bool)
    requires Ready(codec, s, c, mode) && c in s.reservations.unacked
    ensures
      var e := HandleOne(Reservations, c, Published(mode, settles));
      Enabled(s, e) && Next(codec, max, s, e) == AnsweredSystem(codec, s, c, mode, settles)
  {
    AnswerHandling(codec, max, s, c, mode, settles);
    assert Records(s.epoch, Reservations, c.origin, [OutcomeOf(codec, s, c, mode).message]) == [OutcomeOf(codec, s, c, mode)];
  }

  /** A request is sent and answered. */
  function Served(c: Copy, mode: Mode, settles: bool): seq<Event> {
    [Send(Reservations, c.origin, c.d)] + ServedAgain(c, mode, settles)
  }

  /** A ready copy is answered. */
  function ServedAgain(c: Copy, mode: Mode, settles: bool): seq<Event> {
    [Receive(Reservations, c)] + [HandleOne(Reservations, c, Published(mode, settles))]
  }

  ghost function ServedAgainSystem(codec: Codec, s: System, c: Copy, mode: Mode, settles: bool): System
    requires Ready(codec, s, c, mode)
  {
    AnsweredSystem(codec, ReceivedSystem(s, Reservations, c), c, mode, settles)
  }

  ghost function ServedSystem(codec: Codec, s: System, c: Copy, mode: Mode, settles: bool): System
    requires Ready(codec, s, c, mode)
  {
    ServedAgainSystem(codec, SentSystem(s, Reservations, c), c, mode, settles)
  }

  lemma AnswerRuns(codec: Codec, max: int, s: System, c: Copy, mode: Mode, settles: bool)
    requires Ready(codec, s, c, mode) && c in s.reservations.unacked
    ensures RunsTo(codec, max, s, [HandleOne(Reservations, c, Published(mode, settles))], AnsweredSystem(codec, s, c, mode, settles))
  {
    AnswerStep(codec, max, s, c, mode, settles);
    FoldOne(EnabledOf(), NextOf(codec, max), s, HandleOne(Reservations, c, Published(mode, settles)));
  }

  lemma ServedAgainRuns(codec: Codec, max: int, s: System, c: Copy, mode: Mode, settles: bool)
    requires Ready(codec, s, c, mode) && c in s.reservations.ready
    ensures RunsTo(codec, max, s, ServedAgain(c, mode, settles), ServedAgainSystem(codec, s, c, mode, settles))
  {
    var t := ReceivedSystem(s, Reservations, c);
    ReceivePart(codec, max, s, Reservations, c);
    AnswerRuns(codec, max, t, c, mode, settles);
    Joined(codec, max, s, [Receive(Reservations, c)], t, [HandleOne(Reservations, c, Published(mode, settles))],
           ServedAgainSystem(codec, s, c, mode, settles));
  }

  lemma ServedRuns(codec: Codec, max: int, s: System, c: Copy, mode: Mode, settles: bool)
    requires Ready(codec, s, c, mode) && (Reservations, c.origin) !in s.sent
    ensures RunsTo(codec, max, s, Served(c, mode, settles), ServedSystem(codec, s, c, mode, settles))
  {
    var t := SentSystem(s, Reservations, c);
    SendPart(codec, max, s, Reservations, c);
    ServedAgainRuns(codec, max, t, c, mode, settles);
    Joined(codec, max, s, [Send(Reservations, c.origin, c.d)], t, ServedAgain(c, mode, settles),
           ServedSystem(codec, s, c, mode, settles));
  }

  lemma RestartRuns(codec: Codec, max: int, s: System, seed: seq<Ledger.Seed>)
    requires Ledger.Seeded(seed).Ok?
    ensures RunsTo(codec, max, s, [Restart(seed)], Restarted(s, Ledger.Opened(seed)))
  {
    FoldOne(EnabledOf(), NextOf(codec, max), s, Restart(seed));
  }

  lemma ServedOutcomes(codec: Codec, s: System, c: Copy, mode: Mode, settles: bool)
    requires Ready(codec, s, c, mode)
    ensures
      var served, again := ServedSystem(codec, s, c, mode, settles), ServedAgainSystem(codec, s, c, mode, settles);
      && served.outcomes == again.outcomes == s.outcomes + [OutcomeOf(codec, s, c, mode)]
      && served.app == again.app == AppOf(codec, s, c, mode) && served.epoch == again.epoch == s.epoch
      && served.sent == s.sent[(Reservations, c.origin) := c.d] && again.sent == s.sent
      && (!settles ==> c in served.reservations.unacked)
      && (forall x | x in s.reservations.ready && x != c :: x in served.reservations.ready)
  {
  }

  // ---------------------------------------------------------------------------
  // What the handlers decide
  // ---------------------------------------------------------------------------

  const NORMAL := Live(Normal)

  /** The request is new to the process, as the decoder lets it through. */
  predicate New(a: Handlers.App, req: ReservationRequest) {
    && Usable(req) && Trim(req.metadata.idempotencyKey) !in a.outer && Trim(req.reservationId) !in a.ledger.reservations
  }

  /** What the decoder lets through. */
  predicate Usable(req: ReservationRequest) {
    && Trim(req.metadata.idempotencyKey) != "" && Trim(req.reservationId) != "" && Trim(req.sku) != "" && 0 < req.quantity
  }

  lemma DecodedIsUsable(codec: Codec, d: Messages.Delivery)
    requires DecodeReservation(codec, d).Ok?
    ensures Usable(DecodeReservation(codec, d).value)
  {
  }

  function Available(a: Handlers.App, req: ReservationRequest): int
    requires Trim(req.sku) in a.ledger.stock
  {
    a.ledger.stock[Trim(req.sku)].available
  }

  /** A new request gets what the reserve operation says. */
  lemma NewIsDecided(a: Handlers.App, req: ReservationRequest)
    requires HandlerInvariant.Inv(a) && New(a, req) && Trim(req.sku) in a.ledger.stock
    ensures
      var (a', r) := Handlers.HandleReservation(a, req, NORMAL);
      var (l', op) := Handlers.ReserveOperation(a.ledger, req, NORMAL);
      && HandlerInvariant.Inv(a') && r == op && a'.ledger == l'
      && a'.outer.Keys == a.outer.Keys + {Trim(req.metadata.idempotencyKey)}
  {
    HandlerInvariant.ReserveEventKeepsInv(a, req, NORMAL);
    HandlerInvariant.ReservationFull(a, req, NORMAL);
    NewIsReserved(a.ledger, req);
  }

  /** A new request is confirmed if and only if there is enough, and takes what it asks for. */
  lemma NewIsReserved(l: Ledger.Ledger, req: ReservationRequest)
    requires Ledger.Inv(l) && Trim(req.reservationId) != "" && Trim(req.reservationId) !in l.reservations
    requires Trim(req.sku) in l.stock && 0 < req.quantity
    ensures
      var (l', op) := Handlers.ReserveOperation(l, req, NORMAL);
      var k := Trim(req.sku);
      var fits := req.quantity <= l.stock[k].available;
      && op.Ok? && op.value.decision == (if fits then Confirmed else Rejected)
      && l'.reservations.Keys == l.reservations.Keys + (if fits then {Trim(req.reservationId)} else {})
      && k in l'.stock && l'.stock[k].available == l.stock[k].available - if fits then req.quantity else 0
  {
    assert Ledger.StockWellFormed(Trim(req.sku), l.stock[Trim(req.sku)]);
    Ledger.ReservedCovers(l);
    Ledger.ReserveFound(l, req.reservationId, req.sku, req.quantity, 0);
  }

  /** In the rejecting mode every new request is rejected. */
  lemma NewIsRejected(a: Handlers.App, req: ReservationRequest)
    requires HandlerInvariant.Inv(a) && New(a, req)
    ensures
      var r := Handlers.HandleReservation(a, req, Live(AlwaysReject)).1;
      r.Ok? && r.value.decision == Rejected
  {
    HandlerInvariant.ReservationFull(a, req, Live(AlwaysReject));
  }

  /** Which routing key the outcome of an answer has. */
  lemma KeyOfOutcome(codec: Codec, s: System, c: Copy, mode: Mode)
    requires HandlerInvariant.Inv(s.app) && Publishing(mode) && DecodeReservation(codec, c.d).Ok?
    requires Handlers.HandleReservation(s.app, DecodeReservation(codec, c.d).value, Live(mode)).1.Ok?
    ensures Ready(codec, s, c, mode)
    ensures
      var (a', r) := Handlers.HandleReservation(s.app, DecodeReservation(codec, c.d).value, Live(mode));
      && AppOf(codec, s, c, mode) == a'
      && (r.value.decision == Confirmed ==> OutcomeOf(codec, s, c, mode).message.routingKey == ConfirmedKey)
      && (r.value.decision == Rejected ==> OutcomeOf(codec, s, c, mode).message.routingKey == RejectedKey)
  {
  }

  // ---------------------------------------------------------------------------
  // The parts of the runs
  // ---------------------------------------------------------------------------

  /** An outcome of request 0 of the reservation flow. */
  predicate Says(r: Record, epoch: nat, key: RoutingKey) {
    r.epoch == epoch && r.flow == Reservations && r.origin == 0 && r.message.routingKey == key
  }

  /** Request 0 has been confirmed, by process 0, and not acknowledged. */
  ghost predicate Confirmed0(s: System, d: Messages.Delivery) {
    && s.epoch == 0 && s.sent == map[(Reservations, 0) := d] && Copy(0, d) in s.reservations.unacked
    && exists x :: Says(x, 0, ConfirmedKey) && s.outcomes == [x]
  }

  lemma ConfirmFirst(codec: Codec, max: int, s: System, d: Messages.Delivery) returns (s': System)
    requires DecodeReservation(codec, d).Ok? && HandlerInvariant.Inv(s.app)
    requires s.epoch == 0 && s.sent == map[] && s.outcomes == []
    requires
      var r := Handlers.HandleReservation(s.app, DecodeReservation(codec, d).value, NORMAL).1;
      r.Ok? && r.value.decision == Confirmed
    ensures RunsTo(codec, max, s, Served(Copy(0, d), Normal, false), s') && Confirmed0(s', d)
  {
    var c := Copy(0, d);
    KeyOfOutcome(codec, s, c, Normal);
    ServedRuns(codec, max, s, c, Normal, false);
    ServedOutcomes(codec, s, c, Normal, false);
    s' := ServedSystem(codec, s, c, Normal, false);
    assert Says(OutcomeOf(codec, s, c, Normal), 0, ConfirmedKey) && s'.outcomes == [OutcomeOf(codec, s, c, Normal)];
  }

  /** The next process: request 0 is ready again, and its old outcome is still there. */
  ghost predicate Forgotten(s: System, d: Messages.Delivery) {
    && s.epoch == 1 && (Reservations, 0) in s.sent && s.sent[(Reservations, 0)] == d && Copy(0, d) in s.reservations.ready
    && s.outcomes != [] && Says(s.outcomes[0], 0, ConfirmedKey)
  }

  lemma Forget(codec: Codec, max: int, s: System, seed: seq<Ledger.Seed>, d: Messages.Delivery) returns (s': System)
    requires Ledger.Seeded(seed).Ok? && Confirmed0(s, d)
    ensures RunsTo(codec, max, s, [Restart(seed)], s') && Forgotten(s', d)
    ensures s'.app == Handlers.Start(Ledger.Opened(seed)) && s'.sent.Keys == {(Reservations, 0)}
  {
    RestartRuns(codec, max, s, seed);
    s' := Restarted(s, Ledger.Opened(seed));
  }

  /** Two outcomes that the broker holds for one and the same request disagree. */
  predicate Disagreement(s: System, d: Messages.Delivery, x: Record, y: Record) {
    && x in s.outcomes && y in s.outcomes && x.flow == y.flow && x.origin == y.origin
    && (x.flow, x.origin) in s.sent && s.sent[(x.flow, x.origin)] == d
    && !Agreement.SameOutcome(x.message, y.message)
  }

  ghost predicate Contradicted(s: System, d: Messages.Delivery) {
    exists x, y :: Disagreement(s, d, x, y)
  }

  lemma RejectAgain(codec: Codec, max: int, s: System, d: Messages.Delivery, mode: Mode) returns (s': System)
    requires DecodeReservation(codec, d).Ok? && HandlerInvariant.Inv(s.app) && Forgotten(s, d) && Publishing(mode)
    requires
      var r := Handlers.HandleReservation(s.app, DecodeReservation(codec, d).value, Live(mode)).1;
      r.Ok? && r.value.decision == Rejected
    ensures RunsTo(codec, max, s, ServedAgain(Copy(0, d), mode, true), s') && Contradicted(s', d)
  {
    var c := Copy(0, d);
    KeyOfOutcome(codec, s, c, mode);
    ServedAgainRuns(codec, max, s, c, mode, true);
    ServedOutcomes(codec, s, c, mode, true);
    s' := ServedAgainSystem(codec, s, c, mode, true);
    EndsContradict(s', d, s.outcomes, OutcomeOf(codec, s, c, mode));
  }

  lemma EndsContradict(s: System, d: Messages.Delivery, rs: seq<Record>, y: Record)
    requires s.outcomes == rs + [y] && rs != [] && Says(rs[0], 0, ConfirmedKey) && Says(y, 1, RejectedKey)
    requires (Reservations, 0) in s.sent && s.sent[(Reservations, 0)] == d
    ensures Contradicted(s, d)
  {
    assert s.outcomes[0] == rs[0] && s.outcomes[|rs|] == y;
    assert rs[0] in s.outcomes && y in s.outcomes;
    assert Disagreement(s, d, rs[0], y);
  }

  // ---------------------------------------------------------------------------
  // Exactly when outcomes can disagree
  // ---------------------------------------------------------------------------

  function RestartsIn(es: seq<Event>): nat {
    if es == [] then 0 else RestartsIn(es[..|es| - 1]) + if es[|es| - 1].Restart? then 1 else 0
  }

  lemma {:induction false} RestartsJoin(xs: seq<Event>, ys: seq<Event>)
    ensures RestartsIn(xs + ys) == RestartsIn(xs) + RestartsIn(ys)
  {
    if ys == [] {
      assert xs + ys == xs;
    } else {
      assert (xs + ys)[..|xs + ys| - 1] == xs + ys[..|ys| - 1];
      RestartsJoin(xs, ys[..|ys| - 1]);
    }
  }

  /** Some run with at most `n` restarts gets two disagreeing outcomes of this request to the broker. */
  ghost predicate CanDisagree(codec: Codec, max: int, seed: seq<Ledger.Seed>, d: Messages.Delivery, n: nat)
    requires Ledger.Seeded(seed).Ok?
  {
    exists es :: Disagrees(codec, max, seed, d, n, es)
  }

  ghost predicate Disagrees(codec: Codec, max: int, seed: seq<Ledger.Seed>, d: Messages.Delivery, n: nat, es: seq<Event>)
    requires Ledger.Seeded(seed).Ok?
  {
    && Valid(codec, max, Start(Ledger.Opened(seed)), es) && RestartsIn(es) <= n
    && Contradicted(Reach(codec, max, Start(Ledger.Opened(seed)), es), d)
  }

  /** The outcomes of any readable reservation request can disagree if and only if there is a restart. */
  lemma DisagreesIffRestarted(codec: Codec, max: int, seed: seq<Ledger.Seed>, d: Messages.Delivery, n: nat)
    requires Ledger.Seeded(seed).Ok? && DecodeReservation(codec, d).Ok?
    ensures CanDisagree(codec, max, seed, d, n) <==> n >= 1
  {
    if n >= 1 { DisagreeingRun(codec, max, seed, d, n); }
    if CanDisagree(codec, max, seed, d, n) {
      var es :| Disagrees(codec, max, seed, d, n, es);
      if n == 0 { OneProcessAgrees(codec, max, seed, d, es); }
    }
  }

  lemma OneProcessAgrees(codec: Codec, max: int, seed: seq<Ledger.Seed>, d: Messages.Delivery, es: seq<Event>)
    requires Ledger.Seeded(seed).Ok?
    ensures !Disagrees(codec, max, seed, d, 0, es)
  {
    var start := Start(Ledger.Opened(seed));
    if Valid(codec, max, start, es) && RestartsIn(es) == 0 {
      var s := Reach(codec, max, start, es);
      Agreement.OutcomesAgree(codec, max, seed, es);
      NoRestartNoEpoch(codec, max, start, es);
      forall x, y | x in s.outcomes && y in s.outcomes && x.flow == y.flow && x.origin == y.origin
        ensures Agreement.SameOutcome(x.message, y.message)
      {
        assert Agreement.RecordOk(codec, s, x) && Agreement.RecordOk(codec, s, y);
        assert Agreement.Kin(codec, s, x, y);
      }
    }
  }

  lemma {:induction false} NoRestartNoEpoch(codec: Codec, max: int, s: System, es: seq<Event>)
    requires Valid(codec, max, s, es) && RestartsIn(es) == 0
    ensures Reach(codec, max, s, es).epoch == s.epoch
  {
    if es != [] {
      NoRestartNoEpoch(codec, max, s, es[..|es| - 1]);
      Agreement.NextOutcomes(codec, max, Reach(codec, max, s, es[..|es| - 1]), es[|es| - 1]);
    }
  }

  /** Whatever the seed, the stock is set to what the request wants. */
  function StockedSystem(seed: seq<Ledger.Seed>, req: ReservationRequest): System
    requires Ledger.Seeded(seed).Ok?
  {
    var s := Start(Ledger.Opened(seed));
    s.(app := s.app.(ledger := Ledger.SetStock(s.app.ledger, false, req.sku, req.quantity).0))
  }

  lemma StockedConfirms(seed: seq<Ledger.Seed>, req: ReservationRequest)
    requires Ledger.Seeded(seed).Ok? && Usable(req)
    ensures
      var a := StockedSystem(seed, req).app;
      var r := Handlers.HandleReservation(a, req, NORMAL).1;
      HandlerInvariant.Inv(a) && r.Ok? && r.value.decision == Confirmed
  {
    var a := Handlers.Start(Ledger.Opened(seed));
    HandlerInvariant.StartInv(seed);
    HandlerInvariant.StockEventKeepsInv(a, false, req.sku, req.quantity);
    Ledger.NewStockItemOk(req.sku, req.quantity);
    var b := StockedSystem(seed, req).app;
    NewIsDecided(b, req);
    NewIsReserved(b.ledger, req);
  }

  lemma RestockRuns(codec: Codec, max: int, seed: seq<Ledger.Seed>, req: ReservationRequest)
    requires Ledger.Seeded(seed).Ok?
    ensures RunsTo(codec, max, Start(Ledger.Opened(seed)), [Restock(false, req.sku, req.quantity)], StockedSystem(seed, req))
  {
    FoldOne(EnabledOf(), NextOf(codec, max), Start(Ledger.Opened(seed)), Restock(false, req.sku, req.quantity));
  }

  /** The request is confirmed, the acknowledgement does not get through, and the next process rejects by its mode. */
  function DisagreeingEvents(seed: seq<Ledger.Seed>, d: Messages.Delivery, req: ReservationRequest): seq<Event> {
    [Restock(false, req.sku, req.quantity)] + Served(Copy(0, d), Normal, false) + [Restart(seed)]
    + ServedAgain(Copy(0, d), AlwaysReject, true)
  }

  lemma DisagreeingRun(codec: Codec, max: int, seed: seq<Ledger.Seed>, d: Messages.Delivery, n: nat)
    requires Ledger.Seeded(seed).Ok? && DecodeReservation(codec, d).Ok? && n >= 1
    ensures CanDisagree(codec, max, seed, d, n)
  {
    var req := DecodeReservation(codec, d).value;
    var start := Start(Ledger.Opened(seed));
    DecodedIsUsable(codec, d);
    RestockRuns(codec, max, seed, req);
    StockedConfirms(seed, req);
    var s2 := ConfirmFirst(codec, max, StockedSystem(seed, req), d);
    var s3 := Forget(codec, max, s2, seed, d);
    HandlerInvariant.StartInv(seed);
    NewIsRejected(s3.app, req);
    var s4 := RejectAgain(codec, max, s3, d, AlwaysReject);
    FourParts(codec, max, start, [Restock(false, req.sku, req.quantity)], StockedSystem(seed, req),
              Served(Copy(0, d), Normal, false), s2, [Restart(seed)], s3, ServedAgain(Copy(0, d), AlwaysReject, true), s4);
    OneRestart(seed, d, req);
    assert Disagrees(codec, max, seed, d, n, DisagreeingEvents(seed, d, req));
  }

  lemma OneRestart(seed: seq<Ledger.Seed>, d: Messages.Delivery, req: ReservationRequest)
    ensures RestartsIn(DisagreeingEvents(seed, d, req)) == 1
  {
    var c := Copy(0, d);
    var ws, xs := [Restock(false, req.sku, req.quantity)], Served(c, Normal, false);
    ServedHasNoRestart(c, Normal, false);
    ServedHasNoRestart(c, AlwaysReject, true);
    RestartsJoin(ws + xs + [Restart(seed)], ServedAgain(c, AlwaysReject, true));
    RestartsJoin(ws + xs, [Restart(seed)]);
    RestartsJoin(ws, xs);
    assert ws[..0] == [] && [Restart(seed)][..0] == [];
  }

  lemma ServedHasNoRestart(c: Copy, mode: Mode, settles: bool)
    ensures RestartsIn(Served(c, mode, settles)) == 0 && RestartsIn(ServedAgain(c, mode, settles)) == 0
  {
    var x, y, z := Send(Reservations, c.origin, c.d), Receive(Reservations, c), HandleOne(Reservations, c, Published(mode, settles));
    assert [x][..0] == [] && [y][..0] == [] && [z][..0] == [];
    RestartsJoin([y], [z]);
    RestartsJoin([x], [y] + [z]);
  }

  lemma FourParts(codec: Codec, max: int, s0: System, ws: seq<Event>, s1: System, xs: seq<Event>, s2: System,
                  ys: seq<Event>, s3: System, zs: seq<Event>, s4: System)
    requires RunsTo(codec, max, s0, ws, s1) && RunsTo(codec, max, s1, xs, s2)
    requires RunsTo(codec, max, s2, ys, s3) && RunsTo(codec, max, s3, zs, s4)
    ensures RunsTo(codec, max, s0, ws + xs + ys + zs, s4)
  {
    Joined(codec, max, s0, ws, s1, xs, s2);
    Joined(codec, max, s0, ws + xs, s2, ys, s3);
    Joined(codec, max, s0, ws + xs + ys, s3, zs, s4);
  }

  // ---------------------------------------------------------------------------
  // Two requests that compete
  // ---------------------------------------------------------------------------

  /**
   * Two requests under different keys and reservation IDs want the same SKU; the seed has enough for either, and not
   * for both.
   */
  predicate Rivals(seed: seq<Ledger.Seed>, x: ReservationRequest, y: ReservationRequest)
    requires Ledger.Seeded(seed).Ok?
  {
    var k := Trim(x.sku);
    && Trim(y.sku) == k && k in Ledger.Opened(seed).stock
    && Trim(x.metadata.idempotencyKey) != Trim(y.metadata.idempotencyKey)
    && Trim(x.reservationId) != Trim(y.reservationId)
    && var n := Ledger.Opened(seed).stock[k].available;
       x.quantity <= n && y.quantity <= n < x.quantity + y.quantity
  }

  predicate Compete(codec: Codec, seed: seq<Ledger.Seed>, d: Messages.Delivery, e: Messages.Delivery) {
    && Ledger.Seeded(seed).Ok? && DecodeReservation(codec, d).Ok? && DecodeReservation(codec, e).Ok?
    && Rivals(seed, DecodeReservation(codec, d).value, DecodeReservation(codec, e).value)
  }

  /** A new process confirms a request that fits its stock. */
  lemma FitsInNew(seed: seq<Ledger.Seed>, req: ReservationRequest)
    requires Ledger.Seeded(seed).Ok? && Trim(req.sku) in Ledger.Opened(seed).stock
    requires Usable(req) && req.quantity <= Ledger.Opened(seed).stock[Trim(req.sku)].available
    ensures
      var a := Handlers.Start(Ledger.Opened(seed));
      var (b, r) := Handlers.HandleReservation(a, req, NORMAL);
      && HandlerInvariant.Inv(a) && HandlerInvariant.Inv(b) && r.Ok? && r.value.decision == Confirmed
      && b.outer.Keys == {Trim(req.metadata.idempotencyKey)} && b.ledger.reservations.Keys == {Trim(req.reservationId)}
      && Trim(req.sku) in b.ledger.stock
      && Available(b, req) == Ledger.Opened(seed).stock[Trim(req.sku)].available - req.quantity
  {
    HandlerInvariant.StartInv(seed);
    NewIsDecided(Handlers.Start(Ledger.Opened(seed)), req);
    NewIsReserved(Ledger.Opened(seed), req);
  }

  /** After one of two rivals has been confirmed, the other is rejected. */
  lemma RivalIsRejected(seed: seq<Ledger.Seed>, x: ReservationRequest, y: ReservationRequest)
    requires Ledger.Seeded(seed).Ok? && Rivals(seed, x, y) && Usable(x) && Usable(y)
    ensures
      var b := Handlers.HandleReservation(Handlers.Start(Ledger.Opened(seed)), y, NORMAL).0;
      var r := Handlers.HandleReservation(b, x, NORMAL).1;
      HandlerInvariant.Inv(b) && r.Ok? && r.value.decision == Rejected
  {
    FitsInNew(seed, y);
    var b := Handlers.HandleReservation(Handlers.Start(Ledger.Opened(seed)), y, NORMAL).0;
    NewIsDecided(b, x);
    NewIsReserved(b.ledger, x);
  }

  /** What the two processes of the run decide. */
  lemma RivalDecisions(seed: seq<Ledger.Seed>, x: ReservationRequest, y: ReservationRequest)
    requires Ledger.Seeded(seed).Ok? && Rivals(seed, x, y) && Usable(x) && Usable(y)
    ensures
      var a := Handlers.Start(Ledger.Opened(seed));
      var first, (b, other) := Handlers.HandleReservation(a, x, NORMAL).1, Handlers.HandleReservation(a, y, NORMAL);
      var again := Handlers.HandleReservation(b, x, NORMAL).1;
      && HandlerInvariant.Inv(a) && first.Ok? && first.value.decision == Confirmed && other.Ok?
      && HandlerInvariant.Inv(b) && again.Ok? && again.value.decision == Rejected
  {
    FitsInNew(seed, x);
    FitsInNew(seed, y);
    RivalIsRejected(seed, x, y);
  }

  /** A process that answers the other request first rejects this one. */
  ghost predicate Prefers(a: Handlers.App, y: ReservationRequest, x: ReservationRequest) {
    var (b, other) := Handlers.HandleReservation(a, y, NORMAL);
    var again := Handlers.HandleReservation(b, x, NORMAL).1;
    && HandlerInvariant.Inv(a) && other.Ok?
    && HandlerInvariant.Inv(b) && again.Ok? && again.value.decision == Rejected
  }

  lemma CompetingDecisions(codec: Codec, seed: seq<Ledger.Seed>, d: Messages.Delivery, e: Messages.Delivery)
    requires Compete(codec, seed, d, e)
    ensures
      var a := Handlers.Start(Ledger.Opened(seed));
      var first := Handlers.HandleReservation(a, DecodeReservation(codec, d).value, NORMAL).1;
      && HandlerInvariant.Inv(a) && first.Ok? && first.value.decision == Confirmed
      && Prefers(a, DecodeReservation(codec, e).value, DecodeReservation(codec, d).value)
  {
    DecodedIsUsable(codec, d);
    DecodedIsUsable(codec, e);
    RivalDecisions(seed, DecodeReservation(codec, d).value, DecodeReservation(codec, e).value);
  }

  /** The other request is answered in between, and settled. */
  lemma ServeOther(codec: Codec, max: int, s: System, d: Messages.Delivery, e: Messages.Delivery) returns (s': System)
    requires DecodeReservation(codec, e).Ok? && HandlerInvariant.Inv(s.app)
    requires Forgotten(s, d) && (Reservations, 1) !in s.sent
    requires Handlers.HandleReservation(s.app, DecodeReservation(codec, e).value, NORMAL).1.Ok?
    ensures RunsTo(codec, max, s, Served(Copy(1, e), Normal, true), s') && Forgotten(s', d)
    ensures s'.app == Handlers.HandleReservation(s.app, DecodeReservation(codec, e).value, NORMAL).0
  {
    var c := Copy(1, e);
    KeyOfOutcome(codec, s, c, Normal);
    ServedRuns(codec, max, s, c, Normal, true);
    ServedOutcomes(codec, s, c, Normal, true);
    s' := ServedSystem(codec, s, c, Normal, true);
  }

  /** The first process answers the first request and ends before it can acknowledge it. */
  function FirstProcess(seed: seq<Ledger.Seed>, d: Messages.Delivery): seq<Event> {
    Served(Copy(0, d), Normal, false) + [Restart(seed)]
  }

  /** The second process answers the other request, and then the first one again. */
  function SecondProcess(d: Messages.Delivery, e: Messages.Delivery): seq<Event> {
    Served(Copy(1, e), Normal, true) + ServedAgain(Copy(0, d), Normal, true)
  }

  lemma FirstProcessRuns(codec: Codec, max: int, seed: seq<Ledger.Seed>, d: Messages.Delivery) returns (s: System)
    requires Ledger.Seeded(seed).Ok? && DecodeReservation(codec, d).Ok?
    requires
      var a := Handlers.Start(Ledger.Opened(seed));
      var first := Handlers.HandleReservation(a, DecodeReservation(codec, d).value, NORMAL).1;
      HandlerInvariant.Inv(a) && first.Ok? && first.value.decision == Confirmed
    ensures RunsTo(codec, max, Start(Ledger.Opened(seed)), FirstProcess(seed, d), s) && Forgotten(s, d)
    ensures s.app == Handlers.Start(Ledger.Opened(seed)) && (Reservations, 1) !in s.sent
  {
    var start := Start(Ledger.Opened(seed));
    var t := ConfirmFirst(codec, max, start, d);
    s := Forget(codec, max, t, seed, d);
    Joined(codec, max, start, Served(Copy(0, d), Normal, false), t, [Restart(seed)], s);
  }

  lemma SecondProcessRuns(codec: Codec, max: int, s: System, d: Messages.Delivery, e: Messages.Delivery) returns (s': System)
    requires DecodeReservation(codec, d).Ok? && DecodeReservation(codec, e).Ok? && Forgotten(s, d) && (Reservations, 1) !in s.sent
    requires Prefers(s.app, DecodeReservation(codec, e).value, DecodeReservation(codec, d).value)
    ensures RunsTo(codec, max, s, SecondProcess(d, e), s') && Contradicted(s', d)
  {
    var t := ServeOther(codec, max, s, d, e);
    s' := RejectAgain(codec, max, t, d, Normal);
    Joined(codec, max, s, Served(Copy(1, e), Normal, true), t, ServedAgain(Copy(0, d), Normal, true), s');
  }

  /**
   * Agreement ends with the process also without any failure mode: a request is confirmed, the connection is lost before
   * the acknowledgement, the next process gives the stock to another request, and rejects the first one when it is
   * delivered again.
   */
  lemma RestartForgets(codec: Codec, max: int, seed: seq<Ledger.Seed>, d: Messages.Delivery, e: Messages.Delivery)
    requires Compete(codec, seed, d, e)
    ensures
      var start := Start(Ledger.Opened(seed));
      && Valid(codec, max, start, FirstProcess(seed, d) + SecondProcess(d, e))
      && Contradicted(Reach(codec, max, start, FirstProcess(seed, d) + SecondProcess(d, e)), d)
  {
    CompetingDecisions(codec, seed, d, e);
    var s := FirstProcessRuns(codec, max, seed, d);
    var s' := SecondProcessRuns(codec, max, s, d, e);
    Joined(codec, max, Start(Ledger.Opened(seed)), FirstProcess(seed, d), s, SecondProcess(d, e), s');
  }
}
