/** Whole runs of deliveries, redeliveries, mode changes and stock updates: each key counts once. */
module ExactlyOnce {
  import opened Prelude
  import opened Text
  import opened Inventory
  import Ledger
  import opened Requests
  import opened Handlers
  import opened HandlerInvariant

  /** The handler answered the delivery without an error. */
  predicate Succeeds(a: App, e: Event) {
    match e
    case ReserveEvent(req, env) => HandleReservation(a, req, env).1.Ok?
    case ReleaseEvent(req, env) => HandleRelease(a, req, env).1.Ok?
    case SetStockEvent(c, sku, n) => Ledger.SetStock(a.ledger, c, sku, n).1.Ok?
  }

  /** Two deliveries of one flow under the same trimmed idempotency key. */
  predicate SameKey(x: Event, y: Event) {
    || (x.ReserveEvent? && y.ReserveEvent?
        && Trim(x.reservation.metadata.idempotencyKey) == Trim(y.reservation.metadata.idempotencyKey))
    || (x.ReleaseEvent? && y.ReleaseEvent?
        && Trim(x.release.metadata.idempotencyKey) == Trim(y.release.metadata.idempotencyKey))
  }

  /** Delivery `j` was answered, and has the key of `e`. */
  predicate AnsweredAt(a: App, es: seq<Event>, e: Event, j: nat)
    requires j < |es|
  {
    SameKey(es[j], e) && Succeeds(Run(a, es[..j]), es[j])
  }

  /** Event `i` is a stock update, or the first delivery of its key to be answered. */
  predicate Counts(a: App, es: seq<Event>, i: nat)
    requires i < |es|
  {
    || es[i].SetStockEvent?
    || (&& Succeeds(Run(a, es[..i]), es[i])
        && forall j: nat | j < i :: !AnsweredAt(a, es, es[i], j))
  }

  /** The events that count, in order. */
  function Counted(a: App, es: seq<Event>): seq<Event> {
    if es == [] then []
    else
      var n := |es| - 1;
      Counted(a, es[..n]) + if Counts(a, es, n) then [es[n]] else []
  }

  /** What an event means without any cache, cancellation or redelivery. */
  function Meaning(l: Ledger.Ledger, e: Event): Ledger.Ledger {
    match e
    case ReserveEvent(req, env) =>
      if ShouldReject(env) then l
      else Ledger.Reserve(Unbounded, l, false, req.reservationId, req.sku, req.quantity, env.now).0
    case ReleaseEvent(req, env) => Ledger.Release(Unbounded, l, false, req.reservationId, env.now).0
    case SetStockEvent(c, sku, n) => Ledger.SetStock(l, c, sku, n).0
  }

  function Replay(l: Ledger.Ledger, es: seq<Event>): Ledger.Ledger {
    if es == [] then l else Meaning(Replay(l, es[..|es| - 1]), es[|es| - 1])
  }

  // ---------------------------------------------------------------------------
  // A key is cached exactly when one of its deliveries was answered
  // ---------------------------------------------------------------------------

  predicate Cached(a: App, e: Event) {
    match e
    case ReserveEvent(req, env) => Trim(req.metadata.idempotencyKey) in a.outer
    case ReleaseEvent(req, env) => Trim(req.metadata.idempotencyKey) in a.releases
    case SetStockEvent(_, _, _) => false
  }

  /** One event: what it answers, what it caches, and what it does to the ledger. */
  lemma StepEffect(a: App, e: Event)
    requires Inv(a)
    ensures !e.SetStockEvent? && Succeeds(a, e) ==> Cached(Step(a, e), e)
    ensures forall f | Cached(a, f) :: Cached(Step(a, e), f)
    ensures forall f | Cached(Step(a, e), f) && !Cached(a, f) :: SameKey(e, f) && Succeeds(a, e)
    ensures Step(a, e).ledger ==
              if e.SetStockEvent? || (Succeeds(a, e) && !Cached(a, e)) then Meaning(a.ledger, e) else a.ledger
  {
    match e
    case ReserveEvent(req, env) => ReserveStep(a, req, env);
    case ReleaseEvent(req, env) => ReleaseStep(a, req, env);
    case SetStockEvent(c, sku, n) =>
  }

  lemma ReserveStep(a: App, req: ReservationRequest, env: Env)
    requires Inv(a)
    ensures
      var (a', r) := HandleReservation(a, req, env);
      var k := Trim(req.metadata.idempotencyKey);
      && (r.Ok? ==> a'.outer.Keys == a.outer.Keys + {k})
      && (r.Err? ==> a'.outer == a.outer)
      && a'.releases == a.releases
      && a'.ledger == if r.Ok? && k !in a.outer then Meaning(a.ledger, ReserveEvent(req, env)) else a.ledger
  {
    if Reaches(a, req, env) {
      ReservationFull(a, req, env);
      if !ShouldReject(env) { ReserveMeaning(a.ledger, req, env); }
    } else {
      ReservationShort(a, req, env);
    }
  }

  lemma ReserveMeaning(l: Ledger.Ledger, req: ReservationRequest, env: Env)
    requires Ledger.Inv(l) && !ShouldReject(env)
    ensures
      var (l', op) := ReserveOperation(l, req, env);
      l' == if op.Ok? then Meaning(l, ReserveEvent(req, env)) else l
  {
    Ledger.ReserveEffect(l, env.repoCancelled, req.reservationId, req.sku, req.quantity, env.now);
    Ledger.ReserveEffect(l, false, req.reservationId, req.sku, req.quantity, env.now);
  }

  lemma ReleaseStep(a: App, req: ReleaseRequest, env: Env)
    requires Inv(a)
    ensures
      var (a', r) := HandleRelease(a, req, env);
      var k := Trim(req.metadata.idempotencyKey);
      && (r.Ok? ==> a'.releases.Keys == a.releases.Keys + {k})
      && (r.Err? ==> a'.releases == a.releases)
      && a'.outer == a.outer
      && a'.ledger == if r.Ok? && k !in a.releases then Meaning(a.ledger, ReleaseEvent(req, env)) else a.ledger
  {
    ReleaseCases(a, req, env);
    ReleaseMeaning(a.ledger, req, env);
  }

  lemma ReleaseMeaning(l: Ledger.Ledger, req: ReleaseRequest, env: Env)
    requires Ledger.Inv(l)
    ensures
      var (l', op) := ReleaseOperation(l, req, env);
      l' == if op.Ok? then Meaning(l, ReleaseEvent(req, env)) else l
  {
    Ledger.ReleaseEffect(l, env.repoCancelled, req.reservationId, env.now);
    Ledger.ReleaseEffect(l, false, req.reservationId, env.now);
  }

  ghost predicate Answered(a: App, es: seq<Event>, e: Event) {
    exists j: nat :: j < |es| && AnsweredAt(a, es, e, j)
  }

  lemma AnsweredAtPrefix(a: App, es: seq<Event>, e: Event, n: nat, j: nat)
    requires j < n <= |es|
    ensures AnsweredAt(a, es[..n], e, j) <==> AnsweredAt(a, es, e, j)
  {
    assert es[..n][..j] == es[..j];
  }

  lemma AnsweredByLast(a: App, es: seq<Event>, e: Event)
    requires es != []
    ensures Answered(a, es, e) <==> Answered(a, es[..|es| - 1], e) || AnsweredAt(a, es, e, |es| - 1)
  {
    var n := |es| - 1;
    forall j: nat | j < n ensures AnsweredAt(a, es[..n], e, j) <==> AnsweredAt(a, es, e, j) {
      AnsweredAtPrefix(a, es, e, n, j);
    }
    if Answered(a, es[..n], e) {
      var j: nat :| j < n && AnsweredAt(a, es[..n], e, j);
      assert AnsweredAt(a, es, e, j);
    }
    if Answered(a, es, e) {
      var j: nat :| j < |es| && AnsweredAt(a, es, e, j);
      assert j == n || AnsweredAt(a, es[..n], e, j);
    }
  }

  lemma {:induction false} CachedIffAnswered(l: Ledger.Ledger, es: seq<Event>, e: Event)
    requires Inv(Start(l))
    ensures Cached(Run(Start(l), es), e) <==> Answered(Start(l), es, e)
  {
    if es != [] {
      var n := |es| - 1;
      var a := Run(Start(l), es[..n]);
      RunKeepsInv(Start(l), es[..n]);
      CachedIffAnswered(l, es[..n], e);
      AnsweredByLast(Start(l), es, e);
      StepEffect(a, es[n]);
      if SameKey(es[n], e) { SameCache(Step(a, es[n]), es[n], e); }
    }
  }

  lemma SameCache(a: App, x: Event, y: Event)
    requires SameKey(x, y)
    ensures Cached(a, x) <==> Cached(a, y)
  {
  }

  /** Each key counts at most once. */
  lemma CountsOnce(a: App, es: seq<Event>, i: nat, j: nat)
    requires i < |es| && j < |es| && SameKey(es[i], es[j]) && Counts(a, es, i) && Counts(a, es, j)
    ensures i == j
  {
    if i < j { assert AnsweredAt(a, es, es[j], i); }
    if j < i { assert AnsweredAt(a, es, es[i], j); }
  }

  lemma EachKeyCountsOnce(a: App, es: seq<Event>)
    ensures forall i, j | 0 <= i < |es| && 0 <= j < |es| && SameKey(es[i], es[j]) && Counts(a, es, i) && Counts(a, es, j) :: i == j
  {
    forall i, j | 0 <= i < |es| && 0 <= j < |es| && SameKey(es[i], es[j]) && Counts(a, es, i) && Counts(a, es, j)
      ensures i == j
    {
      CountsOnce(a, es, i, j);
    }
  }

  /**
   * Exactly once: the ledger after any run of one process equals the ledger of the events that count, each taken at
   * face value, and of the deliveries of one key at most one counts. Redeliveries, conflicting reuses of a key, failed
   * and cancelled deliveries leave no trace.
   */
  lemma ExactlyOnceTheorem(seed: seq<Ledger.Seed>, es: seq<Event>)
    requires Ledger.Seeded(seed).Ok?
    ensures
      var a := Start(Ledger.Opened(seed));
      && Run(a, es).ledger == Replay(a.ledger, Counted(a, es))
      && (forall i, j | 0 <= i < |es| && 0 <= j < |es| && SameKey(es[i], es[j]) && Counts(a, es, i) && Counts(a, es, j) :: i == j)
  {
    var a := Start(Ledger.Opened(seed));
    StartInv(seed);
    LedgerIsReplay(a.ledger, es);
    EachKeyCountsOnce(a, es);
  }

  lemma {:induction false} LedgerIsReplay(l: Ledger.Ledger, es: seq<Event>)
    requires Inv(Start(l))
    ensures Run(Start(l), es).ledger == Replay(l, Counted(Start(l), es))
  {
    if es != [] {
      var n := |es| - 1;
      var a := Run(Start(l), es[..n]);
      LedgerIsReplay(l, es[..n]);
      RunKeepsInv(Start(l), es[..n]);
      StepEffect(a, es[n]);
      CachedIffAnswered(l, es[..n], es[n]);
      CountsIff(Start(l), es);
      var before := Counted(Start(l), es[..n]);
      if Counts(Start(l), es, n) {
        assert Counted(Start(l), es) == before + [es[n]];
        ReplayLast(l, before, es[n]);
      } else {
        assert Counted(Start(l), es) == before + [] == before;
      }
    }
  }

  /** The last event counts if it is a stock update, or the first answered delivery of its key. */
  lemma CountsIff(a: App, es: seq<Event>)
    requires es != []
    ensures
      var n := |es| - 1;
      Counts(a, es, n) <==> es[n].SetStockEvent? || (Succeeds(Run(a, es[..n]), es[n]) && !Answered(a, es[..n], es[n]))
  {
    var n := |es| - 1;
    forall j: nat | j < n ensures AnsweredAt(a, es[..n], es[n], j) <==> AnsweredAt(a, es, es[n], j) {
      AnsweredAtPrefix(a, es, es[n], n, j);
    }
    assert Answered(a, es[..n], es[n]) <==> exists j: nat :: j < n && AnsweredAt(a, es, es[n], j);
  }

  lemma ReplayLast(l: Ledger.Ledger, es: seq<Event>, e: Event)
    ensures Replay(l, es + [e]) == Meaning(Replay(l, es), e)
  {
    assert (es + [e])[..|es|] == es;
  }

  // ---------------------------------------------------------------------------
  // The same decision, always
  // ---------------------------------------------------------------------------

  /** Two answers that differ at most in the hit flag and the message metadata. */
  predicate SameAnswer(x: ReservationResult, y: ReservationResult) {
    x.decision == y.decision && x.reservation == y.reservation && x.reason == y.reason && SameReservation(x.request, y.request)
  }

  predicate SameReleaseAnswer(x: ReleaseResult, y: ReleaseResult) {
    x.decision == y.decision && x.failure == y.failure && x.reservation == y.reservation && SameRelease(x.request, y.request)
  }

  predicate Grows(a: App, b: App) {
    && (forall k | k in a.outer :: k in b.outer && b.outer[k] == a.outer[k])
    && (forall k | k in a.releases :: k in b.releases && b.releases[k] == a.releases[k])
  }

  lemma StepGrows(a: App, e: Event)
    requires Inv(a)
    ensures Grows(a, Step(a, e))
  {
    match e
    case ReserveEvent(req, env) =>
      if Reaches(a, req, env) { ReservationFull(a, req, env); } else { ReservationShort(a, req, env); }
    case ReleaseEvent(req, env) => ReleaseCases(a, req, env);
    case SetStockEvent(_, _, _) =>
  }

  lemma {:induction false} RunGrows(a: App, es: seq<Event>, i: nat, j: nat)
    requires Inv(a) && i <= j <= |es|
    ensures Grows(Run(a, es[..i]), Run(a, es[..j]))
    decreases j
  {
    if i < j {
      RunGrows(a, es, i, j - 1);
      RunKeepsInv(a, es[..j - 1]);
      assert es[..j][..j - 1] == es[..j - 1];
      StepGrows(Run(a, es[..j - 1]), es[j - 1]);
    }
  }

  /** An answered reservation delivery reports exactly what the cache now holds for its key. */
  lemma AnswerIsCached(a: App, req: ReservationRequest, env: Env)
    requires Inv(a) && HandleReservation(a, req, env).1.Ok?
    ensures
      var (a', r) := HandleReservation(a, req, env);
      var k := Trim(req.metadata.idempotencyKey);
      k in a'.outer && SameAnswer(r.value, a'.outer[k]) && r.value.request.metadata == req.metadata
      && SameReservation(r.value.request, req)
  {
    if Reaches(a, req, env) { ReservationFull(a, req, env); } else { ReservationShort(a, req, env); }
  }

  /** The release operation answers its own request. */
  lemma ReleaseAnswersItsRequest(l: Ledger.Ledger, req: ReleaseRequest, env: Env)
    requires ReleaseOperation(l, req, env).1.Ok?
    ensures ReleaseOperation(l, req, env).1.value.request == req
  {
  }

  lemma ReleaseAnswerIsCached(a: App, req: ReleaseRequest, env: Env)
    requires Inv(a) && HandleRelease(a, req, env).1.Ok?
    ensures
      var (a', r) := HandleRelease(a, req, env);
      var k := Trim(req.metadata.idempotencyKey);
      k in a'.releases && SameReleaseAnswer(r.value, a'.releases[k]) && r.value.request.metadata == req.metadata
      && SameRelease(r.value.request, req)
  {
    ReleaseCases(a, req, env);
    if ReleaseReaches(a, req, env) { ReleaseAnswersItsRequest(a.ledger, req, env); }
  }

  /** However far apart and under whatever modes, two answered deliveries of one key get the same answer. */
  lemma SameDecision(l: Ledger.Ledger, es: seq<Event>, i: nat, j: nat)
    requires Inv(Start(l)) && i < j < |es| && SameKey(es[i], es[j])
    requires Succeeds(Run(Start(l), es[..i]), es[i]) && Succeeds(Run(Start(l), es[..j]), es[j])
    ensures es[i].ReserveEvent? ==>
              SameAnswer(HandleReservation(Run(Start(l), es[..i]), es[i].reservation, es[i].env).1.value,
                         HandleReservation(Run(Start(l), es[..j]), es[j].reservation, es[j].env).1.value)
    ensures es[i].ReleaseEvent? ==>
              SameReleaseAnswer(HandleRelease(Run(Start(l), es[..i]), es[i].release, es[i].env).1.value,
                                HandleRelease(Run(Start(l), es[..j]), es[j].release, es[j].env).1.value)
  {
    var x, y := Run(Start(l), es[..i]), Run(Start(l), es[..j]);
    RunKeepsInv(Start(l), es[..i]);
    RunKeepsInv(Start(l), es[..j]);
    RunGrows(Start(l), es, i + 1, j);
    assert es[..i + 1][..i] == es[..i];
    StepGrows(y, es[j]);
    if es[i].ReserveEvent? {
      AnswerIsCached(x, es[i].reservation, es[i].env);
      AnswerIsCached(y, es[j].reservation, es[j].env);
    } else {
      ReleaseAnswerIsCached(x, es[i].release, es[i].env);
      ReleaseAnswerIsCached(y, es[j].release, es[j].env);
    }
  }

  // ---------------------------------------------------------------------------
  // Caches and ledger
  // ---------------------------------------------------------------------------

  /**
   * After any run, reservations in the ledger and confirmed cache entries are in bijection: each reservation was
   * confirmed under exactly one key, each confirmed key has its reservation, they agree on ID, SKU, quantity and
   * creation time, and the cached snapshot stays active even when the reservation has been released.
   */
  lemma ReservationsMatchConfirmations(l: Ledger.Ledger, es: seq<Event>)
    requires Inv(Start(l))
    ensures
      var a := Run(Start(l), es);
      && (forall id | id in a.ledger.reservations ::
            exists k :: ConfirmedUnder(a, k, id) && forall j | ConfirmedUnder(a, j, id) :: j == k)
      && (forall k | k in a.outer && a.outer[k].decision == Confirmed ::
            && a.outer[k].reservation.Some?
            && var snapshot := a.outer[k].reservation.value;
               && snapshot.id in a.ledger.reservations && snapshot.status == Active
               && var r := a.ledger.reservations[snapshot.id];
                  r.id == snapshot.id && r.sku == snapshot.sku && r.quantity == snapshot.quantity && r.createdAt == snapshot.createdAt)
  {
    RunKeepsInv(Start(l), es);
    var a := Run(Start(l), es);
    forall id | id in a.ledger.reservations
      ensures exists k :: ConfirmedUnder(a, k, id) && forall j | ConfirmedUnder(a, j, id) :: j == k
    {
      assert HasKey(a, id);
      var k :| ConfirmedUnder(a, k, id);
      assert forall j | ConfirmedUnder(a, j, id) :: j == k;
    }
    forall k | k in a.outer && a.outer[k].decision == Confirmed ensures EntryOk(a, k, a.outer[k]) {}
  }

  // ---------------------------------------------------------------------------
  // Which errors are left
  // ---------------------------------------------------------------------------

  predicate Live(env: Env) {
    !env.delayCancelled && !env.outerCancelled && !env.innerCancelled && !env.repoCancelled
  }

  /** A request as the decoder lets it through. */
  predicate Decoded(req: ReservationRequest) {
    && Trim(req.metadata.idempotencyKey) != "" && Trim(req.reservationId) != "" && Trim(req.sku) != "" && 0 < req.quantity
  }

  /** With a live context, a decoded reservation request can only fail for good. */
  lemma LiveReservationErrors(l: Ledger.Ledger, es: seq<Event>, req: ReservationRequest, env: Env)
    requires Inv(Start(l)) && Decoded(req) && Live(env)
    ensures
      var a := Run(Start(l), es);
      var k := Trim(req.metadata.idempotencyKey);
      var r := HandleReservation(a, req, env).1;
      && (r.Err? <==> if k in a.outer then a.outer[k].request.(metadata := req.metadata) != req
                      else !ShouldReject(env) && Trim(req.reservationId) in a.ledger.reservations)
      && (r.Err? ==> r.error == if k in a.outer then IdempotencyConflict else ReservationAlreadyExists)
  {
    RunKeepsInv(Start(l), es);
    var a := Run(Start(l), es);
    var k := Trim(req.metadata.idempotencyKey);
    if k in a.outer { SameReservationIff(a.outer[k].request, req); }
    if Reaches(a, req, env) {
      ReservationFull(a, req, env);
      Ledger.ReservedCovers(a.ledger);
      Ledger.ReserveEffect(a.ledger, false, req.reservationId, req.sku, req.quantity, env.now);
      TrimIdempotent(req.reservationId);
      assert Trim(req.sku) in a.ledger.stock ==> ValidateStockItem(a.ledger.stock[Trim(req.sku)]).None?;
    }
  }

  /** With a live context, a decoded release request can only fail on a conflicting reuse of its key. */
  lemma LiveReleaseErrors(l: Ledger.Ledger, es: seq<Event>, req: ReleaseRequest, env: Env)
    requires Inv(Start(l)) && Live(env)
    requires Trim(req.metadata.idempotencyKey) != "" && Trim(req.reservationId) != ""
    ensures
      var a := Run(Start(l), es);
      var k := Trim(req.metadata.idempotencyKey);
      var r := HandleRelease(a, req, env).1;
      && (r.Err? <==> k in a.releases && a.releases[k].request.(metadata := req.metadata) != req)
      && (r.Err? ==> r.error == IdempotencyConflict)
  {
    RunKeepsInv(Start(l), es);
    var a := Run(Start(l), es);
    var k := Trim(req.metadata.idempotencyKey);
    if k in a.releases { SameReleaseIff(a.releases[k].request, req); }
    ReleaseCases(a, req, env);
    Ledger.ReleaseEffect(a.ledger, false, req.reservationId, env.now);
  }
}
