/**
 * Runs that lose a request as soon as one publish is misreported. Every publish of every process is made to end as
 * given in advance: each one of the consumer retries a new request, each one of the operator requeues a new dead letter.
 */
module LosingRuns {
  import opened Requests
  import Ledger
  import Handlers
  import HandlerInvariant
  import opened Messages
  import opened Outcomes
  import opened Delivery
  import opened NoLoss
  import opened Folds
  import opened RunParts
  import opened RetryRuns

  /** Neither a copy of the request nor an outcome of it is left at the broker. */
  ghost predicate Gone(s: System, f: Flow, o: nat) {
    (f, o) in s.sent && !Present(QueuesOf(s, f), o) && !HasOutcome(s, f, o)
  }

  ghost predicate SomeGone(s: System, f: Flow) {
    exists o :: Gone(s, f, o)
  }

  /** The running process answers request `d`, origins from `n` on are unused, and nothing has been published. */
  ghost predicate Steady(codec: Codec, s: System, f: Flow, d: Messages.Delivery, n: nat) {
    && HandlerInvariant.Inv(s.app) && Answers(codec, s.app, f, d, ENV)
    && HandlerInvariant.Inv(AppAfter(codec, s.app, f, d, ENV)) && Known(codec, AppAfter(codec, s.app, f, d, ENV), f, d)
    && (forall o | (f, o) in s.sent :: o < n)
    && (forall c | InSome(QueuesOf(s, f), c) :: c.origin < n)
    && s.outcomes == []
  }

  /** The queues of the flow have gained at most copies of origin `n`; what is gone stays gone. */
  ghost predicate Gains(s: System, s': System, f: Flow, n: nat) {
    && s'.outcomes == s.outcomes
    && (forall o | (f, o) in s.sent :: (f, o) in s'.sent)
    && (forall o | (f, o) in s'.sent :: (f, o) in s.sent || o == n)
    && (forall c | InSome(QueuesOf(s', f), c) :: InSome(QueuesOf(s, f), c) || c.origin == n)
  }

  lemma GoneStaysGone(s: System, s': System, f: Flow, n: nat)
    requires Gains(s, s', f, n) && (forall o | (f, o) in s.sent :: o < n) && SomeGone(s, f)
    ensures SomeGone(s', f)
  {
    var o :| Gone(s, f, o);
    forall c: Copy | InSome(QueuesOf(s', f), c) ensures c.origin != o {
      assert InSome(QueuesOf(s, f), c) || c.origin == n;
    }
    assert HasOutcome(s', f, o) ==> HasOutcome(s, f, o);
    assert Gone(s', f, o);
  }

  lemma StaysSteady(codec: Codec, s: System, s': System, f: Flow, d: Messages.Delivery, n: nat)
    requires Steady(codec, s, f, d, n) && Gains(s, s', f, n)
    requires s'.app == s.app || s'.app == AppAfter(codec, s.app, f, d, ENV)
    ensures Steady(codec, s', f, d, n + 1)
  {
    if s'.app != s.app { KnownIsAnswered(codec, s'.app, f, d, PublishFailure); }
  }

  // ---------------------------------------------------------------------------
  // One publish of the consumer
  // ---------------------------------------------------------------------------

  lemma AttemptQueues(codec: Codec, max: int, q: Queues, c: Copy, forward: Fate)
    requires DecodeMetadata(codec, c.d.headers).Ok?
    ensures forall x | InSome(AfterAttempt(codec, max, q, c, forward), x) :: InSome(q, x) || x.origin == c.origin
    ensures forward == Misreported ==> AfterAttempt(codec, max, q, c, forward) == q
  {
  }

  lemma AttemptGains(codec: Codec, max: int, s: System, f: Flow, c: Copy, forward: Fate)
    requires DecodeMetadata(codec, c.d.headers).Ok?
    ensures
      var s' := AttemptedSystem(codec, max, s, f, c, forward);
      && Gains(s, s', f, c.origin) && (f, c.origin) in s'.sent
      && (forward == Misreported ==> QueuesOf(s', f) == QueuesOf(s, f))
  {
    AttemptQueues(codec, max, QueuesOf(s, f), c, forward);
  }

  lemma ConsumerPublish(codec: Codec, max: int, s: System, f: Flow, d: Messages.Delivery, n: nat, fate: Fate)
    returns (es: seq<Event>, s': System)
    requires Steady(codec, s, f, d, n)
    ensures Part(codec, max, s, es, s', [fate], [])
    ensures Steady(codec, s', f, d, n + 1)
    ensures SomeGone(s, f) || fate == Misreported ==> SomeGone(s', f)
  {
    var c := Copy(n, d);
    AttemptPart(codec, max, s, f, c, fate);
    AttemptGains(codec, max, s, f, c, fate);
    es, s' := Attempt(f, c, fate), AttemptedSystem(codec, max, s, f, c, fate);
    StaysSteady(codec, s, s', f, d, n);
    if SomeGone(s, f) { GoneStaysGone(s, s', f, n); }
    if fate == Misreported { assert Gone(s', f, n); }
  }

  lemma ConsumerRun(codec: Codec, max: int, s: System, f: Flow, d: Messages.Delivery, n: nat, fates: seq<Fate>)
    returns (es: seq<Event>, s': System)
    requires Steady(codec, s, f, d, n)
    ensures Part(codec, max, s, es, s', fates, []) && Steady(codec, s', f, d, n + |fates|)
    ensures SomeGone(s, f) || Misreported in fates ==> SomeGone(s', f)
    decreases |fates|
  {
    if fates == [] {
      es, s' := [], s;
      NoPart(codec, max, s);
    } else {
      var m := |fates| - 1;
      var xs, t := ConsumerRun(codec, max, s, f, d, n, fates[..m]);
      var ys, u := ConsumerPublish(codec, max, t, f, d, n + m, fates[m]);
      PartsJoinLast(codec, max, s, xs, t, ys, u, fates);
      es, s' := xs + ys, u;
    }
  }

  // ---------------------------------------------------------------------------
  // One publish of the operator
  // ---------------------------------------------------------------------------

  /** A message that no decoder accepts. */
  const UNREADABLE := Messages.Delivery(map[], "", "", "", 0, "")

  lemma UnreadableIsDropped(codec: Codec, max: int, a: Handlers.App, f: Flow)
    ensures Process(codec, a, f, UNREADABLE, ENV).None?
    ensures Handle(codec, max, a, f, UNREADABLE, Unpublished(Lost)) == Handling(a, [], false, NoForward, NackDrop)
  {
    assert RequiredString(UNREADABLE.headers, MESSAGE_ID).Err?;
  }

  lemma DropStep(codec: Codec, max: int, s: System, f: Flow, c: Copy)
    requires c.d == UNREADABLE && c in QueuesOf(s, f).unacked
    ensures
      var q := QueuesOf(s, f);
      var e := HandleOne(f, c, Unpublished(Lost));
      && Enabled(s, e)
      && Next(codec, max, s, e) == WithQueues(s, f, q.(unacked := q.unacked - multiset{c}, dead := q.dead + multiset{c}))
      && Delivery.ConsumerPublishes(codec, max, s, e) == []
  {
    UnreadableIsDropped(codec, max, s.app, f);
    assert s.outcomes + Records(s.epoch, f, c.origin, []) == s.outcomes;
    assert WithHeaders(c, map[]) == c by { assert c.d.headers + map[] == c.d.headers; }
  }

  lemma HandledDropPart(codec: Codec, max: int, s: System, f: Flow, c: Copy)
    requires c.d == UNREADABLE && c in QueuesOf(s, f).unacked
    ensures
      var q := QueuesOf(s, f);
      Part(codec, max, s, [HandleOne(f, c, Unpublished(Lost))],
           WithQueues(s, f, q.(unacked := q.unacked - multiset{c}, dead := q.dead + multiset{c})), [], [])
  {
    DropStep(codec, max, s, f, c);
    OnePart(codec, max, s, HandleOne(f, c, Unpublished(Lost)));
  }

  /** An unreadable message is sent and dropped. */
  function Drop(f: Flow, c: Copy): seq<Event> {
    [Send(f, c.origin, c.d), Receive(f, c), HandleOne(f, c, Unpublished(Lost))]
  }

  function DroppedSystem(s: System, f: Flow, c: Copy): System {
    WithQueues(s, f, QueuesOf(s, f).(dead := QueuesOf(s, f).dead + multiset{c})).(sent := s.sent[(f, c.origin) := c.d])
  }

  lemma DropIsTheSame(s: System, f: Flow, c: Copy)
    ensures
      var t := ReceivedSystem(SentSystem(s, f, c), f, c);
      var q := QueuesOf(t, f);
      WithQueues(t, f, q.(unacked := q.unacked - multiset{c}, dead := q.dead + multiset{c})) == DroppedSystem(s, f, c)
  {
    var t := ReceivedSystem(SentSystem(s, f, c), f, c);
    assert QueuesOf(t, f).ready == QueuesOf(s, f).ready;
    assert QueuesOf(t, f).unacked - multiset{c} == QueuesOf(s, f).unacked;
  }

  lemma DropPart(codec: Codec, max: int, s: System, f: Flow, c: Copy)
    requires c.d == UNREADABLE && (f, c.origin) !in s.sent
    ensures Part(codec, max, s, Drop(f, c), DroppedSystem(s, f, c), [], [])
  {
    var s1 := SentSystem(s, f, c);
    var s2 := ReceivedSystem(s1, f, c);
    SendPart(codec, max, s, f, c);
    ReceivePart(codec, max, s1, f, c);
    HandledDropPart(codec, max, s2, f, c);
    DropIsTheSame(s, f, c);
    TwoParts(codec, max, s1, Receive(f, c), s2, HandleOne(f, c, Unpublished(Lost)), DroppedSystem(s, f, c), [], []);
    ThreeParts(codec, max, s, Send(f, c.origin, c.d), s1, Receive(f, c), HandleOne(f, c, Unpublished(Lost)),
               DroppedSystem(s, f, c), [], []);
  }

  lemma RequeueQueues(q: Queues, c: Copy, fate: Fate)
    ensures
      var q' := Requeued(q.(dead := q.dead + multiset{c}), c, fate, true);
      && (forall x | InSome(q', x) :: InSome(q, x) || x.origin == c.origin)
      && (fate == Misreported ==> q' == q)
  {
    assert q.dead + multiset{c} - multiset{c} == q.dead;
  }

  /** The operator requeues a new dead letter. */
  function OperatorEvents(f: Flow, c: Copy, fate: Fate): seq<Event> {
    Drop(f, c) + [RequeueDead(f, c, fate, true)]
  }

  lemma OperatorPart(codec: Codec, max: int, s: System, f: Flow, c: Copy, fate: Fate)
    requires c.d == UNREADABLE && (f, c.origin) !in s.sent
    ensures Part(codec, max, s, OperatorEvents(f, c, fate), RequeuedSystem(DroppedSystem(s, f, c), f, c, fate), [], [fate])
  {
    var t := DroppedSystem(s, f, c);
    DropPart(codec, max, s, f, c);
    RequeuePart(codec, max, t, f, c, fate);
    PartsJoin(codec, max, s, Drop(f, c), t, [], [], [RequeueDead(f, c, fate, true)], RequeuedSystem(t, f, c, fate), [], [fate]);
    assert [] + [fate] == [fate];
  }

  lemma OperatorPublish(codec: Codec, max: int, s: System, f: Flow, d: Messages.Delivery, n: nat, fate: Fate)
    returns (es: seq<Event>, s': System)
    requires Steady(codec, s, f, d, n)
    ensures Part(codec, max, s, es, s', [], [fate])
    ensures Steady(codec, s', f, d, n + 1)
    ensures SomeGone(s, f) || fate == Misreported ==> SomeGone(s', f)
  {
    var c := Copy(n, UNREADABLE);
    OperatorPart(codec, max, s, f, c, fate);
    RequeuedGains(s, f, c, fate);
    es, s' := OperatorEvents(f, c, fate), RequeuedSystem(DroppedSystem(s, f, c), f, c, fate);
    StaysSteady(codec, s, s', f, d, n);
    if SomeGone(s, f) { GoneStaysGone(s, s', f, n); }
    if fate == Misreported { RequeuedIsGone(codec, s, s', f, d, n); }
  }

  lemma RequeuedIsGone(codec: Codec, s: System, s': System, f: Flow, d: Messages.Delivery, n: nat)
    requires Steady(codec, s, f, d, n) && (f, n) in s'.sent && Gains(s, s', f, n) && QueuesOf(s', f) == QueuesOf(s, f)
    ensures SomeGone(s', f)
  {
    assert Gone(s', f, n);
  }

  lemma RequeuedGains(s: System, f: Flow, c: Copy, fate: Fate)
    ensures
      var s' := RequeuedSystem(DroppedSystem(s, f, c), f, c, fate);
      && Gains(s, s', f, c.origin) && (f, c.origin) in s'.sent && s'.app == s.app
      && (fate == Misreported ==> QueuesOf(s', f) == QueuesOf(s, f))
  {
    var q := QueuesOf(s, f);
    var s' := RequeuedSystem(DroppedSystem(s, f, c), f, c, fate);
    assert QueuesOf(s', f) == Requeued(q.(dead := q.dead + multiset{c}), c, fate, true);
    RequeueQueues(q, c, fate);
  }

  lemma OperatorRun(codec: Codec, max: int, s: System, f: Flow, d: Messages.Delivery, n: nat, fates: seq<Fate>)
    returns (es: seq<Event>, s': System)
    requires Steady(codec, s, f, d, n)
    ensures Part(codec, max, s, es, s', [], fates) && Steady(codec, s', f, d, n + |fates|)
    ensures SomeGone(s, f) || Misreported in fates ==> SomeGone(s', f)
    decreases |fates|
  {
    if fates == [] {
      es, s' := [], s;
      NoPart(codec, max, s);
    } else {
      var m := |fates| - 1;
      var xs, t := OperatorRun(codec, max, s, f, d, n, fates[..m]);
      var ys, u := OperatorPublish(codec, max, t, f, d, n + m, fates[m]);
      PartsJoinLast(codec, max, s, xs, t, ys, u, fates);
      es, s' := xs + ys, u;
    }
  }

  // ---------------------------------------------------------------------------
  // Processes
  // ---------------------------------------------------------------------------

  /** The publishes that one process makes, of the consumer and of the operator. */
  datatype Life = Life(consumer: seq<Fate>, admin: seq<Fate>)

  predicate Misreports(life: Life) {
    Misreported in life.consumer || Misreported in life.admin
  }

  lemma LifeRun(codec: Codec, max: int, s: System, f: Flow, d: Messages.Delivery, n: nat, life: Life)
    returns (es: seq<Event>, s': System, m: nat)
    requires Steady(codec, s, f, d, n)
    ensures Part(codec, max, s, es, s', life.consumer, life.admin) && Steady(codec, s', f, d, m)
    ensures SomeGone(s, f) || Misreports(life) ==> SomeGone(s', f)
  {
    var xs, t := ConsumerRun(codec, max, s, f, d, n, life.consumer);
    var ys, u := OperatorRun(codec, max, t, f, d, n + |life.consumer|, life.admin);
    PartsJoin(codec, max, s, xs, t, life.consumer, [], ys, u, [], life.admin);
    es, s', m := xs + ys, u, n + |life.consumer| + |life.admin|;
    assert life.consumer + [] == life.consumer && [] + life.admin == life.admin;
  }

  predicate AnyMisreports(lives: seq<Life>) {
    exists k :: 0 <= k < |lives| && Misreports(lives[k])
  }

  lemma AnyMisreportsLast(lives: seq<Life>, life: Life)
    ensures AnyMisreports(lives + [life]) <==> AnyMisreports(lives) || Misreports(life)
  {
    var after := lives + [life];
    assert after[|lives|] == life;
    assert forall k | 0 <= k < |lives| :: after[k] == lives[k];
  }

  /** The publishes of process `k`; none if there is no such process. */
  function LifeAt(lives: seq<Life>, k: nat): Life {
    if k < |lives| then lives[k] else Life([], [])
  }

  ghost predicate Publishes(codec: Codec, max: int, s: System, es: seq<Event>, k: nat, life: Life) {
    ConsumerFates(codec, max, s, es, k) == life.consumer && AdminFates(codec, max, s, es, k) == life.admin
  }

  /** The run is that of the given processes, one after the other. */
  ghost predicate Lived(codec: Codec, max: int, s0: System, es: seq<Event>, s: System, lives: seq<Life>) {
    && RunsTo(codec, max, s0, es, s) && s.epoch + 1 == |lives|
    && (forall k: nat :: Publishes(codec, max, s0, es, k, LifeAt(lives, k)))
  }

  lemma FirstLife(codec: Codec, max: int, s0: System, es: seq<Event>, s: System, life: Life)
    requires s0.epoch == 0 && Part(codec, max, s0, es, s, life.consumer, life.admin)
    ensures Lived(codec, max, s0, es, s, [life])
  {
  }

  lemma RestartRuns(codec: Codec, max: int, s: System, seed: seq<Ledger.Seed>)
    requires Ledger.Seeded(seed).Ok?
    ensures RunsTo(codec, max, s, [Restart(seed)], Restarted(s, Ledger.Opened(seed)))
    ensures forall k: nat :: Publishes(codec, max, s, [Restart(seed)], k, Life([], []))
  {
    FoldOne(EnabledOf(), NextOf(codec, max), s, Restart(seed));
    forall k: nat ensures Publishes(codec, max, s, [Restart(seed)], k, Life([], [])) {
      TrailOne(NextOf(codec, max), ConsumerOut(codec, max, k), s, Restart(seed));
      TrailOne(NextOf(codec, max), AdminOut(k), s, Restart(seed));
    }
  }

  lemma PublishesJoin(codec: Codec, max: int, s: System, xs: seq<Event>, t: System, x: Life, ys: seq<Event>, y: Life, k: nat)
    requires Reach(codec, max, s, xs) == t && Publishes(codec, max, s, xs, k, x) && Publishes(codec, max, t, ys, k, y)
    ensures Publishes(codec, max, s, xs + ys, k, Life(x.consumer + y.consumer, x.admin + y.admin))
  {
    FatesJoin(codec, max, s, xs, t, ys, k);
  }

  /** One more process after a restart. */
  lemma NextLife(codec: Codec, max: int, s0: System, seed: seq<Ledger.Seed>, xs: seq<Event>, t: System, lives: seq<Life>,
                 ys: seq<Event>, s: System, life: Life)
    requires Ledger.Seeded(seed).Ok? && Lived(codec, max, s0, xs, t, lives)
    requires Part(codec, max, Restarted(t, Ledger.Opened(seed)), ys, s, life.consumer, life.admin)
    ensures Lived(codec, max, s0, xs + [Restart(seed)] + ys, s, lives + [life])
  {
    var u := Restarted(t, Ledger.Opened(seed));
    RestartRuns(codec, max, t, seed);
    Joined(codec, max, s0, xs, t, [Restart(seed)], u);
    Joined(codec, max, s0, xs + [Restart(seed)], u, ys, s);
    forall k: nat ensures Publishes(codec, max, s0, xs + [Restart(seed)] + ys, k, LifeAt(lives + [life], k)) {
      NextPublishes(codec, max, s0, seed, xs, t, lives, ys, s, life, k);
    }
  }

  lemma NextPublishes(codec: Codec, max: int, s0: System, seed: seq<Ledger.Seed>, xs: seq<Event>, t: System, lives: seq<Life>,
                      ys: seq<Event>, s: System, life: Life, k: nat)
    requires Ledger.Seeded(seed).Ok? && Lived(codec, max, s0, xs, t, lives)
    requires Part(codec, max, Restarted(t, Ledger.Opened(seed)), ys, s, life.consumer, life.admin)
    ensures Publishes(codec, max, s0, xs + [Restart(seed)] + ys, k, LifeAt(lives + [life], k))
  {
    var u := Restarted(t, Ledger.Opened(seed));
    var x, y := LifeAt(lives, k), if k == |lives| then life else Life([], []);
    RestartRuns(codec, max, t, seed);
    Joined(codec, max, s0, xs, t, [Restart(seed)], u);
    assert Publishes(codec, max, s0, xs, k, x) && Publishes(codec, max, t, [Restart(seed)], k, Life([], []));
    PublishesJoin(codec, max, s0, xs, t, x, [Restart(seed)], Life([], []), k);
    assert x.consumer + [] == x.consumer && x.admin + [] == x.admin;
    PublishesJoin(codec, max, s0, xs + [Restart(seed)], u, x, ys, y, k);
    assert Life(x.consumer + y.consumer, x.admin + y.admin) == LifeAt(lives + [life], k);
  }

  lemma RestartStaysSteady(codec: Codec, s: System, seed: seq<Ledger.Seed>, f: Flow, d: Messages.Delivery, n: nat)
    requires Ledger.Seeded(seed).Ok? && Decodes(codec, f, d) && Steady(codec, s, f, d, n)
    ensures Steady(codec, Restarted(s, Ledger.Opened(seed)), f, d, n)
    ensures SomeGone(s, f) ==> SomeGone(Restarted(s, Ledger.Opened(seed)), f)
  {
    NewProcessAnswers(codec, seed, f, d);
    RecoveredHasTheSame(QueuesOf(s, f));
    var s' := Restarted(s, Ledger.Opened(seed));
    assert QueuesOf(s', f) == Recovered(QueuesOf(s, f));
    if SomeGone(s, f) {
      var o :| Gone(s, f, o);
      assert HasOutcome(s', f, o) ==> HasOutcome(s, f, o);
      assert Gone(s', f, o);
    }
  }

  /** The run is that of the given processes, loses a request if one of them misreports, and can go on. */
  ghost predicate Outlived(codec: Codec, max: int, s0: System, f: Flow, d: Messages.Delivery, lives: seq<Life>,
                           es: seq<Event>, s: System, n: nat)
  {
    && Lived(codec, max, s0, es, s, lives) && Steady(codec, s, f, d, n)
    && (AnyMisreports(lives) ==> SomeGone(s, f))
  }

  lemma NewProcessIsSteady(codec: Codec, seed: seq<Ledger.Seed>, f: Flow, d: Messages.Delivery)
    requires Ledger.Seeded(seed).Ok? && Decodes(codec, f, d)
    ensures Steady(codec, Start(Ledger.Opened(seed)), f, d, 0)
  {
    NewProcessAnswers(codec, seed, f, d);
  }

  lemma FirstRun(codec: Codec, max: int, seed: seq<Ledger.Seed>, f: Flow, d: Messages.Delivery, life: Life)
    returns (es: seq<Event>, s: System, n: nat)
    requires Ledger.Seeded(seed).Ok? && Decodes(codec, f, d)
    ensures Outlived(codec, max, Start(Ledger.Opened(seed)), f, d, [life], es, s, n)
  {
    var s0 := Start(Ledger.Opened(seed));
    NewProcessIsSteady(codec, seed, f, d);
    es, s, n := LifeRun(codec, max, s0, f, d, 0, life);
    FirstLife(codec, max, s0, es, s, life);
  }

  lemma NextRun(codec: Codec, max: int, s0: System, seed: seq<Ledger.Seed>, f: Flow, d: Messages.Delivery,
                lives: seq<Life>, xs: seq<Event>, t: System, m: nat, life: Life)
    returns (es: seq<Event>, s: System, n: nat)
    requires Ledger.Seeded(seed).Ok? && Decodes(codec, f, d) && Outlived(codec, max, s0, f, d, lives, xs, t, m)
    ensures Outlived(codec, max, s0, f, d, lives + [life], es, s, n)
  {
    AnyMisreportsLast(lives, life);
    RestartStaysSteady(codec, t, seed, f, d, m);
    var ys;
    ys, s, n := LifeRun(codec, max, Restarted(t, Ledger.Opened(seed)), f, d, m, life);
    NextLife(codec, max, s0, seed, xs, t, lives, ys, s, life);
    es := xs + [Restart(seed)] + ys;
  }

  /** Whatever publishes the processes are to make, some run makes them and loses a request if one is misreported. */
  lemma {:induction false} LivesRun(codec: Codec, max: int, seed: seq<Ledger.Seed>, f: Flow, d: Messages.Delivery, lives: seq<Life>)
    returns (es: seq<Event>, s: System, n: nat)
    requires Ledger.Seeded(seed).Ok? && Decodes(codec, f, d) && lives != []
    ensures Outlived(codec, max, Start(Ledger.Opened(seed)), f, d, lives, es, s, n)
    decreases |lives|
  {
    var init, life := lives[..|lives| - 1], lives[|lives| - 1];
    assert lives == init + [life];
    if init == [] {
      assert lives == [life];
      es, s, n := FirstRun(codec, max, seed, f, d, life);
    } else {
      var xs, t, m := LivesRun(codec, max, seed, f, d, init);
      es, s, n := NextRun(codec, max, Start(Ledger.Opened(seed)), seed, f, d, init, xs, t, m, life);
    }
  }
}
