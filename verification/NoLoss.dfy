/** No request is lost, and no copy of it says anything else than the original. */
module NoLoss {
  import opened Prelude
  import Ledger
  import Handlers
  import opened Messages
  import opened Outcomes
  import opened Delivery

  predicate InSome(q: Queues, c: Copy) {
    c in q.ready || c in q.unacked || c in q.retry || c in q.dead
  }

  /** Some copy of request `o` is in the queues of its flow. */
  ghost predicate Present(q: Queues, o: nat) {
    exists c: Copy :: c.origin == o && InSome(q, c)
  }

  ghost predicate Safe(s: System, f: Flow, o: nat) {
    (f, o) in s.answered || Present(QueuesOf(s, f), o)
  }

  ghost predicate NothingLost(s: System) {
    forall f, o {:trigger Safe(s, f, o)} | (f, o) in s.sent :: Safe(s, f, o)
  }

  /** Some process got an outcome of request `o` to the broker. */
  ghost predicate HasOutcome(s: System, f: Flow, o: nat) {
    exists i :: 0 <= i < |s.outcomes| && s.outcomes[i].flow == f && s.outcomes[i].origin == o
  }

  /** A request counts as answered only with an outcome at the broker. */
  ghost predicate AnswersLanded(s: System) {
    forall f, o {:trigger HasOutcome(s, f, o)} | (f, o) in s.answered :: HasOutcome(s, f, o)
  }

  /** A copy has the body of its original and, the retry count aside, its contract headers. */
  predicate CopyOk(s: System, f: Flow, c: Copy) {
    && (f, c.origin) in s.sent
    && c.d.body == s.sent[(f, c.origin)].body
    && SameButCount(c.d.headers, s.sent[(f, c.origin)].headers)
  }

  ghost predicate CopiesOk(s: System) {
    forall f, c {:trigger CopyOk(s, f, c)} | InSome(QueuesOf(s, f), c) :: CopyOk(s, f, c)
  }

  // ---------------------------------------------------------------------------
  // What a step does to the queues
  // ---------------------------------------------------------------------------

  /** Going from `q` to `q'`, every copy but `gone` stays somewhere, and each new copy is `x` or `y`. */
  ghost predicate Moves(q: Queues, q': Queues, gone: Copy, x: Copy, y: Copy) {
    && (forall c {:trigger InSome(q, c)} | InSome(q, c) && c != gone :: InSome(q', c))
    && (forall c {:trigger InSome(q', c)} | InSome(q', c) :: InSome(q, c) || c == x || c == y)
  }

  lemma PresentAfter(q: Queues, q': Queues, gone: Copy, x: Copy, y: Copy, o: nat)
    requires Moves(q, q', gone, x, y) && Present(q, o)
    requires o == gone.origin ==> Present(q', o)
    ensures Present(q', o)
  {
    var c: Copy :| c.origin == o && InSome(q, c);
    if c != gone { assert InSome(q', c); }
  }

  lemma ForwardedKeepsContract(c: Copy, n: int, added: Headers)
    requires BrokerHeaders(added)
    ensures SameButCount(Forwarded(c, n).d.headers, c.d.headers) && Forwarded(c, n).d.body == c.d.body
    ensures SameButCount(WithHeaders(c, added).d.headers, c.d.headers) && WithHeaders(c, added).d.body == c.d.body
  {
    ForwardedHeaders(c.d, n, map[]);
  }

  /** The copy a forwarding puts into a queue; the copy itself if there is none. */
  function ForwardedBy(c: Copy, forwarding: Forwarding): Copy {
    match forwarding
    case NoForward => c
    case ToRetry(n) => Forwarded(c, n)
    case ToDead(n) => Forwarded(c, n)
  }

  /** An acknowledged delivery has its outcome or its forwarded copy at the broker; a dropped one has neither. */
  predicate Earned(h: Handling, w: Conditions) {
    && (h.settlement == Ack ==> h.answered || (!h.forwarding.NoForward? && Landed(w.forward)))
    && (h.answered ==> |h.messages| >= 1)
    && (h.settlement == NackDrop ==> h.forwarding.NoForward? && h.messages == [])
  }

  /** Whatever the handler did, the delivery is acknowledged only when that is safe, unless a publish was misreported. */
  lemma AckIsEarned(max: int, a: Handlers.App, p: Option<Processed>, w: Conditions)
    requires Misreported !in Attempted(p, Conclude(max, a, p, w), w)
    ensures Earned(Conclude(max, a, p, w), w)
  {
    var h := Conclude(max, a, p, w);
    assert !h.forwarding.NoForward? ==> Attempted(p, h, w)[|Attempted(p, h, w)| - 1] == w.forward;
    if h.answered { assert w.first == Attempted(p, h, w)[0]; }
  }

  lemma AddForwardedMoves(q: Queues, c: Copy, forwarding: Forwarding, fate: Fate)
    ensures Moves(q, AddForwarded(q, c, forwarding, fate), c, ForwardedBy(c, forwarding), ForwardedBy(c, forwarding))
    ensures Landed(fate) && !forwarding.NoForward? ==>
              InSome(AddForwarded(q, c, forwarding, fate), ForwardedBy(c, forwarding))
  {
  }

  lemma SettleMoves(q: Queues, c: Copy, settlement: Settlement, w: Conditions)
    requires c in q.unacked
    ensures Moves(q, Settle(q, c, settlement, w), c, c, WithHeaders(c, w.deathHeaders))
    ensures !w.settles || settlement == NackRequeue ==> InSome(Settle(q, c, settlement, w), c)
    ensures w.settles && settlement == NackDrop ==> InSome(Settle(q, c, settlement, w), WithHeaders(c, w.deathHeaders))
  {
  }

  /** The queues of a flow after a handled delivery of it. */
  function Handled(q: Queues, c: Copy, h: Handling, w: Conditions): Queues {
    Settle(AddForwarded(q, c, h.forwarding, w.forward), c, h.settlement, w)
  }

  lemma HandlingMoves(q: Queues, c: Copy, h: Handling, w: Conditions)
    requires c in q.unacked
    ensures Moves(q, Handled(q, c, h, w), c, ForwardedBy(c, h.forwarding), WithHeaders(c, w.deathHeaders))
  {
    var x := ForwardedBy(c, h.forwarding);
    var q1 := AddForwarded(q, c, h.forwarding, w.forward);
    var q' := Handled(q, c, h, w);
    AddForwardedMoves(q, c, h.forwarding, w.forward);
    assert c in q1.unacked;
    SettleMoves(q1, c, h.settlement, w);
    assert InSome(q, c);
    forall y | InSome(q, y) && y != c ensures InSome(q', y) { assert InSome(q1, y); }
    forall y | InSome(q', y) ensures InSome(q, y) || y == x || y == WithHeaders(c, w.deathHeaders) {
      if InSome(q1, y) { assert InSome(q, y) || y == x; }
    }
  }

  /** An earned settlement leaves an answer, or a copy of the request. */
  lemma HandlingKeepsRequest(q: Queues, c: Copy, h: Handling, w: Conditions)
    requires c in q.unacked && Earned(h, w)
    ensures h.answered || Present(Handled(q, c, h, w), c.origin)
  {
    var x := ForwardedBy(c, h.forwarding);
    var q1 := AddForwarded(q, c, h.forwarding, w.forward);
    var q' := Handled(q, c, h, w);
    AddForwardedMoves(q, c, h.forwarding, w.forward);
    assert c in q1.unacked;
    SettleMoves(q1, c, h.settlement, w);
    assert x.origin == c.origin && WithHeaders(c, w.deathHeaders).origin == c.origin;
    if !h.answered && w.settles && h.settlement == Ack {
      if x != c { assert InSome(q1, x); } else { AckedForwardStays(q, c, h.forwarding, w); }
    }
  }

  /** Even if the forwarded copy equals the original, it is there on its own. */
  lemma AckedForwardStays(q: Queues, c: Copy, forwarding: Forwarding, w: Conditions)
    requires c in q.unacked && !forwarding.NoForward? && Landed(w.forward) && w.settles
    ensures InSome(Settle(AddForwarded(q, c, forwarding, w.forward), c, Ack, w), ForwardedBy(c, forwarding))
  {
  }

  lemma TakenMoves(q: Queues, c: Copy)
    ensures c in q.ready ==> Moves(q, Taken(q, c), c, c, c) && InSome(Taken(q, c), c)
    ensures c in q.unacked ==> Moves(q, Returned(q, c), c, c, c) && InSome(Returned(q, c), c)
  {
  }

  lemma ExpiredMoves(q: Queues, c: Copy, added: Headers)
    requires c in q.retry
    ensures Moves(q, Expired(q, c, added), c, WithHeaders(c, added), WithHeaders(c, added))
    ensures InSome(Expired(q, c, added), WithHeaders(c, added))
  {
  }

  /** What takes the place of a dead letter that an operator requeues. */
  function RequeuedAs(c: Copy, fate: Fate): Copy {
    if Landed(fate) then Forwarded(c, 0) else c
  }

  lemma RequeuedMoves(q: Queues, c: Copy, fate: Fate, settles: bool)
    requires c in q.dead
    ensures Moves(q, Requeued(q, c, fate, settles), c, RequeuedAs(c, fate), RequeuedAs(c, fate))
    ensures fate != Misreported ==> InSome(Requeued(q, c, fate, settles), RequeuedAs(c, fate))
  {
  }

  lemma RecoveredHasTheSame(q: Queues)
    ensures forall c {:trigger InSome(Recovered(q), c)} :: InSome(Recovered(q), c) <==> InSome(q, c)
    ensures forall o | Present(q, o) :: Present(Recovered(q), o)
  {
    forall o | Present(q, o) ensures Present(Recovered(q), o) {
      var c: Copy :| c.origin == o && InSome(q, c);
      assert InSome(Recovered(q), c);
    }
  }

  // ---------------------------------------------------------------------------
  // Every event keeps what the copies say
  // ---------------------------------------------------------------------------

  /** One flow's queues move and the other flow's stay. */
  ghost predicate FlowMoves(s: System, s': System, f: Flow, gone: Copy, x: Copy, y: Copy) {
    && s'.sent == s.sent
    && (forall g | g != f :: QueuesOf(s', g) == QueuesOf(s, g))
    && Moves(QueuesOf(s, f), QueuesOf(s', f), gone, x, y)
  }

  lemma MoveKeepsCopies(s: System, s': System, f: Flow, gone: Copy, x: Copy, y: Copy)
    requires CopiesOk(s) && FlowMoves(s, s', f, gone, x, y) && CopyOk(s, f, x) && CopyOk(s, f, y)
    ensures CopiesOk(s')
  {
    forall g, c | InSome(QueuesOf(s', g), c) ensures CopyOk(s', g, c) {
      if InSome(QueuesOf(s, g), c) { assert CopyOk(s, g, c); }
    }
  }

  /** The two queues of a flow that one event moves, and the copies that come in. */
  lemma HandleMovesFlow(codec: Codec, max: int, s: System, e: Event)
    requires e.HandleOne? && Enabled(s, e)
    ensures
      var h := Handle(codec, max, s.app, e.flow, e.copy.d, e.w);
      FlowMoves(s, Next(codec, max, s, e), e.flow, e.copy,
                ForwardedBy(e.copy, h.forwarding), WithHeaders(e.copy, e.w.deathHeaders))
  {
    var h := Handle(codec, max, s.app, e.flow, e.copy.d, e.w);
    HandlingMoves(QueuesOf(s, e.flow), e.copy, h, e.w);
    assert QueuesOf(Next(codec, max, s, e), e.flow) == Handled(QueuesOf(s, e.flow), e.copy, h, e.w);
  }

  lemma HandleKeepsCopies(codec: Codec, max: int, s: System, e: Event)
    requires CopiesOk(s) && e.HandleOne? && Enabled(s, e)
    ensures CopiesOk(Next(codec, max, s, e))
  {
    var (f, c, w) := (e.flow, e.copy, e.w);
    var h := Handle(codec, max, s.app, f, c.d, w);
    assert InSome(QueuesOf(s, f), c) && CopyOk(s, f, c);
    ForwardedKeepsContract(c, if h.forwarding.NoForward? then 0 else h.forwarding.count, w.deathHeaders);
    HandleMovesFlow(codec, max, s, e);
    MoveKeepsCopies(s, Next(codec, max, s, e), f, c, ForwardedBy(c, h.forwarding), WithHeaders(c, w.deathHeaders));
  }

  lemma SendKeepsCopies(codec: Codec, max: int, s: System, e: Event)
    requires CopiesOk(s) && e.Send? && Enabled(s, e)
    ensures CopiesOk(Next(codec, max, s, e))
  {
    var s' := Next(codec, max, s, e);
    forall g, x | InSome(QueuesOf(s', g), x) ensures CopyOk(s', g, x) {
      if InSome(QueuesOf(s, g), x) { assert CopyOk(s, g, x); }
    }
  }

  lemma TransferKeepsCopies(s: System, f: Flow, q': Queues, c: Copy, x: Copy)
    requires CopiesOk(s) && InSome(QueuesOf(s, f), c) && Moves(QueuesOf(s, f), q', c, x, x)
    requires x.origin == c.origin && SameButCount(x.d.headers, c.d.headers) && x.d.body == c.d.body
    ensures CopiesOk(WithQueues(s, f, q'))
  {
    assert CopyOk(s, f, c) && CopyOk(s, f, x);
    MoveKeepsCopies(s, WithQueues(s, f, q'), f, c, x, x);
  }

  lemma ProcessEventKeepsCopies(codec: Codec, max: int, s: System, e: Event)
    requires CopiesOk(s) && (e.Restock? || e.Restart?)
    ensures CopiesOk(Next(codec, max, s, e))
  {
    var s' := Next(codec, max, s, e);
    RecoveredHasTheSame(s.reservations);
    RecoveredHasTheSame(s.releases);
    forall f, c | InSome(QueuesOf(s', f), c) ensures CopyOk(s', f, c) {
      assert InSome(QueuesOf(s, f), c);
      assert CopyOk(s, f, c);
    }
  }

  lemma NextKeepsCopies(codec: Codec, max: int, s: System, e: Event)
    requires CopiesOk(s) && Enabled(s, e)
    ensures CopiesOk(Next(codec, max, s, e))
  {
    match e
    case Send(_, _, _) => SendKeepsCopies(codec, max, s, e);
    case HandleOne(_, _, _) => HandleKeepsCopies(codec, max, s, e);
    case Receive(f, c) =>
      TakenMoves(QueuesOf(s, f), c);
      TransferKeepsCopies(s, f, Taken(QueuesOf(s, f), c), c, c);
    case Redeliver(f, c) =>
      TakenMoves(QueuesOf(s, f), c);
      TransferKeepsCopies(s, f, Returned(QueuesOf(s, f), c), c, c);
    case Expire(f, c, added) =>
      ForwardedKeepsContract(c, 0, added);
      ExpiredMoves(QueuesOf(s, f), c, added);
      TransferKeepsCopies(s, f, Expired(QueuesOf(s, f), c, added), c, WithHeaders(c, added));
    case RequeueDead(f, c, fate, settles) =>
      ForwardedKeepsContract(c, 0, map[]);
      RequeuedMoves(QueuesOf(s, f), c, fate, settles);
      TransferKeepsCopies(s, f, Requeued(QueuesOf(s, f), c, fate, settles), c, RequeuedAs(c, fate));
    case Restart(_) => ProcessEventKeepsCopies(codec, max, s, e);
    case Restock(_, _, _) => ProcessEventKeepsCopies(codec, max, s, e);
  }

  /** In every run every copy carries the request as it was sent, the retry count aside. */
  lemma {:induction false} CopiesKeepTheirRequest(codec: Codec, max: int, l: Ledger.Ledger, es: seq<Event>)
    requires Valid(codec, max, Start(l), es)
    ensures CopiesOk(Reach(codec, max, Start(l), es))
  {
    if es != [] {
      CopiesKeepTheirRequest(codec, max, l, es[..|es| - 1]);
      NextKeepsCopies(codec, max, Reach(codec, max, Start(l), es[..|es| - 1]), es[|es| - 1]);
    }
  }

  // ---------------------------------------------------------------------------
  // Every honest event keeps every request
  // ---------------------------------------------------------------------------

  lemma MoveKeepsRequests(s: System, s': System, f: Flow, gone: Copy, x: Copy, y: Copy)
    requires NothingLost(s) && FlowMoves(s, s', f, gone, x, y) && s.answered <= s'.answered
    requires (f, gone.origin) in s.sent ==> Safe(s', f, gone.origin)
    ensures NothingLost(s')
  {
    forall g, o | (g, o) in s'.sent ensures Safe(s', g, o) {
      assert Safe(s, g, o);
      if g == f && (f, o) !in s'.answered && o != gone.origin {
        PresentAfter(QueuesOf(s, f), QueuesOf(s', f), gone, x, y, o);
      }
    }
  }

  lemma HandleKeepsRequests(codec: Codec, max: int, s: System, e: Event)
    requires NothingLost(s) && e.HandleOne? && Enabled(s, e) && Honest(codec, max, s, e)
    ensures NothingLost(Next(codec, max, s, e))
  {
    var (f, c, w) := (e.flow, e.copy, e.w);
    var h := Handle(codec, max, s.app, f, c.d, w);
    var s' := Next(codec, max, s, e);
    AckIsEarned(max, s.app, Process(codec, s.app, f, c.d, w.env), w);
    HandleMovesFlow(codec, max, s, e);
    HandlingKeepsRequest(QueuesOf(s, f), c, h, w);
    assert QueuesOf(s', f) == Handled(QueuesOf(s, f), c, h, w);
    MoveKeepsRequests(s, s', f, c, ForwardedBy(c, h.forwarding), WithHeaders(c, w.deathHeaders));
  }

  lemma SendKeepsRequests(codec: Codec, max: int, s: System, e: Event)
    requires NothingLost(s) && e.Send? && Enabled(s, e)
    ensures NothingLost(Next(codec, max, s, e))
  {
    var s' := Next(codec, max, s, e);
    var c := Copy(e.origin, e.d);
    forall g, o | (g, o) in s'.sent ensures Safe(s', g, o) {
      if (g, o) == (e.flow, e.origin) {
        assert InSome(QueuesOf(s', g), c);
      } else {
        assert Safe(s, g, o);
        if (g, o) !in s.answered {
          var x: Copy :| x.origin == o && InSome(QueuesOf(s, g), x);
          assert InSome(QueuesOf(s', g), x);
        }
      }
    }
  }

  /** An event that moves copy `c` or puts `x`, a copy of the same request, in its place. */
  lemma TransferKeepsRequests(s: System, f: Flow, q': Queues, c: Copy, x: Copy)
    requires NothingLost(s) && Moves(QueuesOf(s, f), q', c, x, x) && x.origin == c.origin && InSome(q', x)
    ensures NothingLost(WithQueues(s, f, q'))
  {
    MoveKeepsRequests(s, WithQueues(s, f, q'), f, c, x, x);
  }

  lemma ProcessEventKeepsRequests(codec: Codec, max: int, s: System, e: Event)
    requires NothingLost(s) && (e.Restock? || e.Restart?)
    ensures NothingLost(Next(codec, max, s, e))
  {
    var s' := Next(codec, max, s, e);
    RecoveredHasTheSame(s.reservations);
    RecoveredHasTheSame(s.releases);
    forall f, o | (f, o) in s'.sent ensures Safe(s', f, o) { assert Safe(s, f, o); }
  }

  lemma NextKeepsRequests(codec: Codec, max: int, s: System, e: Event)
    requires NothingLost(s) && Enabled(s, e) && Honest(codec, max, s, e)
    ensures NothingLost(Next(codec, max, s, e))
  {
    match e
    case Send(_, _, _) => SendKeepsRequests(codec, max, s, e);
    case HandleOne(_, _, _) => HandleKeepsRequests(codec, max, s, e);
    case Receive(f, c) =>
      TakenMoves(QueuesOf(s, f), c);
      TransferKeepsRequests(s, f, Taken(QueuesOf(s, f), c), c, c);
    case Redeliver(f, c) =>
      TakenMoves(QueuesOf(s, f), c);
      TransferKeepsRequests(s, f, Returned(QueuesOf(s, f), c), c, c);
    case Expire(f, c, added) =>
      ExpiredMoves(QueuesOf(s, f), c, added);
      TransferKeepsRequests(s, f, Expired(QueuesOf(s, f), c, added), c, WithHeaders(c, added));
    case RequeueDead(f, c, fate, settles) =>
      assert AdminPublishes(e)[0] == fate;
      RequeuedMoves(QueuesOf(s, f), c, fate, settles);
      TransferKeepsRequests(s, f, Requeued(QueuesOf(s, f), c, fate, settles), c, RequeuedAs(c, fate));
    case Restart(_) => ProcessEventKeepsRequests(codec, max, s, e);
    case Restock(_, _, _) => ProcessEventKeepsRequests(codec, max, s, e);
  }

  lemma NextKeepsAnswers(codec: Codec, max: int, s: System, e: Event)
    requires AnswersLanded(s) && Enabled(s, e) && Honest(codec, max, s, e)
    ensures AnswersLanded(Next(codec, max, s, e))
  {
    var s' := Next(codec, max, s, e);
    var n := |s.outcomes|;
    assert s.outcomes <= s'.outcomes;
    if e.HandleOne? { AckIsEarned(max, s.app, Process(codec, s.app, e.flow, e.copy.d, e.w.env), e.w); }
    forall f, o | (f, o) in s'.answered ensures HasOutcome(s', f, o) {
      if (f, o) in s.answered {
        assert HasOutcome(s, f, o);
        var i :| 0 <= i < n && s.outcomes[i].flow == f && s.outcomes[i].origin == o;
        assert s'.outcomes[i] == s.outcomes[i];
      } else {
        assert s'.outcomes[n].flow == f && s'.outcomes[n].origin == o;
      }
    }
  }

  /**
   * No request is lost: in every run in which no publish is misreported, across redeliveries, retries, dead-lettering,
   * manual requeues and restarts of the process, each request sent so far has a copy in one of the queues of its flow,
   * or an outcome publish for it has succeeded and landed.
   */
  lemma {:induction false} NoRequestIsLost(codec: Codec, max: int, l: Ledger.Ledger, es: seq<Event>)
    requires Valid(codec, max, Start(l), es) && HonestRun(codec, max, Start(l), es)
    ensures
      var s := Reach(codec, max, Start(l), es);
      NothingLost(s) && AnswersLanded(s)
  {
    if es != [] {
      var s := Reach(codec, max, Start(l), es[..|es| - 1]);
      NoRequestIsLost(codec, max, l, es[..|es| - 1]);
      NextKeepsRequests(codec, max, s, es[|es| - 1]);
      NextKeepsAnswers(codec, max, s, es[|es| - 1]);
    }
  }
}
