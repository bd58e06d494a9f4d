/** Runs put together from parts, with what each process publishes in them. */
module RunParts {
  import opened Messages
  import opened Outcomes
  import opened Delivery
  import opened Folds

  /** The run is possible and ends in `s'`. */
  predicate RunsTo(codec: Codec, max: int, s: System, es: seq<Event>, s': System) {
    Valid(codec, max, s, es) && Reach(codec, max, s, es) == s'
  }

  lemma Joined(codec: Codec, max: int, s0: System, xs: seq<Event>, s: System, ys: seq<Event>, s': System)
    requires RunsTo(codec, max, s0, xs, s) && RunsTo(codec, max, s, ys, s')
    ensures RunsTo(codec, max, s0, xs + ys, s')
  {
    FoldSplit(EnabledOf(), NextOf(codec, max), s0, xs, ys);
  }

  // ---------------------------------------------------------------------------
  // How the publishes of a run end
  // ---------------------------------------------------------------------------

  /** The publishes of the consumer, if the event happens in process `k`. */
  function ConsumerOut(codec: Codec, max: int, k: nat): (System, Event) -> seq<Fate> {
    (s: System, e: Event) => if s.epoch == k then ConsumerPublishes(codec, max, s, e) else []
  }

  /** The same for the operator. */
  function AdminOut(k: nat): (System, Event) -> seq<Fate> {
    (s: System, e: Event) => if s.epoch == k then AdminPublishes(e) else []
  }

  /** How the publishes of the consumer in process `k` end, in order. */
  function ConsumerFates(codec: Codec, max: int, s: System, es: seq<Event>, k: nat): seq<Fate> {
    Trail(NextOf(codec, max), ConsumerOut(codec, max, k), s, es)
  }

  function AdminFates(codec: Codec, max: int, s: System, es: seq<Event>, k: nat): seq<Fate> {
    Trail(NextOf(codec, max), AdminOut(k), s, es)
  }

  lemma FatesJoin(codec: Codec, max: int, s: System, xs: seq<Event>, t: System, ys: seq<Event>, k: nat)
    requires Reach(codec, max, s, xs) == t
    ensures ConsumerFates(codec, max, s, xs + ys, k) == ConsumerFates(codec, max, s, xs, k) + ConsumerFates(codec, max, t, ys, k)
    ensures AdminFates(codec, max, s, xs + ys, k) == AdminFates(codec, max, s, xs, k) + AdminFates(codec, max, t, ys, k)
  {
    TrailSplit(NextOf(codec, max), ConsumerOut(codec, max, k), s, xs, ys);
    TrailSplit(NextOf(codec, max), AdminOut(k), s, xs, ys);
  }

  // ---------------------------------------------------------------------------
  // Parts within one process
  // ---------------------------------------------------------------------------

  /** A part of a run that stays in one process, and how its publishes end. */
  ghost predicate Part(codec: Codec, max: int, s: System, es: seq<Event>, s': System, consumer: seq<Fate>, admin: seq<Fate>) {
    && RunsTo(codec, max, s, es, s') && s'.epoch == s.epoch
    && (forall k: nat :: ConsumerFates(codec, max, s, es, k) == if k == s.epoch then consumer else [])
    && (forall k: nat :: AdminFates(codec, max, s, es, k) == if k == s.epoch then admin else [])
  }

  lemma NoPart(codec: Codec, max: int, s: System)
    ensures Part(codec, max, s, [], s, [], [])
  {
  }

  lemma PartsJoin(codec: Codec, max: int, s: System, xs: seq<Event>, t: System, c1: seq<Fate>, a1: seq<Fate>,
                  ys: seq<Event>, u: System, c2: seq<Fate>, a2: seq<Fate>)
    requires Part(codec, max, s, xs, t, c1, a1) && Part(codec, max, t, ys, u, c2, a2)
    ensures Part(codec, max, s, xs + ys, u, c1 + c2, a1 + a2)
  {
    Joined(codec, max, s, xs, t, ys, u);
    forall k: nat
      ensures ConsumerFates(codec, max, s, xs + ys, k) == if k == s.epoch then c1 + c2 else []
      ensures AdminFates(codec, max, s, xs + ys, k) == if k == s.epoch then a1 + a2 else []
    {
      FatesJoin(codec, max, s, xs, t, ys, k);
    }
  }

  /** One more publish, of the consumer or of the operator. */
  lemma PartsJoinLast(codec: Codec, max: int, s: System, xs: seq<Event>, t: System, ys: seq<Event>, u: System, fates: seq<Fate>)
    requires fates != []
    ensures Part(codec, max, s, xs, t, fates[..|fates| - 1], []) && Part(codec, max, t, ys, u, [fates[|fates| - 1]], []) ==>
              Part(codec, max, s, xs + ys, u, fates, [])
    ensures Part(codec, max, s, xs, t, [], fates[..|fates| - 1]) && Part(codec, max, t, ys, u, [], [fates[|fates| - 1]]) ==>
              Part(codec, max, s, xs + ys, u, [], fates)
    ensures forall x :: x in fates <==> x in fates[..|fates| - 1] || x == fates[|fates| - 1]
  {
    var m := |fates| - 1;
    assert fates[..m] + [fates[m]] == fates;
    if Part(codec, max, s, xs, t, fates[..m], []) && Part(codec, max, t, ys, u, [fates[m]], []) {
      PartsJoin(codec, max, s, xs, t, fates[..m], [], ys, u, [fates[m]], []);
    }
    if Part(codec, max, s, xs, t, [], fates[..m]) && Part(codec, max, t, ys, u, [], [fates[m]]) {
      PartsJoin(codec, max, s, xs, t, [], fates[..m], ys, u, [], [fates[m]]);
    }
  }

  lemma TwoParts(codec: Codec, max: int, s: System, x: Event, s1: System, y: Event, s2: System, c: seq<Fate>, a: seq<Fate>)
    requires Part(codec, max, s, [x], s1, [], []) && Part(codec, max, s1, [y], s2, c, a)
    ensures Part(codec, max, s, [x, y], s2, c, a)
  {
    PartsJoin(codec, max, s, [x], s1, [], [], [y], s2, c, a);
    assert [x] + [y] == [x, y] && [] + c == c && [] + a == a;
  }

  lemma ThreeParts(codec: Codec, max: int, s: System, x: Event, s1: System, y: Event, z: Event, s3: System, c: seq<Fate>, a: seq<Fate>)
    requires Part(codec, max, s, [x], s1, [], []) && Part(codec, max, s1, [y, z], s3, c, a)
    ensures Part(codec, max, s, [x, y, z], s3, c, a)
  {
    PartsJoin(codec, max, s, [x], s1, [], [], [y, z], s3, c, a);
    assert [x] + [y, z] == [x, y, z] && [] + c == c && [] + a == a;
  }

  // ---------------------------------------------------------------------------
  // Single events
  // ---------------------------------------------------------------------------

  lemma OnePart(codec: Codec, max: int, s: System, e: Event)
    requires Enabled(s, e) && Next(codec, max, s, e).epoch == s.epoch
    ensures Part(codec, max, s, [e], Next(codec, max, s, e), ConsumerPublishes(codec, max, s, e), AdminPublishes(e))
  {
    FoldOne(EnabledOf(), NextOf(codec, max), s, e);
    forall k: nat
      ensures ConsumerFates(codec, max, s, [e], k) == if k == s.epoch then ConsumerPublishes(codec, max, s, e) else []
      ensures AdminFates(codec, max, s, [e], k) == if k == s.epoch then AdminPublishes(e) else []
    {
      TrailOne(NextOf(codec, max), ConsumerOut(codec, max, k), s, e);
      TrailOne(NextOf(codec, max), AdminOut(k), s, e);
    }
  }

  function SentSystem(s: System, f: Flow, c: Copy): System {
    WithQueues(s, f, QueuesOf(s, f).(ready := QueuesOf(s, f).ready + multiset{c})).(sent := s.sent[(f, c.origin) := c.d])
  }

  lemma SendPart(codec: Codec, max: int, s: System, f: Flow, c: Copy)
    requires (f, c.origin) !in s.sent
    ensures Part(codec, max, s, [Send(f, c.origin, c.d)], SentSystem(s, f, c), [], [])
  {
    OnePart(codec, max, s, Send(f, c.origin, c.d));
  }

  function ReceivedSystem(s: System, f: Flow, c: Copy): System {
    WithQueues(s, f, Taken(QueuesOf(s, f), c))
  }

  lemma ReceivePart(codec: Codec, max: int, s: System, f: Flow, c: Copy)
    requires c in QueuesOf(s, f).ready
    ensures Part(codec, max, s, [Receive(f, c)], ReceivedSystem(s, f, c), [], [])
  {
    OnePart(codec, max, s, Receive(f, c));
  }

  function ExpiredSystem(s: System, f: Flow, c: Copy): System {
    WithQueues(s, f, Expired(QueuesOf(s, f), c, map[]))
  }

  lemma ExpirePart(codec: Codec, max: int, s: System, f: Flow, c: Copy)
    requires c in QueuesOf(s, f).retry
    ensures Part(codec, max, s, [Expire(f, c, map[])], ExpiredSystem(s, f, c), [], [])
  {
    OnePart(codec, max, s, Expire(f, c, map[]));
  }

  function RequeuedSystem(s: System, f: Flow, c: Copy, fate: Fate): System {
    WithQueues(s, f, Requeued(QueuesOf(s, f), c, fate, true))
  }

  lemma RequeuePart(codec: Codec, max: int, s: System, f: Flow, c: Copy, fate: Fate)
    requires c in QueuesOf(s, f).dead
    ensures Part(codec, max, s, [RequeueDead(f, c, fate, true)], RequeuedSystem(s, f, c, fate), [], [fate])
  {
    OnePart(codec, max, s, RequeueDead(f, c, fate, true));
  }
}
