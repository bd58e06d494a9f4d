/**
 * The delivery protocol on top of the confirmation streams. Each process opens two channels, one for the consumer's
 * publisher and one for the operator's; how a publish ends follows from the broker's verdicts and the waits given up.
 */
module ConfirmedDelivery {
  import Ledger
  import opened Messages
  import opened Outcomes
  import opened Delivery
  import opened NoLoss
  import opened Confirms
  import opened RunParts
  import opened RetryRuns
  import opened LosingRuns

  // ---------------------------------------------------------------------------
  // No loss while the confirmations pair
  // ---------------------------------------------------------------------------

  /** A run is honest if no process misreports a publish. */
  lemma {:induction false} HonestFromFates(codec: Codec, max: int, s: System, es: seq<Event>)
    requires forall k: nat :: Misreported !in ConsumerFates(codec, max, s, es, k)
    requires forall k: nat :: Misreported !in AdminFates(codec, max, s, es, k)
    ensures HonestRun(codec, max, s, es)
  {
    if es != [] {
      var init := es[..|es| - 1];
      var now := Reach(codec, max, s, init);
      forall k: nat ensures Misreported !in ConsumerFates(codec, max, s, init, k) {
        assert ConsumerFates(codec, max, s, init, k) <= ConsumerFates(codec, max, s, es, k);
      }
      forall k: nat ensures Misreported !in AdminFates(codec, max, s, init, k) {
        assert AdminFates(codec, max, s, init, k) <= AdminFates(codec, max, s, es, k);
      }
      HonestFromFates(codec, max, s, init);
      LastIsHonest(codec, max, s, es);
    }
  }

  lemma LastIsHonest(codec: Codec, max: int, s: System, es: seq<Event>)
    requires es != []
    requires
      var k := Reach(codec, max, s, es[..|es| - 1]).epoch;
      Misreported !in ConsumerFates(codec, max, s, es, k) && Misreported !in AdminFates(codec, max, s, es, k)
    ensures Honest(codec, max, Reach(codec, max, s, es[..|es| - 1]), es[|es| - 1])
  {
  }

  /** The publishes of every process go through its two channels. */
  ghost predicate Streamed(codec: Codec, max: int, s: System, es: seq<Event>,
                           consumer: nat -> seq<Attempt>, admin: nat -> seq<Attempt>)
  {
    forall k: nat ::
      && ConsumerFates(codec, max, s, es, k) == Fates(consumer(k))
      && AdminFates(codec, max, s, es, k) == Fates(admin(k))
  }

  /**
   * No request is lost as long as no publisher, having given up a wait, goes on reading confirmations: in every such
   * run each request has a copy in a queue of its flow, or an outcome of it has landed and been reported.
   */
  lemma NothingLostWhileConfirmsPair(codec: Codec, max: int, l: Ledger.Ledger, es: seq<Event>,
                                     consumer: nat -> seq<Attempt>, admin: nat -> seq<Attempt>)
    requires Valid(codec, max, Start(l), es) && Streamed(codec, max, Start(l), es, consumer, admin)
    requires forall k: nat :: StopsReading(consumer(k)) && StopsReading(admin(k))
    ensures
      var s := Reach(codec, max, Start(l), es);
      NothingLost(s) && AnswersLanded(s)
  {
    forall k: nat
      ensures Misreported !in ConsumerFates(codec, max, Start(l), es, k) && Misreported !in AdminFates(codec, max, Start(l), es, k)
    {
      FatesAreHonest(consumer(k));
      FatesAreHonest(admin(k));
    }
    HonestFromFates(codec, max, Start(l), es);
    NoRequestIsLost(codec, max, l, es);
  }

  // ---------------------------------------------------------------------------
  // Exactly when a request can be lost
  // ---------------------------------------------------------------------------

  /** The confirmation streams of one process. */
  datatype Streams = Streams(consumer: seq<Attempt>, admin: seq<Attempt>)

  function ConsumerOf(ss: seq<Streams>): nat -> seq<Attempt> {
    (k: nat) => if k < |ss| then ss[k].consumer else []
  }

  function AdminOf(ss: seq<Streams>): nat -> seq<Attempt> {
    (k: nat) => if k < |ss| then ss[k].admin else []
  }

  /** The processes have these streams, and at the end neither a copy nor an outcome of request `o` is left. */
  ghost predicate Loses(codec: Codec, max: int, seed: seq<Ledger.Seed>, ss: seq<Streams>, es: seq<Event>, f: Flow, o: nat)
    requires Ledger.Seeded(seed).Ok?
  {
    var start := Start(Ledger.Opened(seed));
    && Valid(codec, max, start, es) && Streamed(codec, max, start, es, ConsumerOf(ss), AdminOf(ss))
    && Gone(Reach(codec, max, start, es), f, o)
  }

  ghost predicate CanLose(codec: Codec, max: int, seed: seq<Ledger.Seed>, ss: seq<Streams>)
    requires Ledger.Seeded(seed).Ok?
  {
    exists es, f, o :: Loses(codec, max, seed, ss, es, f, o)
  }

  predicate SomeMisreport(ss: seq<Streams>) {
    exists k :: 0 <= k < |ss| && (Misreported in Fates(ss[k].consumer) || Misreported in Fates(ss[k].admin))
  }

  /**
   * Whatever the streams of the processes are, some run with these streams loses a request if and only if one of them
   * misreports a publish. The request in the run is any readable one of either flow.
   */
  lemma LosesIffMisreported(codec: Codec, max: int, seed: seq<Ledger.Seed>, f: Flow, d: Messages.Delivery, ss: seq<Streams>)
    requires Ledger.Seeded(seed).Ok? && Decodes(codec, f, d)
    ensures CanLose(codec, max, seed, ss) <==> SomeMisreport(ss)
  {
    if SomeMisreport(ss) { MisreportLoses(codec, max, seed, f, d, ss); }
    if CanLose(codec, max, seed, ss) {
      var es, g, o :| Loses(codec, max, seed, ss, es, g, o);
      if !SomeMisreport(ss) { NoMisreportKeeps(codec, max, seed, ss, es, g, o); }
    }
  }

  lemma NoMisreportKeeps(codec: Codec, max: int, seed: seq<Ledger.Seed>, ss: seq<Streams>, es: seq<Event>, f: Flow, o: nat)
    requires Ledger.Seeded(seed).Ok? && !SomeMisreport(ss)
    ensures !Loses(codec, max, seed, ss, es, f, o)
  {
    var start := Start(Ledger.Opened(seed));
    if Loses(codec, max, seed, ss, es, f, o) {
      forall k: nat
        ensures Misreported !in ConsumerFates(codec, max, start, es, k) && Misreported !in AdminFates(codec, max, start, es, k)
      {
        assert ConsumerFates(codec, max, start, es, k) == Fates(ConsumerOf(ss)(k));
      }
      HonestFromFates(codec, max, start, es);
      NoRequestIsLost(codec, max, Ledger.Opened(seed), es);
      NothingGone(Reach(codec, max, start, es), f, o);
    }
  }

  lemma NothingGone(s: System, f: Flow, o: nat)
    requires NothingLost(s) && AnswersLanded(s)
    ensures !Gone(s, f, o)
  {
    if (f, o) in s.sent {
      assert Safe(s, f, o);
      if (f, o) in s.answered { assert HasOutcome(s, f, o); }
    }
  }

  function LivesOf(ss: seq<Streams>): seq<Life> {
    seq(|ss|, k requires 0 <= k < |ss| => Life(Fates(ss[k].consumer), Fates(ss[k].admin)))
  }

  lemma MisreportLoses(codec: Codec, max: int, seed: seq<Ledger.Seed>, f: Flow, d: Messages.Delivery, ss: seq<Streams>)
    requires Ledger.Seeded(seed).Ok? && Decodes(codec, f, d) && SomeMisreport(ss)
    ensures CanLose(codec, max, seed, ss)
  {
    var lives := LivesOf(ss);
    var k :| 0 <= k < |ss| && (Misreported in Fates(ss[k].consumer) || Misreported in Fates(ss[k].admin));
    assert Misreports(lives[k]);
    assert AnyMisreports(lives);
    var es, s, n := LivesRun(codec, max, seed, f, d, lives);
    var o :| Gone(s, f, o);
    LivedIsStreamed(codec, max, Start(Ledger.Opened(seed)), es, s, ss);
    assert Loses(codec, max, seed, ss, es, f, o);
  }

  lemma LivedIsStreamed(codec: Codec, max: int, s0: System, es: seq<Event>, s: System, ss: seq<Streams>)
    requires Lived(codec, max, s0, es, s, LivesOf(ss))
    ensures Streamed(codec, max, s0, es, ConsumerOf(ss), AdminOf(ss))
  {
    forall k: nat
      ensures ConsumerFates(codec, max, s0, es, k) == Fates(ConsumerOf(ss)(k)) && AdminFates(codec, max, s0, es, k) == Fates(AdminOf(ss)(k))
    {
      assert Publishes(codec, max, s0, es, k, LifeAt(LivesOf(ss), k));
    }
  }

  /** The same sends and waits in every process; only the broker's verdicts may differ. */
  predicate SameStreams(ss: seq<Streams>, ts: seq<Streams>) {
    |ss| == |ts|
    && forall k | 0 <= k < |ss| :: SameWaits(ss[k].consumer, ts[k].consumer) && SameWaits(ss[k].admin, ts[k].admin)
  }

  /** Some verdicts of the broker on these sends and waits, and some run, lose a request. */
  ghost predicate CanLoseForSomeVerdicts(codec: Codec, max: int, seed: seq<Ledger.Seed>, ss: seq<Streams>)
    requires Ledger.Seeded(seed).Ok?
  {
    exists ts :: SameStreams(ss, ts) && CanLose(codec, max, seed, ts)
  }

  predicate AllStopReading(ss: seq<Streams>) {
    forall k | 0 <= k < |ss| :: StopsReading(ss[k].consumer) && StopsReading(ss[k].admin)
  }

  /**
   * The condition a publisher can meet: given which messages are sent and which waits are given up, no verdicts of the
   * broker and no run can lose a request if and only if no channel is read any more after a wait on it was given up.
   */
  lemma LosesIffReadsOn(codec: Codec, max: int, seed: seq<Ledger.Seed>, f: Flow, d: Messages.Delivery, ss: seq<Streams>)
    requires Ledger.Seeded(seed).Ok? && Decodes(codec, f, d)
    ensures CanLoseForSomeVerdicts(codec, max, seed, ss) <==> !AllStopReading(ss)
  {
    if CanLoseForSomeVerdicts(codec, max, seed, ss) {
      var ts :| SameStreams(ss, ts) && CanLose(codec, max, seed, ts);
      LosesIffMisreported(codec, max, seed, f, d, ts);
      MisreportReadsOn(ss, ts);
    }
    if !AllStopReading(ss) {
      var ts := MisleadingStreams(ss);
      LosesIffMisreported(codec, max, seed, f, d, ts);
    }
  }

  lemma MisreportReadsOn(ss: seq<Streams>, ts: seq<Streams>)
    requires SameStreams(ss, ts) && SomeMisreport(ts)
    ensures !AllStopReading(ss)
  {
    var k :| 0 <= k < |ts| && (Misreported in Fates(ts[k].consumer) || Misreported in Fates(ts[k].admin));
    MisreportsIffReadsOn(ss[k].consumer);
    MisreportsIffReadsOn(ss[k].admin);
    assert SameWaits(ss[k].consumer, ts[k].consumer) && SameWaits(ss[k].admin, ts[k].admin);
  }

  lemma MisleadingStreams(ss: seq<Streams>) returns (ts: seq<Streams>)
    requires !AllStopReading(ss)
    ensures SameStreams(ss, ts) && SomeMisreport(ts)
  {
    var k :| 0 <= k < |ss| && !(StopsReading(ss[k].consumer) && StopsReading(ss[k].admin));
    MisreportsIffReadsOn(ss[k].consumer);
    MisreportsIffReadsOn(ss[k].admin);
    var consumer, admin := ss[k].consumer, ss[k].admin;
    if !StopsReading(consumer) {
      var bs :| SameWaits(consumer, bs) && Misreported in Fates(bs);
      ts := ss[k := Streams(bs, admin)];
    } else {
      var bs :| SameWaits(admin, bs) && Misreported in Fates(bs);
      ts := ss[k := Streams(consumer, bs)];
    }
    assert Misreported in Fates(ts[k].consumer) || Misreported in Fates(ts[k].admin);
  }

  // ---------------------------------------------------------------------------
  // The shortest case
  // ---------------------------------------------------------------------------

  /** The wait for the first message is given up, though the broker accepts it; the second message is refused. */
  const GIVE_UP_ONCE := [GaveUp(true), ReadOne(false)]

  lemma GiveUpOnceFates()
    ensures Fates(GIVE_UP_ONCE) == [LandedUnconfirmed, Misreported]
    ensures !StopsReading(GIVE_UP_ONCE)
  {
    var one := [GaveUp(true)];
    assert one[..0] == [] && GIVE_UP_ONCE[..1] == one;
    assert Confirms.Run(one) == Confirms.Channel([true], 0, true);
    assert Fates(one) == [LandedUnconfirmed];
    assert GivenUp(one) == 1;
    assert ReadsLate(GIVE_UP_ONCE, 1);
  }

  /** One given-up wait of one process is enough to lose a request. */
  lemma GivenUpWaitLosesARequest(codec: Codec, max: int, seed: seq<Ledger.Seed>, f: Flow, d: Messages.Delivery)
    requires Ledger.Seeded(seed).Ok? && Decodes(codec, f, d)
    ensures CanLose(codec, max, seed, [Streams(GIVE_UP_ONCE, [])])
  {
    GiveUpOnceFates();
    var ss := [Streams(GIVE_UP_ONCE, [])];
    assert Misreported in Fates(ss[0].consumer);
    LosesIffMisreported(codec, max, seed, f, d, ss);
  }
}
