/** The run that uses up every retry: the bound on how often a request is handled is reached. */
module FullRetries {
  import opened Prelude
  import Ledger
  import opened Messages
  import opened Outcomes
  import opened Delivery
  import opened RunParts
  import opened RetryBound
  import opened RetryRuns
  import opened ReadableCopies
  import opened HandledDeliveries

  /** How often a run handles copies of one request. */
  function Handlings(es: seq<Event>, f: Flow, o: nat): nat {
    if es == [] then 0
    else
      var e := es[|es| - 1];
      Handlings(es[..|es| - 1], f, o) + if e.HandleOne? && e.flow == f && e.copy.origin == o then 1 else 0
  }

  lemma {:induction false} HandlingsJoin(xs: seq<Event>, ys: seq<Event>, f: Flow, o: nat)
    ensures Handlings(xs + ys, f, o) == Handlings(xs, f, o) + Handlings(ys, f, o)
  {
    if ys == [] {
      assert xs + ys == xs;
    } else {
      HandlingsJoin(xs, ys[..|ys| - 1], f, o);
      assert (xs + ys)[..|xs + ys| - 1] == xs + ys[..|ys| - 1];
    }
  }

  lemma HandlingsOfOne(e: Event, f: Flow, o: nat)
    ensures Handlings([e], f, o) == if e.HandleOne? && e.flow == f && e.copy.origin == o then 1 else 0
  {
    assert [e][..0] == [];
  }

  lemma HandlingsOfRound(f: Flow, c: Copy)
    ensures Handlings(Round(f, c, Accepted), f, c.origin) == 1
  {
    assert Round(f, c, Accepted) == [Receive(f, c)] + [HandleOne(f, c, Unpublished(Accepted))];
    HandlingsJoin([Receive(f, c)], [HandleOne(f, c, Unpublished(Accepted))], f, c.origin);
    HandlingsOfOne(Receive(f, c), f, c.origin);
    HandlingsOfOne(HandleOne(f, c, Unpublished(Accepted)), f, c.origin);
  }

  /** Nothing fails but the publishes: no message is taken back or requeued by hand, and the process keeps running. */
  predicate Undisturbed(es: seq<Event>) {
    forall e | e in es :: e.Send? || e.Receive? || e.HandleOne? || e.Expire?
  }

  /** A part of a run that handles the request `n` times undisturbed. */
  predicate Tries(es: seq<Event>, f: Flow, n: int) {
    Undisturbed(es) && Handlings(es, f, 0) == n
  }

  lemma TriesJoin(xs: seq<Event>, ys: seq<Event>, f: Flow, m: int, n: int)
    requires Tries(xs, f, m) && Tries(ys, f, n)
    ensures Tries(xs + ys, f, m + n)
  {
    HandlingsJoin(xs, ys, f, 0);
  }

  lemma RoundTries(f: Flow, c: Copy)
    requires c.origin == 0
    ensures Tries(Round(f, c, Accepted), f, 1)
    ensures Tries(Attempt(f, c, Accepted), f, 1)
  {
    HandlingsOfRound(f, c);
    HandlingsOfOne(Send(f, c.origin, c.d), f, 0);
    assert Attempt(f, c, Accepted) == [Send(f, c.origin, c.d)] + Round(f, c, Accepted);
    TriesJoin([Send(f, c.origin, c.d)], Round(f, c, Accepted), f, 0, 1);
  }

  lemma ExpiryTries(f: Flow, c: Copy)
    ensures Tries([Expire(f, c, map[])], f, 0)
  {
    HandlingsOfOne(Expire(f, c, map[]), f, 0);
  }

  lemma CycleTries(f: Flow, c: Copy, x: Copy)
    requires c.origin == 0
    ensures Tries(Round(f, c, Accepted) + [Expire(f, x, map[])], f, 1)
  {
    RoundTries(f, c);
    ExpiryTries(f, x);
    TriesJoin(Round(f, c, Accepted), [Expire(f, x, map[])], f, 1, 0);
  }

  // ---------------------------------------------------------------------------
  // From one delivery to the next
  // ---------------------------------------------------------------------------

  /** A run that brings a ready copy of `d` to count `r`, handling copies of it `n` times. */
  ghost predicate RetriedTo(codec: Codec, max: int, s0: System, es: seq<Event>, s: System,
                            f: Flow, d: Messages.Delivery, c: Copy, r: int, n: int)
  {
    ClimbedTo(codec, max, s0, es, s, f, d, c, r) && Tries(es, f, n)
  }

  /** One more round, and the time in the retry queue. */
  lemma RetryFurther(codec: Codec, max: int, s: System, f: Flow, d: Messages.Delivery, c: Copy, r: int, r': int)
    returns (es: seq<Event>, s': System, c': Copy)
    requires Decodes(codec, f, d) && Climbing(codec, s, f, d, c, r) && 0 <= r < MAX_INT32 && r < max && r' == r + 1
    ensures RetriedTo(codec, max, s, es, s', f, d, c', r', 1)
  {
    var x;
    es, s', x, c' := ClimbOn(codec, max, s, f, d, c, r);
    CycleTries(f, c, x);
  }

  lemma RetriedFurther(codec: Codec, max: int, s0: System, xs: seq<Event>, s: System, ys: seq<Event>, s': System,
                       f: Flow, d: Messages.Delivery, c: Copy, c': Copy, r: int, m: int, r': int, n: int, k: int)
    requires RetriedTo(codec, max, s0, xs, s, f, d, c, r, m) && RetriedTo(codec, max, s, ys, s', f, d, c', r', n)
    requires k == m + n
    ensures RetriedTo(codec, max, s0, xs + ys, s', f, d, c', r', k)
  {
    Joined(codec, max, s0, xs, s, ys, s');
    TriesJoin(xs, ys, f, m, n);
  }

  /** How many deliveries take the count from `first` to `r`. */
  function Tried(first: int, r: int): int {
    r - first
  }

  /** Copies of `d` can be handled once for each count from `first` on, until one is ready with count `r`. */
  ghost predicate CanRetryTo(codec: Codec, max: int, s0: System, f: Flow, d: Messages.Delivery, first: int, r: int) {
    exists es, s, c :: RetriedTo(codec, max, s0, es, s, f, d, c, r, Tried(first, r))
  }

  lemma OneFurther(codec: Codec, max: int, s0: System, f: Flow, d: Messages.Delivery, first: int, r: int, r': int)
    requires Decodes(codec, f, d) && CanRetryTo(codec, max, s0, f, d, first, r)
    requires 0 <= r < MAX_INT32 && r < max && r' == r + 1
    ensures CanRetryTo(codec, max, s0, f, d, first, r')
  {
    var xs, s, c :| RetriedTo(codec, max, s0, xs, s, f, d, c, r, Tried(first, r));
    var ys, s', c' := RetryFurther(codec, max, s, f, d, c, r, r');
    RetriedFurther(codec, max, s0, xs, s, ys, s', f, d, c, c', r, Tried(first, r), r', 1, Tried(first, r'));
  }

  lemma {:induction false} StepByStep(p: int -> bool, r: int, top: int)
    requires r <= top && p(r) && forall i, j | r <= i < top && j == i + 1 && p(i) :: p(j)
    ensures p(top)
    decreases top - r
  {
    if r != top { StepByStep(p, r + 1, top); }
  }

  lemma RetryUpTo(codec: Codec, max: int, s0: System, f: Flow, d: Messages.Delivery, first: int, r: int, top: int)
    requires Decodes(codec, f, d) && CanRetryTo(codec, max, s0, f, d, first, r)
    requires 0 <= r <= top <= MAX_INT32 && top <= max
    ensures CanRetryTo(codec, max, s0, f, d, first, top)
  {
    var p: int -> bool := i => CanRetryTo(codec, max, s0, f, d, first, i);
    forall i, j | r <= i < top && j == i + 1 && p(i) ensures p(j) {
      OneFurther(codec, max, s0, f, d, first, i, j);
    }
    StepByStep(p, r, top);
  }

  // ---------------------------------------------------------------------------
  // The first and the last delivery
  // ---------------------------------------------------------------------------

  /** One of the dead letters is a copy of `d`, and decodes to that request with count `r`. */
  ghost predicate DeadWith(codec: Codec, s: System, f: Flow, d: Messages.Delivery, c: Copy, r: int) {
    c in QueuesOf(s, f).dead && Counts(codec, f, Copy(0, d), c, r)
  }

  /**
   * The run sends `d` as number 0 and leaves it among the dead letters with count `r`, having handled it `n` times,
   * without help or trouble but that nothing can be published.
   */
  ghost predicate DiesAfter(codec: Codec, max: int, seed: seq<Ledger.Seed>, es: seq<Event>,
                            f: Flow, d: Messages.Delivery, c: Copy, r: int, n: int)
    requires Ledger.Seeded(seed).Ok?
  {
    var s0 := Start(Ledger.Opened(seed));
    && Valid(codec, max, s0, es) && Tries(es, f, n)
    && (f, 0) in Reach(codec, max, s0, es).sent && Reach(codec, max, s0, es).sent[(f, 0)] == d
    && DeadWith(codec, Reach(codec, max, s0, es), f, d, c, r)
  }

  lemma BuriedCounts(codec: Codec, s: System, f: Flow, d: Messages.Delivery, c: Copy, r: int)
    requires Decodes(codec, f, d) && Buried(codec, s, f, d, c, r) && 0 <= r
    ensures DeadWith(codec, s, f, d, c, r)
  {
    DecodesHasCount(codec, f, d);
    SameContractSaysTheSame(codec, c.d, d);
  }

  /** At the maximum, a round ends among the dead letters. */
  lemma TopRoundBuries(codec: Codec, max: int, s: System, f: Flow, d: Messages.Delivery, c: Copy, r: int)
    returns (s': System, c': Copy)
    requires Decodes(codec, f, d) && Climbing(codec, s, f, d, c, r) && 0 <= r <= MAX_INT32 && max <= r
    ensures RunsTo(codec, max, s, Round(f, c, Accepted), s') && Buried(codec, s', f, d, c', r)
  {
    ClimbingIsAnswered(codec, s, f, d, c, r);
    RetryOrDead(max, r);
    RoundPart(codec, max, s, f, c, Accepted);
    var q := QueuesOf(s, f);
    ForwardedArrives(codec, max, q.(ready := q.ready - multiset{c}), c);
    ForwardedIsCopy(c, d, r, r);
    s', c' := RoundSystem(codec, max, s, f, c, Accepted), Forwarded(c, r);
  }

  lemma FirstCountBelow(max: int, r: int)
    requires 0 <= r < MAX_INT32 && r < max
    ensures RetryOrDeadLetter(max, r).ToRetry? && FirstCount(max, r) == r + 1
  {
    NextIsRetry(max, r);
  }

  /** Below the maximum, the first delivery is retried. */
  lemma FirstParks(codec: Codec, max: int, seed: seq<Ledger.Seed>, f: Flow, d: Messages.Delivery, r: int, r': int)
    returns (s: System, c: Copy)
    requires Ledger.Seeded(seed).Ok? && Decodes(codec, f, d)
    requires DecodeMetadata(codec, d.headers).Ok? && CountOf(codec, d) == r && 0 <= r < MAX_INT32 && r < max && r' == r + 1
    ensures RunsTo(codec, max, Start(Ledger.Opened(seed)), Attempt(f, Copy(0, d), Accepted), s)
    ensures Parked(codec, s, f, d, c, r')
  {
    FirstCountBelow(max, r);
    s, c := FirstForward(codec, max, seed, f, d);
  }

  lemma FirstRetry(codec: Codec, max: int, seed: seq<Ledger.Seed>, f: Flow, d: Messages.Delivery, r: int, r': int, n: int)
    returns (es: seq<Event>, s: System, c: Copy)
    requires Ledger.Seeded(seed).Ok? && Decodes(codec, f, d) && n == 1
    requires DecodeMetadata(codec, d.headers).Ok? && CountOf(codec, d) == r && 0 <= r < MAX_INT32 && r < max && r' == r + 1
    ensures RetriedTo(codec, max, Start(Ledger.Opened(seed)), es, s, f, d, c, r', n)
  {
    var t, x := FirstParks(codec, max, seed, f, d, r, r');
    es, s, c := FirstUnparks(codec, max, Start(Ledger.Opened(seed)), f, d, t, x, r', n);
  }

  lemma FirstUnparks(codec: Codec, max: int, s0: System, f: Flow, d: Messages.Delivery, t: System, x: Copy, r: int, n: int)
    returns (es: seq<Event>, s: System, c: Copy)
    requires RunsTo(codec, max, s0, Attempt(f, Copy(0, d), Accepted), t) && Parked(codec, t, f, d, x, r) && n == 1
    ensures RetriedTo(codec, max, s0, es, s, f, d, c, r, n)
  {
    var xs := Attempt(f, Copy(0, d), Accepted);
    s, c := Unpark(codec, max, t, f, d, x, r);
    Joined(codec, max, s0, xs, t, [Expire(f, x, map[])], s);
    AttemptTries(f, Copy(0, d), x);
    es := xs + [Expire(f, x, map[])];
  }

  lemma AttemptTries(f: Flow, c: Copy, x: Copy)
    requires c.origin == 0
    ensures Tries(Attempt(f, c, Accepted) + [Expire(f, x, map[])], f, 1)
  {
    RoundTries(f, c);
    ExpiryTries(f, x);
    TriesJoin(Attempt(f, c, Accepted), [Expire(f, x, map[])], f, 1, 0);
  }

  /** A copy at the maximum is handled once more. */
  lemma LastRetry(codec: Codec, max: int, seed: seq<Ledger.Seed>, f: Flow, d: Messages.Delivery,
                  xs: seq<Event>, s: System, x: Copy, n: int, k: int)
    returns (es: seq<Event>, c: Copy)
    requires Ledger.Seeded(seed).Ok? && Decodes(codec, f, d) && 0 <= max <= MAX_INT32
    requires RetriedTo(codec, max, Start(Ledger.Opened(seed)), xs, s, f, d, x, max, n) && k == n + 1
    ensures DiesAfter(codec, max, seed, es, f, d, c, max, k)
  {
    var s0 := Start(Ledger.Opened(seed));
    var t;
    t, c := TopRoundBuries(codec, max, s, f, d, x, max);
    es := xs + Round(f, x, Accepted);
    Joined(codec, max, s0, xs, s, Round(f, x, Accepted), t);
    RoundTries(f, x);
    TriesJoin(xs, Round(f, x, Accepted), f, n, 1);
    BuriedCounts(codec, t, f, d, c, max);
  }

  /** A request sent with a count at the maximum or above it is never retried. */
  lemma NoRetry(codec: Codec, max: int, seed: seq<Ledger.Seed>, f: Flow, d: Messages.Delivery, r: int, n: int)
    returns (es: seq<Event>, c: Copy)
    requires Ledger.Seeded(seed).Ok? && Decodes(codec, f, d) && n == 1
    requires DecodeMetadata(codec, d.headers).Ok? && CountOf(codec, d) == r && 0 <= r <= MAX_INT32 && max <= r
    ensures DiesAfter(codec, max, seed, es, f, d, c, r, n)
  {
    RetryOrDead(max, r);
    var s;
    s, c := FirstForward(codec, max, seed, f, d);
    es := Attempt(f, Copy(0, d), Accepted);
    RoundTries(f, Copy(0, d));
    BuriedCounts(codec, s, f, d, c, r);
  }

  ghost predicate CanDieAfter(codec: Codec, max: int, seed: seq<Ledger.Seed>, f: Flow, d: Messages.Delivery, r: int, n: int)
    requires Ledger.Seeded(seed).Ok?
  {
    exists es, c :: DiesAfter(codec, max, seed, es, f, d, c, r, n)
  }

  lemma CanRetryOnce(codec: Codec, max: int, seed: seq<Ledger.Seed>, f: Flow, d: Messages.Delivery, r: int, r': int)
    requires Ledger.Seeded(seed).Ok? && Decodes(codec, f, d)
    requires DecodeMetadata(codec, d.headers).Ok? && CountOf(codec, d) == r && 0 <= r < MAX_INT32 && r < max && r' == r + 1
    ensures CanRetryTo(codec, max, Start(Ledger.Opened(seed)), f, d, r, r')
  {
    var xs, s, x := FirstRetry(codec, max, seed, f, d, r, r', Tried(r, r'));
  }

  lemma DiesAtMaximum(codec: Codec, max: int, seed: seq<Ledger.Seed>, f: Flow, d: Messages.Delivery, r: int, n: int)
    requires Ledger.Seeded(seed).Ok? && Decodes(codec, f, d) && 0 <= max <= MAX_INT32
    requires CanRetryTo(codec, max, Start(Ledger.Opened(seed)), f, d, r, max) && n == Tried(r, max) + 1
    ensures CanDieAfter(codec, max, seed, f, d, max, n)
  {
    var xs, s, x :| RetriedTo(codec, max, Start(Ledger.Opened(seed)), xs, s, f, d, x, max, Tried(r, max));
    var es, c := LastRetry(codec, max, seed, f, d, xs, s, x, Tried(r, max), n);
  }

  lemma DiesRetried(codec: Codec, max: int, seed: seq<Ledger.Seed>, f: Flow, d: Messages.Delivery, r: int, r': int, n: int)
    requires Ledger.Seeded(seed).Ok? && Decodes(codec, f, d) && 0 <= r < r' <= max <= MAX_INT32 && r' == r + 1
    requires DecodeMetadata(codec, d.headers).Ok? && CountOf(codec, d) == r && n == Tried(r, max) + 1
    ensures CanDieAfter(codec, max, seed, f, d, max, n)
  {
    CanRetryOnce(codec, max, seed, f, d, r, r');
    RetryUpTo(codec, max, Start(Ledger.Opened(seed)), f, d, r, r', max);
    DiesAtMaximum(codec, max, seed, f, d, r, n);
  }

  lemma DiesAtOnce(codec: Codec, max: int, seed: seq<Ledger.Seed>, f: Flow, d: Messages.Delivery, r: int, n: int)
    requires Ledger.Seeded(seed).Ok? && Decodes(codec, f, d) && n == 1
    requires DecodeMetadata(codec, d.headers).Ok? && CountOf(codec, d) == r && 0 <= r <= MAX_INT32 && max <= r
    ensures CanDieAfter(codec, max, seed, f, d, r, n)
  {
    var es, c := NoRetry(codec, max, seed, f, d, r, n);
  }

  /**
   * Every retry can be used up: for any request of either flow, some undisturbed run handles it exactly as often as the
   * bound allows, once for each count from its own up to the maximum, and then leaves it among the dead letters, where
   * it still decodes, with the last of these counts.
   */
  lemma EveryRetryIsUsed(codec: Codec, max: int, seed: seq<Ledger.Seed>, f: Flow, d: Messages.Delivery)
    requires Ledger.Seeded(seed).Ok? && Decodes(codec, f, d) && max <= MAX_INT32
    ensures DecodeMetadata(codec, d.headers).Ok?
    ensures
      var r := CountOf(codec, d);
      && (r < max ==> CanDieAfter(codec, max, seed, f, d, max, max - r + 1))
      && (max <= r <= MAX_INT32 ==> CanDieAfter(codec, max, seed, f, d, r, 1))
  {
    DecodesHasCount(codec, f, d);
    CountIsNatural(codec, d);
    var r := CountOf(codec, d);
    if r < max {
      DiesRetried(codec, max, seed, f, d, r, r + 1, max - r + 1);
    } else if r <= MAX_INT32 {
      DiesAtOnce(codec, max, seed, f, d, r, 1);
    }
  }
}
