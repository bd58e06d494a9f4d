/** The operator's bounded requeueing of dead letters. */
module DeadLetterAdmin {
  import opened Prelude
  import opened Messages
  import opened Outcomes
  import opened Delivery

  const MAX_REQUEUE_LIMIT := 100

  datatype AdminQueue = ReservationRequests | ReservationReleaseRequests | UnknownQueue(name: string)

  datatype AdminError = InvalidDeadLetterQueue | InvalidRequeueLimit | ContextDone | GetFailed | RequeueFailed | AckFailed

  /** What goes wrong in one round of the loop. */
  datatype Round = Round(contextDone: bool, getFails: bool, fate: Fate, nackFails: bool, ackFails: bool)

  predicate Smooth(r: Round) {
    !r.contextDone && !r.getFails && Reported(r.fate) && !r.ackFails
  }

  function DeadLetterFlow(q: AdminQueue): Option<Flow> {
    match q
    case ReservationRequests => Some(Reservations)
    case ReservationReleaseRequests => Some(Releases)
    case UnknownQueue(_) => None
  }

  function Reset(d: Messages.Delivery): Messages.Delivery {
    Delivered(Forward(d, 0), map[])
  }

  function ResetAll(ds: seq<Messages.Delivery>): seq<Messages.Delivery> {
    seq(|ds|, i requires 0 <= i < |ds| => Reset(ds[i]))
  }

  /** What reaches the main queue when round `i` republishes message `i`. */
  function Arrived(ds: seq<Messages.Delivery>, rounds: nat -> Round): seq<Messages.Delivery> {
    if ds == [] then []
    else
      var n := |ds| - 1;
      Arrived(ds[..n], rounds) + if Landed(rounds(n).fate) then [Reset(ds[n])] else []
  }

  /** All messages arrive, in order, if and only if none of their rounds loses one. */
  lemma {:induction false} ArrivedAll(ds: seq<Messages.Delivery>, rounds: nat -> Round)
    ensures |Arrived(ds, rounds)| <= |ds|
    ensures |Arrived(ds, rounds)| == |ds| <==> forall i | 0 <= i < |ds| :: Landed(rounds(i).fate)
    ensures |Arrived(ds, rounds)| == |ds| ==> Arrived(ds, rounds) == ResetAll(ds)
  {
    if ds != [] {
      var n := |ds| - 1;
      ArrivedAll(ds[..n], rounds);
      assert ResetAll(ds) == ResetAll(ds[..n]) + [Reset(ds[n])];
    }
  }

  lemma ArrivedMore(ds: seq<Messages.Delivery>, rounds: nat -> Round, n: nat)
    requires n < |ds|
    ensures Arrived(ds[..n + 1], rounds) == Arrived(ds[..n], rounds) + if Landed(rounds(n).fate) then [Reset(ds[n])] else []
    ensures ds[n..] == [ds[n]] + ds[n + 1..]
  {
    assert ds[..n + 1][..n] == ds[..n];
  }

  /** How a round goes wrong, if there is a message to fetch or not. */
  function Failure(r: Round, more: bool): Option<AdminError> {
    if r.contextDone then Some(ContextDone)
    else if r.getFails then Some(GetFailed)
    else if !more then None
    else if r.fate == Lost || r.fate == LandedUnconfirmed then Some(RequeueFailed)
    else if r.ackFails then Some(AckFailed)
    else None
  }

  /**
   * What a drain that counted `count` messages has done to a flow whose queues were `was`: it went on until the limit, the
   * end of the queue or the first failure.
   */
  predicate Drained(was: FlowState, now: FlowState, limit: int, rounds: nat -> Round, count: nat, err: Option<AdminError>) {
    && count <= limit && count <= |was.dead|
    && (forall i | 0 <= i < count :: Failure(rounds(i), true).None?)
    && err == (if count == limit then None else Failure(rounds(count), count < |was.dead|))
    && (err.None? ==> count == if limit < |was.dead| then limit else |was.dead|)
    && (if err == Some(RequeueFailed) || err == Some(AckFailed) then count < |was.dead| && Stuck(was, now, rounds, count)
        else Clean(was, now, rounds, count))
  }

  /** The counted messages have moved, and nothing else. */
  predicate Clean(was: FlowState, now: FlowState, rounds: nat -> Round, count: nat)
    requires count <= |was.dead|
  {
    now == FlowState(was.main + Arrived(was.dead[..count], rounds), was.dead[count..], was.held)
  }

  /** The message after the counted ones was fetched, and the drain stopped there; it is dead again only if it was given back. */
  predicate Stuck(was: FlowState, now: FlowState, rounds: nat -> Round, count: nat)
    requires count < |was.dead|
  {
    var d := was.dead[count];
    var moved := was.main + Arrived(was.dead[..count], rounds);
    && now.main == (if Landed(rounds(count).fate) then moved + [Reset(d)] else moved)
    && (if Reported(rounds(count).fate) || rounds(count).nackFails
        then now.dead == was.dead[count + 1..] && now.held == was.held + [d]
        else now.dead == was.dead[count..] && now.held == was.held)
  }

  /** Main and dead-letter queue of one flow, and the dead letters fetched but not settled. */
  datatype FlowState = FlowState(main: seq<Messages.Delivery>, dead: seq<Messages.Delivery>, held: seq<Messages.Delivery>)

  /** What one round does to the queues. */
  predicate Moved(was: FlowState, now: FlowState, r: Round, err: Option<AdminError>)
    requires was.dead != []
  {
    && err == (if !Reported(r.fate) then Some(RequeueFailed) else if r.ackFails then Some(AckFailed) else None)
    && now.main == (if Landed(r.fate) then was.main + [Reset(was.dead[0])] else was.main)
    && now.dead == (if !Reported(r.fate) && !r.nackFails then was.dead else was.dead[1..])
    && now.held == (if err.Some? && (Reported(r.fate) || r.nackFails) then was.held + [was.dead[0]] else was.held)
  }

  lemma MovedOn(was: FlowState, mid: FlowState, now: FlowState, rounds: nat -> Round, n: nat, err: Option<AdminError>)
    requires n < |was.dead| && Clean(was, mid, rounds, n) && Moved(mid, now, rounds(n), err)
    ensures if err.Some? then Stuck(was, now, rounds, n) else Clean(was, now, rounds, n + 1)
  {
    ArrivedMore(was.dead, rounds, n);
  }

  class FlowQueues {
    var main: seq<Messages.Delivery>
    var dead: seq<Messages.Delivery>
    var held: seq<Messages.Delivery>

    ghost function View(): FlowState
      reads this
    {
      FlowState(main, dead, held)
    }

    constructor (main: seq<Messages.Delivery>, dead: seq<Messages.Delivery>)
      ensures View() == FlowState(main, dead, [])
    {
      this.main, this.dead, this.held := main, dead, [];
    }

    /** Take the first dead letter; it stays unsettled until acknowledged or given back. */
    method Get() returns (d: Messages.Delivery)
      requires dead != []
      modifies this
      ensures d == old(dead)[0] && dead == old(dead)[1..] && held == old(held) + [d] && main == old(main)
    {
      d := dead[0];
      held, dead := held + [d], dead[1..];
    }

    /** One attempt to republish the dead letter just taken and to settle it. */
    method Move(d: Messages.Delivery, round: Round) returns (err: Option<AdminError>)
      requires held != [] && held[|held| - 1] == d
      modifies this
      ensures main == if Landed(round.fate) then old(main) + [Reset(d)] else old(main)
      ensures err == (if !Reported(round.fate) then Some(RequeueFailed) else if round.ackFails then Some(AckFailed) else None)
      ensures err.None? ==> held == old(held)[..|old(held)| - 1] && dead == old(dead)
      ensures err.Some? ==>
                if !Reported(round.fate) && !round.nackFails
                then held == old(held)[..|old(held)| - 1] && dead == [d] + old(dead)
                else held == old(held) && dead == old(dead)
    {
      if Landed(round.fate) { main := main + [Reset(d)]; }
      if !Reported(round.fate) {
        if !round.nackFails { held, dead := held[..|held| - 1], [d] + dead; }
        return Some(RequeueFailed);
      }
      if round.ackFails { return Some(AckFailed); }
      held := held[..|held| - 1];
      return None;
    }

    /** One round of the loop: take the first dead letter and move it. */
    method Requeue(round: Round) returns (err: Option<AdminError>)
      requires dead != []
      modifies this
      ensures Moved(old(View()), View(), round, err)
    {
      var d := Get();
      err := Move(d, round);
    }

    method Drain(limit: int, rounds: nat -> Round) returns (count: nat, err: Option<AdminError>)
      requires 1 <= limit
      modifies this
      ensures Drained(old(View()), View(), limit, rounds, count, err)
      ensures (forall i :: Smooth(rounds(i))) ==> err.None?
    {
      count := 0;
      ghost var was := View();
      while count < limit
        invariant count <= limit && count <= |was.dead|
        invariant Clean(was, View(), rounds, count)
        invariant forall i | 0 <= i < count :: Failure(rounds(i), true).None?
        decreases limit - count
      {
        var round := rounds(count);
        if round.contextDone { return count, Some(ContextDone); }
        if round.getFails { return count, Some(GetFailed); }
        if dead == [] { return count, None; }
        ghost var before := View();
        var failed := Requeue(round);
        MovedOn(was, before, View(), rounds, count, failed);
        if failed.Some? { return count, failed; }
        count := count + 1;
      }
      return count, None;
    }
  }

  class Admin {
    const reservations: FlowQueues
    const releases: FlowQueues

    constructor (reservations: FlowQueues, releases: FlowQueues)
      requires reservations != releases
      ensures this.reservations == reservations && this.releases == releases
    {
      this.reservations, this.releases := reservations, releases;
    }

    /**
     * However it ends, the count is the number of messages gone from the dead-letter queue; those that landed are now
     * in the main queue with retry count 0, in order; the next one, if it was touched at all, is still dead or held,
     * and perhaps in the main queue as well. Without an error the first `limit` messages have moved, or all there were.
     */
    method RequeueDeadLetters(queue: AdminQueue, limit: int, rounds: nat -> Round)
      returns (count: nat, err: Option<AdminError>)
      requires reservations != releases
      modifies reservations, releases
      ensures queue.UnknownQueue? ==> err == Some(InvalidDeadLetterQueue)
      ensures !queue.UnknownQueue? && !(1 <= limit <= 100) ==> err == Some(InvalidRequeueLimit)
      ensures queue.UnknownQueue? || !(1 <= limit <= 100) ==>
                count == 0 && unchanged(reservations) && unchanged(releases)
      ensures !queue.UnknownQueue? && 1 <= limit <= 100 ==>
                && ((forall i :: Smooth(rounds(i))) ==> err.None?)
                && (if queue.ReservationRequests?
                    then Drained(old(reservations.View()), reservations.View(), limit, rounds, count, err) && unchanged(releases)
                    else Drained(old(releases.View()), releases.View(), limit, rounds, count, err) && unchanged(reservations))
    {
      if DeadLetterFlow(queue).None? { return 0, Some(InvalidDeadLetterQueue); }
      if limit <= 0 || limit > MAX_REQUEUE_LIMIT { return 0, Some(InvalidRequeueLimit); }
      if DeadLetterFlow(queue).value == Reservations {
        count, err := reservations.Drain(limit, rounds);
      } else {
        count, err := releases.Drain(limit, rounds);
      }
    }
  }

  // ---------------------------------------------------------------------------
  // What a drain can and cannot do
  // ---------------------------------------------------------------------------

  /** No counted round reported success for a message the broker refused. */
  predicate NoMisreport(rounds: nat -> Round, count: nat) {
    forall i | 0 <= i < count :: rounds(i).fate != Misreported
  }

  /**
   * Without a misreported publish each message that was dead is afterwards dead, held, or in the main queue with its
   * retry count reset, the counted ones in order behind what was there.
   */
  lemma DrainLosesNothing(was: FlowState, now: FlowState, limit: int, rounds: nat -> Round, count: nat, err: Option<AdminError>, i: nat)
    requires Drained(was, now, limit, rounds, count, err) && NoMisreport(rounds, count) && i < |was.dead|
    ensures was.dead[i] in now.dead || was.dead[i] in now.held || Reset(was.dead[i]) in now.main
    ensures i < count ==> |was.main| + i < |now.main| && now.main[|was.main| + i] == Reset(was.dead[i])
    ensures was.main <= now.main
  {
    ArrivedAll(was.dead[..count], rounds);
    var moved := was.main + ResetAll(was.dead[..count]);
    if i < count {
      assert moved[|was.main| + i] == Reset(was.dead[i]);
      assert now.main[|was.main| + i] == moved[|was.main| + i];
    } else if now.dead == was.dead[count..] {
      assert was.dead[i] == now.dead[i - count];
    } else if i == count {
      assert now.held[|was.held|] == was.dead[count];
    } else {
      assert was.dead[i] == now.dead[i - count - 1];
    }
  }

  /**
   * The count is exactly the number of messages settled off the dead-letter queue; a drain that ends without an error
   * keeps the number of messages if and only if none of its publishes was misreported, and loses some otherwise.
   */
  lemma CountIsAcked(was: FlowState, now: FlowState, limit: int, rounds: nat -> Round, count: nat, err: Option<AdminError>)
    requires Drained(was, now, limit, rounds, count, err)
    ensures count == |was.dead| - |now.dead| - (|now.held| - |was.held|)
    ensures err.None? ==> |now.main| + |now.dead| <= |was.main| + |was.dead|
    ensures err.None? ==> (|now.main| + |now.dead| == |was.main| + |was.dead| <==> NoMisreport(rounds, count))
  {
    ArrivedAll(was.dead[..count], rounds);
    assert NoMisreport(rounds, count) <==> forall i | 0 <= i < count :: Landed(rounds(i).fate);
  }

  /** A requeued message decodes as before, with retry count zero: it gets the full number of retries again. */
  lemma ResetDecodes(codec: Codec, d: Messages.Delivery)
    ensures DecodeReservation(codec, d).Ok? ==>
              var req := DecodeReservation(codec, d).value;
              DecodeReservation(codec, Reset(d)) == Ok(req.(metadata := req.metadata.(retryCount := 0)))
    ensures DecodeRelease(codec, d).Ok? ==>
              var req := DecodeRelease(codec, d).value;
              DecodeRelease(codec, Reset(d)) == Ok(req.(metadata := req.metadata.(retryCount := 0)))
  {
    if DecodeReservation(codec, d).Ok? { ForwardRoundTrip(codec, d, 0, map[]); }
    if DecodeRelease(codec, d).Ok? { ForwardReleaseRoundTrip(codec, d, 0, map[]); }
  }
}
