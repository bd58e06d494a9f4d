/** What the idempotency store guarantees over every interleaving of any number of callers. */
module SingleFlightRuns {
  import opened Prelude
  import opened SingleFlight

  predicate ValidRun<V>(s: Store<V>, acts: seq<Action<V>>)
    decreases |acts|
  {
    acts == [] || (Enabled(s, acts[0]) && ValidRun(Next(s, acts[0]), acts[1..]))
  }

  function Exec<V>(s: Store<V>, acts: seq<Action<V>>): Store<V>
    requires ValidRun(s, acts)
    decreases |acts|
  {
    if acts == [] then s else Exec(Next(s, acts[0]), acts[1..])
  }

  lemma EmptyInv<V>()
    ensures Inv(EmptyStore<V>())
  {
  }

  lemma {:induction false} RunKeepsInv<V>(s: Store<V>, acts: seq<Action<V>>)
    requires Inv(s) && ValidRun(s, acts)
    ensures Inv(Exec(s, acts))
    decreases |acts|
  {
    if acts != [] {
      NextKeepsInv(s, acts[0]);
      RunKeepsInv(Next(s, acts[0]), acts[1..]);
    }
  }

  // ---------------------------------------------------------------------------
  // Single flight
  // ---------------------------------------------------------------------------

  predicate Runs<V>(s: Store<V>, t: CallerId) {
    t in s.callers && s.callers[t].pc.Running?
  }

  /** `t` came back without an error. */
  predicate Succeeded<V>(s: Store<V>, t: CallerId) {
    t in s.callers && s.callers[t].pc.Done? && s.callers[t].pc.ret.err.None?
  }

  /** `t` came back with the result of its own operation. */
  predicate Missed<V>(s: Store<V>, t: CallerId) {
    Succeeded(s, t) && !s.callers[t].pc.ret.hit
  }

  /**
   * In every reachable state at most one operation runs per key, all successful returns for a key carry the cached
   * value, at most one of them reports a miss, and once the mutex is free exactly one does for every cached key.
   */
  lemma SingleFlightTheorem<V>(acts: seq<Action<V>>)
    requires ValidRun(EmptyStore<V>(), acts)
    ensures
      var s := Exec(EmptyStore<V>(), acts);
      && (forall t, u | Runs(s, t) && Runs(s, u) && KeyOf(s, t) == KeyOf(s, u) :: t == u)
      && (forall t | Succeeded(s, t) ::
            KeyOf(s, t) in s.entries && s.callers[t].pc.ret.value == Some(s.entries[KeyOf(s, t)]))
      && (forall t, u | Missed(s, t) && Missed(s, u) && KeyOf(s, t) == KeyOf(s, u) :: t == u)
      && (s.lock.None? ==> forall k | k in s.entries :: exists t :: Missed(s, t) && KeyOf(s, t) == k)
  {
    EmptyInv<V>();
    RunKeepsInv(EmptyStore<V>(), acts);
    var s := Exec(EmptyStore<V>(), acts);
    forall t, u | Runs(s, t) && Runs(s, u) && KeyOf(s, t) == KeyOf(s, u) ensures t == u {
      OneFlightPerKey(s, t, u);
    }
    forall t | Succeeded(s, t)
      ensures KeyOf(s, t) in s.entries && s.callers[t].pc.ret.value == Some(s.entries[KeyOf(s, t)])
    {
      assert CallerOk(s, t);
    }
    forall t, u | Missed(s, t) && Missed(s, u) && KeyOf(s, t) == KeyOf(s, u) ensures t == u {
      assert WinnerOf(s, t, KeyOf(s, t)) && WinnerOf(s, u, KeyOf(s, t));
    }
    if s.lock.None? {
      forall k | k in s.entries ensures exists t :: Missed(s, t) && KeyOf(s, t) == k {
        assert HasWinner(s, k);
        var t :| WinnerOf(s, t, k);
        assert CallerOk(s, t);
        assert Missed(s, t);
      }
    }
  }

  /** The simple cache behind the protocol: it may only gain an entry for a key it does not have. */
  ghost predicate CacheStep<V>(m: map<string, V>, m': map<string, V>) {
    m' == m || exists k :: k !in m && k in m' && m' == m[k := m'[k]]
  }

  /** Each step is a step of that cache or no step at all, and a caller that comes back well has read it. */
  lemma RefinesCache<V>(s: Store<V>, a: Action<V>)
    requires Inv(s) && Enabled(s, a)
    ensures CacheStep(s.entries, Next(s, a).entries)
    ensures forall t | Succeeded(Next(s, a), t) && !Succeeded(s, t) ::
              KeyOf(Next(s, a), t) in s.entries && Next(s, a).callers[t].pc.ret.value == Some(s.entries[KeyOf(Next(s, a), t)])
  {
    NextKeepsInv(s, a);
    var s' := Next(s, a);
    if a.t in s.callers { assert CallerOk(s, a.t); }
    forall t | Succeeded(s', t) && !Succeeded(s, t)
      ensures KeyOf(s', t) in s.entries && s'.callers[t].pc.ret.value == Some(s.entries[KeyOf(s', t)])
    {
      assert CallerOk(s', t);
      assert s'.entries == s.entries;
    }
  }

  /** Entries are written once: no run ever changes or removes one. */
  lemma {:induction false} EntriesAreWrittenOnce<V>(s: Store<V>, acts: seq<Action<V>>)
    requires Inv(s) && ValidRun(s, acts)
    ensures forall k | k in s.entries :: k in Exec(s, acts).entries && Exec(s, acts).entries[k] == s.entries[k]
    decreases |acts|
  {
    if acts != [] {
      RefinesCache(s, acts[0]);
      NextKeepsInv(s, acts[0]);
      EntriesAreWrittenOnce(Next(s, acts[0]), acts[1..]);
    }
  }

  // ---------------------------------------------------------------------------
  // No lost wake-up
  // ---------------------------------------------------------------------------

  predicate Owns<V>(s: Store<V>, t: CallerId, c: CallId) {
    && t in s.callers
    && var pc := s.callers[t].pc;
       (pc.Registered? || pc.Running? || pc.WantCommit? || pc.Commit? || pc.Stored? || pc.Filled?) && pc.call == c
  }

  predicate Finishing<V>(s: Store<V>, t: CallerId) {
    t in s.callers && (s.callers[t].pc.Running? || s.callers[t].pc.WantCommit?)
  }

  /**
   * In every reachable state a waiter's call is closed with its result or has exactly one owner that still will
   * close it; with the mutex free, no key is both cached and in flight, and nothing is in flight unless some
   * operation is running or about to commit.
   */
  lemma NoLostWakeUp<V>(acts: seq<Action<V>>)
    requires ValidRun(EmptyStore<V>(), acts)
    ensures
      var s := Exec(EmptyStore<V>(), acts);
      && (forall t | t in s.callers && s.callers[t].pc.Waiting? ::
            var c := s.callers[t].pc.call;
            && c in s.calls
            && (|| (s.calls[c].done && s.calls[c].outcome.Some?)
                || (Owns(s, s.calls[c].owner, c) && forall u | Owns(s, u, c) :: u == s.calls[c].owner)))
      && (s.lock.None? ==> s.entries.Keys !! s.inFlight.Keys)
      && (s.lock.None? && (forall t :: !Finishing(s, t)) ==> s.inFlight == map[])
  {
    EmptyInv<V>();
    RunKeepsInv(EmptyStore<V>(), acts);
    var s := Exec(EmptyStore<V>(), acts);
    forall t | t in s.callers && s.callers[t].pc.Waiting?
      ensures
        var c := s.callers[t].pc.call;
        && c in s.calls
        && (|| (s.calls[c].done && s.calls[c].outcome.Some?)
            || (Owns(s, s.calls[c].owner, c) && forall u | Owns(s, u, c) :: u == s.calls[c].owner))
    {
      assert CallerOk(s, t);
      var c := s.callers[t].pc.call;
      assert CallOk(s, c);
      forall u | Owns(s, u, c) ensures u == s.calls[c].owner { assert CallerOk(s, u); }
    }
    if s.lock.None? {
      forall k | k in s.inFlight
        ensures s.inFlight[k] in s.calls && k !in s.entries && Finishing(s, s.calls[s.inFlight[k]].owner)
      {
        assert FlightOk(s, k);
        assert CallerOk(s, s.calls[s.inFlight[k]].owner);
      }
    }
  }

  // ---------------------------------------------------------------------------
  // Progress
  // ---------------------------------------------------------------------------

  /** How many steps a caller has left at most. */
  function Rank<V>(pc: Pc<V>): nat {
    match pc
    case Start => 11
    case WantLookup => 10
    case Lookup => 9
    case Hit(_) => 1
    case Join(_) => 2
    case Waiting(_) => 1
    case Registered(_) => 8
    case Running(_) => 7
    case WantCommit(_, _) => 6
    case Commit(_, _) => 5
    case Stored(_, _) => 4
    case Filled(_, _) => 3
    case Closed(_, _) => 2
    case Deleted(_, _) => 1
    case Done(_) => 0
  }

  ghost function Work<V>(callers: map<CallerId, Caller<V>>): nat {
    if callers == map[] then 0
    else
      var t :| t in callers;
      Rank(callers[t].pc) + Work(callers - {t})
  }

  lemma {:induction false} WorkSplit<V>(callers: map<CallerId, Caller<V>>, t: CallerId)
    requires t in callers
    ensures Work(callers) == Rank(callers[t].pc) + Work(callers - {t})
    decreases |callers|
  {
    var first :| first in callers && Work(callers) == Rank(callers[first].pc) + Work(callers - {first});
    if first != t {
      WorkSplit(callers - {first}, t);
      WorkSplit(callers - {t}, first);
      assert callers - {first} - {t} == callers - {t} - {first};
    }
  }

  lemma WorkReplace<V>(callers: map<CallerId, Caller<V>>, t: CallerId, caller: Caller<V>)
    requires t in callers
    ensures Work(callers[t := caller]) == Work(callers) - Rank(callers[t].pc) + Rank(caller.pc)
  {
    WorkSplit(callers, t);
    WorkSplit(callers[t := caller], t);
    assert callers[t := caller] - {t} == callers - {t};
  }

  lemma OneCallerMoves<V>(s: Store<V>, a: Action<V>)
    requires Enabled(s, a) && !a.Arrive?
    ensures a.t in Next(s, a).callers && Next(s, a).callers == s.callers[a.t := Next(s, a).callers[a.t]]
  {
  }

  lemma RankDrops<V>(s: Store<V>, a: Action<V>)
    requires Enabled(s, a) && !a.Arrive?
    ensures a.t in Next(s, a).callers && Rank(Next(s, a).callers[a.t].pc) < Rank(s.callers[a.t].pc)
  {
    if IsArrival(a) || IsLookup(a) || a.Register? { LookupRankDrops(s, a); } else { CommitRankDrops(s, a); }
  }

  lemma LookupRankDrops<V>(s: Store<V>, a: Action<V>)
    requires Enabled(s, a) && (IsArrival(a) || IsLookup(a) || a.Register?)
    ensures a.t in Next(s, a).callers && Rank(Next(s, a).callers[a.t].pc) < Rank(s.callers[a.t].pc)
  {
  }

  lemma CommitRankDrops<V>(s: Store<V>, a: Action<V>)
    requires Enabled(s, a) && !a.Arrive? && !IsArrival(a) && !IsLookup(a) && !a.Register?
    ensures a.t in Next(s, a).callers && Rank(Next(s, a).callers[a.t].pc) < Rank(s.callers[a.t].pc)
  {
  }

  lemma StepUsesWork<V>(s: Store<V>, a: Action<V>)
    requires Enabled(s, a) && !a.Arrive?
    ensures Work(Next(s, a).callers) < Work(s.callers)
  {
    var s' := Next(s, a);
    RankDrops(s, a);
    OneCallerMoves(s, a);
    WorkReplace(s.callers, a.t, s'.callers[a.t]);
  }

  /** Without new callers every schedule ends, fair or not, after at most `Work` steps. */
  lemma {:induction false} SchedulesAreFinite<V>(s: Store<V>, acts: seq<Action<V>>)
    requires ValidRun(s, acts) && forall i | 0 <= i < |acts| :: !acts[i].Arrive?
    ensures |acts| + Work(Exec(s, acts).callers) <= Work(s.callers)
    decreases |acts|
  {
    if acts != [] {
      StepUsesWork(s, acts[0]);
      SchedulesAreFinite(Next(s, acts[0]), acts[1..]);
    }
  }

  lemma FreshCall<V>(s: Store<V>) returns (c: CallId)
    ensures c !in s.calls
  {
    c := AboveAll(s.calls.Keys);
    assert c !in s.calls.Keys;
  }

  lemma {:induction false} AboveAll(ids: set<nat>) returns (n: nat)
    ensures forall id | id in ids :: id < n
  {
    n := 0;
    if ids != {} {
      var id :| id in ids;
      n := AboveAll(ids - {id});
      assert forall x | x in ids :: x == id || x in ids - {id};
      if n <= id { n := id + 1; }
    }
  }

  /** A caller that holds the mutex, or could take it, can always step. */
  lemma CanStepAlone<V>(s: Store<V>, t: CallerId) returns (a: Action<V>)
    requires Inv(s) && t in s.callers
    requires !s.callers[t].pc.Done? && !s.callers[t].pc.Running? && !s.callers[t].pc.Waiting?
    requires s.lock.None? || s.lock == Some(t) || s.callers[t].pc.Start?
    ensures Enabled(s, a) && !a.Arrive? && !a.OperationReturns? && !a.RejectCancelled? && !a.CancelWait?
  {
    assert CallerOk(s, t);
    var k := KeyOf(s, t);
    match s.callers[t].pc
    case Start => a := if k == "" then RejectBlank(t) else PassChecks(t);
    case WantLookup => a := LockForLookup(t);
    case Lookup =>
      if k in s.entries { a := FindEntry(t); }
      else if k in s.inFlight { a := FindInFlight(t); }
      else { var c := FreshCall(s); a := Register(t, c); }
    case Hit(_) => a := UnlockLookup(t);
    case Join(_) => a := UnlockLookup(t);
    case Registered(_) => a := UnlockLookup(t);
    case WantCommit(_, _) => a := LockForCommit(t);
    case Commit(_, _) => a := StoreEntry(t);
    case Stored(_, _) => a := FillCall(t);
    case Filled(_, _) => a := CloseCall(t);
    case Closed(_, _) => a := DeleteCall(t);
    case Deleted(_, _) => a := UnlockCommit(t);
  }

  /**
   * Only a running operation can hold a caller up: in every reachable state with an unfinished caller and no
   * operation running, some step other than a new arrival or a cancellation is possible.
   */
  lemma NoDeadlock<V>(acts: seq<Action<V>>, t: CallerId) returns (a: Action<V>)
    requires ValidRun(EmptyStore<V>(), acts)
    requires
      var s := Exec(EmptyStore<V>(), acts);
      t in s.callers && !s.callers[t].pc.Done? && forall u :: !Runs(s, u)
    ensures Enabled(Exec(EmptyStore<V>(), acts), a)
    ensures !a.Arrive? && !a.OperationReturns? && !a.RejectCancelled? && !a.CancelWait?
  {
    EmptyInv<V>();
    RunKeepsInv(EmptyStore<V>(), acts);
    var s := Exec(EmptyStore<V>(), acts);
    assert CallerOk(s, t) && !Runs(s, t);
    if s.lock.Some? {
      a := CanStepAlone(s, s.lock.value);
    } else if s.callers[t].pc.Waiting? {
      var c := s.callers[t].pc.call;
      assert CallOk(s, c);
      if s.calls[c].done {
        a := Wake(t);
      } else {
        assert !Runs(s, s.calls[c].owner);
        a := CanStepAlone(s, s.calls[c].owner);
      }
    } else {
      a := CanStepAlone(s, t);
    }
  }
}
