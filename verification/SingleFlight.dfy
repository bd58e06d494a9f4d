/**
 * The idempotency store as a concurrent protocol.
 *
 * Any number of callers run Execute at the same time. Every statement that touches shared state is a step of its
 * own, and the steps of different callers interleave freely: the mutex, not the model, provides the atomicity.
 * In particular a waiter may wake between the closing of a call and its removal from the in-flight map, while the
 * owner still holds the mutex.
 */
module SingleFlight {
  import opened Prelude
  import opened Text

  type CallerId = nat
  type CallId = nat

  /** What the wrapped operation returned. */
  datatype Outcome<V> = Outcome(value: V, err: Option<Error>)

  /** What Execute returned: value (None for the zero value), hit flag, error. */
  datatype Return<V> = Return(value: Option<V>, hit: bool, err: Option<Error>)

  /** Where a caller stands in Execute. */
  datatype Pc<V> =
    | Start                                          // before the key and context checks
    | WantLookup                                     // waiting for the mutex
    | Lookup                                         // mutex held, about to look the key up
    | Hit(found: V)                                  // mutex held, entry found
    | Join(call: CallId)                             // mutex held, call in flight found
    | Waiting(call: CallId)                          // blocked on the call's done channel
    | Registered(call: CallId)                       // mutex held, own call put in flight
    | Running(call: CallId)                          // mutex free, operation running
    | WantCommit(call: CallId, out: Outcome<V>)      // operation returned, waiting for the mutex
    | Commit(call: CallId, out: Outcome<V>)          // mutex held, nothing written yet
    | Stored(call: CallId, out: Outcome<V>)          // a good result is in the entries
    | Filled(call: CallId, out: Outcome<V>)          // result and error are in the call
    | Closed(call: CallId, out: Outcome<V>)          // done channel closed
    | Deleted(call: CallId, out: Outcome<V>)         // call removed from the in-flight map
    | Done(ret: Return<V>)

  datatype Caller<V> = Caller(raw: string, pc: Pc<V>)

  /** A call object. `key` and `owner` are history: they record who allocated it and what for. */
  datatype Call<V> = Call(key: string, owner: CallerId, done: bool, outcome: Option<Outcome<V>>)

  datatype Store<V> = Store(
    entries: map<string, V>,
    inFlight: map<string, CallId>,
    calls: map<CallId, Call<V>>,
    lock: Option<CallerId>,
    callers: map<CallerId, Caller<V>>)

  datatype Action<V> =
    | Arrive(t: CallerId, raw: string)
    | RejectBlank(t: CallerId)
    | RejectCancelled(t: CallerId)
    | PassChecks(t: CallerId)
    | LockForLookup(t: CallerId)
    | FindEntry(t: CallerId)
    | FindInFlight(t: CallerId)
    | Register(t: CallerId, call: CallId)
    | UnlockLookup(t: CallerId)
    | OperationReturns(t: CallerId, out: Outcome<V>)
    | LockForCommit(t: CallerId)
    | StoreEntry(t: CallerId)
    | FillCall(t: CallerId)
    | CloseCall(t: CallerId)
    | DeleteCall(t: CallerId)
    | UnlockCommit(t: CallerId)
    | Wake(t: CallerId)
    | CancelWait(t: CallerId)

  function EmptyStore<V>(): Store<V> {
    Store(map[], map[], map[], None, map[])
  }

  predicate Enabled<V>(s: Store<V>, a: Action<V>) {
    if a.Arrive? then a.t !in s.callers
    else
      && a.t in s.callers
      && var pc := s.callers[a.t].pc;
         var k := Trim(s.callers[a.t].raw);
         match a
         case RejectBlank(_) => pc.Start? && k == ""
         case RejectCancelled(_) => pc.Start? && k != ""
         case PassChecks(_) => pc.Start? && k != ""
         case LockForLookup(_) => pc.WantLookup? && s.lock.None?
         case FindEntry(_) => pc.Lookup? && k in s.entries
         case FindInFlight(_) => pc.Lookup? && k !in s.entries && k in s.inFlight
         case Register(_, c) => pc.Lookup? && k !in s.entries && k !in s.inFlight && c !in s.calls
         case UnlockLookup(_) => pc.Hit? || pc.Join? || pc.Registered?
         case OperationReturns(_, _) => pc.Running?
         case LockForCommit(_) => pc.WantCommit? && s.lock.None?
         case StoreEntry(_) => pc.Commit?
         case FillCall(_) => pc.Stored? && pc.call in s.calls
         case CloseCall(_) => pc.Filled? && pc.call in s.calls
         case DeleteCall(_) => pc.Closed?
         case UnlockCommit(_) => pc.Deleted?
         case Wake(_) => pc.Waiting? && pc.call in s.calls && s.calls[pc.call].done && s.calls[pc.call].outcome.Some?
         case CancelWait(_) => pc.Waiting?
  }

  function Move<V>(s: Store<V>, t: CallerId, pc: Pc<V>): Store<V>
    requires t in s.callers
  {
    s.(callers := s.callers[t := s.callers[t].(pc := pc)])
  }

  function Next<V>(s: Store<V>, a: Action<V>): Store<V>
    requires Enabled(s, a)
  {
    if a.Arrive? then s.(callers := s.callers[a.t := Caller(a.raw, Start)])
    else
      var t := a.t;
      var pc := s.callers[t].pc;
      var k := Trim(s.callers[t].raw);
      match a
      case RejectBlank(_) => Move(s, t, Done(Return(None, false, Some(InvalidIdempotencyKey))))
      case RejectCancelled(_) => Move(s, t, Done(Return(None, false, Some(Cancelled))))
      case PassChecks(_) => Move(s, t, WantLookup)
      case LockForLookup(_) => Move(s, t, Lookup).(lock := Some(t))
      case FindEntry(_) => Move(s, t, Hit(s.entries[k]))
      case FindInFlight(_) => Move(s, t, Join(s.inFlight[k]))
      case Register(_, c) =>
        Move(s, t, Registered(c)).(inFlight := s.inFlight[k := c], calls := s.calls[c := Call(k, t, false, None)])
      case UnlockLookup(_) =>
        var pc' := match pc
                   case Hit(v) => Done(Return(Some(v), true, None))
                   case Join(c) => Waiting(c)
                   case _ => Running(pc.call);
        Move(s, t, pc').(lock := None)
      case OperationReturns(_, out) => Move(s, t, WantCommit(pc.call, out))
      case LockForCommit(_) => Move(s, t, Commit(pc.call, pc.out)).(lock := Some(t))
      case StoreEntry(_) =>
        var s' := Move(s, t, Stored(pc.call, pc.out));
        if pc.out.err.None? then s'.(entries := s.entries[k := pc.out.value]) else s'
      case FillCall(_) =>
        Move(s, t, Filled(pc.call, pc.out)).(calls := s.calls[pc.call := s.calls[pc.call].(outcome := Some(pc.out))])
      case CloseCall(_) =>
        Move(s, t, Closed(pc.call, pc.out)).(calls := s.calls[pc.call := s.calls[pc.call].(done := true)])
      case DeleteCall(_) => Move(s, t, Deleted(pc.call, pc.out)).(inFlight := s.inFlight - {k})
      case UnlockCommit(_) => Move(s, t, Done(Return(Some(pc.out.value), false, pc.out.err))).(lock := None)
      case Wake(_) =>
        var out := s.calls[pc.call].outcome.value;
        Move(s, t, Done(Return(Some(out.value), true, out.err)))
      case CancelWait(_) => Move(s, t, Done(Return(None, true, Some(Cancelled))))
  }

  // ---------------------------------------------------------------------------
  // The invariant
  // ---------------------------------------------------------------------------

  function KeyOf<V>(s: Store<V>, t: CallerId): string
    requires t in s.callers
  {
    Trim(s.callers[t].raw)
  }

  ghost predicate HoldsLock<V>(pc: Pc<V>) {
    || pc.Lookup? || pc.Hit? || pc.Join? || pc.Registered?
    || pc.Commit? || pc.Stored? || pc.Filled? || pc.Closed? || pc.Deleted?
  }

  /** The caller owns a call that is in the in-flight map. */
  ghost predicate Flies<V>(pc: Pc<V>) {
    pc.Registered? || pc.Running? || pc.WantCommit? || pc.Commit? || pc.Stored? || pc.Filled? || pc.Closed?
  }

  /** The caller owns a call whose done channel is still open. */
  ghost predicate Open<V>(pc: Pc<V>) {
    Flies(pc) && !pc.Closed?
  }

  ghost predicate OwnCall<V>(s: Store<V>, t: CallerId, k: string, c: CallId, done: bool, outcome: Option<Outcome<V>>) {
    c in s.calls && s.calls[c] == Call(k, t, done, outcome)
  }

  ghost predicate InFlight<V>(s: Store<V>, k: string, c: CallId) {
    k in s.inFlight && s.inFlight[k] == c
  }

  ghost predicate Recorded<V>(s: Store<V>, k: string, out: Outcome<V>) {
    out.err.None? ==> k in s.entries && s.entries[k] == out.value
  }

  /** What one caller may rely on at its program point. */
  ghost predicate CallerOk<V>(s: Store<V>, t: CallerId)
    requires t in s.callers
  {
    var k := KeyOf(s, t);
    var pc := s.callers[t].pc;
    && (HoldsLock(pc) <==> s.lock == Some(t))
    && (!pc.Start? && !pc.Done? ==> k != "")
    && match pc
       case Hit(v) => k in s.entries && s.entries[k] == v
       case Join(c) => c in s.calls && s.calls[c].key == k
       case Waiting(c) => c in s.calls && s.calls[c].key == k
       case Registered(c) => InFlight(s, k, c) && OwnCall(s, t, k, c, false, None) && k !in s.entries
       case Running(c) => InFlight(s, k, c) && OwnCall(s, t, k, c, false, None) && k !in s.entries
       case WantCommit(c, _) => InFlight(s, k, c) && OwnCall(s, t, k, c, false, None) && k !in s.entries
       case Commit(c, _) => InFlight(s, k, c) && OwnCall(s, t, k, c, false, None) && k !in s.entries
       case Stored(c, out) => InFlight(s, k, c) && OwnCall(s, t, k, c, false, None) && Recorded(s, k, out)
       case Filled(c, out) => InFlight(s, k, c) && OwnCall(s, t, k, c, false, Some(out)) && Recorded(s, k, out)
       case Closed(c, out) => InFlight(s, k, c) && OwnCall(s, t, k, c, true, Some(out)) && Recorded(s, k, out)
       case Deleted(c, out) => OwnCall(s, t, k, c, true, Some(out)) && Recorded(s, k, out)
       case Done(r) => r.err.None? ==> k in s.entries && r.value == Some(s.entries[k])
       case _ => true
  }

  ghost predicate CallersOk<V>(s: Store<V>) {
    forall t {:trigger CallerOk(s, t)} | t in s.callers :: CallerOk(s, t)
  }

  ghost predicate LockOk<V>(s: Store<V>) {
    s.lock.Some? ==> s.lock.value in s.callers && HoldsLock(s.callers[s.lock.value].pc)
  }

  /** A call in flight has an owner on its way to close it. */
  ghost predicate FlightOk<V>(s: Store<V>, k: string)
    requires k in s.inFlight
  {
    var c := s.inFlight[k];
    && c in s.calls && s.calls[c].key == k
    && var t := s.calls[c].owner;
       t in s.callers && Flies(s.callers[t].pc) && s.callers[t].pc.call == c && KeyOf(s, t) == k
  }

  ghost predicate FlightsOk<V>(s: Store<V>) {
    forall k {:trigger FlightOk(s, k)} | k in s.inFlight :: FlightOk(s, k)
  }

  /** A call is either still open, with its owner on the way, or closed with its final result. */
  ghost predicate CallOk<V>(s: Store<V>, c: CallId)
    requires c in s.calls
  {
    var call := s.calls[c];
    && call.owner in s.callers
    && KeyOf(s, call.owner) == call.key
    && (if call.done then call.outcome.Some? && Recorded(s, call.key, call.outcome.value)
        else Open(s.callers[call.owner].pc) && s.callers[call.owner].pc.call == c)
  }

  ghost predicate CallsOk<V>(s: Store<V>) {
    forall c {:trigger CallOk(s, c)} | c in s.calls :: CallOk(s, c)
  }

  /** The caller whose own operation produced the cached result. */
  ghost predicate Winner<V>(s: Store<V>, t: CallerId)
    requires t in s.callers
  {
    match s.callers[t].pc
    case Stored(_, out) => out.err.None?
    case Filled(_, out) => out.err.None?
    case Closed(_, out) => out.err.None?
    case Deleted(_, out) => out.err.None?
    case Done(r) => r.err.None? && !r.hit
    case _ => false
  }

  ghost predicate WinnerOf<V>(s: Store<V>, t: CallerId, k: string) {
    t in s.callers && KeyOf(s, t) == k && Winner(s, t)
  }

  ghost predicate HasWinner<V>(s: Store<V>, k: string) {
    exists t :: WinnerOf(s, t, k)
  }

  /** Each entry goes back to exactly one caller. */
  ghost predicate WinnersOk<V>(s: Store<V>) {
    && (forall t, u, k {:trigger WinnerOf(s, t, k), WinnerOf(s, u, k)} | WinnerOf(s, t, k) && WinnerOf(s, u, k) :: t == u)
    && (forall k {:trigger HasWinner(s, k)} | k in s.entries :: HasWinner(s, k))
  }

  ghost predicate Inv<V>(s: Store<V>) {
    CallersOk(s) && LockOk(s) && FlightsOk(s) && CallsOk(s) && WinnersOk(s)
  }

  // ---------------------------------------------------------------------------
  // Every step keeps the invariant
  // ---------------------------------------------------------------------------

  /** What a step of another caller may do to the state that caller `u` looks at. */
  ghost predicate Undisturbed<V>(s: Store<V>, s': Store<V>, u: CallerId)
    requires u in s.callers
  {
    && u in s'.callers && s'.callers[u] == s.callers[u]
    && (s'.lock == Some(u) <==> s.lock == Some(u))
    && (forall k | k in s.entries :: k in s'.entries && s'.entries[k] == s.entries[k])
    && (forall c | c in s.calls :: c in s'.calls && s'.calls[c].key == s.calls[c].key
          && (s.calls[c].owner == u ==> s'.calls[c] == s.calls[c]))
    && var k := KeyOf(s, u);
       Flies(s.callers[u].pc) ==>
         && (k in s'.entries <==> k in s.entries)
         && (k in s.inFlight ==> k in s'.inFlight && s'.inFlight[k] == s.inFlight[k])
  }

  lemma OthersStayOk<V>(s: Store<V>, s': Store<V>, u: CallerId)
    requires u in s.callers && CallerOk(s, u) && Undisturbed(s, s', u)
    ensures CallerOk(s', u)
  {
  }

  /** Two callers never have calls in flight for the same key. */
  lemma OneFlightPerKey<V>(s: Store<V>, t: CallerId, u: CallerId)
    requires CallersOk(s) && t in s.callers && u in s.callers && KeyOf(s, t) == KeyOf(s, u)
    requires Flies(s.callers[t].pc) && Flies(s.callers[u].pc)
    ensures t == u
  {
    assert CallerOk(s, t) && CallerOk(s, u);
  }

  lemma CallersStayOk<V>(s: Store<V>, s': Store<V>, t: CallerId)
    requires CallersOk(s) && t in s'.callers && s'.callers.Keys == s.callers.Keys + {t}
    requires CallerOk(s', t)
    requires forall u {:trigger Undisturbed(s, s', u)} | u in s.callers && u != t :: Undisturbed(s, s', u)
    ensures CallersOk(s')
  {
    forall u | u in s'.callers ensures CallerOk(s', u) {
      if u != t {
        assert u in s.callers && CallerOk(s, u) && Undisturbed(s, s', u);
        OthersStayOk(s, s', u);
      }
    }
  }

  /** A step that stores no entry and leaves every caller's winner status alone. */
  lemma SameWinners<V>(s: Store<V>, s': Store<V>)
    requires WinnersOk(s) && s'.entries == s.entries
    requires forall u, k {:trigger WinnerOf(s', u, k)} :: WinnerOf(s', u, k) <==> WinnerOf(s, u, k)
    ensures WinnersOk(s')
  {
    forall k | k in s'.entries ensures HasWinner(s', k) {
      assert HasWinner(s, k);
      var u :| WinnerOf(s, u, k);
      assert WinnerOf(s', u, k);
    }
  }

  lemma ArriveKeepsInv<V>(s: Store<V>, t: CallerId, raw: string)
    requires Inv(s) && t !in s.callers
    ensures Inv(s.(callers := s.callers[t := Caller(raw, Start)]))
  {
    var s' := s.(callers := s.callers[t := Caller(raw, Start)]);
    CallersStayOk(s, s', t);
    forall c | c in s'.calls ensures CallOk(s', c) { assert CallOk(s, c); }
    forall k | k in s'.inFlight ensures FlightOk(s', k) { assert FlightOk(s, k); }
    SameWinners(s, s');
  }

  /** A step that only its own caller sees: a new program point and perhaps the mutex. */
  ghost predicate Private<V>(s: Store<V>, t: CallerId, pc: Pc<V>, lock: Option<CallerId>)
    requires t in s.callers
  {
    var was := s.callers[t].pc;
    && (lock == s.lock || (lock == Some(t) && s.lock.None?) || (lock.None? && s.lock == Some(t)))
    && (Flies(pc) <==> Flies(was)) && (Open(pc) <==> Open(was)) && (Flies(pc) ==> pc.call == was.call)
    && var s' := Move(s, t, pc).(lock := lock);
       CallerOk(s', t) && (Winner(s', t) <==> Winner(s, t))
  }

  lemma PrivateKeepsInv<V>(s: Store<V>, t: CallerId, pc: Pc<V>, lock: Option<CallerId>)
    requires Inv(s) && t in s.callers && Private(s, t, pc, lock)
    ensures Inv(Move(s, t, pc).(lock := lock))
  {
    var s' := Move(s, t, pc).(lock := lock);
    CallersStayOk(s, s', t);
    PrivateKeepsCalls(s, t, pc, lock);
    assert forall u, k {:trigger WinnerOf(s', u, k)} :: WinnerOf(s', u, k) <==> WinnerOf(s, u, k);
    SameWinners(s, s');
  }

  lemma PrivateKeepsCalls<V>(s: Store<V>, t: CallerId, pc: Pc<V>, lock: Option<CallerId>)
    requires CallsOk(s) && FlightsOk(s) && t in s.callers && Private(s, t, pc, lock)
    ensures var s' := Move(s, t, pc).(lock := lock); CallsOk(s') && FlightsOk(s')
  {
    var s' := Move(s, t, pc).(lock := lock);
    forall c | c in s'.calls ensures CallOk(s', c) { assert CallOk(s, c); }
    forall k | k in s'.inFlight ensures FlightOk(s', k) { assert FlightOk(s, k); }
  }

  lemma RegisterKeepsInv<V>(s: Store<V>, a: Action<V>)
    requires Inv(s) && a.Register? && Enabled(s, a)
    ensures Inv(Next(s, a))
  {
    var s' := Next(s, a);
    assert CallerOk(s, a.t);
    forall u | u in s.callers && u != a.t ensures Undisturbed(s, s', u) { assert CallerOk(s, u); }
    CallersStayOk(s, s', a.t);
    RegisterKeepsCalls(s, a);
    SameWinners(s, s');
  }

  lemma RegisterKeepsCalls<V>(s: Store<V>, a: Action<V>)
    requires CallsOk(s) && FlightsOk(s) && a.Register? && Enabled(s, a)
    ensures CallsOk(Next(s, a)) && FlightsOk(Next(s, a))
  {
    var s' := Next(s, a);
    forall c | c in s'.calls ensures CallOk(s', c) {
      if c != a.call { assert CallOk(s, c); }
    }
    forall k | k in s'.inFlight ensures FlightOk(s', k) {
      if k in s.inFlight { assert FlightOk(s, k); }
    }
  }

  lemma StoreKeepsInv<V>(s: Store<V>, a: Action<V>)
    requires Inv(s) && a.StoreEntry? && Enabled(s, a)
    ensures Inv(Next(s, a))
  {
    var s' := Next(s, a);
    assert CallerOk(s, a.t);
    forall u | u in s.callers && u != a.t ensures Undisturbed(s, s', u) {
      if KeyOf(s, u) == KeyOf(s, a.t) && Flies(s.callers[u].pc) { OneFlightPerKey(s, a.t, u); }
    }
    CallersStayOk(s, s', a.t);
    forall c | c in s'.calls ensures CallOk(s', c) { assert CallOk(s, c); }
    forall k | k in s'.inFlight ensures FlightOk(s', k) { assert FlightOk(s, k); }
    StoreKeepsWinners(s, a);
  }

  lemma StoreKeepsWinners<V>(s: Store<V>, a: Action<V>)
    requires CallersOk(s) && WinnersOk(s) && a.StoreEntry? && Enabled(s, a)
    ensures WinnersOk(Next(s, a))
  {
    var s' := Next(s, a);
    var k := KeyOf(s, a.t);
    assert CallerOk(s, a.t);
    forall t, u, j | WinnerOf(s', t, j) && WinnerOf(s', u, j) ensures t == u {
      if t != a.t { assert CallerOk(s, t) && WinnerOf(s, t, j); }
      if u != a.t { assert CallerOk(s, u) && WinnerOf(s, u, j); }
    }
    forall j | j in s'.entries ensures HasWinner(s', j) {
      if j in s.entries {
        assert HasWinner(s, j);
        var u :| WinnerOf(s, u, j);
        assert WinnerOf(s', u, j);
      } else {
        assert WinnerOf(s', a.t, j);
      }
    }
  }

  lemma FillKeepsInv<V>(s: Store<V>, a: Action<V>)
    requires Inv(s) && a.FillCall? && Enabled(s, a)
    ensures Inv(Next(s, a))
  {
    var s' := Next(s, a);
    assert CallerOk(s, a.t);
    CallersStayOk(s, s', a.t);
    forall c | c in s'.calls ensures CallOk(s', c) { assert CallOk(s, c); }
    forall k | k in s'.inFlight ensures FlightOk(s', k) { assert FlightOk(s, k); }
    SameWinners(s, s');
  }

  lemma CloseKeepsInv<V>(s: Store<V>, a: Action<V>)
    requires Inv(s) && a.CloseCall? && Enabled(s, a)
    ensures Inv(Next(s, a))
  {
    var s' := Next(s, a);
    assert CallerOk(s, a.t);
    CallersStayOk(s, s', a.t);
    forall c | c in s'.calls ensures CallOk(s', c) { assert CallOk(s, c); }
    forall k | k in s'.inFlight ensures FlightOk(s', k) { assert FlightOk(s, k); }
    SameWinners(s, s');
  }

  lemma DeleteKeepsInv<V>(s: Store<V>, a: Action<V>)
    requires Inv(s) && a.DeleteCall? && Enabled(s, a)
    ensures Inv(Next(s, a))
  {
    var s' := Next(s, a);
    assert CallerOk(s, a.t);
    forall u | u in s.callers && u != a.t ensures Undisturbed(s, s', u) {
      if KeyOf(s, u) == KeyOf(s, a.t) && Flies(s.callers[u].pc) { OneFlightPerKey(s, a.t, u); }
    }
    CallersStayOk(s, s', a.t);
    forall c | c in s'.calls ensures CallOk(s', c) { assert CallOk(s, c); }
    forall k | k in s'.inFlight ensures FlightOk(s', k) { assert FlightOk(s, k); }
    SameWinners(s, s');
  }

  predicate IsPrivate<V>(a: Action<V>) {
    !a.Arrive? && !a.Register? && !a.StoreEntry? && !a.FillCall? && !a.CloseCall? && !a.DeleteCall?
  }

  predicate IsArrival<V>(a: Action<V>) {
    a.RejectBlank? || a.RejectCancelled? || a.PassChecks? || a.LockForLookup?
  }

  predicate IsLookup<V>(a: Action<V>) {
    a.FindEntry? || a.FindInFlight? || a.UnlockLookup?
  }

  ghost predicate ChangesOnly<V>(s: Store<V>, a: Action<V>)
    requires Enabled(s, a) && !a.Arrive?
  {
    var s' := Next(s, a);
    && a.t in s'.callers
    && Private(s, a.t, s'.callers[a.t].pc, s'.lock)
    && s' == Move(s, a.t, s'.callers[a.t].pc).(lock := s'.lock)
  }

  lemma ArrivalIsPrivate<V>(s: Store<V>, a: Action<V>)
    requires CallersOk(s) && Enabled(s, a) && IsArrival(a)
    ensures ChangesOnly(s, a)
  {
    assert CallerOk(s, a.t);
  }

  lemma LookupIsPrivate<V>(s: Store<V>, a: Action<V>)
    requires CallersOk(s) && FlightsOk(s) && Enabled(s, a) && IsLookup(a)
    ensures ChangesOnly(s, a)
  {
    assert CallerOk(s, a.t);
    if a.FindInFlight? { assert FlightOk(s, KeyOf(s, a.t)); }
  }

  lemma OtherStepIsPrivate<V>(s: Store<V>, a: Action<V>)
    requires CallersOk(s) && CallsOk(s) && Enabled(s, a) && IsPrivate(a) && !IsArrival(a) && !IsLookup(a)
    ensures ChangesOnly(s, a)
  {
    assert CallerOk(s, a.t);
    if a.Wake? { assert CallOk(s, s.callers[a.t].pc.call); }
  }

  lemma PrivateStepKeepsInv<V>(s: Store<V>, a: Action<V>)
    requires Inv(s) && Enabled(s, a) && IsPrivate(a)
    ensures Inv(Next(s, a))
  {
    if IsArrival(a) { ArrivalIsPrivate(s, a); }
    else if IsLookup(a) { LookupIsPrivate(s, a); }
    else { OtherStepIsPrivate(s, a); }
    var s' := Next(s, a);
    PrivateKeepsInv(s, a.t, s'.callers[a.t].pc, s'.lock);
  }

  lemma NextKeepsInv<V>(s: Store<V>, a: Action<V>)
    requires Inv(s) && Enabled(s, a)
    ensures Inv(Next(s, a))
  {
    match a
    case Arrive(t, raw) => ArriveKeepsInv(s, t, raw);
    case Register(_, _) => RegisterKeepsInv(s, a);
    case StoreEntry(_) => StoreKeepsInv(s, a);
    case FillCall(_) => FillKeepsInv(s, a);
    case CloseCall(_) => CloseKeepsInv(s, a);
    case DeleteCall(_) => DeleteKeepsInv(s, a);
    case _ => PrivateStepKeepsInv(s, a);
  }
}
