/** A caller that is alone in the idempotency store: the protocol then does what the one-step form of Execute says. */
module SoloExecute {
  import opened Prelude
  import opened Text
  import opened SingleFlight
  import opened SingleFlightRuns
  import Handlers

  /** The outcome of the operation, if the steps include its return; `ran` is what came before them. */
  function Ran<V>(ran: Option<Outcome<V>>, acts: seq<Action<V>>): Option<Outcome<V>>
    decreases |acts|
  {
    if acts == [] then ran else Ran(After(ran, acts[0]), acts[1..])
  }

  function After<V>(ran: Option<Outcome<V>>, a: Action<V>): Option<Outcome<V>> {
    if a.OperationReturns? then Some(a.out) else ran
  }

  function AsResult<V>(ran: Option<Outcome<V>>): Result<V> {
    match ran
    case None => Err(Cancelled)
    case Some(out) => if out.err.None? then Ok(out.value) else Err(out.err.value)
  }

  ghost predicate Agrees<V>(ret: Return<V>, r: Result<(V, bool)>) {
    match r
    case Ok((v, hit)) => ret == Return(Some(v), hit, None)
    case Err(e) => ret.err == Some(e)
  }

  /** Entries and answer are those of the one-step form, and the operation ran exactly if that form needs it. */
  ghost predicate IsExecute<V>(m: map<string, V>, raw: string, cancelled: bool, ran: Option<Outcome<V>>,
                               entries: map<string, V>, ret: Return<V>)
  {
    var (m', r) := Handlers.Execute(m, raw, cancelled, AsResult(ran));
    entries == m' && Agrees(ret, r) && (ran.Some? <==> Handlers.Misses(m, raw, cancelled))
  }

  function Committed<V>(m: map<string, V>, k: string, out: Outcome<V>): map<string, V> {
    if out.err.None? then m[k := out.value] else m
  }

  /** Where the lone caller can be, and what it has done to the entries `m` it found. */
  ghost predicate SoloAt<V(!new)>(m: map<string, V>, raw: string, s: Store<V>, t: CallerId, ran: Option<Outcome<V>>) {
    && t in s.callers && s.callers[t].raw == raw
    && var k := Trim(raw);
       var pc := s.callers[t].pc;
       && !pc.Join? && !pc.Waiting?
       && (pc.Done? ==> s.inFlight == map[] && exists cancelled :: IsExecute(m, raw, cancelled, ran, s.entries, pc.ret))
       && (!pc.Start? && !pc.Done? ==> k != "")
       && (pc.Start? || pc.WantLookup? || pc.Lookup? ==> s.entries == m && s.inFlight == map[] && ran.None?)
       && (pc.Hit? ==> s.entries == m && s.inFlight == map[] && ran.None? && k in m && pc.found == m[k])
       && (pc.Registered? || pc.Running? ==> s.entries == m && k !in m && s.inFlight == map[k := pc.call] && ran.None?)
       && (pc.WantCommit? || pc.Commit? ==>
             s.entries == m && k !in m && s.inFlight == map[k := pc.call] && ran == Some(pc.out))
       && (pc.Stored? || pc.Filled? || pc.Closed? ==>
             s.entries == Committed(m, k, pc.out) && k !in m && s.inFlight == map[k := pc.call] && ran == Some(pc.out))
       && (pc.Deleted? ==> s.entries == Committed(m, k, pc.out) && k !in m && s.inFlight == map[] && ran == Some(pc.out))
  }

  lemma SoloStep<V(!new)>(m: map<string, V>, raw: string, s: Store<V>, a: Action<V>, ran: Option<Outcome<V>>)
    requires SoloAt(m, raw, s, a.t, ran) && Enabled(s, a)
    ensures SoloAt(m, raw, Next(s, a), a.t, After(ran, a))
  {
    if Returns(s, a) { SoloReturn(m, raw, s, a, ran); }
    else if ran.None? { SoloLookup(m, raw, s, a, ran); }
    else { SoloCommit(m, raw, s, a, ran); }
  }

  predicate Returns<V>(s: Store<V>, a: Action<V>)
    requires Enabled(s, a) && !a.Arrive?
  {
    a.RejectBlank? || a.RejectCancelled? || s.callers[a.t].pc.Hit? || s.callers[a.t].pc.Deleted?
  }

  lemma SoloReturn<V(!new)>(m: map<string, V>, raw: string, s: Store<V>, a: Action<V>, ran: Option<Outcome<V>>)
    requires SoloAt(m, raw, s, a.t, ran) && Enabled(s, a) && Returns(s, a)
    ensures SoloAt(m, raw, Next(s, a), a.t, After(ran, a))
  {
    var s' := Next(s, a);
    assert IsExecute(m, raw, a.RejectCancelled?, ran, s'.entries, s'.callers[a.t].pc.ret);
  }

  /** Up to the return of the operation. */
  lemma SoloLookup<V(!new)>(m: map<string, V>, raw: string, s: Store<V>, a: Action<V>, ran: Option<Outcome<V>>)
    requires SoloAt(m, raw, s, a.t, ran) && Enabled(s, a) && !Returns(s, a) && ran.None?
    ensures SoloAt(m, raw, Next(s, a), a.t, After(ran, a))
  {
  }

  /** From there to the return of Execute. */
  lemma SoloCommit<V(!new)>(m: map<string, V>, raw: string, s: Store<V>, a: Action<V>, ran: Option<Outcome<V>>)
    requires SoloAt(m, raw, s, a.t, ran) && Enabled(s, a) && !Returns(s, a) && ran.Some?
    ensures SoloAt(m, raw, Next(s, a), a.t, After(ran, a))
  {
  }

  lemma {:induction false} SoloRun<V(!new)>(
    m: map<string, V>, raw: string, s: Store<V>, t: CallerId, acts: seq<Action<V>>, ran: Option<Outcome<V>>)
    requires SoloAt(m, raw, s, t, ran) && ValidRun(s, acts)
    requires forall i | 0 <= i < |acts| :: acts[i].t == t
    ensures SoloAt(m, raw, Exec(s, acts), t, Ran(ran, acts))
    decreases |acts|
  {
    if acts != [] {
      SoloStep(m, raw, s, acts[0], ran);
      SoloRun(m, raw, Next(s, acts[0]), t, acts[1..], After(ran, acts[0]));
    }
  }

  /**
   * Whatever a lone caller does from its arrival in a quiet store to its return, entries and answer are those of
   * the one-step Execute for what its operation returned, the operation ran if and only if that form reaches it,
   * and the store is quiet again. The context counts as cancelled if the caller was turned away for it.
   */
  lemma ExecuteAlone<V(!new)>(s: Store<V>, t: CallerId, raw: string, acts: seq<Action<V>>)
    requires s.inFlight == map[] && t !in s.callers
    requires
      var s0 := Next(s, Arrive(t, raw));
      && ValidRun(s0, acts) && (forall i | 0 <= i < |acts| :: acts[i].t == t)
      && t in Exec(s0, acts).callers && Exec(s0, acts).callers[t].pc.Done?
    ensures
      var s' := Exec(Next(s, Arrive(t, raw)), acts);
      && s'.inFlight == map[]
      && exists cancelled :: IsExecute(s.entries, raw, cancelled, Ran(None, acts), s'.entries, s'.callers[t].pc.ret)
  {
    SoloRun(s.entries, raw, Next(s, Arrive(t, raw)), t, acts, None);
  }
}
