/** Where every return of the idempotency store comes from, in every interleaving. */
module SharedOutcomes {
  import opened Prelude
  import opened SingleFlight
  import opened SingleFlightRuns

  /** The operation of caller `t` returned `out` in the run. */
  ghost predicate Returned<V>(acts: seq<Action<V>>, t: CallerId, out: Outcome<V>) {
    OperationReturns(t, out) in acts
  }

  /** The caller brought this outcome back from its own operation. */
  ghost predicate FromOwn<V(!new)>(acts: seq<Action<V>>, t: CallerId, ret: Return<V>) {
    exists out :: Returned(acts, t, out) && ret == Return(Some(out.value), false, out.err)
  }

  /** The caller waited, and was told what the operation of another caller with the same key returned. */
  ghost predicate FromOther<V(!new)>(acts: seq<Action<V>>, s: Store<V>, t: CallerId, ret: Return<V>)
    requires t in s.callers
  {
    exists u, out ::
      && u in s.callers && KeyOf(s, u) == KeyOf(s, t)
      && Returned(acts, u, out) && ret == Return(Some(out.value), true, out.err)
  }

  /** The caller was turned away: for a blank key, or because its context was done before the lookup or while it waited. */
  ghost predicate TurnedAway<V>(acts: seq<Action<V>>, s: Store<V>, t: CallerId, ret: Return<V>)
    requires t in s.callers
  {
    if KeyOf(s, t) == "" then ret == Return(None, false, Some(InvalidIdempotencyKey))
    else
      || (RejectCancelled(t) in acts && ret == Return(None, false, Some(Cancelled)))
      || (CancelWait(t) in acts && ret == Return(None, true, Some(Cancelled)))
  }

  ghost predicate FromEntry<V>(acts: seq<Action<V>>, s: Store<V>, t: CallerId, ret: Return<V>)
    requires t in s.callers
  {
    FindEntry(t) in acts && KeyOf(s, t) in s.entries && ret == Return(Some(s.entries[KeyOf(s, t)]), true, None)
  }

  ghost predicate Explained<V(!new)>(acts: seq<Action<V>>, s: Store<V>, t: CallerId, ret: Return<V>)
    requires t in s.callers
  {
    TurnedAway(acts, s, t, ret) || FromEntry(acts, s, t, ret) || FromOwn(acts, t, ret) || FromOther(acts, s, t, ret)
  }

  // ---------------------------------------------------------------------------
  // The invariant
  // ---------------------------------------------------------------------------

  ghost predicate CallerTold<V(!new)>(acts: seq<Action<V>>, s: Store<V>, t: CallerId)
    requires t in s.callers
  {
    match s.callers[t].pc
    case Hit(v) => FindEntry(t) in acts && KeyOf(s, t) in s.entries && s.entries[KeyOf(s, t)] == v
    case WantCommit(_, out) => Returned(acts, t, out)
    case Commit(_, out) => Returned(acts, t, out)
    case Stored(_, out) => Returned(acts, t, out)
    case Filled(_, out) => Returned(acts, t, out)
    case Closed(_, out) => Returned(acts, t, out)
    case Deleted(_, out) => Returned(acts, t, out)
    case Done(ret) => Explained(acts, s, t, ret)
    case _ => true
  }

  ghost predicate CallTold<V>(acts: seq<Action<V>>, s: Store<V>, c: CallId)
    requires c in s.calls
  {
    s.calls[c].outcome.Some? ==> Returned(acts, s.calls[c].owner, s.calls[c].outcome.value)
  }

  ghost predicate Told<V(!new)>(acts: seq<Action<V>>, s: Store<V>) {
    && (forall t {:trigger CallerTold(acts, s, t)} | t in s.callers :: CallerTold(acts, s, t))
    && (forall c {:trigger CallTold(acts, s, c)} | c in s.calls :: CallTold(acts, s, c))
  }

  lemma StaysExplained<V(!new)>(acts: seq<Action<V>>, s: Store<V>, a: Action<V>, t: CallerId, ret: Return<V>)
    requires Inv(s) && Enabled(s, a) && t in s.callers && Explained(acts, s, t, ret)
    ensures t in Next(s, a).callers && Explained(acts + [a], Next(s, a), t, ret)
  {
    var s' := Next(s, a);
    KeysStay(s, a);
    RefinesCache(s, a);
    if FromOwn(acts, t, ret) {
      var out :| Returned(acts, t, out) && ret == Return(Some(out.value), false, out.err);
      assert Returned(acts + [a], t, out);
    } else if FromOther(acts, s, t, ret) {
      var u, out :| u in s.callers && KeyOf(s, u) == KeyOf(s, t)
        && Returned(acts, u, out) && ret == Return(Some(out.value), true, out.err);
      assert Returned(acts + [a], u, out) && KeyOf(s', u) == KeyOf(s', t);
    }
  }

  lemma KeysStay<V>(s: Store<V>, a: Action<V>)
    requires Enabled(s, a)
    ensures forall t | t in s.callers :: t in Next(s, a).callers && KeyOf(Next(s, a), t) == KeyOf(s, t)
    ensures forall t | t in s.callers && t != a.t :: Next(s, a).callers[t] == s.callers[t]
  {
    if !a.Arrive? {
      OneCallerMoves(s, a);
      RawStays(s, a);
    }
  }

  lemma RawStays<V>(s: Store<V>, a: Action<V>)
    requires Enabled(s, a) && !a.Arrive?
    ensures a.t in Next(s, a).callers && Next(s, a).callers[a.t].raw == s.callers[a.t].raw
  {
  }

  /** The step moves a caller that does not return by it. */
  lemma MoverIsTold<V(!new)>(acts: seq<Action<V>>, s: Store<V>, a: Action<V>)
    requires Inv(s) && Enabled(s, a) && Told(acts, s)
    requires a.t in Next(s, a).callers && !Next(s, a).callers[a.t].pc.Done?
    ensures CallerTold(acts + [a], Next(s, a), a.t)
  {
    if !a.Arrive? {
      assert CallerTold(acts, s, a.t);
      RawStays(s, a);
    }
  }

  /** The step returns. */
  lemma ReturnIsExplained<V(!new)>(acts: seq<Action<V>>, s: Store<V>, a: Action<V>)
    requires Inv(s) && Enabled(s, a) && Told(acts, s)
    requires a.t in Next(s, a).callers && Next(s, a).callers[a.t].pc.Done?
    ensures CallerTold(acts + [a], Next(s, a), a.t)
  {
    var s' := Next(s, a);
    var ret := s'.callers[a.t].pc.ret;
    assert CallerOk(s, a.t) && CallerTold(acts, s, a.t);
    RawStays(s, a);
    if a.UnlockCommit? {
      assert Returned(acts + [a], a.t, s.callers[a.t].pc.out);
    } else if a.Wake? {
      WokenIsExplained(acts, s, a);
    }
  }

  /** The owner of the call is another caller, or this one; its operation returned what the call holds. */
  lemma WokenIsExplained<V(!new)>(acts: seq<Action<V>>, s: Store<V>, a: Action<V>)
    requires Inv(s) && Enabled(s, a) && Told(acts, s) && a.Wake?
    ensures a.t in Next(s, a).callers && Next(s, a).callers[a.t].pc.Done?
    ensures FromOther(acts + [a], Next(s, a), a.t, Next(s, a).callers[a.t].pc.ret)
  {
    var s' := Next(s, a);
    var c := s.callers[a.t].pc.call;
    assert CallerOk(s, a.t) && CallOk(s, c) && CallTold(acts, s, c);
    KeysStay(s, a);
    var u, out := s.calls[c].owner, s.calls[c].outcome.value;
    assert Returned(acts + [a], u, out);
    assert KeyOf(s', u) == KeyOf(s', a.t);
  }

  lemma StepIsTold<V(!new)>(acts: seq<Action<V>>, s: Store<V>, a: Action<V>)
    requires Inv(s) && Enabled(s, a) && Told(acts, s)
    ensures Told(acts + [a], Next(s, a))
  {
    var s' := Next(s, a);
    KeysStay(s, a);
    forall t | t in s'.callers ensures CallerTold(acts + [a], s', t) {
      if t != a.t {
        OtherIsTold(acts, s, a, t);
      } else if s'.callers[t].pc.Done? {
        ReturnIsExplained(acts, s, a);
      } else {
        MoverIsTold(acts, s, a);
      }
    }
    CallsAreTold(acts, s, a);
  }

  lemma OtherIsTold<V(!new)>(acts: seq<Action<V>>, s: Store<V>, a: Action<V>, t: CallerId)
    requires Inv(s) && Enabled(s, a) && Told(acts, s) && t in s.callers && t != a.t
    ensures t in Next(s, a).callers && CallerTold(acts + [a], Next(s, a), t)
  {
    KeysStay(s, a);
    RefinesCache(s, a);
    assert CallerTold(acts, s, t);
    if s.callers[t].pc.Done? { StaysExplained(acts, s, a, t, s.callers[t].pc.ret); }
  }

  lemma CallsAreTold<V(!new)>(acts: seq<Action<V>>, s: Store<V>, a: Action<V>)
    requires Inv(s) && Enabled(s, a) && Told(acts, s)
    ensures forall c {:trigger CallTold(acts + [a], Next(s, a), c)} | c in Next(s, a).calls :: CallTold(acts + [a], Next(s, a), c)
  {
    var s' := Next(s, a);
    forall c | c in s'.calls ensures CallTold(acts + [a], s', c) {
      if c in s.calls { assert CallTold(acts, s, c); }
      if a.FillCall? { assert CallerOk(s, a.t) && CallerTold(acts, s, a.t); }
    }
  }

  lemma {:induction false} RunIsTold<V(!new)>(before: seq<Action<V>>, s: Store<V>, acts: seq<Action<V>>)
    requires Inv(s) && Told(before, s) && ValidRun(s, acts)
    ensures Told(before + acts, Exec(s, acts))
    decreases |acts|
  {
    if acts == [] {
      assert before + acts == before;
    } else {
      StepIsTold(before, s, acts[0]);
      NextKeepsInv(s, acts[0]);
      RunIsTold(before + [acts[0]], Next(s, acts[0]), acts[1..]);
      assert before + [acts[0]] + acts[1..] == before + acts;
    }
  }

  /**
   * In every interleaving, whoever has returned was turned away, found the entry, brought back what its own operation
   * returned, or waited and was told, with value and error, what the operation of a caller with the same key returned.
   */
  lemma ReturnsAreExplained<V(!new)>(acts: seq<Action<V>>, t: CallerId)
    requires ValidRun(EmptyStore<V>(), acts)
    ensures
      var s := Exec(EmptyStore<V>(), acts);
      t in s.callers && s.callers[t].pc.Done? ==> Explained(acts, s, t, s.callers[t].pc.ret)
  {
    EmptyInv<V>();
    RunIsTold([], EmptyStore<V>(), acts);
    assert [] + acts == acts;
    var s := Exec(EmptyStore<V>(), acts);
    if t in s.callers { assert CallerTold(acts, s, t); }
  }
}
