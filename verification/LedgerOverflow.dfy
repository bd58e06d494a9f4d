/** When the unbounded integers of the ledger proofs and the service's 64-bit integers agree. */
module LedgerOverflow {
  import opened Prelude
  import opened Text
  import opened Inventory
  import opened Ledger
  import opened LedgerRuns

  /** No SKU has more units, free and reserved together, than a 64-bit integer holds. */
  predicate Bounded(l: Ledger) {
    forall k | k in l.stock :: Total(l, k) <= MAX_INT64
  }

  /** Each counter on its own is a 64-bit integer, as it must be in the service. */
  predicate Representable(l: Ledger) {
    forall k | k in l.stock :: IsInt64(l.stock[k].available) && IsInt64(l.stock[k].reserved)
  }

  lemma CountersFit(item: StockItem, change: int)
    requires 0 <= item.available && 0 <= item.reserved && item.available + item.reserved <= MAX_INT64
    requires -item.reserved <= change <= item.available
    ensures Fit(Int64, item.available - change) == item.available - change
    ensures Fit(Int64, item.reserved + change) == item.reserved + change
  {
  }

  lemma StepAgrees(l: Ledger, op: Op)
    requires Inv(l) && Bounded(l)
    ensures Apply(Int64, l, op) == Apply(Unbounded, l, op)
  {
    ReservedCovers(l);
    match op
    case SetStockOp(c, sku, n) =>
    case ReserveOp(c, id, sku, n, now) =>
      if Trim(sku) in l.stock {
        assert Total(l, Trim(sku)) <= MAX_INT64;
        if 0 < n <= l.stock[Trim(sku)].available { CountersFit(l.stock[Trim(sku)], n); }
        ReserveSame(l.stock[Trim(sku)], Trim(id), n, now);
      }
    case ReleaseOp(c, id, now) =>
      if Trim(id) in l.reservations {
        var r := l.reservations[Trim(id)];
        assert Total(l, r.sku) <= MAX_INT64;
        if r.quantity <= l.stock[r.sku].reserved { CountersFit(l.stock[r.sku], -r.quantity); }
        ReleaseSame(l.stock[r.sku], r, now);
      }
  }

  lemma ReserveSame(item: StockItem, id: string, n: int, now: Time)
    requires 0 < n <= item.available ==>
               Fit(Int64, item.available - n) == item.available - n && Fit(Int64, item.reserved + n) == item.reserved + n
    ensures ServiceReserve(Int64, item, id, n, now) == ServiceReserve(Unbounded, item, id, n, now)
  {
  }

  lemma ReleaseSame(item: StockItem, r: Reservation, now: Time)
    requires r.quantity <= item.reserved ==>
               Fit(Int64, item.available + r.quantity) == item.available + r.quantity
               && Fit(Int64, item.reserved - r.quantity) == item.reserved - r.quantity
    ensures ServiceRelease(Int64, item, r, now) == ServiceRelease(Unbounded, item, r, now)
  {
  }

  /** Every SetStock of the run leaves totals that fit. */
  ghost predicate RestocksFit(l: Ledger, ops: seq<Op>)
    decreases |ops|
  {
    ops == [] ||
    (&& (ops[0].SetStockOp? ==> Bounded(Apply(Unbounded, l, ops[0])))
     && RestocksFit(Apply(Unbounded, l, ops[0]), ops[1..]))
  }

  /** If every SetStock leaves totals that fit, no update of the whole run wraps around. */
  lemma {:induction false} RunAgrees(l: Ledger, ops: seq<Op>)
    requires Inv(l) && Bounded(l) && RestocksFit(l, ops)
    ensures Run(Int64, l, ops) == Run(Unbounded, l, ops)
    ensures Bounded(Run(Unbounded, l, ops)) && Representable(Run(Unbounded, l, ops))
    decreases |ops|
  {
    if ops == [] {
      ReservedCovers(l);
      forall k | k in l.stock ensures IsInt64(l.stock[k].available) && IsInt64(l.stock[k].reserved) {
        assert Total(l, k) <= MAX_INT64;
      }
    } else {
      var l' := Apply(Unbounded, l, ops[0]);
      StepAgrees(l, ops[0]);
      Conserves(l, ops[0]);
      ApplyInv(l, ops[0]);
      if !ops[0].SetStockOp? {
        forall k | k in l'.stock ensures Total(l', k) <= MAX_INT64 {
          assert Total(l, k) <= MAX_INT64;
        }
      }
      RunAgrees(l', ops[1..]);
    }
  }

  function Letters(n: nat): (s: string)
    ensures |s| == n
  {
    seq(n, i => 'r')
  }

  /** Some identifier is always free. */
  lemma {:induction false} LongerThanAll(ids: set<string>) returns (n: nat)
    ensures forall id | id in ids :: |id| < n
  {
    n := 1;
    if ids != {} {
      var id :| id in ids;
      n := LongerThanAll(ids - {id});
      if n <= |id| { n := |id| + 1; }
    }
  }

  lemma FreeIdentifier(l: Ledger) returns (id: string)
    ensures Trim(id) == id && id != "" && id !in l.reservations
  {
    var n := LongerThanAll(l.reservations.Keys);
    id := Letters(n + 1);
    BareIsFixed(id);
    assert id !in l.reservations.Keys;
  }

  /**
   * The bound is exact: a ledger is safe from wrap-around under every continuation without SetStock
   * if and only if its totals fit.
   */
  lemma OverflowFreeIffBounded(l: Ledger)
    requires Inv(l) && Representable(l)
    ensures Bounded(l) <==>
              (forall ops: seq<Op> | (forall i | 0 <= i < |ops| :: !ops[i].SetStockOp?) ::
                 Run(Int64, l, ops) == Run(Unbounded, l, ops))
  {
    if Bounded(l) {
      forall ops: seq<Op> | forall i | 0 <= i < |ops| :: !ops[i].SetStockOp?
        ensures Run(Int64, l, ops) == Run(Unbounded, l, ops)
      {
        WithoutRestock(l, ops);
        RunAgrees(l, ops);
      }
    } else {
      var op := SomeReserveWraps(l);
      assert forall i | 0 <= i < |[op]| :: ![op][i].SetStockOp?;
    }
  }

  /** Reserving everything that is left under a free identifier makes the reserved counter the total. */
  lemma SomeReserveWraps(l: Ledger) returns (op: Op)
    requires Inv(l) && Representable(l) && !Bounded(l)
    ensures !op.SetStockOp? && Run(Int64, l, [op]) != Run(Unbounded, l, [op])
  {
    var k :| k in l.stock && MAX_INT64 < Total(l, k);
    var id := FreeIdentifier(l);
    op := ReserveOp(false, id, k, l.stock[k].available, 0);
    TakingAllWraps(l, id, k);
    RunOne(Int64, l, op);
    RunOne(Unbounded, l, op);
  }

  lemma RunOne(a: Arithmetic, l: Ledger, op: Op)
    ensures Run(a, l, [op]) == Apply(a, l, op)
  {
    assert [op][1..] == [];
  }

  lemma TakingAllWraps(l: Ledger, id: string, k: string)
    requires Inv(l) && Representable(l) && k in l.stock && MAX_INT64 < Total(l, k)
    requires Trim(id) == id && id != "" && id !in l.reservations
    ensures
      var op := ReserveOp(false, id, k, l.stock[k].available, 0);
      Apply(Int64, l, op) != Apply(Unbounded, l, op)
  {
    ReservedCovers(l);
    assert Trim(k) == k;
    var item := l.stock[k];
    assert 0 < item.available;
    ReserveEffect(l, false, id, k, item.available, 0);
    assert Apply(Unbounded, l, ReserveOp(false, id, k, item.available, 0)).stock[k].reserved == Total(l, k);
    assert ServiceReserve(Int64, item, id, item.available, 0).value.0.reserved <= MAX_INT64;
    var l' := Reserve(Int64, l, false, id, k, item.available, 0).0;
    assert l'.stock == l.stock[k := ServiceReserve(Int64, item, id, item.available, 0).value.0];
  }

  lemma {:induction false} WithoutRestock(l: Ledger, ops: seq<Op>)
    requires forall i | 0 <= i < |ops| :: !ops[i].SetStockOp?
    ensures RestocksFit(l, ops)
    decreases |ops|
  {
    if ops != [] {
      WithoutRestock(Apply(Unbounded, l, ops[0]), ops[1..]);
    }
  }
}
