/** What holds over every sequence of ledger operations. */
module LedgerRuns {
  import opened Prelude
  import opened Text
  import opened Inventory
  import opened Ledger

  datatype Op =
    | SetStockOp(cancelled: bool, sku: string, available: int)
    | ReserveOp(cancelled: bool, id: string, sku: string, quantity: int, now: Time)
    | ReleaseOp(cancelled: bool, id: string, now: Time)

  function Apply(a: Arithmetic, l: Ledger, op: Op): Ledger {
    match op
    case SetStockOp(c, sku, n) => SetStock(l, c, sku, n).0
    case ReserveOp(c, id, sku, n, now) => Reserve(a, l, c, id, sku, n, now).0
    case ReleaseOp(c, id, now) => Release(a, l, c, id, now).0
  }

  predicate Succeeds(l: Ledger, op: Op) {
    match op
    case SetStockOp(c, sku, n) => SetStock(l, c, sku, n).1.Ok?
    case ReserveOp(c, id, sku, n, now) => Reserve(Unbounded, l, c, id, sku, n, now).1.Ok?
    case ReleaseOp(c, id, now) => Release(Unbounded, l, c, id, now).1.Ok?
  }

  function Run(a: Arithmetic, l: Ledger, ops: seq<Op>): Ledger
    decreases |ops|
  {
    if ops == [] then l else Run(a, Apply(a, l, ops[0]), ops[1..])
  }

  lemma ApplyInv(l: Ledger, op: Op)
    requires Inv(l)
    ensures Inv(Apply(Unbounded, l, op))
  {
    match op
    case SetStockOp(c, sku, n) => SetStockInv(l, c, sku, n);
    case ReserveOp(c, id, sku, n, now) => ReserveInv(l, c, id, sku, n, now);
    case ReleaseOp(c, id, now) => ReleaseInv(l, c, id, now);
  }

  lemma {:induction false} RunInv(l: Ledger, ops: seq<Op>)
    requires Inv(l)
    ensures Inv(Run(Unbounded, l, ops))
    decreases |ops|
  {
    if ops != [] {
      ApplyInv(l, ops[0]);
      RunInv(Apply(Unbounded, l, ops[0]), ops[1..]);
    }
  }

  lemma {:induction false} RunSplit(a: Arithmetic, l: Ledger, xs: seq<Op>, ys: seq<Op>)
    ensures Run(a, l, xs + ys) == Run(a, Run(a, l, xs), ys)
    decreases |xs|
  {
    if xs == [] {
      assert xs + ys == ys;
    } else {
      assert (xs + ys)[1..] == xs[1..] + ys;
      RunSplit(a, Apply(a, l, xs[0]), xs[1..], ys);
    }
  }

  lemma RunStep(a: Arithmetic, l: Ledger, ops: seq<Op>, i: nat)
    requires i < |ops|
    ensures Run(a, l, ops[..i + 1]) == Apply(a, Run(a, l, ops[..i]), ops[i])
  {
    assert ops[..i + 1] == ops[..i] + [ops[i]];
    RunSplit(a, l, ops[..i], [ops[i]]);
    assert [ops[i]][1..] == [];
  }

  // ---------------------------------------------------------------------------
  // Conservation
  // ---------------------------------------------------------------------------

  function Total(l: Ledger, k: string): int {
    if k in l.stock then l.stock[k].available + l.stock[k].reserved else 0
  }

  /** The one SKU whose counters an operation may touch. */
  function Touched(l: Ledger, op: Op): string {
    match op
    case SetStockOp(_, sku, _) => Trim(sku)
    case ReserveOp(_, _, sku, _, _) => Trim(sku)
    case ReleaseOp(_, id, _) => if Trim(id) in l.reservations then l.reservations[Trim(id)].sku else ""
  }

  predicate Restocks(op: Op, k: string) {
    op.SetStockOp? && Trim(op.sku) == k
  }

  /** Every operation leaves the other SKUs alone. */
  lemma TouchesOneItem(l: Ledger, op: Op)
    requires Inv(l)
    ensures forall k | k != Touched(l, op) ::
              (k in Apply(Unbounded, l, op).stock <==> k in l.stock)
              && (k in l.stock ==> Apply(Unbounded, l, op).stock[k] == l.stock[k])
    ensures !op.SetStockOp? ==> Apply(Unbounded, l, op).stock.Keys == l.stock.Keys
  {
    match op
    case SetStockOp(c, sku, n) => NewStockItemOk(sku, n);
    case ReserveOp(c, id, sku, n, now) => ReserveEffect(l, c, id, sku, n, now);
    case ReleaseOp(c, id, now) => ReleaseEffect(l, c, id, now);
  }

  /** Only SetStock can change what is available and reserved of a SKU together. */
  lemma Conserves(l: Ledger, op: Op)
    requires Inv(l)
    ensures forall k | !Restocks(op, k) ::
              Total(Apply(Unbounded, l, op), k) == Total(l, k) && (k in Apply(Unbounded, l, op).stock <==> k in l.stock)
  {
    TouchesOneItem(l, op);
    match op
    case SetStockOp(c, sku, n) =>
    case ReserveOp(c, id, sku, n, now) => ReserveEffect(l, c, id, sku, n, now);
    case ReleaseOp(c, id, now) => ReleaseEffect(l, c, id, now);
  }

  lemma {:induction false} RunConserves(l: Ledger, ops: seq<Op>, k: string)
    requires Inv(l)
    requires forall i | 0 <= i < |ops| :: !Restocks(ops[i], k)
    ensures Total(Run(Unbounded, l, ops), k) == Total(l, k)
    ensures k in Run(Unbounded, l, ops).stock <==> k in l.stock
    decreases |ops|
  {
    if ops != [] {
      Conserves(l, ops[0]);
      ApplyInv(l, ops[0]);
      RunConserves(Apply(Unbounded, l, ops[0]), ops[1..], k);
    }
  }

  /** A seeded SKU that is never restocked can never have more in active reservations than its seed. */
  lemma NeverOversold(seed: seq<Seed>, i: nat, ops: seq<Op>)
    requires Seeded(seed).Ok? && i < |seed|
    requires forall j | 0 <= j < |ops| :: !Restocks(ops[j], Trim(seed[i].sku))
    ensures
      var l := Run(Unbounded, Opened(seed), ops);
      var k := Trim(seed[i].sku);
      && k in l.stock
      && 0 <= ActiveSum(l.reservations, k) <= seed[i].available
      && l.stock[k].available == seed[i].available - ActiveSum(l.reservations, k)
  {
    var start := Opened(seed);
    SeededInv(seed);
    RunInv(start, ops);
    RunConserves(start, ops, Trim(seed[i].sku));
    ReservedCovers(Run(Unbounded, start, ops));
  }

  // ---------------------------------------------------------------------------
  // Life of a reservation
  // ---------------------------------------------------------------------------

  /** A record may only stay as it is or go from active to released. */
  predicate MayBecome(was: Reservation, now: Reservation) {
    now == was || (was.status == Active && now.releasedAt.Some? && now == was.(status := Released, releasedAt := now.releasedAt))
  }

  ghost predicate Evolves(l: Ledger, l': Ledger) {
    forall id | id in l.reservations :: id in l'.reservations && MayBecome(l.reservations[id], l'.reservations[id])
  }

  lemma ApplyEvolves(l: Ledger, op: Op)
    requires Inv(l)
    ensures Evolves(l, Apply(Unbounded, l, op))
  {
    match op
    case SetStockOp(c, sku, n) =>
    case ReserveOp(c, id, sku, n, now) => ReserveEffect(l, c, id, sku, n, now);
    case ReleaseOp(c, id, now) => ReleaseEffect(l, c, id, now);
  }

  /** Over any run, records are never removed and keep ID, SKU, quantity and creation time. */
  lemma {:induction false} RunEvolves(l: Ledger, ops: seq<Op>)
    requires Inv(l)
    ensures Evolves(l, Run(Unbounded, l, ops))
    decreases |ops|
  {
    if ops != [] {
      ApplyEvolves(l, ops[0]);
      ApplyInv(l, ops[0]);
      RunEvolves(Apply(Unbounded, l, ops[0]), ops[1..]);
    }
  }

  /** Both operations create, or both release, the same reservation. */
  predicate SameTransition(x: Op, y: Op) {
    || (x.ReserveOp? && y.ReserveOp? && Trim(x.id) == Trim(y.id))
    || (x.ReleaseOp? && y.ReleaseOp? && Trim(x.id) == Trim(y.id))
  }

  /** Over any run, each reservation is created at most once and released at most once. */
  lemma TransitionHappensOnce(l: Ledger, ops: seq<Op>, i: nat, j: nat)
    requires Inv(l)
    requires i < j < |ops| && SameTransition(ops[i], ops[j])
    ensures !(Succeeds(Run(Unbounded, l, ops[..i]), ops[i]) && Succeeds(Run(Unbounded, l, ops[..j]), ops[j]))
  {
    var before, mid := Run(Unbounded, l, ops[..i]), Run(Unbounded, l, ops[..i + 1]);
    RunInv(l, ops[..i]);
    RunStep(Unbounded, l, ops, i);
    ApplyInv(before, ops[i]);
    assert ops[..j] == ops[..i + 1] + ops[i + 1..j];
    RunSplit(Unbounded, l, ops[..i + 1], ops[i + 1..j]);
    RunEvolves(mid, ops[i + 1..j]);
    RunInv(mid, ops[i + 1..j]);
    var late := Run(Unbounded, l, ops[..j]);
    if Succeeds(before, ops[i]) { NotAgain(before, ops[i], late, ops[j]); }
  }

  /** Once a transition has happened, it fails in every ledger that evolved from there. */
  lemma NotAgain(before: Ledger, x: Op, late: Ledger, y: Op)
    requires Inv(before) && Succeeds(before, x) && Evolves(Apply(Unbounded, before, x), late) && Inv(late)
    requires SameTransition(x, y)
    ensures !Succeeds(late, y)
  {
    var mid := Apply(Unbounded, before, x);
    var i := Trim(x.id);
    if x.ReserveOp? {
      ReserveEffect(before, x.cancelled, x.id, x.sku, x.quantity, x.now);
      assert i in mid.reservations && i in late.reservations;
    } else {
      ReleaseEffect(before, x.cancelled, x.id, x.now);
      assert i in mid.reservations && MayBecome(mid.reservations[i], late.reservations[i]);
      ReleaseEffect(late, y.cancelled, y.id, y.now);
    }
  }

  // ---------------------------------------------------------------------------
  // Competing for the last units
  // ---------------------------------------------------------------------------

  /** Orders of one unit each of `k`, under pairwise different reservation IDs that are not in use. */
  predicate UnitOrders(l: Ledger, ops: seq<Op>, k: string) {
    && (forall i | 0 <= i < |ops| ::
          && ops[i].ReserveOp? && !ops[i].cancelled && ops[i].quantity == 1
          && Trim(ops[i].sku) == k && Trim(ops[i].id) != "" && Trim(ops[i].id) !in l.reservations)
    && (forall i, j | 0 <= i < j < |ops| :: ops[i].ReserveOp? && ops[j].ReserveOp? ==> Trim(ops[i].id) != Trim(ops[j].id))
  }

  function Successes(l: Ledger, ops: seq<Op>): nat
    decreases |ops|
  {
    if ops == [] then 0
    else (if Succeeds(l, ops[0]) then 1 else 0) + Successes(Apply(Unbounded, l, ops[0]), ops[1..])
  }

  function Min(x: int, y: int): int {
    if x < y then x else y
  }

  /** In whatever order they arrive, exactly as many unit orders go through as there are units. */
  lemma {:induction false} UnitOrdersFill(l: Ledger, ops: seq<Op>, k: string)
    requires Inv(l) && k in l.stock && UnitOrders(l, ops, k)
    ensures Successes(l, ops) == Min(|ops|, l.stock[k].available)
    decreases |ops|
  {
    if ops != [] {
      var op := ops[0];
      ReserveEffect(l, op.cancelled, op.id, op.sku, op.quantity, op.now);
      ApplyInv(l, op);
      var l' := Apply(Unbounded, l, op);
      forall i | 0 <= i < |ops[1..]|
        ensures
          && ops[1..][i].ReserveOp? && !ops[1..][i].cancelled && ops[1..][i].quantity == 1
          && Trim(ops[1..][i].sku) == k && Trim(ops[1..][i].id) != "" && Trim(ops[1..][i].id) !in l'.reservations
      {
        assert ops[1..][i] == ops[i + 1] && Trim(ops[0].id) != Trim(ops[i + 1].id);
      }
      UnitOrdersFill(l', ops[1..], k);
    }
  }
}
