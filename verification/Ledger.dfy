/** The inventory ledger: its operations as functions on values, and the invariant that ties its two maps together. */
module Ledger {
  import opened Prelude
  import opened Text
  import opened Inventory

  datatype Ledger = Ledger(stock: map<string, StockItem>, reservations: map<string, Reservation>)

  datatype Seed = Seed(sku: string, available: int)

  /** The stock built from a seed list, or the first error met. */
  function Seeded(seed: seq<Seed>): Result<map<string, StockItem>> {
    if seed == [] then Ok(map[])
    else
      match Seeded(seed[..|seed| - 1])
      case Err(e) => Err(e)
      case Ok(stock) => WithSeed(stock, seed[|seed| - 1])
  }

  /** The ledger a process starts with. */
  function Opened(seed: seq<Seed>): Ledger
    requires Seeded(seed).Ok?
  {
    Ledger(Seeded(seed).value, map[])
  }

  function WithSeed(stock: map<string, StockItem>, seed: Seed): Result<map<string, StockItem>> {
    match NewStockItem(seed.sku, seed.available)
    case Err(e) => Err(e)
    case Ok(item) => if item.sku in stock then Err(InvalidArgument) else Ok(stock[item.sku := item])
  }

  function SetStock(l: Ledger, cancelled: bool, sku: string, available: int): (Ledger, Result<StockItem>) {
    if cancelled then (l, Err(Cancelled))
    else
      match NewStockItem(sku, available)
      case Err(e) => (l, Err(e))
      case Ok(blank) =>
        var item := if blank.sku in l.stock then blank.(reserved := l.stock[blank.sku].reserved) else blank;
        (l.(stock := l.stock[item.sku := item]), Ok(item))
  }

  function Reserve(a: Arithmetic, l: Ledger, cancelled: bool, id: string, sku: string, quantity: int, now: Time)
    : (Ledger, Result<Reservation>)
  {
    if cancelled then (l, Err(Cancelled))
    else if Trim(id) == "" then (l, Err(InvalidArgument))
    else if Trim(sku) == "" then (l, Err(InvalidArgument))
    else if Trim(id) in l.reservations then (l, Err(ReservationAlreadyExists))
    else if Trim(sku) !in l.stock then (l, Err(StockItemNotFound))
    else
      match ServiceReserve(a, l.stock[Trim(sku)], Trim(id), quantity, now)
      case Err(e) => (l, Err(e))
      case Ok((item, r)) =>
        (Ledger(l.stock[Trim(sku) := item], l.reservations[r.id := r]), Ok(r))
  }

  function Release(a: Arithmetic, l: Ledger, cancelled: bool, id: string, now: Time): (Ledger, Result<Reservation>) {
    if cancelled then (l, Err(Cancelled))
    else if Trim(id) == "" then (l, Err(InvalidArgument))
    else if Trim(id) !in l.reservations then (l, Err(ReservationNotFound))
    else
      var r := l.reservations[Trim(id)];
      if r.sku !in l.stock then (l, Err(StockItemNotFound))
      else
        match ServiceRelease(a, l.stock[r.sku], r, now)
        case Err(e) => (l, Err(e))
        case Ok((item, released)) =>
          (Ledger(l.stock[r.sku := item], l.reservations[Trim(id) := released]), Ok(released))
  }

  // ---------------------------------------------------------------------------
  // The sum of active reservations
  // ---------------------------------------------------------------------------

  /** What one reservation contributes to the reserved quantity of `sku`. */
  function Held(r: Reservation, sku: string): int {
    if r.status == Active && r.sku == sku then r.quantity else 0
  }

  ghost function ActiveSum(m: map<string, Reservation>, sku: string): int {
    if m == map[] then 0
    else
      var id :| id in m;
      Held(m[id], sku) + ActiveSum(m - {id}, sku)
  }

  /** The sum does not depend on the order in which the map is taken apart. */
  lemma {:induction false} ActiveSumSplit(m: map<string, Reservation>, id: string, sku: string)
    requires id in m
    ensures ActiveSum(m, sku) == Held(m[id], sku) + ActiveSum(m - {id}, sku)
    decreases |m|
  {
    var first :| first in m && ActiveSum(m, sku) == Held(m[first], sku) + ActiveSum(m - {first}, sku);
    if first != id {
      ActiveSumSplit(m - {first}, id, sku);
      ActiveSumSplit(m - {id}, first, sku);
      assert m - {first} - {id} == m - {id} - {first};
    }
  }

  lemma ActiveSumPut(m: map<string, Reservation>, id: string, r: Reservation, sku: string)
    ensures id !in m ==> ActiveSum(m[id := r], sku) == ActiveSum(m, sku) + Held(r, sku)
    ensures id in m ==> ActiveSum(m[id := r], sku) == ActiveSum(m, sku) - Held(m[id], sku) + Held(r, sku)
  {
    ActiveSumSplit(m[id := r], id, sku);
    assert m[id := r] - {id} == m - {id};
    if id in m {
      ActiveSumSplit(m, id, sku);
    } else {
      assert m - {id} == m;
    }
  }

  lemma {:induction false} ActiveSumAtLeast(m: map<string, Reservation>, sku: string)
    requires forall id | id in m :: m[id].quantity > 0
    ensures 0 <= ActiveSum(m, sku)
    ensures forall id | id in m :: Held(m[id], sku) <= ActiveSum(m, sku)
    decreases |m|
  {
    if m != map[] {
      var id :| id in m;
      ActiveSumSplit(m, id, sku);
      ActiveSumAtLeast(m - {id}, sku);
      forall k | k in m ensures Held(m[k], sku) <= ActiveSum(m, sku) {
        if k != id { assert (m - {id})[k] == m[k]; }
      }
    }
  }

  // ---------------------------------------------------------------------------
  // The ledger invariant
  // ---------------------------------------------------------------------------

  /** A usable map key: trimmed and not blank. */
  predicate IsKey(k: string) {
    Trim(k) == k && k != ""
  }

  predicate StockWellFormed(k: string, i: StockItem) {
    IsKey(k) && i.sku == k && 0 <= i.available
  }

  predicate ReservationWellFormed(k: string, r: Reservation) {
    && IsKey(k) && r.id == k && 0 < r.quantity
    && ((r.status == Active && r.releasedAt.None?) || (r.status == Released && r.releasedAt.Some?))
  }

  ghost predicate Inv(l: Ledger) {
    && (forall k | k in l.stock ::
          StockWellFormed(k, l.stock[k]) && l.stock[k].reserved == ActiveSum(l.reservations, k))
    && (forall k | k in l.reservations ::
          ReservationWellFormed(k, l.reservations[k]) && l.reservations[k].sku in l.stock)
  }

  lemma ReservedCovers(l: Ledger)
    requires Inv(l)
    ensures forall k | k in l.stock :: 0 <= l.stock[k].reserved
    ensures forall id, k | id in l.reservations && k in l.stock ::
              Held(l.reservations[id], k) <= l.stock[k].reserved
  {
    forall k | k in l.stock
      ensures 0 <= l.stock[k].reserved
      ensures forall id | id in l.reservations :: Held(l.reservations[id], k) <= l.stock[k].reserved
    {
      ActiveSumAtLeast(l.reservations, k);
    }
  }

  /** A SKU that is not in stock has no reservation, so its sum is zero. */
  lemma {:induction false} ActiveSumUnknown(m: map<string, Reservation>, sku: string)
    requires forall id | id in m :: m[id].sku != sku
    ensures ActiveSum(m, sku) == 0
    decreases |m|
  {
    if m != map[] {
      var id :| id in m;
      ActiveSumSplit(m, id, sku);
      ActiveSumUnknown(m - {id}, sku);
    }
  }

  lemma KeyFromTrim(s: string)
    requires Trim(s) != ""
    ensures IsKey(Trim(s))
  {
    TrimIdempotent(s);
  }

  /** An accepted seed gives one item per seed entry, with nothing reserved, and a ledger that meets the invariant. */
  lemma SeededInv(seed: seq<Seed>)
    requires Seeded(seed).Ok?
    ensures Inv(Opened(seed))
    ensures forall i | 0 <= i < |seed| ::
              Trim(seed[i].sku) in Seeded(seed).value
              && Seeded(seed).value[Trim(seed[i].sku)] == StockItem(Trim(seed[i].sku), seed[i].available, 0)
    ensures |Seeded(seed).value| == |seed|
  {
    SeededItems(seed);
  }

  lemma {:induction false} SeededItems(seed: seq<Seed>)
    requires Seeded(seed).Ok?
    ensures forall k | k in Seeded(seed).value ::
              StockWellFormed(k, Seeded(seed).value[k]) && Seeded(seed).value[k].reserved == 0
    ensures forall i | 0 <= i < |seed| ::
              Trim(seed[i].sku) in Seeded(seed).value
              && Seeded(seed).value[Trim(seed[i].sku)] == StockItem(Trim(seed[i].sku), seed[i].available, 0)
    ensures |Seeded(seed).value| == |seed|
  {
    if seed != [] {
      var init := seed[..|seed| - 1];
      SeededItems(init);
      var last := seed[|seed| - 1];
      NewStockItemOk(last.sku, last.available);
      assert Seeded(seed) == WithSeed(Seeded(init).value, last);
      forall i | 0 <= i < |seed|
        ensures Trim(seed[i].sku) in Seeded(seed).value
        ensures Seeded(seed).value[Trim(seed[i].sku)] == StockItem(Trim(seed[i].sku), seed[i].available, 0)
      {
        if i < |init| { assert seed[i] == init[i]; }
      }
    }
  }

  lemma NewStockItemOk(sku: string, available: int)
    ensures NewStockItem(sku, available).Ok? <==> Trim(sku) != "" && 0 <= available
    ensures NewStockItem(sku, available).Ok? ==>
              NewStockItem(sku, available).value == StockItem(Trim(sku), available, 0) && IsKey(Trim(sku))
    ensures NewStockItem(sku, available).Err? ==>
              NewStockItem(sku, available).error == if Trim(sku) == "" then InvalidArgument else StockInvariantViolation
  {
    TrimIdempotent(sku);
  }

  /** Two entries of a seed list are for the same SKU. */
  predicate Repeats(seed: seq<Seed>, i: nat)
    requires i < |seed|
  {
    exists j: nat :: j < i && Trim(seed[j].sku) == Trim(seed[i].sku)
  }

  predicate GoodSeed(seed: seq<Seed>, i: nat)
    requires i < |seed|
  {
    Trim(seed[i].sku) != "" && 0 <= seed[i].available && !Repeats(seed, i)
  }

  predicate AllGood(seed: seq<Seed>) {
    forall i: nat | i < |seed| :: GoodSeed(seed, i)
  }

  lemma AllGoodLast(seed: seq<Seed>)
    requires seed != []
    ensures AllGood(seed) <==> AllGood(seed[..|seed| - 1]) && GoodSeed(seed, |seed| - 1)
  {
    var n := |seed| - 1;
    var init := seed[..n];
    forall i: nat | i < n ensures GoodSeed(init, i) <==> GoodSeed(seed, i) { GoodSeedOfInit(seed, i); }
    if AllGood(seed) {
      forall i: nat | i < |init| ensures GoodSeed(init, i) { assert GoodSeed(seed, i); }
    }
    if AllGood(init) && GoodSeed(seed, n) {
      forall i: nat | i < |seed| ensures GoodSeed(seed, i) { assert i < n ==> GoodSeed(init, i); }
    }
  }

  /** A seed list is accepted exactly if every entry has a SKU of its own and a quantity that is not negative. */
  lemma {:induction false} SeededIff(seed: seq<Seed>)
    ensures Seeded(seed).Ok? <==> AllGood(seed)
  {
    if seed != [] {
      SeededIff(seed[..|seed| - 1]);
      AllGoodLast(seed);
      if Seeded(seed[..|seed| - 1]).Ok? { LastSeedIff(seed); }
    }
  }

  lemma LastSeedIff(seed: seq<Seed>)
    requires seed != [] && Seeded(seed[..|seed| - 1]).Ok?
    ensures Seeded(seed).Ok? <==> GoodSeed(seed, |seed| - 1)
    ensures Seeded(seed).Err? ==>
              var last := seed[|seed| - 1];
              Seeded(seed).error == if Trim(last.sku) != "" && last.available < 0 then StockInvariantViolation else InvalidArgument
  {
    var last := seed[|seed| - 1];
    NewStockItemOk(last.sku, last.available);
    RepeatsIff(seed);
    assert Seeded(seed) == WithSeed(Seeded(seed[..|seed| - 1]).value, last);
  }

  /** Otherwise the first entry that is not good decides the error. */
  lemma {:induction false} SeededError(seed: seq<Seed>) returns (i: nat)
    requires Seeded(seed).Err?
    ensures i < |seed| && AllGood(seed[..i]) && !GoodSeed(seed, i)
    ensures Seeded(seed).error ==
              if Trim(seed[i].sku) != "" && seed[i].available < 0 then StockInvariantViolation else InvalidArgument
  {
    var n := |seed| - 1;
    if Seeded(seed[..n]).Err? {
      i := SeededError(seed[..n]);
      GoodSeedOfInit(seed, i);
      assert seed[..n][..i] == seed[..i] && seed[..n][i] == seed[i];
    } else {
      i := n;
      SeededIff(seed[..n]);
      LastSeedIff(seed);
    }
  }

  lemma GoodSeedOfInit(seed: seq<Seed>, i: nat)
    requires i < |seed| - 1
    ensures GoodSeed(seed[..|seed| - 1], i) <==> GoodSeed(seed, i)
  {
    var init := seed[..|seed| - 1];
    assert init[i] == seed[i];
    if Repeats(seed, i) {
      var j: nat :| j < i && Trim(seed[j].sku) == Trim(seed[i].sku);
      assert init[j] == seed[j];
    }
    if Repeats(init, i) {
      var j: nat :| j < i && Trim(init[j].sku) == Trim(init[i].sku);
      assert init[j] == seed[j];
    }
  }

  /** The seeded SKUs are those of the list. */
  lemma {:induction false} SeededKeys(seed: seq<Seed>)
    requires Seeded(seed).Ok?
    ensures forall k | k in Seeded(seed).value :: exists j: nat :: j < |seed| && Trim(seed[j].sku) == k
  {
    if seed != [] {
      var n := |seed| - 1;
      SeededKeys(seed[..n]);
      NewStockItemOk(seed[n].sku, seed[n].available);
      forall k | k in Seeded(seed).value ensures exists j: nat :: j < |seed| && Trim(seed[j].sku) == k {
        if k in Seeded(seed[..n]).value {
          var j: nat :| j < n && Trim(seed[..n][j].sku) == k;
          assert seed[j] == seed[..n][j];
        } else {
          assert k == Trim(seed[n].sku);
        }
      }
    }
  }

  lemma RepeatsIff(seed: seq<Seed>)
    requires seed != [] && Seeded(seed[..|seed| - 1]).Ok?
    ensures Trim(seed[|seed| - 1].sku) in Seeded(seed[..|seed| - 1]).value <==> Repeats(seed, |seed| - 1)
  {
    var n := |seed| - 1;
    var init := seed[..n];
    SeededItems(init);
    SeededKeys(init);
    if Repeats(seed, n) {
      var j: nat :| j < n && Trim(seed[j].sku) == Trim(seed[n].sku);
      assert init[j] == seed[j];
    }
    if Trim(seed[n].sku) in Seeded(init).value {
      var j: nat :| j < n && Trim(init[j].sku) == Trim(seed[n].sku);
      assert init[j] == seed[j];
    }
  }

  /** Exactly when a stock update goes through, and what it does: it sets the free units and keeps the reserved ones. */
  lemma SetStockEffect(l: Ledger, cancelled: bool, sku: string, available: int)
    ensures
      var (l', r) := SetStock(l, cancelled, sku, available);
      var k := Trim(sku);
      var item := StockItem(k, available, if k in l.stock then l.stock[k].reserved else 0);
      && (r.Ok? <==> !cancelled && k != "" && 0 <= available)
      && (r.Ok? ==> r.value == item && l'.stock == l.stock[k := item] && l'.reservations == l.reservations)
      && (r.Err? ==>
            && l' == l
            && r.error == if cancelled then Cancelled else if k == "" then InvalidArgument else StockInvariantViolation)
  {
    NewStockItemOk(sku, available);
  }

  lemma SetStockInv(l: Ledger, cancelled: bool, sku: string, available: int)
    requires Inv(l)
    ensures Inv(SetStock(l, cancelled, sku, available).0)
  {
    NewStockItemOk(sku, available);
    if Trim(sku) !in l.stock {
      ActiveSumUnknown(l.reservations, Trim(sku));
    }
  }

  /** On a well-formed item the service refuses a reservation for three reasons only. */
  lemma ServiceReserveCases(item: StockItem, id: string, quantity: int, now: Time)
    requires StockWellFormed(item.sku, item) && 0 <= item.reserved && IsKey(id)
    ensures
      ServiceReserve(Unbounded, item, id, quantity, now) ==
        if quantity <= 0 then Err(InvalidArgument)
        else if item.available < quantity then Err(InsufficientStock)
        else Ok((StockItem(item.sku, item.available - quantity, item.reserved + quantity),
                 Reservation(id, item.sku, quantity, Active, now, None)))
  {
  }

  lemma ReserveFound(l: Ledger, id: string, sku: string, quantity: int, now: Time)
    requires Trim(id) != "" && Trim(sku) != "" && Trim(id) !in l.reservations && Trim(sku) in l.stock
    requires StockWellFormed(Trim(sku), l.stock[Trim(sku)]) && 0 <= l.stock[Trim(sku)].reserved
    ensures
      var (i, k) := (Trim(id), Trim(sku));
      var item := l.stock[k];
      var r := Reservation(i, k, quantity, Active, now, None);
      Reserve(Unbounded, l, false, id, sku, quantity, now) ==
        if quantity <= 0 then (l, Err(InvalidArgument))
        else if item.available < quantity then (l, Err(InsufficientStock))
        else
          (Ledger(l.stock[k := StockItem(k, item.available - quantity, item.reserved + quantity)], l.reservations[i := r]), Ok(r))
  {
    KeyFromTrim(id);
    ServiceReserveCases(l.stock[Trim(sku)], Trim(id), quantity, now);
  }

  /** Exactly when a reservation goes through, and what it does. */
  lemma ReserveEffect(l: Ledger, cancelled: bool, id: string, sku: string, quantity: int, now: Time)
    requires Inv(l)
    ensures
      var (l', r) := Reserve(Unbounded, l, cancelled, id, sku, quantity, now);
      var (i, k) := (Trim(id), Trim(sku));
      && (r.Ok? <==> !cancelled && i != "" && i !in l.reservations && k in l.stock && 0 < quantity <= l.stock[k].available)
      && (r.Err? ==>
            && l' == l
            && r.error ==
                 if cancelled then Cancelled
                 else if i == "" || k == "" then InvalidArgument
                 else if i in l.reservations then ReservationAlreadyExists
                 else if k !in l.stock then StockItemNotFound
                 else if quantity <= 0 then InvalidArgument
                 else InsufficientStock)
      && (r.Ok? ==>
            && r.value == Reservation(i, k, quantity, Active, now, None)
            && l'.reservations == l.reservations[i := r.value]
            && l'.stock == l.stock[k := StockItem(k, l.stock[k].available - quantity, l.stock[k].reserved + quantity)])
  {
    var (i, k) := (Trim(id), Trim(sku));
    assert k in l.stock ==> StockWellFormed(k, l.stock[k]);
    if !cancelled && i != "" && k != "" && i !in l.reservations && k in l.stock {
      assert 0 <= l.stock[k].reserved by { ReservedCovers(l); }
      ReserveFound(l, id, sku, quantity, now);
    }
  }

  lemma ReserveInv(l: Ledger, cancelled: bool, id: string, sku: string, quantity: int, now: Time)
    requires Inv(l)
    ensures Inv(Reserve(Unbounded, l, cancelled, id, sku, quantity, now).0)
  {
    ReserveEffect(l, cancelled, id, sku, quantity, now);
    var (l', r) := Reserve(Unbounded, l, cancelled, id, sku, quantity, now);
    if r.Ok? {
      TrimIdempotent(id);
      forall k | k in l'.stock
        ensures StockWellFormed(k, l'.stock[k]) && l'.stock[k].reserved == ActiveSum(l'.reservations, k)
      {
        ActiveSumPut(l.reservations, Trim(id), r.value, k);
      }
    }
  }

  /**
   * Exactly when a release goes through, and what it does. The only refusals left are the blank,
   * unknown and already released reservation: the checks on the stock item can never fail.
   */
  lemma ReleaseEffect(l: Ledger, cancelled: bool, id: string, now: Time)
    requires Inv(l)
    ensures
      var (l', r) := Release(Unbounded, l, cancelled, id, now);
      var i := Trim(id);
      && (r.Ok? <==> !cancelled && i in l.reservations && l.reservations[i].status == Active)
      && (r.Err? ==>
            && l' == l
            && r.error ==
                 if cancelled then Cancelled
                 else if i == "" then InvalidArgument
                 else if i in l.reservations then ReservationNotActive
                 else ReservationNotFound)
      && (r.Ok? ==>
            var was := l.reservations[i];
            var item := l.stock[was.sku];
            && r.value == was.(status := Released, releasedAt := Some(now))
            && l'.reservations == l.reservations[i := r.value]
            && l'.stock == l.stock[was.sku :=
                 StockItem(was.sku, item.available + was.quantity, item.reserved - was.quantity)])
  {
    ReservedCovers(l);
    var i := Trim(id);
    if i in l.reservations {
      var r := l.reservations[i];
      assert ValidateStockItem(l.stock[r.sku]).None?;
      assert ValidateReservation(r).None? by { assert IsKey(r.id) && IsKey(r.sku); }
      assert Held(r, r.sku) <= l.stock[r.sku].reserved;
    }
  }

  lemma ReleaseInv(l: Ledger, cancelled: bool, id: string, now: Time)
    requires Inv(l)
    ensures Inv(Release(Unbounded, l, cancelled, id, now).0)
  {
    ReleaseEffect(l, cancelled, id, now);
    var (l', r) := Release(Unbounded, l, cancelled, id, now);
    if r.Ok? {
      forall k | k in l'.stock
        ensures StockWellFormed(k, l'.stock[k]) && l'.stock[k].reserved == ActiveSum(l'.reservations, k)
      {
        ActiveSumPut(l.reservations, Trim(id), r.value, k);
      }
    }
  }
}
