/** The inventory service and repository as they run: objects updated in place, shared through two maps. */
module Repository {
  import opened Prelude
  import opened Text
  import Inventory
  import Ledger

  class StockItem {
    var sku: string
    var available: int
    var reserved: int

    ghost function View(): Inventory.StockItem
      reads this
    {
      Inventory.StockItem(sku, available, reserved)
    }

    constructor (sku: string, available: int, reserved: int)
      ensures View() == Inventory.StockItem(sku, available, reserved)
    {
      this.sku, this.available, this.reserved := sku, available, reserved;
    }

    /** A copy that later updates of the item do not reach. */
    method Clone() returns (v: Inventory.StockItem)
      ensures v == View()
    {
      v := Inventory.StockItem(sku, available, reserved);
    }
  }

  class Reservation {
    var id: string
    var sku: string
    var quantity: int
    var status: Inventory.Status
    var createdAt: Time
    var releasedAt: Option<Time>

    ghost function View(): Inventory.Reservation
      reads this
    {
      Inventory.Reservation(id, sku, quantity, status, createdAt, releasedAt)
    }

    constructor (id: string, sku: string, quantity: int, createdAt: Time)
      ensures View() == Inventory.Reservation(id, sku, quantity, Inventory.Active, createdAt, None)
    {
      this.id, this.sku, this.quantity, this.createdAt := id, sku, quantity, createdAt;
      this.status, this.releasedAt := Inventory.Active, None;
    }

    method Clone() returns (v: Inventory.Reservation)
      ensures v == View()
    {
      v := Inventory.Reservation(id, sku, quantity, status, createdAt, releasedAt);
    }
  }

  method ValidateStockItem(item: StockItem?) returns (err: Option<Error>)
    ensures item == null ==> err == Some(InvalidArgument)
    ensures item != null ==> err == Inventory.ValidateStockItem(item.View())
  {
    if item == null { return Some(InvalidArgument); }
    if Trim(item.sku) == "" { return Some(InvalidArgument); }
    if item.available < 0 { return Some(StockInvariantViolation); }
    if item.reserved < 0 { return Some(StockInvariantViolation); }
    return None;
  }

  /** Create an item with nothing reserved, unless its SKU or quantity is unusable. */
  method NewStockItem(sku: string, available: int) returns (item: StockItem?, err: Option<Error>)
    ensures match Inventory.NewStockItem(sku, available)
            case Err(e) => item == null && err == Some(e)
            case Ok(v) => err.None? && item != null && fresh(item) && item.View() == v
  {
    item := new StockItem(Trim(sku), available, 0);
    err := ValidateStockItem(item);
    if err.Some? { item := null; }
  }

  method ValidateReservation(r: Reservation?) returns (err: Option<Error>)
    ensures r == null ==> err == Some(InvalidArgument)
    ensures r != null ==> err == Inventory.ValidateReservation(r.View())
  {
    if r == null { return Some(InvalidArgument); }
    if Trim(r.id) == "" { return Some(InvalidArgument); }
    if Trim(r.sku) == "" { return Some(InvalidArgument); }
    if r.quantity <= 0 { return Some(InvalidArgument); }
    if r.status.UnsupportedStatus? { return Some(InvalidArgument); }
    return None;
  }

  function Footprint(o: object?): set<object> {
    if o == null then {} else {o}
  }

  /** Take units of the item and create the reservation, or change nothing. */
  method ServiceReserve(item: StockItem?, id: string, quantity: int, now: Time)
    returns (r: Reservation?, err: Option<Error>)
    modifies Footprint(item)
    ensures item == null ==> r == null && err == Some(InvalidArgument)
    ensures item != null ==>
              match Inventory.ServiceReserve(Inventory.Unbounded, old(item.View()), id, quantity, now)
              case Err(e) => r == null && err == Some(e) && item.View() == old(item.View())
              case Ok((item', r')) =>
                r != null && fresh(r) && r.View() == r' && err.None? && item.View() == item'
  {
    err := ValidateStockItem(item);
    if err.Some? { return null, err; }
    if Trim(id) == "" { return null, Some(InvalidArgument); }
    if quantity <= 0 { return null, Some(InvalidArgument); }
    if item.available < quantity { return null, Some(InsufficientStock); }
    item.available := item.available - quantity;
    item.reserved := item.reserved + quantity;
    r := new Reservation(Trim(id), item.sku, quantity, now);
    return r, None;
  }

  /** Give the units back and mark the reservation released, or change nothing. */
  method ServiceRelease(item: StockItem?, r: Reservation?, now: Time) returns (err: Option<Error>)
    modifies Footprint(item), Footprint(r)
    ensures item == null ==> err == Some(InvalidArgument) && (r != null ==> r.View() == old(r.View()))
    ensures item != null && r == null ==>
              && item.View() == old(item.View())
              && err == match Inventory.ValidateStockItem(old(item.View()))
                        case Some(e) => Some(e)
                        case None => Some(InvalidArgument)
    ensures item != null && r != null ==>
              match Inventory.ServiceRelease(Inventory.Unbounded, old(item.View()), old(r.View()), now)
              case Err(e) => err == Some(e) && item.View() == old(item.View()) && r.View() == old(r.View())
              case Ok((item', r')) => err.None? && item.View() == item' && r.View() == r'
  {
    err := ValidateStockItem(item);
    if err.Some? { return; }
    err := ValidateReservation(r);
    if err.Some? { return; }
    if r.status != Inventory.Active { return Some(ReservationNotActive); }
    if item.sku != r.sku { return Some(InvalidArgument); }
    if item.reserved < r.quantity { return Some(StockInvariantViolation); }
    item.available := item.available + r.quantity;
    item.reserved := item.reserved - r.quantity;
    r.status := Inventory.Released;
    r.releasedAt := Some(now);
  }

  class InventoryRepository {
    var stock: map<string, StockItem>
    var reservations: map<string, Reservation>

    /** Each object is filed under its own identifier, so no two keys share one. */
    ghost predicate Valid()
      reads this, stock.Values, reservations.Values
    {
      && (forall k | k in stock :: stock[k].sku == k)
      && (forall id | id in reservations :: reservations[id].id == id)
    }

    ghost function StockView(): map<string, Inventory.StockItem>
      reads this, stock.Values
    {
      map k | k in stock :: stock[k].View()
    }

    ghost function ReservationView(): map<string, Inventory.Reservation>
      reads this, reservations.Values
    {
      map id | id in reservations :: reservations[id].View()
    }

    ghost function View(): Ledger.Ledger
      reads this, stock.Values, reservations.Values
    {
      Ledger.Ledger(StockView(), ReservationView())
    }

    constructor ()
      ensures Valid() && View() == Ledger.Ledger(map[], map[])
      ensures stock == map[] && reservations == map[]
    {
      stock, reservations := map[], map[];
    }

    /** File an item under its SKU, in place of any other. */
    method PutStock(item: StockItem)
      requires Valid()
      modifies this`stock
      ensures stock == old(stock)[item.sku := item] && Valid()
      ensures StockView() == old(StockView())[item.sku := item.View()]
      ensures ReservationView() == old(ReservationView())
    {
      stock := stock[item.sku := item];
    }

    method PutReservation(r: Reservation)
      requires Valid()
      modifies this`reservations
      ensures reservations == old(reservations)[r.id := r] && Valid()
      ensures ReservationView() == old(ReservationView())[r.id := r.View()]
      ensures StockView() == old(StockView())
    {
      reservations := reservations[r.id := r];
    }

    /** An update of one item shows up under its own key only. */
    twostate lemma ItemUpdated(k: string)
      requires old(Valid()) && stock == old(stock) && k in stock
      requires forall j | j in stock && j != k :: unchanged(stock[j])
      ensures StockView() == old(StockView())[k := stock[k].View()]
    {
    }

    twostate lemma ReservationUpdated(id: string)
      requires old(Valid()) && reservations == old(reservations) && id in reservations
      requires forall j | j in reservations && j != id :: unchanged(reservations[j])
      ensures ReservationView() == old(ReservationView())[id := reservations[id].View()]
    {
    }

    /** Build a repository from a seed list, item by item, stopping at the first bad or repeated one. */
    static method New(seed: seq<Ledger.Seed>) returns (repository: InventoryRepository?, err: Option<Error>)
      ensures match Ledger.Seeded(seed)
              case Err(e) => repository == null && err == Some(e)
              case Ok(items) =>
                && err.None? && repository != null && fresh(repository)
                && repository.Valid() && repository.View() == Ledger.Ledger(items, map[])
                && (forall k | k in repository.stock :: fresh(repository.stock[k]))
    {
      var r := new InventoryRepository();
      for i := 0 to |seed|
        invariant fresh(r) && (forall k | k in r.stock :: fresh(r.stock[k])) && r.reservations == map[] && r.Valid()
        invariant Ledger.Seeded(seed[..i]) == Ok(r.StockView())
      {
        ghost var stock := r.StockView();
        SeededMore(seed, i, stock);
        var item, bad := NewStockItem(seed[i].sku, seed[i].available);
        if bad.Some? {
          SeedErrorStays(seed, i + 1);
          return null, bad;
        }
        if item.sku in r.stock {
          SeedErrorStays(seed, i + 1);
          return null, Some(InvalidArgument);
        }
        assert r.StockView() == stock;
        r.PutStock(item);
      }
      assert seed[..|seed|] == seed;
      return r, None;
    }

    /** Set the free quantity of a SKU; what is reserved stays reserved. The item is replaced by a new object. */
    method SetStock(cancelled: bool, sku: string, available: int) returns (v: Option<Inventory.StockItem>, err: Option<Error>)
      requires Valid()
      modifies this
      ensures Valid()
      ensures View() == Ledger.SetStock(old(View()), cancelled, sku, available).0
      ensures Pair(v, err) == Ledger.SetStock(old(View()), cancelled, sku, available).1
      ensures err.None? <==> v.Some?
      ensures reservations == old(reservations)
      ensures forall k | k in stock :: fresh(stock[k]) || (k in old(stock) && stock[k] == old(stock[k]))
    {
      if cancelled { return None, Some(Cancelled); }
      ghost var before := View();
      var item, bad := NewStockItem(sku, available);
      assert View() == before;
      if bad.Some? { return None, bad; }
      if item.sku in stock {
        assert before.stock[item.sku] == stock[item.sku].View();
        item.reserved := stock[item.sku].reserved;
      }
      assert View() == before;
      PutStock(item);
      var copy := item.Clone();
      return Some(copy), None;
    }

    /** Reserve on the item; the new record is not filed yet. */
    method TakeUnits(k: string, id: string, quantity: int, now: Time) returns (r: Reservation?, err: Option<Error>)
      requires Valid() && k in stock
      modifies stock[k]
      ensures Valid() && ReservationView() == old(ReservationView())
      ensures match Inventory.ServiceReserve(Inventory.Unbounded, old(stock[k].View()), id, quantity, now)
              case Err(e) => err == Some(e) && StockView() == old(StockView())
              case Ok((item, r')) =>
                err.None? && r != null && fresh(r) && r.View() == r' && StockView() == old(StockView())[k := item]
    {
      r, err := ServiceReserve(stock[k], id, quantity, now);
      ItemUpdated(k);
      assert ReservationView() == old(ReservationView());
    }

    /** The part of Reserve that runs once the item is found. */
    method ReserveFrom(k: string, id: string, quantity: int, now: Time)
      returns (v: Option<Inventory.Reservation>, err: Option<Error>)
      requires Valid() && k in stock
      modifies this`reservations, stock[k]
      ensures Valid() && stock == old(stock)
      ensures forall j | j in reservations :: fresh(reservations[j]) || (j in old(reservations) && reservations[j] == old(reservations[j]))
      ensures match Inventory.ServiceReserve(Inventory.Unbounded, old(stock[k].View()), id, quantity, now)
              case Err(e) => err == Some(e) && v.None? && StockView() == old(StockView()) && ReservationView() == old(ReservationView())
              case Ok((item, r)) =>
                && err.None? && v == Some(r)
                && StockView() == old(StockView())[k := item] && ReservationView() == old(ReservationView())[r.id := r]
    {
      var r, bad := TakeUnits(k, id, quantity, now);
      if bad.Some? { return None, bad; }
      PutReservation(r);
      var copy := r.Clone();
      return Some(copy), None;
    }

    method Reserve(cancelled: bool, id: string, sku: string, quantity: int, now: Time)
      returns (v: Option<Inventory.Reservation>, err: Option<Error>)
      requires Valid()
      modifies this, stock.Values
      ensures Valid()
      ensures View() == Ledger.Reserve(Inventory.Unbounded, old(View()), cancelled, id, sku, quantity, now).0
      ensures Pair(v, err) == Ledger.Reserve(Inventory.Unbounded, old(View()), cancelled, id, sku, quantity, now).1
      ensures err.None? <==> v.Some?
      ensures stock == old(stock)
      ensures forall k | k in reservations :: fresh(reservations[k]) || (k in old(reservations) && reservations[k] == old(reservations[k]))
    {
      if cancelled { return None, Some(Cancelled); }
      if Trim(id) == "" { return None, Some(InvalidArgument); }
      if Trim(sku) == "" { return None, Some(InvalidArgument); }
      if Trim(id) in reservations { return None, Some(ReservationAlreadyExists); }
      if Trim(sku) !in stock { return None, Some(StockItemNotFound); }
      v, err := ReserveFrom(Trim(sku), Trim(id), quantity, now);
    }

    /** Release the record and give its units back to the item. */
    method ReturnUnits(k: string, id: string, now: Time) returns (err: Option<Error>)
      requires Valid() && k in stock && id in reservations
      modifies stock[k], reservations[id]
      ensures Valid()
      ensures match Inventory.ServiceRelease(Inventory.Unbounded, old(stock[k].View()), old(reservations[id].View()), now)
              case Err(e) => err == Some(e) && StockView() == old(StockView()) && ReservationView() == old(ReservationView())
              case Ok((item, r)) =>
                && err.None? && reservations[id].View() == r
                && StockView() == old(StockView())[k := item] && ReservationView() == old(ReservationView())[id := r]
    {
      err := ServiceRelease(stock[k], reservations[id], now);
      ItemUpdated(k);
      ReservationUpdated(id);
    }

    /** The part of Release that runs once reservation and item are found. */
    method ReleaseInto(k: string, id: string, now: Time) returns (v: Option<Inventory.Reservation>, err: Option<Error>)
      requires Valid() && k in stock && id in reservations
      modifies stock[k], reservations[id]
      ensures Valid()
      ensures match Inventory.ServiceRelease(Inventory.Unbounded, old(stock[k].View()), old(reservations[id].View()), now)
              case Err(e) => err == Some(e) && v.None? && StockView() == old(StockView()) && ReservationView() == old(ReservationView())
              case Ok((item, r)) =>
                && err.None? && v == Some(r)
                && StockView() == old(StockView())[k := item] && ReservationView() == old(ReservationView())[id := r]
    {
      var bad := ReturnUnits(k, id, now);
      if bad.Some? { return None, bad; }
      var copy := reservations[id].Clone();
      return Some(copy), None;
    }

    method Release(cancelled: bool, id: string, now: Time) returns (v: Option<Inventory.Reservation>, err: Option<Error>)
      requires Valid()
      modifies stock.Values, reservations.Values
      ensures Valid()
      ensures View() == Ledger.Release(Inventory.Unbounded, old(View()), cancelled, id, now).0
      ensures Pair(v, err) == Ledger.Release(Inventory.Unbounded, old(View()), cancelled, id, now).1
      ensures err.None? <==> v.Some?
    {
      if cancelled { return None, Some(Cancelled); }
      if Trim(id) == "" { return None, Some(InvalidArgument); }
      if Trim(id) !in reservations { return None, Some(ReservationNotFound); }
      if reservations[Trim(id)].sku !in stock { return None, Some(StockItemNotFound); }
      v, err := ReleaseInto(reservations[Trim(id)].sku, Trim(id), now);
    }

    method GetReservation(cancelled: bool, id: string) returns (v: Option<Inventory.Reservation>, err: Option<Error>)
      requires Valid()
      ensures cancelled ==> err == Some(Cancelled)
      ensures !cancelled && Trim(id) == "" ==> err == Some(InvalidArgument)
      ensures !cancelled && Trim(id) != "" ==>
                (Trim(id) in View().reservations <==> err.None?)
                && (err.None? ==> v == Some(View().reservations[Trim(id)]))
                && (err.Some? ==> err.value == ReservationNotFound)
      ensures err.Some? ==> v.None?
    {
      if cancelled { return None, Some(Cancelled); }
      if Trim(id) == "" { return None, Some(InvalidArgument); }
      if Trim(id) !in reservations { return None, Some(ReservationNotFound); }
      var copy := reservations[Trim(id)].Clone();
      return Some(copy), None;
    }
  }

  /** A Go pair of a value and an error, exactly one of which is set, as a result. */
  ghost function Pair<T>(v: Option<T>, err: Option<Error>): Result<T> {
    if err.Some? then Err(err.value) else if v.Some? then Ok(v.value) else Err(InvalidArgument)
  }

  lemma SeededMore(seed: seq<Ledger.Seed>, i: nat, stock: map<string, Inventory.StockItem>)
    requires i < |seed| && Ledger.Seeded(seed[..i]) == Ok(stock)
    ensures Ledger.Seeded(seed[..i + 1]) == Ledger.WithSeed(stock, seed[i])
  {
    assert seed[..i + 1][..i] == seed[..i];
  }

  lemma {:induction false} SeedErrorStays(seed: seq<Ledger.Seed>, i: nat)
    requires i <= |seed| && Ledger.Seeded(seed[..i]).Err?
    ensures Ledger.Seeded(seed) == Ledger.Seeded(seed[..i])
    decreases |seed| - i
  {
    if i == |seed| {
      assert seed[..i] == seed;
    } else {
      assert seed[..i + 1][..i] == seed[..i];
      SeedErrorStays(seed, i + 1);
    }
  }
}
