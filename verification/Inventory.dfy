/** Stock items, reservations and the rules for reserving and releasing, as values. */
module Inventory {
  import opened Prelude
  import opened Text

  datatype StockItem = StockItem(sku: string, available: int, reserved: int)

  datatype Status = Active | Released | UnsupportedStatus(name: string)

  datatype Reservation = Reservation(
    id: string, sku: string, quantity: int, status: Status, createdAt: Time, releasedAt: Option<Time>)

  /** The service computes in 64-bit integers; proofs use unbounded ones wherever the two agree. */
  datatype Arithmetic = Unbounded | Int64

  function Fit(a: Arithmetic, x: int): int {
    if a.Int64? then Wrap64(x) else x
  }

  function ValidateStockItem(i: StockItem): Option<Error> {
    if Trim(i.sku) == "" then Some(InvalidArgument)
    else if i.available < 0 then Some(StockInvariantViolation)
    else if i.reserved < 0 then Some(StockInvariantViolation)
    else None
  }

  function NewStockItem(sku: string, available: int): Result<StockItem> {
    var item := StockItem(Trim(sku), available, 0);
    match ValidateStockItem(item)
    case Some(e) => Err(e)
    case None => Ok(item)
  }

  function ValidateReservation(r: Reservation): Option<Error> {
    if Trim(r.id) == "" then Some(InvalidArgument)
    else if Trim(r.sku) == "" then Some(InvalidArgument)
    else if r.quantity <= 0 then Some(InvalidArgument)
    else if r.status.UnsupportedStatus? then Some(InvalidArgument)
    else None
  }

  /** Which items and records the service works on at all. */
  predicate ItemOk(i: StockItem) {
    Trim(i.sku) != "" && 0 <= i.available && 0 <= i.reserved
  }

  predicate RecordOk(r: Reservation) {
    Trim(r.id) != "" && Trim(r.sku) != "" && 0 < r.quantity && (r.status == Active || r.status == Released)
  }

  lemma ValidateIff(i: StockItem, r: Reservation)
    ensures ValidateStockItem(i).None? <==> ItemOk(i)
    ensures ValidateStockItem(i).Some? ==>
              ValidateStockItem(i).value == if Trim(i.sku) == "" then InvalidArgument else StockInvariantViolation
    ensures ValidateReservation(r) == if RecordOk(r) then None else Some(InvalidArgument)
  {
  }

  function ServiceReserve(a: Arithmetic, item: StockItem, id: string, quantity: int, now: Time)
    : Result<(StockItem, Reservation)>
  {
    match ValidateStockItem(item)
    case Some(e) => Err(e)
    case None =>
      if Trim(id) == "" then Err(InvalidArgument)
      else if quantity <= 0 then Err(InvalidArgument)
      else if item.available < quantity then Err(InsufficientStock)
      else
        Ok((item.(available := Fit(a, item.available - quantity), reserved := Fit(a, item.reserved + quantity)),
            Reservation(Trim(id), item.sku, quantity, Active, now, None)))
  }

  function ServiceRelease(a: Arithmetic, item: StockItem, r: Reservation, now: Time)
    : Result<(StockItem, Reservation)>
  {
    match ValidateStockItem(item)
    case Some(e) => Err(e)
    case None =>
      match ValidateReservation(r)
      case Some(e) => Err(e)
      case None =>
        if r.status != Active then Err(ReservationNotActive)
        else if item.sku != r.sku then Err(InvalidArgument)
        else if item.reserved < r.quantity then Err(StockInvariantViolation)
        else
          Ok((item.(available := Fit(a, item.available + r.quantity), reserved := Fit(a, item.reserved - r.quantity)),
              r.(status := Released, releasedAt := Some(now))))
  }

  /** On any item, exactly when the service reserves, what it returns, and which error otherwise. */
  lemma ServiceReserveIff(item: StockItem, id: string, quantity: int, now: Time)
    ensures
      var r := ServiceReserve(Unbounded, item, id, quantity, now);
      && (r.Ok? <==> ItemOk(item) && Trim(id) != "" && 0 < quantity <= item.available)
      && (r.Ok? ==>
            r.value == (StockItem(item.sku, item.available - quantity, item.reserved + quantity),
                        Reservation(Trim(id), item.sku, quantity, Active, now, None)))
      && (r.Err? && ItemOk(item) ==>
            r.error == if Trim(id) == "" || quantity <= 0 then InvalidArgument else InsufficientStock)
  {
  }

  /** On any item and record, exactly when the service releases, what it returns, and which error otherwise. */
  lemma ServiceReleaseIff(item: StockItem, r: Reservation, now: Time)
    ensures
      var s := ServiceRelease(Unbounded, item, r, now);
      && (s.Ok? <==> ItemOk(item) && RecordOk(r) && r.status == Active && item.sku == r.sku && r.quantity <= item.reserved)
      && (s.Ok? ==>
            s.value == (StockItem(item.sku, item.available + r.quantity, item.reserved - r.quantity),
                        r.(status := Released, releasedAt := Some(now))))
      && (s.Err? && ItemOk(item) ==>
            s.error == if !RecordOk(r) then InvalidArgument
                       else if r.status != Active then ReservationNotActive
                       else if item.sku != r.sku then InvalidArgument
                       else StockInvariantViolation)
  {
  }
}
