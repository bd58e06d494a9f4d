/** The three request handlers as objects over the shared repository and their idempotency stores. */
module HandlerObjects {
  import opened Prelude
  import opened Text
  import opened Requests
  import Handlers
  import opened Repository
  import opened IdempotencyStore

  class InventoryReservationHandler {
    const repository: InventoryRepository
    const store: Store<ReservationResult>

    constructor (repository: InventoryRepository, store: Store<ReservationResult>)
      ensures this.repository == repository && this.store == store
    {
      this.repository, this.store := repository, store;
    }

    /** Nobody is inside the store, as is always the case between two deliveries. */
    ghost predicate Idle()
      reads repository, repository.stock.Values, repository.reservations.Values, store
    {
      repository.Valid() && store.inFlight == map[]
    }

    /** Reserve, and turn a shortage of stock into a rejection. */
    method ReserveOperation(req: ReservationRequest, env: Handlers.Env) returns (r: Result<ReservationResult>)
      requires repository.Valid()
      modifies repository, repository.stock.Values
      ensures repository.Valid()
      ensures repository.View() == Handlers.ReserveOperation(old(repository.View()), req, env).0
      ensures r == Handlers.ReserveOperation(old(repository.View()), req, env).1
      ensures repository.stock == old(repository.stock)
      ensures forall k | k in repository.reservations ::
                fresh(repository.reservations[k])
                || (k in old(repository.reservations) && repository.reservations[k] == old(repository.reservations[k]))
    {
      var v, err := repository.Reserve(env.repoCancelled, req.reservationId, req.sku, req.quantity, env.now);
      if err.Some? {
        if err.value == InsufficientStock || err.value == StockItemNotFound {
          return Ok(ReservationResult(Rejected, false, req, None, OutOfStock));
        }
        return Err(err.value);
      }
      return Ok(ReservationResult(Confirmed, false, req, v, NotRejected));
    }

    /** The second critical section of Execute, which does not touch the repository. */
    method Commit(raw: string, call: Call<ReservationResult>, op: Result<ReservationResult>)
      requires repository.Valid() && store.inFlight == map[Trim(raw) := call] && !call.done
      modifies store, call
      ensures Idle() && repository.View() == old(repository.View())
      ensures store.entries == if op.Ok? then old(store.entries)[Trim(raw) := op.value] else old(store.entries)
    {
      ghost var ledger := repository.View();
      store.Finish(raw, call, op);
      assert repository.View() == ledger;
    }

    /** Execute on the store, with the reserve operation. */
    method Execute(req: ReservationRequest, env: Handlers.Env) returns (r: Result<(ReservationResult, bool)>)
      requires Idle()
      modifies repository, repository.stock.Values, store
      ensures Idle()
      ensures
        var raw := req.metadata.idempotencyKey;
        var l := old(repository.View());
        var misses := Handlers.Misses(old(store.entries), raw, env.innerCancelled);
        var (l', op) := if misses then Handlers.ReserveOperation(l, req, env) else (l, Err(Cancelled));
        && repository.View() == l'
        && (store.entries, r) == Handlers.Execute(old(store.entries), raw, env.innerCancelled, op)
      ensures repository.stock == old(repository.stock)
    {
      var raw := req.metadata.idempotencyKey;
      var begun := store.Begin(raw, env.innerCancelled);
      assert repository.View() == old(repository.View());
      match begun {
        case Refused(e) => return Err(e);
        case Found(v) => return Ok((v, true));
        case Own(call) =>
          var op := ReserveOperation(req, env);
          Commit(raw, call, op);
          return if op.Ok? then Ok((op.value, false)) else Err(op.error);
        case Join(_) => assert false;
      }
    }

    method HandleReservationRequested(req: ReservationRequest, env: Handlers.Env) returns (r: Result<ReservationResult>)
      requires Idle()
      modifies repository, repository.stock.Values, store
      ensures Idle()
      ensures
        var (a', r') := Handlers.HandleInner(Handlers.App(old(repository.View()), map[], old(store.entries), map[]), req, env);
        repository.View() == a'.ledger && store.entries == a'.inner && r == r'
      ensures repository.stock == old(repository.stock)
    {
      var answer := Execute(req, env);
      return Handlers.Deliver(answer, req, false);
    }
  }

  class FailureSimulationReservationHandler {
    const handler: InventoryReservationHandler
    const store: Store<ReservationResult>

    constructor (handler: InventoryReservationHandler, store: Store<ReservationResult>)
      requires store != handler.store
      ensures this.handler == handler && this.store == store
    {
      this.handler, this.store := handler, store;
    }

    ghost predicate Idle()
      reads handler.repository, handler.repository.stock.Values, handler.repository.reservations.Values, handler.store, store
    {
      handler.Idle() && store.inFlight == map[] && store != handler.store
    }

    ghost function View(releases: map<string, ReleaseResult>): Handlers.App
      reads handler.repository, handler.repository.stock.Values, handler.repository.reservations.Values, handler.store, store
    {
      Handlers.App(handler.repository.View(), store.entries, handler.store.entries, releases)
    }

    /** Reject as the failure mode says, or let the inventory handler answer. */
    method Operation(req: ReservationRequest, env: Handlers.Env) returns (r: Result<ReservationResult>)
      requires handler.Idle() && store != handler.store
      modifies handler.repository, handler.repository.stock.Values, handler.store
      ensures handler.Idle()
      ensures
        var (a', r') := Handlers.OuterOperation(
                          Handlers.App(old(handler.repository.View()), old(store.entries), old(handler.store.entries), map[]), req, env);
        handler.repository.View() == a'.ledger && handler.store.entries == a'.inner && r == r'
      ensures handler.repository.stock == old(handler.repository.stock)
    {
      if Handlers.ShouldReject(env) { return Ok(ReservationResult(Rejected, false, req, None, FailureMode)); }
      r := handler.HandleReservationRequested(req, env);
    }

    /** The second critical section of Execute, which touches neither the repository nor the inner store. */
    method Commit(raw: string, call: Call<ReservationResult>, op: Result<ReservationResult>)
      requires handler.Idle() && store != handler.store && store.inFlight == map[Trim(raw) := call] && !call.done
      modifies store, call
      ensures Idle() && handler.repository.View() == old(handler.repository.View())
      ensures handler.store.entries == old(handler.store.entries)
      ensures store.entries == if op.Ok? then old(store.entries)[Trim(raw) := op.value] else old(store.entries)
    {
      ghost var ledger := handler.repository.View();
      store.Finish(raw, call, op);
      assert handler.repository.View() == ledger;
    }

    /** Execute on the outer store, with the rejecting or forwarding operation. */
    method Execute(req: ReservationRequest, env: Handlers.Env) returns (r: Result<(ReservationResult, bool)>)
      requires Idle()
      modifies handler.repository, handler.repository.stock.Values, handler.store, store
      ensures Idle()
      ensures
        var raw := req.metadata.idempotencyKey;
        var a := old(View(map[]));
        var misses := Handlers.Misses(a.outer, raw, env.outerCancelled);
        var (a', op) := if misses then Handlers.OuterOperation(a, req, env) else (a, Err(Cancelled));
        && handler.repository.View() == a'.ledger && handler.store.entries == a'.inner
        && (store.entries, r) == Handlers.Execute(a.outer, raw, env.outerCancelled, op)
      ensures handler.repository.stock == old(handler.repository.stock)
    {
      var raw := req.metadata.idempotencyKey;
      var begun := store.Begin(raw, env.outerCancelled);
      assert handler.repository.View() == old(handler.repository.View());
      match begun {
        case Refused(e) => return Err(e);
        case Found(v) => return Ok((v, true));
        case Own(call) =>
          var op := Operation(req, env);
          Commit(raw, call, op);
          return if op.Ok? then Ok((op.value, false)) else Err(op.error);
        case Join(_) => assert false;
      }
    }

    method HandleReservationRequested(req: ReservationRequest, env: Handlers.Env, ghost releases: map<string, ReleaseResult>)
      returns (r: Result<ReservationResult>)
      requires Idle()
      modifies handler.repository, handler.repository.stock.Values, handler.store, store
      ensures Idle()
      ensures View(releases) == Handlers.HandleReservation(old(View(releases)), req, env).0
      ensures r == Handlers.HandleReservation(old(View(releases)), req, env).1
      ensures handler.repository.stock == old(handler.repository.stock)
    {
      if env.mode == ProcessingDelay && env.delayCancelled { return Err(Cancelled); }
      var answer := Execute(req, env);
      return Handlers.Deliver(answer, req, true);
    }
  }

  class InventoryReservationReleaseHandler {
    const repository: InventoryRepository
    const store: Store<ReleaseResult>

    constructor (repository: InventoryRepository, store: Store<ReleaseResult>)
      ensures this.repository == repository && this.store == store
    {
      this.repository, this.store := repository, store;
    }

    ghost predicate Idle()
      reads repository, repository.stock.Values, repository.reservations.Values, store
    {
      repository.Valid() && store.inFlight == map[]
    }

    /** Release, and turn an unknown or released reservation into a failed outcome. */
    method ReleaseOperation(req: ReleaseRequest, env: Handlers.Env) returns (r: Result<ReleaseResult>)
      requires repository.Valid()
      modifies repository.stock.Values, repository.reservations.Values
      ensures repository.Valid()
      ensures repository.View() == Handlers.ReleaseOperation(old(repository.View()), req, env).0
      ensures r == Handlers.ReleaseOperation(old(repository.View()), req, env).1
    {
      var v, err := repository.Release(env.repoCancelled, req.reservationId, env.now);
      if err.Some? {
        match err.value {
          case ReservationNotFound => return Ok(ReleaseResult(ReleaseFailed, NotFound, false, req, None));
          case ReservationNotActive => return Ok(ReleaseResult(ReleaseFailed, NotActive, false, req, None));
          case e => return Err(e);
        }
      }
      return Ok(ReleaseResult(ReleaseDone, NotFailed, false, req, v));
    }

    /** The second critical section of Execute, which does not touch the repository. */
    method Commit(raw: string, call: Call<ReleaseResult>, op: Result<ReleaseResult>)
      requires repository.Valid() && store.inFlight == map[Trim(raw) := call] && !call.done
      modifies store, call
      ensures Idle() && repository.View() == old(repository.View())
      ensures store.entries == if op.Ok? then old(store.entries)[Trim(raw) := op.value] else old(store.entries)
    {
      ghost var ledger := repository.View();
      store.Finish(raw, call, op);
      assert repository.View() == ledger;
    }

    /** Execute on the store, with the release operation. */
    method Execute(req: ReleaseRequest, env: Handlers.Env) returns (r: Result<(ReleaseResult, bool)>)
      requires Idle()
      modifies repository.stock.Values, repository.reservations.Values, store
      ensures Idle()
      ensures
        var raw := req.metadata.idempotencyKey;
        var l := old(repository.View());
        var misses := Handlers.Misses(old(store.entries), raw, env.innerCancelled);
        var (l', op) := if misses then Handlers.ReleaseOperation(l, req, env) else (l, Err(Cancelled));
        && repository.View() == l'
        && (store.entries, r) == Handlers.Execute(old(store.entries), raw, env.innerCancelled, op)
    {
      var raw := req.metadata.idempotencyKey;
      var begun := store.Begin(raw, env.innerCancelled);
      assert repository.View() == old(repository.View());
      match begun {
        case Refused(e) => return Err(e);
        case Found(v) => return Ok((v, true));
        case Own(call) =>
          var op := ReleaseOperation(req, env);
          Commit(raw, call, op);
          return if op.Ok? then Ok((op.value, false)) else Err(op.error);
        case Join(_) => assert false;
      }
    }

    /** The release handler, with the processing delay that its failure-simulation wrapper puts in front of it. */
    method HandleReservationReleaseRequested(req: ReleaseRequest, env: Handlers.Env) returns (r: Result<ReleaseResult>)
      requires Idle()
      modifies repository.stock.Values, repository.reservations.Values, store
      ensures Idle()
      ensures
        var (a', r') := Handlers.HandleRelease(Handlers.App(old(repository.View()), map[], map[], old(store.entries)), req, env);
        repository.View() == a'.ledger && store.entries == a'.releases && r == r'
    {
      if env.mode == ProcessingDelay && env.delayCancelled { return Err(Cancelled); }
      var answer := Execute(req, env);
      return Handlers.DeliverRelease(answer, req);
    }
  }
}
