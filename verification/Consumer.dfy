/** The consumer as it runs: decode, handle, publish, and settle each delivery with a single ack or nack. */
module Consumer {
  import opened Prelude
  import opened Requests
  import Handlers
  import opened Messages
  import opened Outcomes
  import opened Delivery
  import HandlerObjects

  /** The broker's side of the connection: the queues, the outcomes that landed, and the settlements attempted. */
  class Channel {
    var reservations: Queues
    var releases: Queues
    var answered: set<(Flow, nat)>
    var outcomes: seq<Record>
    var settled: nat
    const epoch: nat

    constructor (reservations: Queues, releases: Queues, epoch: nat)
      ensures this.epoch == epoch
      ensures this.reservations == reservations && this.releases == releases
      ensures answered == {} && outcomes == [] && settled == 0
    {
      this.reservations, this.releases, this.epoch := reservations, releases, epoch;
      answered, outcomes, settled := {}, [], 0;
    }

    function Of(f: Flow): Queues
      reads this
    {
      if f == Reservations then reservations else releases
    }

    /** Replace the queues of one flow. */
    method Put(f: Flow, q: Queues)
      modifies this`reservations, this`releases
      ensures Of(f) == q && forall g | g != f :: Of(g) == old(Of(g))
    {
      if f == Reservations { reservations := q; } else { releases := q; }
    }

    method Ack(f: Flow, c: Copy, w: Conditions)
      modifies this`reservations, this`releases, this`settled
      ensures Of(f) == Settle(old(Of(f)), c, Settlement.Ack, w) && forall g | g != f :: Of(g) == old(Of(g))
      ensures settled == old(settled) + 1
    {
      settled := settled + 1;
      if w.settles {
        var q := Of(f);
        Put(f, q.(unacked := q.unacked - multiset{c}));
      }
    }

    method Nack(f: Flow, c: Copy, requeue: bool, w: Conditions)
      modifies this`reservations, this`releases, this`settled
      ensures Of(f) == Settle(old(Of(f)), c, if requeue then NackRequeue else NackDrop, w)
      ensures forall g | g != f :: Of(g) == old(Of(g))
      ensures settled == old(settled) + 1
    {
      settled := settled + 1;
      if w.settles {
        var q := Of(f);
        q := q.(unacked := q.unacked - multiset{c});
        if requeue {
          q := q.(ready := q.ready + multiset{c});
        } else {
          q := q.(dead := q.dead + multiset{WithHeaders(c, w.deathHeaders)});
        }
        Put(f, q);
      }
    }

    method PublishForwarded(f: Flow, c: Copy, forwarding: Forwarding, fate: Fate) returns (ok: bool)
      requires !forwarding.NoForward?
      modifies this`reservations, this`releases
      ensures Of(f) == AddForwarded(old(Of(f)), c, forwarding, fate) && forall g | g != f :: Of(g) == old(Of(g))
      ensures ok <==> Reported(fate)
    {
      if Landed(fate) {
        var p := NewForwardedDelivery(c.d, forwarding.count);
        var copy := Copy(c.origin, Delivered(p, map[]));
        var q := Of(f);
        if forwarding.ToRetry? {
          Put(f, q.(retry := q.retry + multiset{copy}));
        } else {
          Put(f, q.(dead := q.dead + multiset{copy}));
        }
      }
      ok := Reported(fate);
    }

    /** Forward the delivery to the retry or the dead-letter exchange, then settle it. */
    method RetryOrDeadLetter(f: Flow, c: Copy, max: int, retryCount: int, w: Conditions)
      modifies this`reservations, this`releases, this`settled
      ensures
        var forwarding := Delivery.RetryOrDeadLetter(max, retryCount);
        Of(f) == Settle(AddForwarded(old(Of(f)), c, forwarding, w.forward), c, AfterForward(w.forward), w)
      ensures forall g | g != f :: Of(g) == old(Of(g))
      ensures settled == old(settled) + 1
    {
      var next := Wrap64(retryCount + 1);
      var ok;
      if next > max {
        ok := PublishForwarded(f, c, ToDead(retryCount), w.forward);
      } else {
        ok := PublishForwarded(f, c, ToRetry(next), w.forward);
      }
      if ok { Ack(f, c, w); } else { Nack(f, c, true, w); }
    }

    method PublishOne(f: Flow, origin: nat, message: OutcomeMessage, fate: Fate) returns (ok: bool)
      modifies this`outcomes
      ensures outcomes == old(outcomes) + if Landed(fate) then [Record(epoch, f, origin, message)] else []
      ensures ok <==> Reported(fate)
    {
      if Landed(fate) { outcomes := outcomes + [Record(epoch, f, origin, message)]; }
      ok := Reported(fate);
    }

    /** No publish, one, or two, as the failure mode says; the second only after the first succeeded. */
    method PublishResult(f: Flow, origin: nat, kp: (RoutingKey, Payload), m: Metadata, w: Conditions) returns (ok: bool)
      modifies this`outcomes
      ensures
        && outcomes == old(outcomes) + Records(epoch, f, origin, Copies(kp, m, w))
        && ok == Outcomes.PublishResult(w.publishMode, w.first, w.second).1
    {
      if w.publishMode == PublishFailure { return false; }
      ok := PublishOne(f, origin, MessageOf(kp, m, w.firstId, w.firstAt), w.first);
      if w.publishMode == DuplicateResponse && ok {
        ok := PublishOne(f, origin, MessageOf(kp, m, w.secondId, w.secondAt), w.second);
      }
    }

    /** The whole visible effect of one handled delivery. */
    twostate predicate Did(f: Flow, c: Copy, h: Handling, w: Conditions)
      reads this
    {
      && Of(f) == Settle(AddForwarded(old(Of(f)), c, h.forwarding, w.forward), c, h.settlement, w)
      && (forall g | g != f :: Of(g) == old(Of(g)))
      && outcomes == old(outcomes) + Records(epoch, f, c.origin, h.messages)
      && answered == (if h.answered then old(answered) + {(f, c.origin)} else old(answered))
      && settled == old(settled) + 1
    }

    /** Publish the outcome and acknowledge, or retry. */
    method Answer(f: Flow, c: Copy, max: int, built: Built<(RoutingKey, Payload)>, m: Metadata, w: Conditions, ghost a: Handlers.App)
      modifies this
      ensures Did(f, c, Publish(max, a, built, m, w), w)
    {
      if !built.Built? {
        RetryOrDeadLetter(f, c, max, m.retryCount, w);
      } else {
        var ok := PublishResult(f, c.origin, built.value, m, w);
        if ok {
          answered := answered + {(f, c.origin)};
          Ack(f, c, w);
        } else {
          RetryOrDeadLetter(f, c, max, m.retryCount, w);
        }
      }
    }

    /** Drop the delivery for good, retry it, or answer it, as its processing ended. */
    method Conclude(f: Flow, c: Copy, max: int, p: Option<(Metadata, Result<Built<(RoutingKey, Payload)>>)>, w: Conditions, ghost a: Handlers.App)
      modifies this
      ensures
        var processed := if p.None? then None else Some(Processed(a, p.value.0, p.value.1));
        Did(f, c, Delivery.Conclude(max, a, processed, w), w)
    {
      match p {
        case None => Nack(f, c, false, w);
        case Some((m, Err(e))) =>
          if Permanent(e) { Nack(f, c, false, w); } else { RetryOrDeadLetter(f, c, max, m.retryCount, w); }
        case Some((m, Ok(built))) => Answer(f, c, max, built, m, w, a);
      }
    }
  }

  /** The consumer with its handlers; both flows share one repository. */
  class ErpConsumer {
    const codec: Codec
    const max: int
    const channel: Channel
    const reserver: HandlerObjects.FailureSimulationReservationHandler
    const releaser: HandlerObjects.InventoryReservationReleaseHandler

    constructor (codec: Codec, max: int, channel: Channel,
                 reserver: HandlerObjects.FailureSimulationReservationHandler,
                 releaser: HandlerObjects.InventoryReservationReleaseHandler)
      requires reserver.handler.repository == releaser.repository
      ensures this.codec == codec && this.max == max && this.channel == channel
      ensures this.reserver == reserver && this.releaser == releaser
    {
      this.codec, this.max, this.channel, this.reserver, this.releaser := codec, max, channel, reserver, releaser;
    }

    ghost predicate Idle()
      reads releaser.repository, releaser.repository.stock.Values, releaser.repository.reservations.Values
      reads reserver.handler.repository, reserver.handler.repository.stock.Values, reserver.handler.repository.reservations.Values
      reads reserver.handler.store, reserver.store, releaser.store
    {
      reserver.handler.repository == releaser.repository && reserver.Idle() && releaser.Idle()
    }

    ghost function View(): Handlers.App
      reads reserver.handler.repository, reserver.handler.repository.stock.Values, reserver.handler.repository.reservations.Values
      reads reserver.handler.store, reserver.store, releaser.store
    {
      reserver.View(releaser.store.entries)
    }

    /** Decode the reservation request and let the handlers process it. */
    method ProcessReservation(d: Messages.Delivery, env: Handlers.Env) returns (p: Option<(Metadata, Result<Built<(RoutingKey, Payload)>>)>)
      requires Idle()
      modifies releaser.repository, releaser.repository.stock.Values, reserver.handler.store, reserver.store
      ensures Idle()
      ensures Delivery.ProcessReservation(codec, old(View()), d, env)
           == if p.None? then None else Some(Processed(View(), p.value.0, p.value.1))
      ensures p.None? ==> View() == old(View())
    {
      var decoded := DecodeReservation(codec, d);
      if decoded.Err? { return None; }
      var request := decoded.value;
      var result := reserver.HandleReservationRequested(request, env, releaser.store.entries);
      return Some((request.metadata, if result.Err? then Err(result.error) else Ok(ReservationPayloadOf(result.value))));
    }

    /** Decode the release request and let the handler process it. */
    method ProcessRelease(d: Messages.Delivery, env: Handlers.Env) returns (p: Option<(Metadata, Result<Built<(RoutingKey, Payload)>>)>)
      requires Idle()
      modifies releaser.repository.stock.Values, releaser.repository.reservations.Values, releaser.store
      ensures Idle()
      ensures Delivery.ProcessRelease(codec, old(View()), d, env)
           == if p.None? then None else Some(Processed(View(), p.value.0, p.value.1))
      ensures p.None? ==> View() == old(View())
    {
      var decoded := DecodeRelease(codec, d);
      if decoded.Err? { return None; }
      var request := decoded.value;
      var result := releaser.HandleReservationReleaseRequested(request, env);
      return Some((request.metadata, if result.Err? then Err(result.error) else Ok(ReleasePayloadOf(result.value))));
    }

    /** Settling a delivery touches neither the repository nor the stores. */
    method Conclude(f: Flow, c: Copy, p: Option<(Metadata, Result<Built<(RoutingKey, Payload)>>)>, w: Conditions, ghost h: Handling)
      requires Idle()
      requires h == Delivery.Conclude(max, View(), if p.None? then None else Some(Processed(View(), p.value.0, p.value.1)), w)
      modifies channel
      ensures Idle() && View() == old(View()) == h.app && channel.Did(f, c, h, w)
    {
      ghost var a := View();
      channel.Conclude(f, c, max, p, w, a);
      assert View() == a;
    }

    method HandleDelivery(c: Copy, w: Conditions)
      requires Idle()
      modifies channel, releaser.repository, releaser.repository.stock.Values, reserver.handler.store, reserver.store
      ensures Idle()
      ensures
        var h := Handle(codec, max, old(View()), Reservations, c.d, w);
        View() == h.app && channel.Did(Reservations, c, h, w)
    {
      var p := ProcessReservation(c.d, w.env);
      ghost var handled := Handle(codec, max, old(View()), Reservations, c.d, w);
      Conclude(Reservations, c, p, w, handled);
    }

    method HandleReleaseDelivery(c: Copy, w: Conditions)
      requires Idle()
      modifies channel, releaser.repository.stock.Values, releaser.repository.reservations.Values, releaser.store
      ensures Idle()
      ensures
        var h := Handle(codec, max, old(View()), Releases, c.d, w);
        View() == h.app && channel.Did(Releases, c, h, w)
    {
      var p := ProcessRelease(c.d, w.env);
      ghost var handled := Handle(codec, max, old(View()), Releases, c.d, w);
      Conclude(Releases, c, p, w, handled);
    }
  }
}
