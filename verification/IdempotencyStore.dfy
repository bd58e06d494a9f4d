/** The idempotency store as it runs: its two critical sections, each executed under the mutex. */
module IdempotencyStore {
  import opened Prelude
  import opened Text
  import Handlers

  class Call<V> {
    var done: bool
    var result: Option<V>
    var err: Option<Error>

    constructor ()
      ensures !done
    {
      done, result, err := false, None, None;
    }
  }

  /** How Execute goes on after its first critical section. */
  datatype Begun<V> = Refused(err: Error) | Found(v: V) | Join(other: Call<V>) | Own(call: Call<V>)

  class Store<V> {
    var entries: map<string, V>
    var inFlight: map<string, Call<V>>

    constructor ()
      ensures entries == map[] && inFlight == map[]
    {
      entries, inFlight := map[], map[];
    }

    /** Check the key and the context, then look the key up or register a call of one's own for it. */
    method Begin(raw: string, cancelled: bool) returns (b: Begun<V>)
      modifies this
      ensures entries == old(entries)
      ensures b.Own? <==> Handlers.Misses(entries, raw, cancelled) && Trim(raw) !in old(inFlight)
      ensures b.Own? ==> fresh(b.call) && !b.call.done && inFlight == old(inFlight)[Trim(raw) := b.call]
      ensures !b.Own? ==> inFlight == old(inFlight)
      ensures b.Join? <==> Handlers.Misses(entries, raw, cancelled) && Trim(raw) in old(inFlight)
      ensures b.Join? ==> b.other == inFlight[Trim(raw)]
      ensures b.Found? <==> Trim(raw) != "" && !cancelled && Trim(raw) in entries
      ensures b.Found? ==> b.v == entries[Trim(raw)]
      ensures b.Refused? ==> b.err == if Trim(raw) == "" then InvalidIdempotencyKey else Cancelled
    {
      var key := Trim(raw);
      if key == "" { return Refused(InvalidIdempotencyKey); }
      if cancelled { return Refused(Cancelled); }
      if key in entries { return Found(entries[key]); }
      if key in inFlight { return Join(inFlight[key]); }
      var call := new Call();
      inFlight := inFlight[key := call];
      return Own(call);
    }

    /** Store a good result, publish the outcome to the waiters, and take the call out of flight. */
    method Finish(raw: string, call: Call<V>, op: Result<V>)
      requires Trim(raw) in inFlight && inFlight[Trim(raw)] == call && !call.done
      modifies this, call
      ensures entries == if op.Ok? then old(entries)[Trim(raw) := op.value] else old(entries)
      ensures inFlight == old(inFlight) - {Trim(raw)}
      ensures call.done
      ensures op.Ok? ==> call.result == Some(op.value) && call.err.None?
      ensures op.Err? ==> call.result.None? && call.err == Some(op.error)
    {
      if op.Ok? { entries := entries[Trim(raw) := op.value]; }
      call.result := if op.Ok? then Some(op.value) else None;
      call.err := if op.Err? then Some(op.error) else None;
      call.done := true;
      inFlight := inFlight - {Trim(raw)};
    }
  }
}
