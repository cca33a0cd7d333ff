/** The event bus (src/lib/event-bus.ts): a table from event names to the handlers
    registered for them, in registration order. Handlers are told apart by an
    identifier; `emit` yields the calls it makes, in order. */
module EventBus {

  type HandlerId = nat

  /** An event name is in the table from its first `on` onwards, even once `off` has
      emptied its list. */
  type Bus = map<string, seq<HandlerId>>

  /** A handler call with the arguments `emit` was given. */
  datatype Call<A> = Call(handler: HandlerId, args: A)

  /** The handlers of `event`, none for a name never registered. */
  function Handlers(bus: Bus, event: string): seq<HandlerId> {
    if event in bus then bus[event] else []
  }

  /** on: append the handler to the event's list, creating the list on first use.
      Duplicates are kept. */
  function On(bus: Bus, event: string, handler: HandlerId): (r: Bus)
    ensures r.Keys == bus.Keys + {event}
    ensures r[event] == Handlers(bus, event) + [handler]
    ensures forall e :: e in bus && e != event ==> r[e] == bus[e]
  {
    bus[event := Handlers(bus, event) + [handler]]
  }

  /** `list.filter(h => h !== handler)`. */
  function RemoveAll(xs: seq<HandlerId>, h: HandlerId): (r: seq<HandlerId>)
    ensures forall x :: x in r <==> x in xs && x != h
    ensures forall x :: multiset(r)[x] == if x == h then 0 else multiset(xs)[x]
    decreases |xs|
  {
    if xs == [] then []
    else
      var rest := RemoveAll(xs[1..], h);
      assert xs == [xs[0]] + xs[1..];
      if xs[0] == h then rest else [xs[0]] + rest
  }

  /** Filtering a concatenation filters each part: the order of the others is kept. */
  lemma {:induction false} RemoveAllAppend(xs: seq<HandlerId>, ys: seq<HandlerId>, h: HandlerId)
    ensures RemoveAll(xs + ys, h) == RemoveAll(xs, h) + RemoveAll(ys, h)
    decreases |xs|
  {
    if xs == [] {
      assert xs + ys == ys;
    } else {
      assert (xs + ys)[0] == xs[0];
      assert (xs + ys)[1..] == xs[1..] + ys;
      RemoveAllAppend(xs[1..], ys, h);
    }
  }

  /** Filtering twice is filtering once. */
  lemma {:induction false} RemoveAllIdempotent(xs: seq<HandlerId>, h: HandlerId)
    ensures RemoveAll(RemoveAll(xs, h), h) == RemoveAll(xs, h)
    decreases |xs|
  {
    if xs != [] {
      RemoveAllIdempotent(xs[1..], h);
      if xs[0] != h {
        var rest := RemoveAll(xs[1..], h);
        assert ([xs[0]] + rest)[0] == xs[0];
        assert ([xs[0]] + rest)[1..] == rest;
      }
    }
  }

  /** off: drop every occurrence of the handler from the event's list; nothing for a
      name never registered. */
  function Off(bus: Bus, event: string, handler: HandlerId): (r: Bus)
    ensures event !in bus ==> r == bus
    ensures r.Keys == bus.Keys
    ensures event in bus ==> handler !in r[event] && forall x :: x in r[event] <==> x in bus[event] && x != handler
    ensures forall e :: e in bus && e != event ==> r[e] == bus[e]
  {
    if event !in bus then bus else bus[event := RemoveAll(bus[event], handler)]
  }

  /** emit: call the event's handlers in registration order with the same arguments. */
  function Emit<A>(bus: Bus, event: string, args: A): (r: seq<Call<A>>)
    ensures event !in bus ==> r == []
    ensures |r| == |Handlers(bus, event)|
    ensures forall i :: 0 <= i < |r| ==> r[i] == Call(Handlers(bus, event)[i], args)
  {
    seq(|Handlers(bus, event)|, i requires 0 <= i < |Handlers(bus, event)| => Call(Handlers(bus, event)[i], args))
  }

  /** Registering then emitting calls the earlier handlers first and the new one last. */
  lemma EmitAfterOn<A>(bus: Bus, event: string, handler: HandlerId, args: A)
    ensures Emit(On(bus, event, handler), event, args) == Emit(bus, event, args) + [Call(handler, args)]
  {
  }

  /** A handler registered twice is called twice. */
  lemma DuplicatesKept<A>(bus: Bus, event: string, handler: HandlerId, args: A)
    ensures var calls := Emit(On(On(bus, event, handler), event, handler), event, args);
      |calls| == |Handlers(bus, event)| + 2
      && calls[|calls| - 2] == calls[|calls| - 1] == Call(handler, args)
  {
  }

  /** After off, the handler is never called for that event, and the others keep their
      order. */
  lemma OffSilences<A>(bus: Bus, event: string, handler: HandlerId, args: A)
    requires event in bus
    ensures forall c :: c in Emit(Off(bus, event, handler), event, args) ==> c.handler != handler
    ensures Handlers(Off(bus, event, handler), event) == RemoveAll(Handlers(bus, event), handler)
  {
  }

  /** off undoes on: registering a handler and removing it again leaves the event's
      list as removing it alone would. */
  lemma {:induction false} OffUndoesOn(bus: Bus, event: string, handler: HandlerId)
    ensures Handlers(Off(On(bus, event, handler), event, handler), event)
         == RemoveAll(Handlers(bus, event), handler)
  {
    RemoveAllAppend(Handlers(bus, event), [handler], handler);
    assert RemoveAll([handler], handler) == [];
  }

  /** off twice is off once. */
  lemma OffIdempotent(bus: Bus, event: string, handler: HandlerId)
    ensures Off(Off(bus, event, handler), event, handler) == Off(bus, event, handler)
  {
    if event in bus {
      RemoveAllIdempotent(bus[event], handler);
    }
  }

  /** Operations on one event never touch another event's handlers. */
  lemma EventsIsolated(bus: Bus, event: string, other: string, handler: HandlerId)
    requires other != event
    ensures Handlers(On(bus, event, handler), other) == Handlers(bus, other)
    ensures Handlers(Off(bus, event, handler), other) == Handlers(bus, other)
  {
  }
}
