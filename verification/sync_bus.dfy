/**
 * The blocking event bus. Every operation returns a `Result`; locking is
 * not modelled, so every lock acquisition succeeds and `MutexPoisoned` is
 * never produced.
 */
module SyncBus {
  import opened Errors
  import opened Events
  import opened Basu

  class EventBus<!T> {
    /** Event-type name to that type's registry. */
    var table: EventHandlerMap<T>
    /** Where subscription ids come from. */
    const ids: IdSource

    ghost predicate Valid()
      reads this, ids
    {
      ids.Valid() && WellFormed(table, ids.minted)
    }

    /** A new bus knows no event type. */
    constructor ()
      ensures Valid() && fresh(ids)
      ensures table == map[]
      ensures forall t :: HandlerCount(table, t) == Err(EventTypeNotFound)
    {
      table := map[];
      ids := new IdSource();
    }

    /**
     * Registers `handler` for `eventType` under an id never handed out before,
     * creating the type's registry when the type is new.
     */
    method Subscribe(eventType: string, handler: Handler<T>) returns (r: Result<HandlerId>)
      requires Valid()
      modifies this, ids
      ensures Valid()
      ensures r.Ok? && r.value !in old(ids.minted)
      ensures ids.minted == old(ids.minted) + {r.value}
      ensures table == WithHandler(old(table), eventType, r.value, handler)
    {
      if eventType in table {
        var id := ids.New();
        SubscribePreservesWellFormed(table, old(ids.minted), eventType, id, handler);
        var registry := table[eventType];
        table := table[eventType := registry[id := handler]];
        r := Ok(id);
      } else {
        var registry: HandlerMap<T> := map[];
        var id := ids.New();
        SubscribePreservesWellFormed(table, old(ids.minted), eventType, id, handler);
        registry := registry[id := handler];
        table := table[eventType := registry];
        r := Ok(id);
      }
    }

    /**
     * Removes the handler registered under `handlerId`; an unknown type is an
     * error, an absent id a silent no-op, and the type entry is kept.
     */
    method Unsubscribe(eventType: string, handlerId: HandlerId) returns (r: Result<()>)
      requires Valid()
      modifies this
      ensures Valid()
      ensures eventType in old(table) ==>
                r == Ok(()) && table == WithoutHandler(old(table), eventType, handlerId)
      ensures eventType !in old(table) ==>
                r == Err(EventTypeNotFound) && table == old(table)
    {
      if eventType in table {
        UnsubscribePreservesWellFormed(table, ids.minted, eventType, handlerId);
        var registry := table[eventType];
        table := table[eventType := registry - {handlerId}];
        r := Ok(());
      } else {
        r := Err(EventTypeNotFound);
      }
    }

    /**
     * Hands `event` to every handler of `eventType`, stopping at the first
     * failure, which it returns. The bus itself is only read.
     */
    method Publish(eventType: string, event: Event<T>) returns (r: Result<()>)
      ensures eventType !in table ==> r == Err(EventTypeNotFound)
      ensures eventType in table ==> Dispatched(table[eventType], event, r)
    {
      if eventType !in table {
        return Err(EventTypeNotFound);
      }
      var registry := table[eventType];
      var pending := registry.Keys;
      while pending != {}
        invariant pending <= registry.Keys
        invariant forall h :: h in registry && h !in pending ==> Outcome(registry[h], event).Ok?
        decreases pending
      {
        var h :| h in pending;
        var outcome := registry[h].handle(event);
        if outcome.Err? {
          return outcome;
        }
        pending := pending - {h};
      }
      r := Ok(());
    }

    /** The names of all known event types, each once, in no particular order. */
    method List() returns (r: Result<seq<string>>)
      ensures r.Ok?
      ensures forall t :: t in r.value <==> t in table
      ensures NoDuplicates(r.value)
      ensures |r.value| == |table|
    {
      var names: seq<string> := [];
      var rest := table.Keys;
      while rest != {}
        invariant rest <= table.Keys
        invariant forall t :: t in names <==> t in table && t !in rest
        invariant NoDuplicates(names)
        invariant |names| + |rest| == |table|
        decreases rest
      {
        var t :| t in rest;
        names := names + [t];
        rest := rest - {t};
      }
      r := Ok(names);
    }

    /** The number of handlers registered for `eventType`, or not found. */
    method GetHandlerCount(eventType: string) returns (r: Result<nat>)
      ensures r == HandlerCount(table, eventType)
    {
      if eventType in table {
        r := Ok(|table[eventType]|);
      } else {
        r := Err(EventTypeNotFound);
      }
    }

    /** Forgets every event type and every handler; ids already minted stay used. */
    method Clear() returns (r: Result<()>)
      requires Valid()
      modifies this
      ensures Valid()
      ensures r == Ok(())
      ensures table == map[]
      ensures forall t :: HandlerCount(table, t) == Err(EventTypeNotFound)
    {
      table := map[];
      r := Ok(());
    }
  }
}
