/**
 * The non-blocking event bus. Subscribe, list and clear cannot fail here;
 * every operation would await its locks, which in this sequential model are
 * always free.
 */
module AsyncBus {
  import opened Errors
  import opened Events
  import opened Basu

  /**
   * Starts one handler invocation per registry entry; the map's values are the
   * results those invocations resolve to.
   */
  method HandleAll<T>(registry: HandlerMap<T>, event: Event<T>) returns (futures: map<HandlerId, Result<()>>)
    ensures futures.Keys == registry.Keys
    ensures forall h :: h in futures ==> futures[h] == Outcome(registry[h], event)
  {
    futures := map[];
    var rest := registry.Keys;
    while rest != {}
      invariant rest <= registry.Keys
      invariant futures.Keys == registry.Keys - rest
      invariant forall h :: h in futures ==> futures[h] == Outcome(registry[h], event)
      decreases rest
    {
      var h :| h in rest;
      futures := futures[h := registry[h].handle(event)];
      rest := rest - {h};
    }
  }

  /**
   * Awaits all invocations jointly: success when all resolve to success,
   * otherwise the error of one that failed (the first to be observed).
   */
  method TryJoinAll(futures: map<HandlerId, Result<()>>) returns (r: Result<()>)
    ensures r.Ok? <==> forall h :: h in futures ==> futures[h].Ok?
    ensures r.Err? ==> exists h :: h in futures && futures[h] == r
  {
    var unresolved := futures.Keys;
    while unresolved != {}
      invariant unresolved <= futures.Keys
      invariant forall h :: h in futures && h !in unresolved ==> futures[h].Ok?
      decreases unresolved
    {
      var h :| h in unresolved;
      if futures[h].Err? {
        return futures[h];
      }
      unresolved := unresolved - {h};
    }
    r := Ok(());
  }

  class EventBus<!T> {
    /** Event-type name to that type's registry. */
    var table: EventHandlerMap<T>
    /** Where subscription ids come from. */
    const ids: IdSource

    ghost predicate Valid()
      reads this, ids
    {
      ids.Valid() && WellFormed(table, ids.minted)
    }

    /** A new bus knows no event type. */
    constructor ()
      ensures Valid() && fresh(ids)
      ensures table == map[]
      ensures forall t :: HandlerCount(table, t) == Err(EventTypeNotFound)
    {
      table := map[];
      ids := new IdSource();
    }

    /**
     * Registers `handler` for `eventType` under an id never handed out before,
     * creating the type's registry when the type is new. It has no error path.
     */
    method Subscribe(eventType: string, handler: Handler<T>) returns (id: HandlerId)
      requires Valid()
      modifies this, ids
      ensures Valid()
      ensures id !in old(ids.minted)
      ensures ids.minted == old(ids.minted) + {id}
      ensures table == WithHandler(old(table), eventType, id, handler)
    {
      if eventType in table {
        id := ids.New();
        SubscribePreservesWellFormed(table, old(ids.minted), eventType, id, handler);
        var registry := table[eventType];
        table := table[eventType := registry[id := handler]];
      } else {
        var registry: HandlerMap<T> := map[];
        id := ids.New();
        SubscribePreservesWellFormed(table, old(ids.minted), eventType, id, handler);
        registry := registry[id := handler];
        table := table[eventType := registry];
      }
    }

    /**
     * Removes the handler registered under `handlerId`; an unknown type is an
     * error, an absent id a silent no-op, and the type entry is kept.
     */
    method Unsubscribe(eventType: string, handlerId: HandlerId) returns (r: Result<()>)
      requires Valid()
      modifies this
      ensures Valid()
      ensures eventType in old(table) ==>
                r == Ok(()) && table == WithoutHandler(old(table), eventType, handlerId)
      ensures eventType !in old(table) ==>
                r == Err(EventTypeNotFound) && table == old(table)
    {
      if eventType in table {
        UnsubscribePreservesWellFormed(table, ids.minted, eventType, handlerId);
        var registry := table[eventType];
        table := table[eventType := registry - {handlerId}];
        r := Ok(());
      } else {
        r := Err(EventTypeNotFound);
      }
    }

    /**
     * Starts one invocation per handler of `eventType` and joins them. The bus
     * itself is only read.
     */
    method Publish(eventType: string, event: Event<T>) returns (r: Result<()>)
      ensures eventType !in table ==> r == Err(EventTypeNotFound)
      ensures eventType in table ==> Dispatched(table[eventType], event, r)
    {
      if eventType !in table {
        return Err(EventTypeNotFound);
      }
      var registry := table[eventType];
      var futures := HandleAll(registry, event);
      r := TryJoinAll(futures);
    }

    /** The names of all known event types, each once, in no particular order. */
    method List() returns (names: seq<string>)
      ensures forall t :: t in names <==> t in table
      ensures NoDuplicates(names)
      ensures |names| == |table|
    {
      names := [];
      var rest := table.Keys;
      while rest != {}
        invariant rest <= table.Keys
        invariant forall t :: t in names <==> t in table && t !in rest
        invariant NoDuplicates(names)
        invariant |names| + |rest| == |table|
        decreases rest
      {
        var t :| t in rest;
        names := names + [t];
        rest := rest - {t};
      }
    }

    /** The number of handlers registered for `eventType`, or not found. */
    method GetHandlerCount(eventType: string) returns (r: Result<nat>)
      ensures r == HandlerCount(table, eventType)
    {
      if eventType in table {
        r := Ok(|table[eventType]|);
      } else {
        r := Err(EventTypeNotFound);
      }
    }

    /** Forgets every event type and every handler; it cannot fail. */
    method Clear()
      requires Valid()
      modifies this
      ensures Valid()
      ensures table == map[]
      ensures forall t :: HandlerCount(table, t) == Err(EventTypeNotFound)
    {
      table := map[];
    }
  }
}
