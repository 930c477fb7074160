/**
 * The data model shared by both bus variants: handler identities, the
 * fresh-id source, handlers, the two-level table, and the meaning of each
 * table operation as a function on table values, with its properties.
 */
module Basu {
  import opened Errors
  import opened Events

  /** Opaque token addressing one subscription; equality is that of `id` alone. */
  datatype HandlerId = HandlerId(id: nat)

  /** Two handler ids are equal exactly when their `id` fields are. */
  lemma HandlerIdEquality(a: HandlerId, b: HandlerId)
    ensures a == b <==> a.id == b.id
  {
  }

  /**
   * Source of handler ids. It stands for random 128-bit identifiers: a
   * counter above every id handed out so far, so that freshness is provable.
   */
  class IdSource {
    var next: nat
    ghost var minted: set<HandlerId>

    ghost predicate Valid()
      reads this
    {
      forall h :: h in minted ==> h.id < next
    }

    constructor ()
      ensures Valid() && minted == {}
    {
      next := 0;
      minted := {};
    }

    /** Mints an id distinct from every id minted before. */
    method New() returns (h: HandlerId)
      requires Valid()
      modifies this
      ensures Valid()
      ensures h !in old(minted)
      ensures minted == old(minted) + {h}
    {
      h := HandlerId(next);
      minted := minted + {h};
      next := next + 1;
    }
  }

  /** A handler is known only by what it answers when given an event. */
  datatype Handler<!T> = Handler(handle: Event<T> -> Result<()>)

  function Outcome<T>(h: Handler<T>, e: Event<T>): Result<()>
  {
    h.handle(e)
  }

  /** The registry of one event type, and the table of all registries. */
  type HandlerMap<!T> = map<HandlerId, Handler<T>>
  type EventHandlerMap<!T> = map<string, HandlerMap<T>>

  /** Every id in the table was minted, and no id is registered under two types. */
  ghost predicate WellFormed<T>(m: EventHandlerMap<T>, minted: set<HandlerId>)
  {
    (forall t, h :: t in m && h in m[t] ==> h in minted)
    && (forall t, u, h :: t in m && u in m && h in m[t] && h in m[u] ==> t == u)
  }

  /** The registry of `t`, empty for an unknown type. */
  function Registry<T>(m: EventHandlerMap<T>, t: string): HandlerMap<T>
  {
    if t in m then m[t] else map[]
  }

  /** The table after subscribing `handler` to `t` under `h`. */
  function WithHandler<T>(m: EventHandlerMap<T>, t: string, h: HandlerId, handler: Handler<T>): EventHandlerMap<T>
  {
    m[t := Registry(m, t)[h := handler]]
  }

  /** The table after unsubscribing `h` from the known type `t`. */
  function WithoutHandler<T>(m: EventHandlerMap<T>, t: string, h: HandlerId): EventHandlerMap<T>
    requires t in m
  {
    m[t := m[t] - {h}]
  }

  /** What a handler-count query answers. */
  function HandlerCount<T>(m: EventHandlerMap<T>, t: string): Result<nat>
  {
    if t in m then Ok(|m[t]|) else Err(EventTypeNotFound)
  }

  /** Every handler of the registry succeeds on `e`. */
  ghost predicate AllSucceed<T>(reg: HandlerMap<T>, e: Event<T>)
  {
    forall h :: h in reg ==> Outcome(reg[h], e).Ok?
  }

  /**
   * `r` is an admissible result of dispatching `e` to `reg`: success exactly
   * when every handler succeeds, and otherwise the very error one of the
   * handlers returned (which one depends on scheduling).
   */
  ghost predicate Dispatched<T>(reg: HandlerMap<T>, e: Event<T>, r: Result<()>)
  {
    (r.Ok? <==> AllSucceed(reg, e))
    && (r.Err? ==> exists h :: h in reg && Outcome(reg[h], e) == r)
  }

  /** No two positions of `s` hold the same element. */
  ghost predicate NoDuplicates<X>(s: seq<X>)
  {
    forall i, j :: 0 <= i < j < |s| ==> s[i] != s[j]
  }

  // ---------------------------------------------------------------------
  // Subscribe

  /** Subscribing a fresh id to a known type adds exactly that handler to its registry. */
  lemma SubscribeKnownType<T>(m: EventHandlerMap<T>, t: string, h: HandlerId, handler: Handler<T>)
    requires t in m && h !in m[t]
    ensures WithHandler(m, t, h, handler).Keys == m.Keys
    ensures WithHandler(m, t, h, handler)[t].Keys == m[t].Keys + {h}
    ensures WithHandler(m, t, h, handler)[t][h] == handler
    ensures HandlerCount(WithHandler(m, t, h, handler), t) == Ok(|m[t]| + 1)
    ensures forall g :: g in m[t] ==> WithHandler(m, t, h, handler)[t][g] == m[t][g]
    ensures forall u :: u in m && u != t ==> WithHandler(m, t, h, handler)[u] == m[u]
  {
  }

  /** Subscribing to an unknown type creates a registry holding just the new handler. */
  lemma SubscribeUnknownType<T>(m: EventHandlerMap<T>, t: string, h: HandlerId, handler: Handler<T>)
    requires t !in m
    ensures WithHandler(m, t, h, handler).Keys == m.Keys + {t}
    ensures WithHandler(m, t, h, handler)[t] == map[h := handler]
    ensures HandlerCount(WithHandler(m, t, h, handler), t) == Ok(1)
    ensures forall u :: u in m ==> WithHandler(m, t, h, handler)[u] == m[u]
  {
  }

  /** Subscribing under an id never minted before keeps the table well formed. */
  lemma SubscribePreservesWellFormed<T>(m: EventHandlerMap<T>, minted: set<HandlerId>,
                                        t: string, h: HandlerId, handler: Handler<T>)
    requires WellFormed(m, minted) && h !in minted
    ensures WellFormed(WithHandler(m, t, h, handler), minted + {h})
  {
  }

  /** The table after subscribing each handler of `handlers` to `t` under the matching id. */
  function SubscribeAll<T>(m: EventHandlerMap<T>, t: string, hs: seq<HandlerId>, handlers: seq<Handler<T>>): EventHandlerMap<T>
    requires |hs| == |handlers|
    decreases |hs|
  {
    if hs == [] then m
    else SubscribeAll(WithHandler(m, t, hs[0], handlers[0]), t, hs[1..], handlers[1..])
  }

  /**
   * Subscribing N handlers to one type under N distinct fresh ids raises its
   * count by exactly N (from 0 when the type was unknown).
   */
  lemma {:induction false} SubscribeAllCount<T>(m: EventHandlerMap<T>, t: string,
                                                 hs: seq<HandlerId>, handlers: seq<Handler<T>>)
    requires |hs| == |handlers|
    requires NoDuplicates(hs)
    requires forall i :: 0 <= i < |hs| ==> hs[i] !in Registry(m, t)
    ensures t in SubscribeAll(m, t, hs, handlers) <==> t in m || hs != []
    ensures HandlerCount(SubscribeAll(m, t, hs, handlers), t) ==
            (if t in m || hs != [] then Ok(|Registry(m, t)| + |hs|) else Err(EventTypeNotFound))
    decreases |hs|
  {
    if hs != [] {
      var m' := WithHandler(m, t, hs[0], handlers[0]);
      assert Registry(m', t) == Registry(m, t)[hs[0] := handlers[0]];
      assert |Registry(m', t)| == |Registry(m, t)| + 1;
      forall i | 0 <= i < |hs[1..]|
        ensures hs[1..][i] !in Registry(m', t)
      {
        assert hs[1..][i] == hs[i + 1] != hs[0];
      }
      SubscribeAllCount(m', t, hs[1..], handlers[1..]);
    }
  }

  // ---------------------------------------------------------------------
  // Unsubscribe

  /**
   * Unsubscribing from a known type removes only the given id (a no-op when
   * it is absent) and keeps the type's entry even if its registry empties.
   */
  lemma UnsubscribeKnownType<T>(m: EventHandlerMap<T>, t: string, h: HandlerId)
    requires t in m
    ensures WithoutHandler(m, t, h).Keys == m.Keys
    ensures WithoutHandler(m, t, h)[t].Keys == m[t].Keys - {h}
    ensures forall g :: g in m[t] && g != h ==> WithoutHandler(m, t, h)[t][g] == m[t][g]
    ensures HandlerCount(WithoutHandler(m, t, h), t) ==
            Ok(if h in m[t] then |m[t]| - 1 else |m[t]|)
    ensures h !in m[t] ==> WithoutHandler(m, t, h) == m
    ensures forall u :: u in m && u != t ==> WithoutHandler(m, t, h)[u] == m[u]
  {
    var reg := m[t];
    var reg' := reg - {h};
    assert reg'.Keys == reg.Keys - {h};
    if h in reg {
      assert reg.Keys == reg'.Keys + {h};
      assert |reg.Keys| == |reg'.Keys| + 1;
    } else {
      assert reg' == reg;
    }
  }

  /** Unsubscribing the same id twice has the effect of unsubscribing it once. */
  lemma UnsubscribeIdempotent<T>(m: EventHandlerMap<T>, t: string, h: HandlerId)
    requires t in m
    ensures WithoutHandler(WithoutHandler(m, t, h), t, h) == WithoutHandler(m, t, h)
  {
    assert m[t] - {h} - {h} == m[t] - {h};
  }

  /**
   * Unsubscribing a freshly subscribed id undoes the subscription, except that
   * a type created by that subscription stays known with an empty registry.
   */
  lemma UnsubscribeUndoesSubscribe<T>(m: EventHandlerMap<T>, t: string, h: HandlerId, handler: Handler<T>)
    requires h !in Registry(m, t)
    ensures WithoutHandler(WithHandler(m, t, h, handler), t, h) ==
            if t in m then m else m[t := map[]]
  {
    var reg := Registry(m, t);
    assert reg[h := handler] - {h} == reg;
    if t in m {
      assert m[t := reg] == m;
    }
  }

  /** Unsubscribing keeps the table well formed under the same minted ids. */
  lemma UnsubscribePreservesWellFormed<T>(m: EventHandlerMap<T>, minted: set<HandlerId>, t: string, h: HandlerId)
    requires WellFormed(m, minted) && t in m
    ensures WellFormed(WithoutHandler(m, t, h), minted)
  {
  }

  // ---------------------------------------------------------------------
  // Publish

  /** Dispatching to an empty registry succeeds, and only succeeds. */
  lemma DispatchEmptyRegistry<T>(e: Event<T>, r: Result<()>)
    ensures Dispatched(map[], e, r) <==> r == Ok(())
  {
    assert AllSucceed(map[], e);
    if r.Ok? {
      assert r.value == ();
    }
  }

  /**
   * When exactly one handler fails, publishing reports precisely that
   * handler's error; a failure is never suppressed.
   */
  lemma DispatchSoleFailure<T>(reg: HandlerMap<T>, e: Event<T>, h: HandlerId, r: Result<()>)
    requires h in reg && Outcome(reg[h], e).Err?
    requires forall g :: g in reg && g != h ==> Outcome(reg[g], e).Ok?
    requires Dispatched(reg, e, r)
    ensures r == Outcome(reg[h], e)
  {
  }
}
