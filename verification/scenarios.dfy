/**
 * The "echo" scenario both variants' tests run: subscribe handler A,
 * publish, list, count; subscribe handler B, count, publish; unsubscribe A,
 * count; clear, list.
 */
module Scenarios {
  import opened Errors
  import opened Events
  import opened Basu
  import SyncBus
  import AsyncBus

  datatype Data = Data(message: string)

  const Echo: string := "echo"

  /** What the test handlers do, as far as the bus can see: they succeed. */
  function Print(e: Event<Data>): Result<()>
  {
    Ok(())
  }

  /** A registry all of whose handlers succeed dispatches to success. */
  lemma SucceedingRegistry(reg: HandlerMap<Data>, e: Event<Data>, r: Result<()>)
    requires forall h :: h in reg ==> reg[h] == Handler(Print)
    requires Dispatched(reg, e, r)
    ensures r == Ok(())
  {
    assert AllSucceed(reg, e);
    assert r.value == ();
  }

  /** Subscribe A to a new bus, publish, list, count. */
  method SyncFirstSubscriber(bus: SyncBus.EventBus<Data>, event: Event<Data>)
    returns (subscribed: Result<HandlerId>, a: HandlerId, count: Result<nat>, published: Result<()>, listed: seq<string>)
    requires bus.Valid() && bus.table == map[]
    modifies bus, bus.ids
    ensures bus.Valid()
    ensures subscribed == Ok(a)
    ensures bus.table == map[Echo := map[a := Handler(Print)]]
    ensures count == Ok(1) && published == Ok(()) && listed == [Echo]
  {
    var t0 := bus.table;
    subscribed := bus.Subscribe(Echo, Handler(Print));
    a := subscribed.value;
    SubscribeUnknownType(t0, Echo, a, Handler(Print));
    published := bus.Publish(Echo, event);
    SucceedingRegistry(bus.table[Echo], event, published);
    var rl := bus.List();
    listed := rl.value;
    assert listed[0] in listed;
    count := bus.GetHandlerCount(Echo);
  }

  /** Subscribe B beside A, count, publish. */
  method SyncSecondSubscriber(bus: SyncBus.EventBus<Data>, event: Event<Data>, a: HandlerId)
    returns (subscribed: Result<HandlerId>, b: HandlerId, count: Result<nat>, published: Result<()>)
    requires bus.Valid() && bus.table == map[Echo := map[a := Handler(Print)]]
    modifies bus, bus.ids
    ensures bus.Valid() && a != b
    ensures subscribed == Ok(b)
    ensures bus.table == map[Echo := map[a := Handler(Print), b := Handler(Print)]]
    ensures count == Ok(2) && published == Ok(())
  {
    var t1 := bus.table;
    assert a in bus.table[Echo];
    assert a in bus.ids.minted;
    subscribed := bus.Subscribe(Echo, Handler(Print));
    b := subscribed.value;
    SubscribeKnownType(t1, Echo, b, Handler(Print));
    count := bus.GetHandlerCount(Echo);
    published := bus.Publish(Echo, event);
    SucceedingRegistry(bus.table[Echo], event, published);
  }

  /** Unsubscribe A, count; clear, list. */
  method SyncUnsubscribeAndClear(bus: SyncBus.EventBus<Data>, a: HandlerId, b: HandlerId)
    returns (unsubscribed: Result<()>, count: Result<nat>, cleared: Result<()>, listed: seq<string>)
    requires bus.Valid() && a != b
    requires bus.table == map[Echo := map[a := Handler(Print), b := Handler(Print)]]
    modifies bus
    ensures unsubscribed == Ok(()) && cleared == Ok(())
    ensures count == Ok(1) && listed == []
  {
    var t2 := bus.table;
    assert |t2[Echo]| == 2;
    unsubscribed := bus.Unsubscribe(Echo, a);
    UnsubscribeKnownType(t2, Echo, a);
    count := bus.GetHandlerCount(Echo);
    cleared := bus.Clear();
    var rl := bus.List();
    listed := rl.value;
  }

  /** The whole scenario: counts 1, 2, 1, both publishes succeed, one type listed, none after clear. */
  method SyncEchoScenario() returns (subscribed: seq<Result<HandlerId>>, counts: seq<Result<nat>>,
                                     published: seq<Result<()>>, unsubscribed: Result<()>, cleared: Result<()>,
                                     firstList: seq<string>, lastList: seq<string>)
    ensures |subscribed| == 2 && subscribed[0].Ok? && subscribed[1].Ok? && subscribed[0] != subscribed[1]
    ensures unsubscribed == Ok(()) && cleared == Ok(())
    ensures counts == [Ok(1), Ok(2), Ok(1)]
    ensures published == [Ok(()), Ok(())]
    ensures firstList == [Echo]
    ensures lastList == []
  {
    var bus := new SyncBus.EventBus<Data>();
    var event := Event.New(Data("{data from event}"));
    var s1, a, c1, p1;
    s1, a, c1, p1, firstList := SyncFirstSubscriber(bus, event);
    var s2, b, c2, p2 := SyncSecondSubscriber(bus, event, a);
    var c3;
    unsubscribed, c3, cleared, lastList := SyncUnsubscribeAndClear(bus, a, b);
    subscribed, counts, published := [s1, s2], [c1, c2, c3], [p1, p2];
  }

  /** Subscribe A to a new bus, publish, list, count. */
  method AsyncFirstSubscriber(bus: AsyncBus.EventBus<Data>, event: Event<Data>)
    returns (a: HandlerId, count: Result<nat>, published: Result<()>, listed: seq<string>)
    requires bus.Valid() && bus.table == map[]
    modifies bus, bus.ids
    ensures bus.Valid()
    ensures bus.table == map[Echo := map[a := Handler(Print)]]
    ensures count == Ok(1) && published == Ok(()) && listed == [Echo]
  {
    var t0 := bus.table;
    a := bus.Subscribe(Echo, Handler(Print));
    SubscribeUnknownType(t0, Echo, a, Handler(Print));
    published := bus.Publish(Echo, event);
    SucceedingRegistry(bus.table[Echo], event, published);
    listed := bus.List();
    assert listed[0] in listed;
    count := bus.GetHandlerCount(Echo);
  }

  /** Subscribe B beside A, count, publish. */
  method AsyncSecondSubscriber(bus: AsyncBus.EventBus<Data>, event: Event<Data>, a: HandlerId)
    returns (b: HandlerId, count: Result<nat>, published: Result<()>)
    requires bus.Valid() && bus.table == map[Echo := map[a := Handler(Print)]]
    modifies bus, bus.ids
    ensures bus.Valid() && a != b
    ensures bus.table == map[Echo := map[a := Handler(Print), b := Handler(Print)]]
    ensures count == Ok(2) && published == Ok(())
  {
    var t1 := bus.table;
    assert a in bus.table[Echo];
    assert a in bus.ids.minted;
    b := bus.Subscribe(Echo, Handler(Print));
    SubscribeKnownType(t1, Echo, b, Handler(Print));
    count := bus.GetHandlerCount(Echo);
    published := bus.Publish(Echo, event);
    SucceedingRegistry(bus.table[Echo], event, published);
  }

  /** Unsubscribe A, count; clear, list. */
  method AsyncUnsubscribeAndClear(bus: AsyncBus.EventBus<Data>, a: HandlerId, b: HandlerId)
    returns (unsubscribed: Result<()>, count: Result<nat>, listed: seq<string>)
    requires bus.Valid() && a != b
    requires bus.table == map[Echo := map[a := Handler(Print), b := Handler(Print)]]
    modifies bus
    ensures unsubscribed == Ok(())
    ensures count == Ok(1) && listed == []
  {
    var t2 := bus.table;
    assert |t2[Echo]| == 2;
    unsubscribed := bus.Unsubscribe(Echo, a);
    UnsubscribeKnownType(t2, Echo, a);
    count := bus.GetHandlerCount(Echo);
    bus.Clear();
    listed := bus.List();
  }

  /** The whole scenario: counts 1, 2, 1, both publishes succeed, one type listed, none after clear. */
  method AsyncEchoScenario() returns (counts: seq<Result<nat>>, published: seq<Result<()>>,
                                      unsubscribed: Result<()>, firstList: seq<string>, lastList: seq<string>)
    ensures unsubscribed == Ok(())
    ensures counts == [Ok(1), Ok(2), Ok(1)]
    ensures published == [Ok(()), Ok(())]
    ensures firstList == [Echo]
    ensures lastList == []
  {
    var bus := new AsyncBus.EventBus<Data>();
    var event := Event.New(Data("{data from event}"));
    var a, c1, p1;
    a, c1, p1, firstList := AsyncFirstSubscriber(bus, event);
    var b, c2, p2 := AsyncSecondSubscriber(bus, event, a);
    var c3;
    unsubscribed, c3, lastList := AsyncUnsubscribeAndClear(bus, a, b);
    counts, published := [c1, c2, c3], [p1, p2];
  }
}
