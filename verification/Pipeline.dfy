/**
 * The whole path of a purchase: cart, checkout event, order, OrderCreated, delivery task.
 * The three machines run side by side; events reach the next one over any of the channels,
 * in any order, any number of times.
 */
module Pipeline {
  import opened Prelude
  import OM = OrderMachine
  import OS = OrderSafety
  import T = Transport
  import C = Cart
  import D = Delivery

  /* ---------- what shop-svc sends ---------- */

  datatype Mode = Auto | Http | ServiceBus | Kafka

  datatype Channel = ToKafka | ToBus | ToHttp

  /** The channel of a checkout, or None when the send is refused before anything leaves: a mode
      that was asked for is never replaced by another, and only `auto` falls back, on what is
      configured and connected, not on the outcome of a send. */
  function ChooseChannel(mode: Mode, hasProducer: bool, producerReady: bool, hasBus: bool): (r: Option<Channel>)
    requires producerReady ==> hasProducer
    ensures mode.Auto? ==> r.Some?
    ensures r == Some(ToKafka) <==> (mode.Kafka? && hasProducer) || (mode.Auto? && producerReady)
    ensures r == Some(ToBus) <==> hasBus && (mode.ServiceBus? || (mode.Auto? && !producerReady))
    ensures r == Some(ToHttp) <==> mode.Http? || (mode.Auto? && !producerReady && !hasBus)
    ensures r == None <==> (mode.ServiceBus? && !hasBus) || (mode.Kafka? && !hasProducer)
  {
    match mode
    case Http => Some(ToHttp)
    case ServiceBus => if hasBus then Some(ToBus) else None
    case Kafka => if hasProducer then Some(ToKafka) else None
    case Auto => if producerReady then Some(ToKafka) else if hasBus then Some(ToBus) else Some(ToHttp)
  }

  function BodyOf(e: C.Snapshot): OM.Body {
    OM.Body(e.userId, e.cartId, Some(e.correlationId), Some(OM.Payload(e.productIds, e.quantities)))
  }

  // The call of the record and of the HTTP request.
  function CallOf(e: C.Snapshot): OM.Call {
    OM.Call(e.correlationId, BodyOf(e))
  }

  function RecordOf(e: C.Snapshot, text: string): T.Record {
    T.Record(Some(e.correlationId), T.Json(text, BodyOf(e)))
  }

  // The shop sets no message id; the broker may.
  function BusMessageOf(e: C.Snapshot, id: Option<string>, text: string): T.BusMessage {
    T.BusMessage(id, Some(BodyOf(e)), text)
  }

  function PostOf(e: C.Snapshot): T.Post {
    T.Post(e.correlationId, e.userId, e.cartId, OM.Payload(e.productIds, e.quantities))
  }

  /** An event becomes a usable call with the same body on all three channels, keyed by its
      correlation id unless the broker gave its message an id. */
  lemma EveryChannelPlacesTheEvent(e: C.Snapshot, id: Option<string>, text: string)
    requires |e.productIds| == |e.quantities|
    ensures T.PlanFor(RecordOf(e, text)) == T.Place(CallOf(e))
    ensures T.HttpCall(PostOf(e)) == CallOf(e)
    ensures T.BusPlan(BusMessageOf(e, id, text)) == T.Place(CallOf(e).(key := if id.Some? then id.value else e.correlationId))
    ensures OM.WellFormed(CallOf(e).body)
    ensures CallOf(e).body.userId == e.userId && CallOf(e).body.cartId == e.cartId
    ensures CallOf(e).body.correlationId == Some(e.correlationId) && CallOf(e).key == e.correlationId
    ensures CallOf(e).body.payload.value.productIds == e.productIds && CallOf(e).body.payload.value.quantities == e.quantities
  {}

  // OrderCreated as order-svc serialises it.
  function MessageOf(e: OM.OrderEvent): D.Message {
    D.Json(Some("OrderCreated"), 1, Some(D.Guid(e.orderId)), Some(e.userId), Some(e.cartId), Some(e.correlationId), e.lineCount)
  }

  /* ---------- the machine ---------- */

  /** `ops` is history: the shop requests served so far. */
  datatype World = World(products: set<string>, shop: C.Shop, ops: seq<C.Op>, transport: T.Sys, tasks: D.Sys)

  function Init(products: set<string>): World {
    World(products, C.Shop(map[], []), [], T.Init([]), D.Init([]))
  }

  datatype Move =
    // id: the bus message or the HTTP call; brokerId: the message id the broker assigns, if any
    | Buy(op: C.Op, channel: Channel, id: nat, brokerId: Option<string>, text: string)
    | Retry(k: nat, w: OM.WorkerId)  // an HTTP caller sends event k again
    | Carry(e: T.Event)
    | Publish(w: OM.WorkerId, copies: nat)  // OrderCreated
    | Work(d: D.Event)

  // Only the shop produces checkout messages, and only order-svc appends OrderCreated.
  predicate Internal(e: T.Event) {
    !e.Produce? && !e.Send? && !(e.Order? && (e.a.Start? || e.a.Emit?))
  }

  function SendOn(t: T.Sys, e: C.Snapshot, channel: Channel, id: nat, brokerId: Option<string>, text: string): T.Sys {
    match channel
    case ToKafka => T.Step(t, T.Produce(RecordOf(e, text)))
    case ToBus => T.Step(t, T.Send(id, BusMessageOf(e, brokerId, text)))
    case ToHttp => T.Step(t, T.Order(OM.Start(id, T.HttpCall(PostOf(e)))))
  }

  /** A send reaches the channel it was meant for, with the event's key and body, and no other. */
  lemma SendReachesItsChannel(t: T.Sys, e: C.Snapshot, channel: Channel, id: nat, brokerId: Option<string>, text: string)
    requires id !in t.bus && id !in t.orders.workers
    ensures var s := SendOn(t, e, channel, id, brokerId, text);
      && (if channel.ToKafka? then
            |s.log| == |t.log| + 1 && s.log[..|t.log|] == t.log && s.log[|t.log|].key == Some(e.correlationId)
            && s.log[|t.log|].value == T.Json(text, CallOf(e).body)
          else s.log == t.log)
      && (if channel.ToBus? then
            s.bus == t.bus[id := T.Delivery(T.BusMessage(brokerId, Some(CallOf(e).body), text), T.Queued)]
          else s.bus == t.bus)
      && (if channel.ToHttp? then
            s.orders.workers.Keys == t.orders.workers.Keys + {id} && s.orders.workers[id].call == CallOf(e)
          else s.orders == t.orders)
  {}

  function Messages(es: seq<OM.OrderEvent>): seq<D.Message> {
    seq(|es|, i requires 0 <= i < |es| => MessageOf(es[i]))
  }

  function Next(x: World, m: Move): World {
    match m
    case Buy(op, channel, id, brokerId, text) =>
      var shop := C.Apply(x.shop, x.products, op);
      var y := x.(shop := shop, ops := x.ops + [op]);
      if |shop.published| == |x.shop.published| then y
      else y.(transport := SendOn(x.transport, shop.published[|shop.published| - 1], channel, id, brokerId, text))
    case Retry(k, w) =>
      if k < |x.shop.published| then
        x.(transport := T.Step(x.transport, T.Order(OM.Start(w, T.HttpCall(PostOf(x.shop.published[k]))))))
      else x
    case Carry(e) => if Internal(e) then x.(transport := T.Step(x.transport, e)) else x
    case Publish(w, copies) =>
      var t := T.Step(x.transport, T.Order(OM.Emit(w, copies)));
      x.(transport := t, tasks := x.tasks.(log := Messages(t.orders.events)))
    case Work(e) => if e.Append? then x else x.(tasks := D.Step(x.tasks, e))
  }

  function Run(x: World, ms: seq<Move>): World
    decreases |ms|
  {
    if ms == [] then x else Run(Next(x, ms[0]), ms[1..])
  }

  /* ---------- the invariant ---------- */

  ghost predicate RecordSent(published: seq<C.Snapshot>, r: T.Record) {
    exists k, text {:trigger RecordOf(published[k], text)} | 0 <= k < |published| :: r == RecordOf(published[k], text)
  }

  ghost predicate BusSent(published: seq<C.Snapshot>, m: T.BusMessage) {
    exists k, id, text {:trigger BusMessageOf(published[k], id, text)} | 0 <= k < |published| ::
      m == BusMessageOf(published[k], id, text)
  }

  ghost predicate PostSent(published: seq<C.Snapshot>, p: T.Post) {
    exists k | 0 <= k < |published| :: p == PostOf(published[k])
  }

  ghost function Records(published: seq<C.Snapshot>): iset<T.Record> {
    iset r | RecordSent(published, r)
  }

  ghost function Posts(published: seq<C.Snapshot>): iset<T.Post> {
    iset p | PostSent(published, p)
  }

  ghost function OnBus(bus: map<T.MessageId, T.Delivery>): iset<T.BusMessage> {
    iset i | i in bus :: bus[i].msg
  }

  // The calls that the events published so far, and the messages on the bus, can make.
  ghost function Calls(published: seq<C.Snapshot>, bus: map<T.MessageId, T.Delivery>): iset<OM.Call> {
    iset c | T.EntryCall(Records(published), OnBus(bus), Posts(published), c)
  }

  // What is asked of the broker: an id it gives to two messages, or that is a correlation id as
  // well, belongs to messages of one correlation id. A broker that gives no ids meets it.
  ghost predicate BrokerIdsOwn(published: seq<C.Snapshot>, bus: map<T.MessageId, T.Delivery>) {
    T.BrokerIdsOwn(Records(published), OnBus(bus), Posts(published))
  }

  ghost predicate ShopOk(x: World) {
    && x.shop == C.Run(C.Shop(map[], []), x.products, x.ops)
    && (forall k | 0 <= k < |x.shop.published| :: |x.shop.published[k].productIds| == |x.shop.published[k].quantities|)
  }

  ghost predicate MailOk(published: seq<C.Snapshot>, t: T.Sys) {
    && (forall i | 0 <= i < |t.log| :: RecordSent(published, t.log[i]))
    && (forall m | m in t.bus :: BusSent(published, t.bus[m].msg))
  }

  ghost predicate CallsOk(published: seq<C.Snapshot>, bus: map<T.MessageId, T.Delivery>, s: OM.State) {
    OS.From(s, Calls(published, bus)) && (BrokerIdsOwn(published, bus) ==> OS.KeyInv(s))
  }

  ghost predicate Linked(published: seq<C.Snapshot>, t: T.Sys) {
    MailOk(published, t) && CallsOk(published, t.bus, t.orders)
  }

  ghost predicate Inv(x: World) {
    && ShopOk(x)
    && T.Inv(x.transport) && Linked(x.shop.published, x.transport)
    && D.Inv(x.tasks) && x.tasks.log == Messages(x.transport.orders.events)
  }

  lemma CallsDetermine(published: seq<C.Snapshot>, bus: map<T.MessageId, T.Delivery>)
    requires BrokerIdsOwn(published, bus)
    ensures OS.KeysDetermine(Calls(published, bus))
  {
    T.EntryKeysDetermineExactlyWhen(Records(published), OnBus(bus), Posts(published));
  }

  // More events and more messages.
  lemma MoreCalls(published: seq<C.Snapshot>, published': seq<C.Snapshot>,
                  bus: map<T.MessageId, T.Delivery>, bus': map<T.MessageId, T.Delivery>)
    requires published <= published' && OnBus(bus) <= OnBus(bus')
    ensures Calls(published, bus) <= Calls(published', bus')
    ensures BrokerIdsOwn(published', bus') ==> BrokerIdsOwn(published, bus)
    ensures forall r | RecordSent(published, r) :: RecordSent(published', r)
    ensures forall m | BusSent(published, m) :: BusSent(published', m)
  {
    assert forall k | 0 <= k < |published| :: published'[k] == published[k];
    forall r | RecordSent(published, r) ensures RecordSent(published', r) {
      var k, text :| 0 <= k < |published| && r == RecordOf(published[k], text);
      assert r == RecordOf(published'[k], text);
    }
    forall m | BusSent(published, m) ensures BusSent(published', m) {
      var k, id, text :| 0 <= k < |published| && m == BusMessageOf(published[k], id, text);
      assert m == BusMessageOf(published'[k], id, text);
    }
    assert Posts(published) <= Posts(published');
    T.MoreEntryCalls(Records(published), OnBus(bus), Posts(published), Records(published'), OnBus(bus'), Posts(published'));
  }

  lemma MoreCallsKeepsCallsOk(published: seq<C.Snapshot>, published': seq<C.Snapshot>,
                              bus: map<T.MessageId, T.Delivery>, bus': map<T.MessageId, T.Delivery>, s: OM.State)
    requires CallsOk(published, bus, s) && published <= published' && OnBus(bus) <= OnBus(bus')
    ensures CallsOk(published', bus', s)
  {
    MoreCalls(published, published', bus, bus');
  }

  lemma OrderStepKeepsCallsOk(published: seq<C.Snapshot>, bus: map<T.MessageId, T.Delivery>, s: OM.State, a: OM.Action)
    requires OM.Inv(s) && CallsOk(published, bus, s) && (a.Start? ==> a.call in Calls(published, bus))
    ensures CallsOk(published, bus, OM.Next(s, a))
  {
    var calls := Calls(published, bus);
    if BrokerIdsOwn(published, bus) {
      CallsDetermine(published, bus);
      OS.NextKeepsKeyInv(s, a, calls);
    } else {
      OS.NextKeepsFrom(s, a, calls);
    }
  }

  // A record of the shop's starts a call of the shop's, and so does a message on the bus.
  lemma RecordCall(published: seq<C.Snapshot>, bus: map<T.MessageId, T.Delivery>, r: T.Record)
    requires RecordSent(published, r)
    ensures T.PlanFor(r).Place? && T.PlanFor(r).call in Calls(published, bus)
  {
    assert r in Records(published) && T.PlanFor(r) == T.Place(T.PlanFor(r).call);
  }

  lemma MessageCall(published: seq<C.Snapshot>, bus: map<T.MessageId, T.Delivery>, m: T.MessageId)
    requires m in bus && BusSent(published, bus[m].msg)
    ensures T.BusPlan(bus[m].msg).Place? && T.BusPlan(bus[m].msg).call in Calls(published, bus)
  {
    assert bus[m].msg in OnBus(bus) && T.BusPlan(bus[m].msg) == T.Place(T.BusPlan(bus[m].msg).call);
  }

  lemma PostCall(published: seq<C.Snapshot>, bus: map<T.MessageId, T.Delivery>, k: nat)
    requires k < |published|
    ensures T.HttpCall(PostOf(published[k])) in Calls(published, bus)
  {
    assert PostOf(published[k]) in Posts(published);
  }

  lemma DeliverKeepsLinked(published: seq<C.Snapshot>, t: T.Sys, i: T.SessionId, w: OM.WorkerId)
    requires OM.Inv(t.orders) && Linked(published, t)
    ensures Linked(published, T.DoDeliver(t, i, w))
  {
    var t' := T.DoDeliver(t, i, w);
    assert t'.bus == t.bus && t'.log == t.log;
    if t'.orders != t.orders {
      var r := t.log[t.sessions[i].position];
      RecordCall(published, t.bus, r);
      OrderStepKeepsCallsOk(published, t.bus, t.orders, OM.Start(w, T.PlanFor(r).call));
    }
  }

  // The messages on the bus are the same, whatever became of them.
  lemma SameMessages(bus: map<T.MessageId, T.Delivery>, bus': map<T.MessageId, T.Delivery>)
    requires bus'.Keys == bus.Keys && forall m | m in bus :: bus'[m].msg == bus[m].msg
    ensures OnBus(bus') == OnBus(bus)
  {}

  lemma SettlingKeepsMessages(t: T.Sys, e: T.Event)
    requires e.Receive? || e.Complete? || e.DeadLetter? || e.LockExpires?
    ensures var t' := T.Step(t, e);
      t'.log == t.log && t'.bus.Keys == t.bus.Keys && (forall m | m in t.bus :: t'.bus[m].msg == t.bus[m].msg)
  {}

  lemma SettlingKeepsCallsOk(published: seq<C.Snapshot>, t: T.Sys, e: T.Event)
    requires OM.Inv(t.orders) && Linked(published, t)
    requires e.Receive? || e.Complete? || e.DeadLetter? || e.LockExpires?
    ensures CallsOk(published, t.bus, T.Step(t, e).orders)
  {
    if T.Step(t, e).orders != t.orders {
      MessageCall(published, t.bus, e.m);
      OrderStepKeepsCallsOk(published, t.bus, t.orders, OM.Start(e.w, T.BusPlan(t.bus[e.m].msg).call));
    }
  }

  lemma SettlingKeepsLinked(published: seq<C.Snapshot>, t: T.Sys, e: T.Event)
    requires OM.Inv(t.orders) && Linked(published, t)
    requires e.Receive? || e.Complete? || e.DeadLetter? || e.LockExpires?
    ensures Linked(published, T.Step(t, e))
  {
    SettlingKeepsMessages(t, e);
    SameMessages(t.bus, T.Step(t, e).bus);
    SettlingKeepsCallsOk(published, t, e);
    MoreCallsKeepsCallsOk(published, published, t.bus, T.Step(t, e).bus, T.Step(t, e).orders);
  }

  lemma CarryKeepsLinked(published: seq<C.Snapshot>, t: T.Sys, e: T.Event)
    requires OM.Inv(t.orders) && Linked(published, t) && Internal(e)
    ensures Linked(published, T.Step(t, e))
  {
    match e {
      case Order(a) => OrderStepKeepsCallsOk(published, t.bus, t.orders, a);
      case Deliver(i, w) => DeliverKeepsLinked(published, t, i, w);
      case Receive(_, _) => SettlingKeepsLinked(published, t, e);
      case Complete(_) => SettlingKeepsLinked(published, t, e);
      case DeadLetter(_) => SettlingKeepsLinked(published, t, e);
      case LockExpires(_) => SettlingKeepsLinked(published, t, e);
      case _ =>
    }
  }

  lemma MorePublishedKeepsLinked(published: seq<C.Snapshot>, e: C.Snapshot, t: T.Sys)
    requires Linked(published, t)
    ensures Linked(published + [e], t)
  {
    MoreCalls(published, published + [e], t.bus, t.bus);
    MoreCallsKeepsCallsOk(published, published + [e], t.bus, t.bus, t.orders);
  }

  lemma MessageSentKeepsLinked(published: seq<C.Snapshot>, k: nat, t: T.Sys,
                               id: T.MessageId, brokerId: Option<string>, text: string)
    requires Linked(published, t) && k < |published|
    ensures Linked(published, T.Step(t, T.Send(id, BusMessageOf(published[k], brokerId, text))))
  {
    var t' := T.Step(t, T.Send(id, BusMessageOf(published[k], brokerId, text)));
    if t' != t {
      forall m | m in t.bus ensures t.bus[m].msg in OnBus(t'.bus) {
        assert t'.bus[m] == t.bus[m];
      }
      MoreCallsKeepsCallsOk(published, published, t.bus, t'.bus, t.orders);
    }
  }

  lemma SendKeepsLinked(published: seq<C.Snapshot>, e: C.Snapshot, t: T.Sys,
                        channel: Channel, id: nat, brokerId: Option<string>, text: string)
    requires T.Inv(t) && Linked(published, t)
    ensures Linked(published + [e], SendOn(t, e, channel, id, brokerId, text))
  {
    var published' := published + [e];
    MorePublishedKeepsLinked(published, e, t);
    assert published'[|published|] == e;
    match channel
    case ToKafka => assert RecordSent(published', RecordOf(published'[|published|], text));
    case ToBus => MessageSentKeepsLinked(published', |published|, t, id, brokerId, text);
    case ToHttp =>
      PostCall(published', t.bus, |published|);
      OrderStepKeepsCallsOk(published', t.bus, t.orders, OM.Start(id, T.HttpCall(PostOf(e))));
  }

  lemma {:induction false} ShopRunAppend(s: C.Shop, products: set<string>, ops: seq<C.Op>, op: C.Op)
    ensures C.Run(s, products, ops + [op]) == C.Apply(C.Run(s, products, ops), products, op)
    decreases |ops|
  {
    if ops == [] {
      assert ops + [op] == [op];
      assert [op][1..] == [];
    } else {
      assert (ops + [op])[1..] == ops[1..] + [op];
      ShopRunAppend(C.Apply(s, products, ops[0]), products, ops[1..], op);
    }
  }

  // Only OrderCreated publications change the list of events.
  lemma EventsChangeOnlyOnEmit(t: T.Sys, e: T.Event)
    requires !(e.Order? && e.a.Emit?)
    ensures T.Step(t, e).orders.events == t.orders.events
  {}

  lemma SendKeepsTransport(t: T.Sys, e: C.Snapshot, channel: Channel, id: nat, brokerId: Option<string>, text: string)
    requires T.Inv(t)
    ensures T.Inv(SendOn(t, e, channel, id, brokerId, text))
    ensures SendOn(t, e, channel, id, brokerId, text).orders.events == t.orders.events
  {
    var step := match channel
                case ToKafka => T.Produce(RecordOf(e, text))
                case ToBus => T.Send(id, BusMessageOf(e, brokerId, text))
                case ToHttp => T.Order(OM.Start(id, T.HttpCall(PostOf(e))));
    T.StepKeepsInv(t, step);
    EventsChangeOnlyOnEmit(t, step);
  }

  // A request publishes at most one event, with as many quantities as products.
  lemma RequestKeepsShop(x: World, op: C.Op)
    requires ShopOk(x)
    ensures var shop := C.Apply(x.shop, x.products, op);
      && ShopOk(x.(shop := shop, ops := x.ops + [op]))
      && (shop.published == x.shop.published
          || (|shop.published| == |x.shop.published| + 1
              && shop.published == x.shop.published + [shop.published[|x.shop.published|]]))
  {
    ShopRunAppend(C.Shop(map[], []), x.products, x.ops, op);
  }

  lemma BuyKeepsInv(x: World, op: C.Op, channel: Channel, id: nat, brokerId: Option<string>, text: string)
    requires Inv(x)
    ensures Inv(Next(x, Buy(op, channel, id, brokerId, text)))
  {
    RequestKeepsShop(x, op);
    var shop := C.Apply(x.shop, x.products, op);
    if shop.published != x.shop.published {
      var e := shop.published[|x.shop.published|];
      SendKeepsLinked(x.shop.published, e, x.transport, channel, id, brokerId, text);
      SendKeepsTransport(x.transport, e, channel, id, brokerId, text);
    }
  }

  lemma TasksLogGrows(s: D.Sys, log: seq<D.Message>)
    requires D.Inv(s) && |s.log| <= |log| && log[..|s.log|] == s.log
    ensures D.Inv(s.(log := log))
  {
    D.GrowsKeepsFates(s, s.(log := log));
    D.MoreRecordsKeepTasks(s, s.(log := log));
  }

  lemma PublishKeepsInv(x: World, w: OM.WorkerId, copies: nat)
    requires Inv(x)
    ensures Inv(Next(x, Publish(w, copies)))
  {
    var e := T.Order(OM.Emit(w, copies));
    var t := T.Step(x.transport, e);
    T.StepKeepsInv(x.transport, e);
    OrderStepKeepsCallsOk(x.shop.published, x.transport.bus, x.transport.orders, OM.Emit(w, copies));
    var old', new' := x.transport.orders.events, t.orders.events;
    assert |old'| <= |new'| && new'[..|old'|] == old';
    assert Messages(new')[..|old'|] == Messages(old');
    TasksLogGrows(x.tasks, Messages(new'));
  }

  lemma RetryKeepsLinked(published: seq<C.Snapshot>, t: T.Sys, k: nat, w: OM.WorkerId)
    requires OM.Inv(t.orders) && Linked(published, t) && k < |published|
    ensures Linked(published, T.Step(t, T.Order(OM.Start(w, T.HttpCall(PostOf(published[k]))))))
  {
    PostCall(published, t.bus, k);
    OrderStepKeepsCallsOk(published, t.bus, t.orders, OM.Start(w, T.HttpCall(PostOf(published[k]))));
  }

  lemma RetryKeepsInv(x: World, k: nat, w: OM.WorkerId)
    requires Inv(x) && k < |x.shop.published|
    ensures Inv(Next(x, Retry(k, w)))
  {
    var a := OM.Start(w, T.HttpCall(PostOf(x.shop.published[k])));
    T.StepKeepsInv(x.transport, T.Order(a));
    RetryKeepsLinked(x.shop.published, x.transport, k, w);
    EventsChangeOnlyOnEmit(x.transport, T.Order(a));
  }

  lemma CarryKeepsInv(x: World, e: T.Event)
    requires Inv(x) && Internal(e)
    ensures Inv(Next(x, Carry(e)))
  {
    T.StepKeepsInv(x.transport, e);
    CarryKeepsLinked(x.shop.published, x.transport, e);
    EventsChangeOnlyOnEmit(x.transport, e);
  }

  lemma WorkKeepsInv(x: World, d: D.Event)
    requires Inv(x) && !d.Append?
    ensures Inv(Next(x, Work(d)))
  {
    D.StepKeepsInv(x.tasks, d);
  }

  lemma NextKeepsInv(x: World, m: Move)
    requires Inv(x)
    ensures Inv(Next(x, m))
  {
    match m
    case Buy(op, channel, id, brokerId, text) => BuyKeepsInv(x, op, channel, id, brokerId, text);
    case Retry(k, w) => if k < |x.shop.published| { RetryKeepsInv(x, k, w); }
    case Carry(e) => if Internal(e) { CarryKeepsInv(x, e); }
    case Publish(w, copies) => PublishKeepsInv(x, w, copies);
    case Work(d) => if !d.Append? { WorkKeepsInv(x, d); }
  }

  lemma {:induction false} RunKeepsInv(x: World, ms: seq<Move>)
    requires Inv(x)
    ensures Inv(Run(x, ms))
    decreases |ms|
  {
    if ms != [] {
      NextKeepsInv(x, ms[0]);
      RunKeepsInv(Next(x, ms[0]), ms[1..]);
    }
  }

  lemma RunInv(products: set<string>, ms: seq<Move>)
    ensures Inv(Run(Init(products), ms))
  {
    OS.InitInv();
    RunKeepsInv(Init(products), ms);
  }

  /* ---------- units of an order ---------- */

  function LineUnits(lines: seq<OM.LineRow>, p: string): int {
    if lines == [] then 0 else (if lines[0].productId == p then lines[0].quantity else 0) + LineUnits(lines[1..], p)
  }

  function OrderUnits(db: OM.Db, o: OM.OrderId, p: string): int {
    LineUnits(OM.LinesOf(db.lines, o), p)
  }

  lemma {:induction false} LineUnitsSplit(a: seq<OM.LineRow>, b: seq<OM.LineRow>, p: string)
    ensures LineUnits(a + b, p) == LineUnits(a, p) + LineUnits(b, p)
  {
    if a == [] {
      assert a + b == b;
    } else {
      assert (a + b)[1..] == a[1..] + b;
      LineUnitsSplit(a[1..], b, p);
    }
  }

  lemma RemoveLine(b: seq<OM.LineRow>, i: nat, p: string)
    requires i < |b|
    ensures multiset(b[..i] + b[i + 1..]) == multiset(b) - multiset{b[i]}
    ensures LineUnits(b, p) == LineUnits([b[i]] + (b[..i] + b[i + 1..]), p)
  {
    assert b == b[..i] + ([b[i]] + b[i + 1..]);
    LineUnitsSplit(b[..i], [b[i]] + b[i + 1..], p);
    LineUnitsSplit([b[i]], b[i + 1..], p);
    LineUnitsSplit(b[..i], b[i + 1..], p);
    LineUnitsSplit([b[i]], b[..i] + b[i + 1..], p);
  }

  // The units of a set of lines do not depend on the order the rows come in.
  lemma {:induction false} LineUnitsPermute(a: seq<OM.LineRow>, b: seq<OM.LineRow>, p: string)
    requires multiset(a) == multiset(b)
    ensures LineUnits(a, p) == LineUnits(b, p)
  {
    if a != [] {
      assert a[0] in multiset(b);
      var i :| 0 <= i < |b| && b[i] == a[0];
      assert a == [a[0]] + a[1..];
      assert multiset(a[1..]) == multiset(a) - multiset{a[0]};
      RemoveLine(b, i, p);
      LineUnitsPermute(a[1..], b[..i] + b[i + 1..], p);
    } else {
      assert |multiset(b)| == 0;
    }
  }

  lemma {:induction false} LinesForUnits(o: OM.OrderId, ids: seq<string>, qtys: seq<int>, p: string)
    requires |ids| == |qtys|
    ensures LineUnits(OM.LinesFor(o, OM.Payload(ids, qtys)), p) == C.ArrayUnits(ids, qtys, p)
  {
    if ids != [] {
      var l := OM.LinesFor(o, OM.Payload(ids, qtys));
      assert l[1..] == OM.LinesFor(o, OM.Payload(ids[1..], qtys[1..]));
      LinesForUnits(o, ids[1..], qtys[1..], p);
    }
  }

  lemma CreatedUnits(s: OM.State, o: OM.OrderId, e: C.Snapshot, p: string)
    requires OM.DbOk(s.db, s.creator) && o in s.db.orders && s.creator[o].body == BodyOf(e) && |e.productIds| == |e.quantities|
    ensures OrderUnits(s.db, o, p) == C.ArrayUnits(e.productIds, e.quantities, p)
  {
    assert OM.View(s.db, o) == OM.FreshView(o, BodyOf(e));
    LineUnitsPermute(OM.LinesOf(s.db.lines, o), OM.LinesFor(o, OM.Payload(e.productIds, e.quantities)), p);
    LinesForUnits(o, e.productIds, e.quantities, p);
  }

  /* ---------- end to end ---------- */

  // Whatever started it, a call carries the body of a published event.
  lemma CallIsOfEvent(published: seq<C.Snapshot>, t: T.Sys, c: OM.Call) returns (k: nat)
    requires MailOk(published, t) && c in Calls(published, t.bus)
    ensures k < |published| && c.body == BodyOf(published[k])
  {
    if r :| r in Records(published) && T.PlanFor(r) == T.Place(c) {
      var j, text :| 0 <= j < |published| && r == RecordOf(published[j], text);
      k := j;
    } else if p :| p in Posts(published) && T.HttpCall(p) == c {
      var j :| 0 <= j < |published| && p == PostOf(published[j]);
      k := j;
    } else {
      var m :| m in OnBus(t.bus) && T.BusPlan(m) == T.Place(c);
      assert BusSent(published, m);
      var j, id, text :| 0 <= j < |published| && m == BusMessageOf(published[j], id, text);
      k := j;
    }
  }

  // The order row says what the event says.
  predicate IsOrderOf(row: OM.OrderRow, e: C.Snapshot) {
    row.userId == e.userId && row.cartId == e.cartId && row.correlationId == e.correlationId && row.status == "confirmed"
  }

  lemma OrderIsOfEvent(x: World, o: OM.OrderId) returns (k: nat)
    requires Inv(x) && o in x.transport.orders.db.orders
    ensures var s := x.transport.orders;
      && k < |x.shop.published| && |x.shop.published[k].productIds| == |x.shop.published[k].quantities|
      && s.creator[o].body == BodyOf(x.shop.published[k]) && IsOrderOf(s.db.orders[o], x.shop.published[k])
  {
    var s := x.transport.orders;
    assert s.creator[o] in Calls(x.shop.published, x.transport.bus);
    k := CallIsOfEvent(x.shop.published, x.transport, s.creator[o]);
    assert OM.View(s.db, o) == OM.FreshView(o, s.creator[o].body);
  }

  /** Every committed order is the order of a published checkout event: same user, cart and
      correlation id, and for every product the same units. */
  lemma OrdersCarryTheirEvents(products: set<string>, ms: seq<Move>, o: OM.OrderId)
    requires o in Run(Init(products), ms).transport.orders.db.orders
    ensures var x := Run(Init(products), ms); var db := x.transport.orders.db;
      exists k | 0 <= k < |x.shop.published| ::
        && |x.shop.published[k].productIds| == |x.shop.published[k].quantities|
        && db.orders[o].userId == x.shop.published[k].userId
        && db.orders[o].cartId == x.shop.published[k].cartId
        && db.orders[o].correlationId == x.shop.published[k].correlationId
        && db.orders[o].status == "confirmed"
        && forall p ::
             OrderUnits(db, o, p) == C.ArrayUnits(x.shop.published[k].productIds, x.shop.published[k].quantities, p)
  {
    RunInv(products, ms);
    var x := Run(Init(products), ms);
    var s := x.transport.orders;
    var k := OrderIsOfEvent(x, o);
    forall p
      ensures OrderUnits(s.db, o, p) == C.ArrayUnits(x.shop.published[k].productIds, x.shop.published[k].quantities, p) {
      CreatedUnits(s, o, x.shop.published[k], p);
    }
  }

  /** Over all channels at once: calls with one key, and calls with one correlation id under
      whatever keys, return the same order, if broker ids are their messages' own. */
  lemma CallsAgree(products: set<string>, ms: seq<Move>)
    requires var x := Run(Init(products), ms); BrokerIdsOwn(x.shop.published, x.transport.bus)
    ensures var s := Run(Init(products), ms).transport.orders;
      && OS.ReturnsAgree(s)
      && forall w, w' | w in s.workers && w' in s.workers && s.workers[w].pc.Returned? && s.workers[w'].pc.Returned?
                        && s.workers[w].call.body.correlationId == s.workers[w'].call.body.correlationId ::
           s.workers[w].pc.result == s.workers[w'].pc.result
  {
    RunInv(products, ms);
    var x := Run(Init(products), ms);
    var s := x.transport.orders;
    OS.KeyInvAgrees(s);
    forall w, w' | w in s.workers && w' in s.workers && s.workers[w].pc.Returned? && s.workers[w'].pc.Returned?
                   && s.workers[w].call.body.correlationId == s.workers[w'].call.body.correlationId
      ensures s.workers[w].pc.result == s.workers[w'].pc.result
    {
      ReturnsOwnCorrelation(x, w);
      ReturnsOwnCorrelation(x, w');
    }
  }

  // An answered call's order has the call's correlation id.
  lemma AnswerHasCorrelation(x: World, c: OM.Call)
    requires Inv(x) && BrokerIdsOwn(x.shop.published, x.transport.bus)
    requires c in Calls(x.shop.published, x.transport.bus) && T.Answered(x.transport.orders, c.key)
    ensures var db := x.transport.orders.db;
            c.body.correlationId.Some? && db.orders[db.processed[c.key]].correlationId == c.body.correlationId.value
  {
    var s := x.transport.orders;
    var o := s.db.processed[c.key];
    var k := CallIsOfEvent(x.shop.published, x.transport, c);
    CallsDetermine(x.shop.published, x.transport.bus);
    assert OS.Consistent(s.creator[o], c);
    assert OM.View(s.db, o) == OM.FreshView(o, s.creator[o].body);
  }

  lemma ReturnsOwnCorrelation(x: World, w: OM.WorkerId)
    requires Inv(x) && BrokerIdsOwn(x.shop.published, x.transport.bus)
    requires w in x.transport.orders.workers && x.transport.orders.workers[w].pc.Returned?
    ensures var s := x.transport.orders; var y := s.workers[w];
      && y.pc.result.id in s.db.orders && y.pc.result == OM.View(s.db, y.pc.result.id)
      && y.call.body.correlationId == Some(s.db.orders[y.pc.result.id].correlationId)
  {
    var s := x.transport.orders;
    assert OM.WorkerOk(s, s.workers[w]) && OS.KeyOk(s.db, s.workers[w].call, s.workers[w].pc);
    AnswerHasCorrelation(x, s.workers[w].call);
  }

  ghost predicate FreshCorrelations(published: seq<C.Snapshot>) {
    forall i, j | 0 <= i < j < |published| :: published[i].correlationId != published[j].correlationId
  }

  // An order with the event's correlation id is committed.
  ghost predicate HasOrder(x: World, k: nat) {
    k < |x.shop.published| && OM.CorrelationTaken(x.transport.orders.db, x.shop.published[k].correlationId)
  }

  ghost function OrderFor(db: OM.Db, corr: string): (o: OM.OrderId)
    requires OM.CorrelationTaken(db, corr)
    ensures o in db.orders && db.orders[o].correlationId == corr
  {
    var o :| o in db.orders && db.orders[o].correlationId == corr;
    o
  }

  // The units of u's events, read from the committed orders with their correlation ids.
  ghost function OrderedUnits(published: seq<C.Snapshot>, db: OM.Db, u: string, p: string): int {
    if published == [] then 0
    else (if published[0].userId == u && OM.CorrelationTaken(db, published[0].correlationId)
          then OrderUnits(db, OrderFor(db, published[0].correlationId), p) else 0)
         + OrderedUnits(published[1..], db, u, p)
  }

  /** With fresh correlation ids, the one order with an event's correlation id has exactly the
      event's units. */
  lemma AnswerIsOwnOrder(x: World, k: nat, p: string)
    requires Inv(x) && FreshCorrelations(x.shop.published) && HasOrder(x, k)
    ensures var db := x.transport.orders.db; var e := x.shop.published[k];
      && |e.productIds| == |e.quantities|
      && (forall o | o in db.orders :: db.orders[o].correlationId == e.correlationId <==> o == OrderFor(db, e.correlationId))
      && IsOrderOf(db.orders[OrderFor(db, e.correlationId)], e)
      && OrderUnits(db, OrderFor(db, e.correlationId), p) == C.ArrayUnits(e.productIds, e.quantities, p)
  {
    var e := x.shop.published[k];
    var o := OrderFor(x.transport.orders.db, e.correlationId);
    var j := OrderIsOfEvent(x, o);
    assert x.shop.published[j].correlationId == e.correlationId;
    assert j == k;
    CreatedUnits(x.transport.orders, o, e, p);
  }

  lemma {:induction false} OrderedIsPublished(x: World, from: nat, u: string, p: string)
    requires Inv(x) && FreshCorrelations(x.shop.published) && from <= |x.shop.published|
    requires forall k | from <= k < |x.shop.published| && x.shop.published[k].userId == u :: HasOrder(x, k)
    ensures OrderedUnits(x.shop.published[from..], x.transport.orders.db, u, p)
            == C.PublishedUnits(x.shop.published[from..], u, p)
    decreases |x.shop.published| - from
  {
    var rest := x.shop.published[from..];
    if from < |x.shop.published| {
      assert rest[1..] == x.shop.published[from + 1..];
      if x.shop.published[from].userId == u {
        AnswerIsOwnOrder(x, from, p);
      }
      OrderedIsPublished(x, from + 1, u, p);
    }
  }

  /** End to end, with fresh correlation ids and whatever ids the broker gives: once all of u's
      published events have an order, the units in u's cart plus the units in those orders are
      exactly the units u added plus those that leaking checkouts left behind. */
  lemma EndToEndConservation(products: set<string>, ms: seq<Move>, u: string, p: string)
    requires var x := Run(Init(products), ms);
      && FreshCorrelations(x.shop.published)
      && forall k | 0 <= k < |x.shop.published| && x.shop.published[k].userId == u :: HasOrder(x, k)
    ensures var x := Run(Init(products), ms);
      C.Units(C.CartOf(x.shop, u), p) + OrderedUnits(x.shop.published, x.transport.orders.db, u, p)
      == C.AddedBy(products, x.ops, u, p) + C.LeakedBy(C.Shop(map[], []), products, x.ops, u, p)
  {
    RunInv(products, ms);
    var x := Run(Init(products), ms);
    ProductsStay(Init(products), ms);
    OrderedIsPublished(x, 0, u, p);
    assert x.shop.published[0..] == x.shop.published;
    C.Conservation(C.Shop(map[], []), products, x.ops, u, p);
  }

  lemma {:induction false} ProductsStay(x: World, ms: seq<Move>)
    ensures Run(x, ms).products == x.products
    decreases |ms|
  {
    if ms != [] {
      ProductsStay(Next(x, ms[0]), ms[1..]);
    }
  }

  // A committed order with the event's correlation id and exactly its units.
  ghost predicate Ordered(x: World, k: nat) {
    && HasOrder(x, k)
    && var e := x.shop.published[k]; var db := x.transport.orders.db;
       |e.productIds| == |e.quantities| && IsOrderOf(db.orders[OrderFor(db, e.correlationId)], e)
       && forall p {:trigger OrderUnits(db, OrderFor(db, e.correlationId), p)} ::
            OrderUnits(db, OrderFor(db, e.correlationId), p) == C.ArrayUnits(e.productIds, e.quantities, p)
  }

  lemma AnsweredIsOrdered(x: World, k: nat, c: OM.Call)
    requires Inv(x) && FreshCorrelations(x.shop.published) && BrokerIdsOwn(x.shop.published, x.transport.bus)
    requires k < |x.shop.published| && c.body == BodyOf(x.shop.published[k])
    requires c in Calls(x.shop.published, x.transport.bus) && T.Answered(x.transport.orders, c.key)
    ensures Ordered(x, k)
  {
    AnswerHasCorrelation(x, c);
    var db := x.transport.orders.db;
    assert db.orders[db.processed[c.key]].correlationId == x.shop.published[k].correlationId;
    AnswerIsOwnOrder(x, k, "");
    forall p
      ensures OrderUnits(db, OrderFor(db, x.shop.published[k].correlationId), p)
              == C.ArrayUnits(x.shop.published[k].productIds, x.shop.published[k].quantities, p)
    {
      AnswerIsOwnOrder(x, k, p);
    }
  }

  /** A checkout record that the order group has passed has an order with exactly its event's
      units, if correlation ids are fresh and broker ids are their messages' own. */
  lemma PassedEventsAreOrdered(products: set<string>, ms: seq<Move>, i: nat, k: nat)
    requires var x := Run(Init(products), ms); var t := x.transport;
      && FreshCorrelations(x.shop.published) && BrokerIdsOwn(x.shop.published, t.bus) && k < |x.shop.published|
      && t.committed.Some? && t.base <= i < t.committed.value && i < |t.log|
      && T.PlanFor(t.log[i]) == T.Place(CallOf(x.shop.published[k]))
    ensures Ordered(Run(Init(products), ms), k)
  {
    RunInv(products, ms);
    var x := Run(Init(products), ms);
    assert T.Settled(x.transport.orders, x.transport.log[i]);
    RecordCall(x.shop.published, x.transport.bus, x.transport.log[i]);
    AnsweredIsOrdered(x, k, CallOf(x.shop.published[k]));
  }

  /** So does a completed bus message, with or without an id from the broker. */
  lemma CompletedMessagesAreOrdered(products: set<string>, ms: seq<Move>, m: T.MessageId, k: nat)
    requires var x := Run(Init(products), ms); var t := x.transport;
      && FreshCorrelations(x.shop.published) && BrokerIdsOwn(x.shop.published, t.bus) && k < |x.shop.published|
      && m in t.bus && t.bus[m].state.Completed? && t.bus[m].msg.body == Some(BodyOf(x.shop.published[k]))
    ensures Ordered(Run(Init(products), ms), k)
  {
    RunInv(products, ms);
    var x := Run(Init(products), ms);
    assert T.BusOk(x.transport, x.transport.bus[m]);
    MessageCall(x.shop.published, x.transport.bus, m);
    AnsweredIsOrdered(x, k, T.BusPlan(x.transport.bus[m].msg).call);
  }

  /** Across both services: a delivery task that no user made is the task of a committed order that
      was published, once, after its commit, and the command it was made from says of the order what
      the order says. */
  lemma DeliveredTasksHaveOrders(products: set<string>, ms: seq<Move>, id: OM.OrderId)
    requires id in Run(Init(products), ms).tasks.tasks && id !in Run(Init(products), ms).tasks.created
    ensures var x := Run(Init(products), ms); var s := x.transport.orders;
      && id in s.db.orders && id in s.publishCalls && id in x.tasks.delivered
      && (forall i, j | 0 <= i < j < |s.publishCalls| :: s.publishCalls[i] != s.publishCalls[j])
      && var v := OM.View(s.db, id);
         x.tasks.delivered[id] ==
         D.Command(id, D.Trim(v.row.userId), D.Trim(v.row.cartId), D.Trim(v.row.correlationId), |v.lines|)
  {
    RunInv(products, ms);
    var x := Run(Init(products), ms);
    DeliveredSaysOrder(x.transport.orders, x.tasks, id);
  }

  lemma DeliveredSaysOrder(s: OM.State, t: D.Sys, id: OM.OrderId)
    requires OM.PublishedOk(s) && D.TasksOk(t) && t.log == Messages(s.events) && id in t.delivered
    ensures id in s.db.orders && id in s.publishCalls
    ensures var v := OM.View(s.db, id);
            t.delivered[id] ==
            D.Command(id, D.Trim(v.row.userId), D.Trim(v.row.cartId), D.Trim(v.row.correlationId), |v.lines|)
  {
    assert D.DeliveredOk(t, id);
    var o :| 0 <= o < |t.log| && D.Accept(t.log[o]) == Some(t.delivered[id]);
    assert t.log[o] == MessageOf(s.events[o]);
    assert s.events[o] in s.events;
  }
}
