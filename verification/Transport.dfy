/**
 * How checkout messages reach order-svc: one partition of the Kafka topic with its consumer
 * group, a Service Bus subscription, and the internal HTTP entry point. Sessions come and go,
 * records and messages are delivered again, and the calls they start run in the order machine.
 */
module Transport {
  import opened Prelude
  import OM = OrderMachine
  import OS = OrderSafety

  /* ---------- messages and the keys chosen for them ---------- */

  datatype Value =
    | NoValue
    | NotJson
    | JsonNull(text: string)
    | Json(text: string, body: OM.Body)

  datatype Record = Record(key: Option<string>, value: Value)

  // What the handler of a record does: return at once, throw at once, or call the order service.
  datatype Plan = Skip | Throw | Place(call: OM.Call)

  function Head(text: string): string {
    if |text| <= 120 then text else text[..120]
  }

  // message.key ?? body.correlationId ?? raw.slice(0, 120)
  function PlanFor(r: Record): Plan {
    match r.value
    case NoValue => Skip
    case NotJson => Skip
    case JsonNull(text) =>
      // reading a property of null throws; with a key that happens only after the first lookup
      if r.key.None? then Throw else Place(OM.Call(r.key.value, OM.Body("", "", None, None)))
    case Json(text, body) =>
      var key := if r.key.Some? then r.key.value else if body.correlationId.Some? then body.correlationId.value else Head(text);
      Place(OM.Call(key, body))
  }

  // The body is parsed JSON, and may be null.
  datatype BusMessage = BusMessage(messageId: Option<string>, body: Option<OM.Body>, text: string)

  // String(msg.messageId ?? body.correlationId ?? JSON.stringify(body).slice(0, 120))
  function BusPlan(m: BusMessage): Plan {
    match m.body
    case None =>
      // as for a record: with an id, null is met only inside the order service
      if m.messageId.None? then Throw else Place(OM.Call(m.messageId.value, OM.Body("", "", None, None)))
    case Some(body) =>
      Place(OM.Call(if m.messageId.Some? then m.messageId.value
                    else if body.correlationId.Some? then body.correlationId.value else Head(m.text), body))
  }

  // The HTTP body is validated: its correlation id is a non-empty string.
  datatype Post = Post(correlationId: string, userId: string, cartId: string, payload: OM.Payload)

  function HttpCall(p: Post): OM.Call {
    OM.Call(p.correlationId, OM.Body(p.userId, p.cartId, Some(p.correlationId), Some(p.payload)))
  }

  /* ---------- keys at the three entry points ---------- */

  /** The key of a record or a bus message with a body: its own key or message id, or else the body's
      correlation id, or else the first 120 characters of the text; the body goes along as it is. */
  lemma KeyChoice(key: Option<string>, text: string, body: OM.Body)
    ensures var r := PlanFor(Record(key, Json(text, body))); var m := BusPlan(BusMessage(key, Some(body), text));
      && r.Place? && m == r && r.call.body == body
      && (key.Some? ==> r.call.key == key.value)
      && (key.None? && body.correlationId.Some? ==> r.call.key == body.correlationId.value)
      && (key.None? && body.correlationId.None? ==>
            r.call.key <= text && |r.call.key| <= 120 && (|r.call.key| == |text| || |r.call.key| == 120))
  {}

  // The calls that these records, bus messages and posts can make.
  ghost predicate EntryCall(records: iset<Record>, messages: iset<BusMessage>, posts: iset<Post>, c: OM.Call) {
    || (exists r :: r in records && PlanFor(r) == Place(c))
    || (exists m :: m in messages && BusPlan(m) == Place(c))
    || (exists p :: p in posts && HttpCall(p) == c)
  }

  // A record with a usable body has its correlation id as its key, or no key.
  ghost predicate RecordsKeyed(records: iset<Record>) {
    forall r | r in records && r.value.Json? && OM.WellFormed(r.value.body) ::
      r.key == None || r.key == r.value.body.correlationId
  }

  predicate Usable(m: BusMessage) {
    m.body.Some? && OM.WellFormed(m.body.value)
  }

  // Usable messages that share an id, redelivered or sent twice, share their correlation id.
  predicate SameIdSameCorrelation(m: BusMessage, n: BusMessage) {
    m.messageId.Some? && m.messageId == n.messageId && Usable(m) && Usable(n) ==>
      m.body.value.correlationId == n.body.value.correlationId
  }

  // An id that is the key of a call made with its correlation id as key belongs to a message with
  // that correlation id.
  predicate OwnCorrelation(m: BusMessage, c: OM.Call) {
    m.messageId == Some(c.key) && Usable(m) && OM.WellFormed(c.body) && c.body.correlationId == Some(c.key) ==>
      m.body.value.correlationId == c.body.correlationId
  }

  ghost predicate BrokerIdsOwn(records: iset<Record>, messages: iset<BusMessage>, posts: iset<Post>) {
    && (forall m, n {:trigger SameIdSameCorrelation(m, n)} | m in messages && n in messages :: SameIdSameCorrelation(m, n))
    && (forall m, c {:trigger OwnCorrelation(m, c)} | m in messages && EntryCall(records, messages, posts, c) ::
          OwnCorrelation(m, c))
  }

  lemma MoreEntryCalls(records: iset<Record>, messages: iset<BusMessage>, posts: iset<Post>,
                       records': iset<Record>, messages': iset<BusMessage>, posts': iset<Post>)
    requires records <= records' && messages <= messages' && posts <= posts'
    ensures forall c | EntryCall(records, messages, posts, c) :: EntryCall(records', messages', posts', c)
    ensures BrokerIdsOwn(records', messages', posts') ==> BrokerIdsOwn(records, messages, posts)
  {}

  // A usable call is keyed by its correlation id, or by the id of the bus message it came from.
  lemma KeyOfEntryCall(records: iset<Record>, messages: iset<BusMessage>, posts: iset<Post>, c: OM.Call)
      returns (from: Option<BusMessage>)
    requires RecordsKeyed(records) && EntryCall(records, messages, posts, c) && OM.WellFormed(c.body)
    ensures from.None? ==> Some(c.key) == c.body.correlationId
    ensures from.Some? ==> from.value in messages && from.value.messageId == Some(c.key) && from.value.body == Some(c.body)
  {
    if r :| r in records && PlanFor(r) == Place(c) {
      from := None;
    } else if p :| p in posts && HttpCall(p) == c {
      from := None;
    } else {
      var m :| m in messages && BusPlan(m) == Place(c);
      from := if m.messageId.Some? then Some(m) else None;
    }
  }

  /** Whatever mixture of the three entry points is used, if records are keyed as the shop keys them:
      the keys the entry points choose determine correlation ids exactly when the ids of bus messages
      are their own. */
  lemma EntryKeysDetermineExactlyWhen(records: iset<Record>, messages: iset<BusMessage>, posts: iset<Post>)
    requires RecordsKeyed(records)
    ensures OS.KeysDetermine(iset c | EntryCall(records, messages, posts, c)) <==> BrokerIdsOwn(records, messages, posts)
  {
    if BrokerIdsOwn(records, messages, posts) {
      forall a, b | EntryCall(records, messages, posts, a) && EntryCall(records, messages, posts, b)
        ensures OS.Consistent(a, b)
      {
        if a.key == b.key && OM.WellFormed(a.body) && OM.WellFormed(b.body) {
          KeysAgree(records, messages, posts, a, b);
        }
      }
    } else if m, n :| m in messages && n in messages && !SameIdSameCorrelation(m, n) {
      assert BusPlan(m) == Place(BusPlan(m).call) && BusPlan(n) == Place(BusPlan(n).call);
      assert !OS.Consistent(BusPlan(m).call, BusPlan(n).call);
    } else {
      var m, c :| m in messages && EntryCall(records, messages, posts, c) && !OwnCorrelation(m, c);
      assert BusPlan(m) == Place(BusPlan(m).call);
      assert !OS.Consistent(BusPlan(m).call, c);
    }
  }

  lemma KeysAgree(records: iset<Record>, messages: iset<BusMessage>, posts: iset<Post>, a: OM.Call, b: OM.Call)
    requires RecordsKeyed(records) && BrokerIdsOwn(records, messages, posts)
    requires EntryCall(records, messages, posts, a) && EntryCall(records, messages, posts, b)
    requires a.key == b.key && OM.WellFormed(a.body) && OM.WellFormed(b.body)
    ensures a.body.correlationId == b.body.correlationId
  {
    var m := KeyOfEntryCall(records, messages, posts, a);
    var n := KeyOfEntryCall(records, messages, posts, b);
    if m.Some? && n.Some? {
      assert SameIdSameCorrelation(m.value, n.value);
    } else if m.Some? {
      assert OwnCorrelation(m.value, b);
    } else if n.Some? {
      assert OwnCorrelation(n.value, a);
    }
  }

  /** A record is skipped exactly when it is empty or no JSON, and throws at once exactly when it is
      null without a key; a bus message throws at once exactly when it is null without an id. */
  lemma PlanExactlyWhen(r: Record, m: BusMessage)
    ensures PlanFor(r).Skip? <==> r.value.NoValue? || r.value.NotJson?
    ensures PlanFor(r).Throw? <==> r.value.JsonNull? && r.key.None?
    ensures BusPlan(m).Throw? <==> m.body.None? && m.messageId.None?
    ensures !BusPlan(m).Skip?
    ensures r.value.JsonNull? && r.key.Some? ==> PlanFor(r).call.key == r.key.value && !OM.WellFormed(PlanFor(r).call.body)
  {}

  /* ---------- the system ---------- */

  type SessionId = nat
  type MessageId = nat

  // A consumer's hold on the partition: where it began, where it is, and the call under way.
  datatype Session = Session(start: nat, position: nat, inFlight: Option<OM.WorkerId>)

  datatype Settlement = Queued | Locked(w: OM.WorkerId) | Completed | DeadLettered

  datatype Delivery = Delivery(msg: BusMessage, state: Settlement)

  /** `base` is where the owner that made the group's first commit began to read. */
  datatype Sys = Sys(orders: OM.State, log: seq<Record>, committed: Option<nat>, base: nat,
                     sessions: map<SessionId, Session>, owner: Option<SessionId>, bus: map<MessageId, Delivery>)

  function Init(log: seq<Record>): Sys {
    Sys(OM.INIT, log, None, |log|, map[], None, map[])
  }

  datatype Event =
    | Order(a: OM.Action)                    // a call's await, here or behind any other entry point
    | Produce(r: Record)
    | Join(i: SessionId)                     // the group assigns the partition to a new session
    | Deliver(i: SessionId, w: OM.WorkerId)
    | Ack(i: SessionId)                      // the handler returned: go to the next record
    | Redo(i: SessionId)                     // the handler threw: stay on the record
    | CommitOffset(i: SessionId, upTo: nat)
    | Leave(i: SessionId)                    // crash or rebalance; a call under way may go on
    | Send(m: MessageId, msg: BusMessage)
    | Receive(m: MessageId, w: OM.WorkerId)
    | Complete(m: MessageId)
    | DeadLetter(m: MessageId)               // also when completing fails
    | LockExpires(m: MessageId)

  function WithSession(s: Sys, i: SessionId, x: Session): Sys {
    s.(sessions := s.sessions[i := x])
  }

  function DoDeliver(s: Sys, i: SessionId, w: OM.WorkerId): Sys {
    if i !in s.sessions || s.sessions[i].inFlight.Some? || s.sessions[i].position >= |s.log| then s
    else
      var x := s.sessions[i];
      match PlanFor(s.log[x.position])
      case Skip => WithSession(s, i, x.(position := x.position + 1))
      case Throw => s
      case Place(c) =>
        if w in s.orders.workers then s
        else WithSession(s, i, x.(inFlight := Some(w))).(orders := OM.Next(s.orders, OM.Start(w, c)))
  }

  predicate Finished(s: OM.State, w: OM.WorkerId, normally: bool) {
    w in s.workers && if normally then s.workers[w].pc.Returned? else s.workers[w].pc.Aborted?
  }

  function SetBus(s: Sys, m: MessageId, st: Settlement): Sys
    requires m in s.bus
  {
    s.(bus := s.bus[m := s.bus[m].(state := st)])
  }

  function Step(s: Sys, e: Event): Sys {
    match e
    case Order(a) => s.(orders := OM.Next(s.orders, a))
    case Produce(r) => s.(log := s.log + [r])
    case Join(i) =>
      if i in s.sessions then s
      else
        var from := if s.committed.Some? then s.committed.value else |s.log|;
        WithSession(s, i, Session(from, from, None)).(owner := Some(i), base := if s.committed.Some? then s.base else from)
    case Deliver(i, w) => DoDeliver(s, i, w)
    case Ack(i) =>
      if i in s.sessions && s.sessions[i].inFlight.Some? && Finished(s.orders, s.sessions[i].inFlight.value, true) then
        WithSession(s, i, s.sessions[i].(position := s.sessions[i].position + 1, inFlight := None))
      else s
    case Redo(i) =>
      if i in s.sessions && s.sessions[i].inFlight.Some? && Finished(s.orders, s.sessions[i].inFlight.value, false) then
        WithSession(s, i, s.sessions[i].(inFlight := None))
      else s
    case CommitOffset(i, upTo) =>
      if s.owner == Some(i) && i in s.sessions && s.sessions[i].start <= upTo <= s.sessions[i].position
      then s.(committed := Some(upTo)) else s
    case Leave(i) => s.(sessions := s.sessions - {i}, owner := if s.owner == Some(i) then None else s.owner)
    case Send(m, msg) => if m in s.bus then s else s.(bus := s.bus[m := Delivery(msg, Queued)])
    case Receive(m, w) =>
      // a message that throws before its call leaves the batch; its lock runs out
      if m in s.bus && s.bus[m].state.Queued? && w !in s.orders.workers && BusPlan(s.bus[m].msg).Place? then
        SetBus(s, m, Locked(w)).(orders := OM.Next(s.orders, OM.Start(w, BusPlan(s.bus[m].msg).call)))
      else s
    case Complete(m) =>
      if m in s.bus && s.bus[m].state.Locked? && Finished(s.orders, s.bus[m].state.w, true)
      then SetBus(s, m, Completed) else s
    case DeadLetter(m) =>
      if m in s.bus && s.bus[m].state.Locked?
         && (Finished(s.orders, s.bus[m].state.w, true) || Finished(s.orders, s.bus[m].state.w, false))
      then SetBus(s, m, DeadLettered) else s
    case LockExpires(m) =>
      if m in s.bus && s.bus[m].state.Locked? then SetBus(s, m, Queued) else s
  }

  function Run(s: Sys, es: seq<Event>): Sys
    decreases |es|
  {
    if es == [] then s else Run(Step(s, es[0]), es[1..])
  }

  /* ---------- the invariant ---------- */

  // The key has a row, and the row's order is committed and was made for this key.
  ghost predicate Answered(s: OM.State, key: string) {
    && key in s.db.processed
    && var o := s.db.processed[key];
       o in s.db.orders && o in s.creator && s.creator[o].key == key && OM.WellFormed(s.creator[o].body)
  }

  ghost predicate Settled(s: OM.State, r: Record) {
    match PlanFor(r)
    case Skip => true
    case Throw => false
    case Place(c) => Answered(s, c.key)
  }

  ghost predicate AllSettled(s: OM.State, log: seq<Record>, from: nat, to: nat) {
    to <= |log| && forall i | from <= i < to :: Settled(s, log[i])
  }

  ghost predicate SessionOk(s: Sys, x: Session) {
    && x.start <= x.position && AllSettled(s.orders, s.log, x.start, x.position)
    && (x.inFlight.Some? ==>
          && x.position < |s.log| && x.inFlight.value in s.orders.workers
          && PlanFor(s.log[x.position]) == Place(s.orders.workers[x.inFlight.value].call))
  }

  ghost predicate BusOk(s: Sys, d: Delivery) {
    && (d.state.Locked? ==>
          d.state.w in s.orders.workers && BusPlan(d.msg) == Place(s.orders.workers[d.state.w].call))
    && (d.state.Completed? ==> BusPlan(d.msg).Place? && Answered(s.orders, BusPlan(d.msg).call.key))
  }

  ghost predicate OffsetsOk(s: Sys) {
    && (s.committed.Some? ==> s.base <= s.committed.value && AllSettled(s.orders, s.log, s.base, s.committed.value))
    && (s.owner.Some? ==>
          && s.owner.value in s.sessions && s.base <= s.sessions[s.owner.value].start
          && AllSettled(s.orders, s.log, s.base, s.sessions[s.owner.value].start))
  }

  ghost predicate Inv(s: Sys) {
    && OM.Inv(s.orders)
    && (forall i | i in s.sessions :: SessionOk(s, s.sessions[i]))
    && (forall m | m in s.bus :: BusOk(s, s.bus[m]))
    && OffsetsOk(s)
  }

  // What one state knows of orders, every later one knows too.
  ghost predicate Grows(s: OM.State, t: OM.State) {
    && (forall k | Answered(s, k) :: Answered(t, k))
    && (forall w | w in s.workers :: w in t.workers && t.workers[w].call == s.workers[w].call)
  }

  lemma OrderStepGrows(s: OM.State, a: OM.Action)
    requires OM.Inv(s)
    ensures OM.Inv(OM.Next(s, a)) && Grows(s, OM.Next(s, a))
  {
    OM.NextKeepsInv(s, a);
    OS.NextIsLater(s, a);
    var t := OM.Next(s, a);
    forall k | Answered(s, k) ensures Answered(t, k) {
      assert k in t.db.processed;
    }
  }

  lemma GrowingKeepsInv(s: Sys, t: OM.State)
    requires Inv(s) && OM.Inv(t) && Grows(s.orders, t)
    ensures Inv(s.(orders := t))
  {
    var s' := s.(orders := t);
    forall r | Settled(s.orders, r) ensures Settled(t, r) {}
    forall i | i in s'.sessions ensures SessionOk(s', s'.sessions[i]) {
      assert SessionOk(s, s.sessions[i]);
    }
    forall m | m in s'.bus ensures BusOk(s', s'.bus[m]) {
      assert BusOk(s, s.bus[m]);
    }
  }

  // A call that returned normally answered its key.
  lemma ReturnAnswers(s: OM.State, w: OM.WorkerId)
    requires OM.Inv(s) && Finished(s, w, true)
    ensures Answered(s, s.workers[w].call.key)
  {
    assert OM.WorkerOk(s, s.workers[w]);
  }

  lemma SessionStepKeepsInv(s: Sys, i: SessionId, x: Session)
    requires Inv(s) && i in s.sessions && SessionOk(s, x) && x.start == s.sessions[i].start
    ensures Inv(WithSession(s, i, x))
  {
    var s' := WithSession(s, i, x);
    forall j | j in s'.sessions ensures SessionOk(s', s'.sessions[j]) {
      assert SessionOk(s, s'.sessions[j]);
    }
    forall m | m in s'.bus ensures BusOk(s', s'.bus[m]) {
      assert BusOk(s, s.bus[m]);
    }
  }

  lemma BusStepKeepsInv(s: Sys, m: MessageId, st: Settlement)
    requires Inv(s) && m in s.bus && BusOk(s, s.bus[m].(state := st))
    ensures Inv(SetBus(s, m, st))
  {
    var s' := SetBus(s, m, st);
    forall j | j in s'.sessions ensures SessionOk(s', s'.sessions[j]) {
      assert SessionOk(s, s.sessions[j]);
    }
    forall n | n in s'.bus ensures BusOk(s', s'.bus[n]) {
      assert BusOk(s, s'.bus[n]);
    }
  }

  lemma DeliverKeepsInv(s: Sys, i: SessionId, w: OM.WorkerId)
    requires Inv(s)
    ensures Inv(DoDeliver(s, i, w))
  {
    if i in s.sessions && s.sessions[i].inFlight.None? && s.sessions[i].position < |s.log| {
      var x := s.sessions[i];
      assert SessionOk(s, x);
      match PlanFor(s.log[x.position]) {
        case Skip => SessionStepKeepsInv(s, i, x.(position := x.position + 1));
        case Throw =>
        case Place(c) =>
          if w !in s.orders.workers {
            OrderStepGrows(s.orders, OM.Start(w, c));
            var s' := s.(orders := OM.Next(s.orders, OM.Start(w, c)));
            GrowingKeepsInv(s, s'.orders);
            assert SessionOk(s', x);
            SessionStepKeepsInv(s', i, x.(inFlight := Some(w)));
          }
      }
    }
  }

  lemma JoinKeepsInv(s: Sys, i: SessionId)
    requires Inv(s)
    ensures Inv(Step(s, Join(i)))
  {
    var s' := Step(s, Join(i));
    forall j | j in s'.sessions ensures SessionOk(s', s'.sessions[j]) {
      assert j in s.sessions ==> SessionOk(s, s.sessions[j]);
    }
    forall m | m in s'.bus ensures BusOk(s', s'.bus[m]) {
      assert BusOk(s, s.bus[m]);
    }
  }

  lemma CommitKeepsInv(s: Sys, i: SessionId, upTo: nat)
    requires Inv(s)
    ensures Inv(Step(s, CommitOffset(i, upTo)))
  {
    var s' := Step(s, CommitOffset(i, upTo));
    if s' != s {
      assert SessionOk(s, s.sessions[i]);
      forall j | j in s'.sessions ensures SessionOk(s', s'.sessions[j]) {
        assert SessionOk(s, s.sessions[j]);
      }
      forall m | m in s'.bus ensures BusOk(s', s'.bus[m]) {
        assert BusOk(s, s.bus[m]);
      }
    }
  }

  // A new record, session or message, or one that goes away, breaks nothing.
  lemma ComingAndGoingKeepsInv(s: Sys, e: Event)
    requires Inv(s) && (e.Produce? || e.Leave? || e.Send?)
    ensures Inv(Step(s, e))
  {
    var s' := Step(s, e);
    forall j | j in s'.sessions ensures SessionOk(s', s'.sessions[j]) {
      assert SessionOk(s, s.sessions[j]);
    }
    forall m | m in s'.bus ensures BusOk(s', s'.bus[m]) {
      assert m in s.bus ==> BusOk(s, s.bus[m]);
    }
  }

  lemma AckedSessionOk(s: Sys, x: Session)
    requires OM.Inv(s.orders) && SessionOk(s, x) && x.inFlight.Some? && Finished(s.orders, x.inFlight.value, true)
    ensures SessionOk(s, x.(position := x.position + 1, inFlight := None))
  {
    ReturnAnswers(s.orders, x.inFlight.value);
  }

  lemma AckKeepsInv(s: Sys, i: SessionId)
    requires Inv(s)
    ensures Inv(Step(s, Ack(i)))
  {
    if Step(s, Ack(i)) != s {
      var x := s.sessions[i];
      assert SessionOk(s, x);
      AckedSessionOk(s, x);
      SessionStepKeepsInv(s, i, x.(position := x.position + 1, inFlight := None));
    }
  }

  lemma RedoKeepsInv(s: Sys, i: SessionId)
    requires Inv(s)
    ensures Inv(Step(s, Redo(i)))
  {
    if Step(s, Redo(i)) != s {
      var x := s.sessions[i];
      assert SessionOk(s, x);
      SessionStepKeepsInv(s, i, x.(inFlight := None));
    }
  }

  lemma SettleKeepsInv(s: Sys, e: Event)
    requires Inv(s) && (e.Receive? || e.Complete? || e.DeadLetter? || e.LockExpires?)
    ensures Inv(Step(s, e))
  {
    if Step(s, e) != s {
      var d := s.bus[e.m];
      assert BusOk(s, d);
      match e {
        case Receive(m, w) =>
          var c := BusPlan(d.msg).call;
          OrderStepGrows(s.orders, OM.Start(w, c));
          var s' := s.(orders := OM.Next(s.orders, OM.Start(w, c)));
          GrowingKeepsInv(s, s'.orders);
          BusStepKeepsInv(s', m, Locked(w));
        case Complete(m) =>
          ReturnAnswers(s.orders, d.state.w);
          BusStepKeepsInv(s, m, Completed);
        case DeadLetter(m) => BusStepKeepsInv(s, m, DeadLettered);
        case LockExpires(m) => BusStepKeepsInv(s, m, Queued);
      }
    }
  }

  lemma StepKeepsInv(s: Sys, e: Event)
    requires Inv(s)
    ensures Inv(Step(s, e))
  {
    match e
    case Order(a) =>
      OrderStepGrows(s.orders, a);
      GrowingKeepsInv(s, OM.Next(s.orders, a));
    case Join(i) => JoinKeepsInv(s, i);
    case Deliver(i, w) => DeliverKeepsInv(s, i, w);
    case CommitOffset(i, upTo) => CommitKeepsInv(s, i, upTo);
    case Ack(i) => AckKeepsInv(s, i);
    case Redo(i) => RedoKeepsInv(s, i);
    case Produce(_) => ComingAndGoingKeepsInv(s, e);
    case Leave(_) => ComingAndGoingKeepsInv(s, e);
    case Send(_, _) => ComingAndGoingKeepsInv(s, e);
    case _ => SettleKeepsInv(s, e);
  }

  lemma {:induction false} RunKeepsInv(s: Sys, es: seq<Event>)
    requires Inv(s)
    ensures Inv(Run(s, es))
    decreases |es|
  {
    if es != [] {
      StepKeepsInv(s, es[0]);
      RunKeepsInv(Step(s, es[0]), es[1..]);
    }
  }

  /* ---------- what the offsets and settlements mean ---------- */

  lemma RunInv(log: seq<Record>, es: seq<Event>)
    ensures Inv(Run(Init(log), es))
  {
    OS.InitInv();
    RunKeepsInv(Init(log), es);
  }

  /** Every record from the base to below the committed offset is empty or unparsable, or has a
      committed order for its key; a bus message is completed only if its key has one. */
  lemma PassedRecordsAreAnswered(log: seq<Record>, es: seq<Event>)
    ensures var s := Run(Init(log), es);
      && (s.committed.Some? ==> s.base <= s.committed.value <= |s.log|)
      && (forall i | s.committed.Some? && s.base <= i < s.committed.value ::
            match PlanFor(s.log[i])
            case Skip => s.log[i].value.NoValue? || s.log[i].value.NotJson?
            case Throw => false
            case Place(c) => Answered(s.orders, c.key))
      && (forall m | m in s.bus && s.bus[m].state.Completed? ::
            BusPlan(s.bus[m].msg).Place? && Answered(s.orders, BusPlan(s.bus[m].msg).call.key))
  {
    RunInv(log, es);
    var s := Run(Init(log), es);
    if s.committed.Some? {
      forall i | s.base <= i < s.committed.value
        ensures match PlanFor(s.log[i])
                case Skip => s.log[i].value.NoValue? || s.log[i].value.NotJson?
                case Throw => false
                case Place(c) => Answered(s.orders, c.key)
      {
        assert Settled(s.orders, s.log[i]);
      }
    }
    forall m | m in s.bus && s.bus[m].state.Completed?
      ensures BusPlan(s.bus[m].msg).Place? && Answered(s.orders, BusPlan(s.bus[m].msg).call.key)
    {
      assert BusOk(s, s.bus[m]);
    }
  }

  /** A record that cannot be placed holds its partition: while its key has no row (for ever, if its
      arrays differ in length and no other message has its key), no commit and no session that
      reached it goes beyond it. */
  lemma PoisonRecordHoldsPartition(log: seq<Record>, es: seq<Event>, i: nat)
    requires var s := Run(Init(log), es);
             s.base <= i < |s.log| && !PlanFor(s.log[i]).Skip?
             && (PlanFor(s.log[i]).Place? ==> PlanFor(s.log[i]).call.key !in s.orders.db.processed)
    ensures var s := Run(Init(log), es);
      && (s.committed.Some? ==> s.committed.value <= i)
      && (forall j | j in s.sessions && s.sessions[j].start <= i :: s.sessions[j].position <= i)
  {
    RunInv(log, es);
    var s := Run(Init(log), es);
    assert !Settled(s.orders, s.log[i]);
    forall j | j in s.sessions && s.sessions[j].start <= i ensures s.sessions[j].position <= i {
      assert SessionOk(s, s.sessions[j]);
    }
  }

  /* ---------- where the group begins ---------- */

  ghost predicate BeginsPast(s: Sys, n: nat) {
    && n <= s.base && n <= |s.log| && (s.committed.Some? ==> n <= s.committed.value)
    && forall i | i in s.sessions :: n <= s.sessions[i].start <= s.sessions[i].position
  }

  lemma {:induction false} RunBeginsPast(s: Sys, es: seq<Event>, n: nat)
    requires BeginsPast(s, n)
    ensures BeginsPast(Run(s, es), n)
    decreases |es|
  {
    if es != [] {
      StepBeginsPast(s, es[0], n);
      RunBeginsPast(Step(s, es[0]), es[1..], n);
    }
  }

  lemma StepBeginsPast(s: Sys, e: Event, n: nat)
    requires BeginsPast(s, n)
    ensures BeginsPast(Step(s, e), n)
  {
    var t := Step(s, e);
    forall i | i in t.sessions ensures n <= t.sessions[i].start <= t.sessions[i].position {
      assert i in s.sessions ==> n <= s.sessions[i].start <= s.sessions[i].position;
    }
  }

  /** A new group begins at the end of the log: no session of it ever stands on a record that was
      there before. */
  lemma OldRecordsAreNotRead(log: seq<Record>, es: seq<Event>)
    ensures var s := Run(Init(log), es);
      && |log| <= s.base && (s.committed.Some? ==> |log| <= s.committed.value)
      && forall i | i in s.sessions :: |log| <= s.sessions[i].start <= s.sessions[i].position
  {
    RunBeginsPast(Init(log), es, |log|);
  }
}
