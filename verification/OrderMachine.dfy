/**
 * order-svc: idempotent creation of an order from a checkout message.
 *
 * `createOrderFromCheckout` is split at every await. Any number of calls run at
 * once, against one Postgres at READ COMMITTED, and each may fail at any await.
 * `Next` is total: an action that cannot happen (a statement waiting for another
 * transaction's unique value, a worker that has finished) leaves the state alone,
 * so every sequence of actions is a run.
 */
module OrderMachine {
  import opened Prelude

  type OrderId = nat
  type WorkerId = nat

  /* ---------- messages and rows ---------- */

  datatype Payload = Payload(productIds: seq<string>, quantities: seq<int>)

  // The body is JSON of unknown shape: the payload or the correlation id may be absent.
  datatype Body = Body(userId: string, cartId: string, correlationId: Option<string>, payload: Option<Payload>)

  // One call of createOrderFromCheckout, with the idempotency key its entry point chose.
  datatype Call = Call(key: string, body: Body)

  datatype OrderRow = OrderRow(userId: string, cartId: string, correlationId: string, status: string)

  datatype LineRow = LineRow(orderId: OrderId, productId: string, quantity: int, priceCents: int)

  datatype Db = Db(orders: map<OrderId, OrderRow>, lines: seq<LineRow>, processed: map<string, OrderId>)

  const EMPTY := Db(map[], [], map[])

  // An order as it is loaded with its lines; rows of a table have no order.
  datatype OrderView = OrderView(id: OrderId, row: OrderRow, lines: multiset<LineRow>)

  datatype OrderEvent = OrderEvent(orderId: OrderId, userId: string, cartId: string,
                                   correlationId: string, lineCount: nat)

  // What a statement of a transaction sees: committed rows and its own.
  function Visible(db: Db, tx: Db): Db {
    Db(db.orders + tx.orders, db.lines + tx.lines, db.processed + tx.processed)
  }

  function LinesOf(lines: seq<LineRow>, o: OrderId): seq<LineRow> {
    if lines == [] then []
    else if lines[0].orderId == o then [lines[0]] + LinesOf(lines[1..], o)
    else LinesOf(lines[1..], o)
  }

  function View(db: Db, o: OrderId): OrderView
    requires o in db.orders
  {
    OrderView(o, db.orders[o], multiset(LinesOf(db.lines, o)))
  }

  predicate DimensionsOk(b: Body) {
    b.payload.Some? && |b.payload.value.productIds| == |b.payload.value.quantities|
  }

  // A body that passes the dimension check and fills the not-null correlation column.
  predicate WellFormed(b: Body) {
    DimensionsOk(b) && b.correlationId.Some?
  }

  function RowOf(b: Body): OrderRow
    requires WellFormed(b)
  {
    OrderRow(b.userId, b.cartId, b.correlationId.value, "confirmed")
  }

  // The lines to insert: product i zipped with quantity i, at price zero.
  function LinesFor(o: OrderId, p: Payload): seq<LineRow>
    requires |p.productIds| == |p.quantities|
  {
    seq(|p.productIds|, i requires 0 <= i < |p.productIds| => LineRow(o, p.productIds[i], p.quantities[i], 0))
  }

  // The loop that fills `lineEntities`.
  method BuildLineEntities(o: OrderId, p: Payload) returns (entities: seq<LineRow>)
    requires |p.productIds| == |p.quantities|
    ensures entities == LinesFor(o, p)
    ensures |entities| == |p.productIds| && forall i | 0 <= i < |entities| ::
      && entities[i].orderId == o && entities[i].productId == p.productIds[i]
      && entities[i].quantity == p.quantities[i] && entities[i].priceCents == 0
  {
    entities := [];
    var i := 0;
    while i < |p.productIds|
      invariant 0 <= i <= |p.productIds|
      invariant entities == LinesFor(o, p)[..i]
    {
      entities := entities + [LineRow(o, p.productIds[i], p.quantities[i], 0)];
      i := i + 1;
    }
  }

  function FreshView(o: OrderId, b: Body): OrderView
    requires WellFormed(b)
  {
    OrderView(o, RowOf(b), multiset(LinesFor(o, b.payload.value)))
  }

  function EventOf(v: OrderView): OrderEvent {
    OrderEvent(v.id, v.row.userId, v.row.cartId, v.row.correlationId, |v.lines|)
  }

  /* ---------- the machine ---------- */

  // Where a call is suspended: the await it will resume from.
  datatype Pc =
    | PreCheck                       // read processed_events by key
    | PreLoad(found: OrderId)        // load the order the row names
    | TxCheck                        // in the transaction: read processed_events again
    | TxLoad(found: OrderId)
    | InsertOrder
    | InsertLines(id: OrderId)
    | SaveSelect(id: OrderId)        // repository save: select first ...
    | SaveInsert(id: OrderId)        // ... then insert a missing row
    | SaveUpdate(id: OrderId)        // ... or update an existing one
    | Reload(id: OrderId)
    | Committing(result: OrderView, emit: bool)
    | Emitting(result: OrderView)    // committed; about to publish OrderCreated
    | Returned(result: OrderView)
    | Aborted                        // threw or crashed: it never returns normally

  datatype Worker = Worker(call: Call, tx: Db, pc: Pc)

  /** `creator` (the call whose transaction wrote an order) and `publishCalls` are history. */
  datatype State = State(db: Db, workers: map<WorkerId, Worker>, creator: map<OrderId, Call>,
                         publishCalls: seq<OrderId>, events: seq<OrderEvent>)

  const INIT := State(EMPTY, map[], map[], [], [])

  datatype Action =
    | Start(w: WorkerId, call: Call)
    | Advance(w: WorkerId, newId: OrderId)  // the pending await of w completes
    | LoseCommit(w: WorkerId)               // COMMIT takes effect, its acknowledgement does not arrive
    | Emit(w: WorkerId, copies: nat)        // the send appends any number of copies, or none if it fails
    | Fail(w: WorkerId)                     // exception, rollback or crash at the pending await

  // The order row an open transaction holds and others must wait for.
  function Pending(pc: Pc): Option<OrderId> {
    match pc
    case InsertLines(o) => Some(o)
    case SaveSelect(o) => Some(o)
    case SaveInsert(o) => Some(o)
    case SaveUpdate(o) => Some(o)
    case Reload(o) => Some(o)
    case Committing(v, true) => Some(v.id)
    case _ => None
  }

  predicate HoldsCorrelation(x: Worker, c: string) {
    exists o | o in x.tx.orders :: x.tx.orders[o].correlationId == c
  }

  predicate CorrelationHeld(s: State, w: WorkerId, c: string) {
    exists w' | w' in s.workers :: w' != w && HoldsCorrelation(s.workers[w'], c)
  }

  predicate CorrelationTaken(db: Db, c: string) {
    exists o | o in db.orders :: db.orders[o].correlationId == c
  }

  predicate KeyHeld(s: State, w: WorkerId, k: string) {
    exists w' | w' in s.workers :: w' != w && k in s.workers[w'].tx.processed
  }

  predicate IdUsed(s: State, o: OrderId) {
    o in s.db.orders || exists w | w in s.workers :: o in s.workers[w].tx.orders
  }

  function Set(s: State, w: WorkerId, x: Worker): State {
    s.(workers := s.workers[w := x])
  }

  function Abort(x: Worker): Worker {
    x.(tx := EMPTY, pc := Aborted)
  }

  function AfterPreCheck(x: Worker): Worker {
    if DimensionsOk(x.call.body) then x.(pc := TxCheck) else Abort(x)
  }

  function DoInsertOrder(s: State, w: WorkerId, x: Worker, newId: OrderId): State {
    var b := x.call.body;
    if !WellFormed(b) then Set(s, w, Abort(x))
    else if CorrelationHeld(s, w, b.correlationId.value) then s
    else if CorrelationTaken(s.db, b.correlationId.value) then Set(s, w, Abort(x))
    else if IdUsed(s, newId) then s
    else Set(s, w, x.(tx := Db(map[newId := RowOf(b)], [], map[]), pc := InsertLines(newId)))
  }

  function DoSaveInsert(s: State, w: WorkerId, x: Worker, o: OrderId): State {
    if KeyHeld(s, w, x.call.key) then s
    else if x.call.key in s.db.processed then Set(s, w, Abort(x))
    else Set(s, w, x.(tx := x.tx.(processed := x.tx.processed[x.call.key := o]), pc := Reload(o)))
  }

  function DoSaveUpdate(s: State, w: WorkerId, x: Worker, o: OrderId): State {
    if KeyHeld(s, w, x.call.key) then s
    else if x.call.key !in s.db.processed then Set(s, w, x.(pc := Reload(o)))
    else Set(s, w, x.(tx := x.tx.(processed := x.tx.processed[x.call.key := o]), pc := Reload(o)))
  }

  function DoCommit(s: State, w: WorkerId, x: Worker, pc: Pc): State {
    s.(db := Visible(s.db, x.tx),
       creator := map o | o in s.creator.Keys + x.tx.orders.Keys :: if o in x.tx.orders then x.call else s.creator[o],
       workers := s.workers[w := x.(tx := EMPTY, pc := pc)])
  }

  function Resume(s: State, w: WorkerId, x: Worker, newId: OrderId): State {
    var key := x.call.key;
    var seen := Visible(s.db, x.tx);
    match x.pc
    case PreCheck =>
      Set(s, w, if key in s.db.processed then x.(pc := PreLoad(s.db.processed[key])) else AfterPreCheck(x))
    case PreLoad(o) =>
      Set(s, w, if o in s.db.orders then x.(pc := Returned(View(s.db, o))) else AfterPreCheck(x))
    case TxCheck =>
      Set(s, w, x.(pc := if key in seen.processed then TxLoad(seen.processed[key]) else InsertOrder))
    case TxLoad(o) =>
      Set(s, w, x.(pc := if o in seen.orders then Committing(View(seen, o), false) else InsertOrder))
    case InsertOrder => DoInsertOrder(s, w, x, newId)
    case InsertLines(o) =>
      if !DimensionsOk(x.call.body) then Set(s, w, Abort(x))
      else Set(s, w, x.(tx := x.tx.(lines := x.tx.lines + LinesFor(o, x.call.body.payload.value)), pc := SaveSelect(o)))
    case SaveSelect(o) =>
      Set(s, w, x.(pc := if key in seen.processed then SaveUpdate(o) else SaveInsert(o)))
    case SaveInsert(o) => DoSaveInsert(s, w, x, o)
    case SaveUpdate(o) => DoSaveUpdate(s, w, x, o)
    case Reload(o) =>
      Set(s, w, if o in seen.orders then x.(pc := Committing(View(seen, o), true)) else Abort(x))
    case Committing(v, emit) => DoCommit(s, w, x, if emit then Emitting(v) else Returned(v))
    case _ => s
  }

  function Copies(e: OrderEvent, n: nat): seq<OrderEvent> {
    seq(n, _ => e)
  }

  function Next(s: State, a: Action): State {
    if a.Start? then
      if a.w in s.workers then s else Set(s, a.w, Worker(a.call, EMPTY, PreCheck))
    else if a.w !in s.workers then s
    else
      var x := s.workers[a.w];
      match a
      case Advance(w, newId) => Resume(s, w, x, newId)
      case LoseCommit(w) => if x.pc.Committing? then DoCommit(s, w, x, Aborted) else s
      case Emit(w, copies) =>
        if x.pc.Emitting? then
          Set(s, w, x.(pc := Returned(x.pc.result))).(
            publishCalls := s.publishCalls + [x.pc.result.id],
            events := s.events + Copies(EventOf(x.pc.result), copies))
        else s
      case Fail(w) => if x.pc.Returned? then s else Set(s, w, Abort(x))
  }

  function Run(s: State, acts: seq<Action>): State
    decreases |acts|
  {
    if acts == [] then s else Run(Next(s, acts[0]), acts[1..])
  }

  /* ---------- the invariant ---------- */

  // What an open transaction has written, as a function of where its call is.
  function ExpectedTx(c: Call, pc: Pc): Db
    requires Pending(pc).Some? ==> WellFormed(c.body)
  {
    match Pending(pc)
    case None => EMPTY
    case Some(o) =>
      Db(map[o := RowOf(c.body)],
         if pc.InsertLines? then [] else LinesFor(o, c.body.payload.value),
         if pc.Reload? || pc.Committing? then map[c.key := o] else map[])
  }

  ghost predicate UniqueCorrelations(db: Db) {
    forall o1, o2 | o1 in db.orders && o2 in db.orders && o1 != o2 ::
      db.orders[o1].correlationId != db.orders[o2].correlationId
  }

  // Every committed order loads exactly as the body that created it says.
  ghost predicate ViewsOk(db: Db, creator: map<OrderId, Call>) {
    && creator.Keys == db.orders.Keys
    && forall o | o in db.orders :: WellFormed(creator[o].body) && View(db, o) == FreshView(o, creator[o].body)
  }

  ghost predicate LinesOwned(db: Db) {
    forall i | 0 <= i < |db.lines| :: db.lines[i].orderId in db.orders
  }

  ghost predicate ProcessedOk(db: Db, creator: map<OrderId, Call>) {
    forall k | k in db.processed ::
      db.processed[k] in db.orders && db.processed[k] in creator && creator[db.processed[k]].key == k
  }

  ghost predicate DbOk(db: Db, creator: map<OrderId, Call>) {
    UniqueCorrelations(db) && ViewsOk(db, creator) && LinesOwned(db) && ProcessedOk(db, creator)
  }

  // A committed order that answers this key.
  ghost predicate Answers(db: Db, creator: map<OrderId, Call>, key: string, o: OrderId) {
    o in db.orders && o in creator && creator[o].key == key && key in db.processed
  }

  // An open transaction's order is new: no committed order has its id or its correlation id.
  ghost predicate PendingOk(db: Db, x: Worker) {
    Pending(x.pc).Some? ==>
      && WellFormed(x.call.body)
      && Pending(x.pc).value !in db.orders
      && !CorrelationTaken(db, x.call.body.correlationId.value)
  }

  ghost predicate ResultOk(db: Db, creator: map<OrderId, Call>, key: string, v: OrderView) {
    Answers(db, creator, key, v.id) && v == View(db, v.id)
  }

  ghost predicate PcOk(db: Db, creator: map<OrderId, Call>, published: seq<OrderId>, c: Call, pc: Pc) {
    match pc
    case PreLoad(o) => Answers(db, creator, c.key, o)
    case TxLoad(o) => Answers(db, creator, c.key, o)
    case TxCheck => DimensionsOk(c.body)
    case SaveUpdate(o) => c.key in db.processed
    case Committing(v, emit) =>
      if emit then WellFormed(c.body) && v == FreshView(v.id, c.body) else ResultOk(db, creator, c.key, v)
    case Emitting(v) => ResultOk(db, creator, c.key, v) && v.id !in published
    case Returned(v) => ResultOk(db, creator, c.key, v)
    case _ => true
  }

  ghost predicate WorkerOk(s: State, x: Worker) {
    && PendingOk(s.db, x)
    && x.tx == ExpectedTx(x.call, x.pc)
    && PcOk(s.db, s.creator, s.publishCalls, x.call, x.pc)
  }

  ghost predicate Compatible(x: Worker, y: Worker) {
    && (Pending(x.pc).Some? && Pending(y.pc).Some? && WellFormed(x.call.body) && WellFormed(y.call.body) ==>
          && Pending(x.pc) != Pending(y.pc)
          && x.call.body.correlationId != y.call.body.correlationId)
    && (x.pc.Emitting? && y.pc.Emitting? ==> x.pc.result.id != y.pc.result.id)
  }

  ghost predicate PublishedOk(s: State) {
    && (forall i, j | 0 <= i < j < |s.publishCalls| :: s.publishCalls[i] != s.publishCalls[j])
    && (forall o | o in s.publishCalls :: o in s.db.orders)
    && (forall e | e in s.events ::
          e.orderId in s.publishCalls && e.orderId in s.db.orders && e == EventOf(View(s.db, e.orderId)))
  }

  ghost predicate WorkersOk(s: State) {
    forall w | w in s.workers :: WorkerOk(s, s.workers[w])
  }

  ghost predicate AllCompatible(s: State) {
    forall w, w' | w in s.workers && w' in s.workers && w != w' :: Compatible(s.workers[w], s.workers[w'])
  }

  ghost predicate Inv(s: State) {
    DbOk(s.db, s.creator) && WorkersOk(s) && AllCompatible(s) && PublishedOk(s)
  }

  /* ---------- the invariant is kept ---------- */

  lemma LinesOfAppend(a: seq<LineRow>, b: seq<LineRow>, o: OrderId)
    ensures LinesOf(a + b, o) == LinesOf(a, o) + LinesOf(b, o)
  {
    if a == [] {
      assert a + b == b;
    } else {
      assert (a + b)[1..] == a[1..] + b;
    }
  }

  lemma LinesOfNone(a: seq<LineRow>, o: OrderId)
    requires forall i | 0 <= i < |a| :: a[i].orderId != o
    ensures LinesOf(a, o) == []
  {}

  lemma LinesOfAll(a: seq<LineRow>, o: OrderId)
    requires forall i | 0 <= i < |a| :: a[i].orderId == o
    ensures LinesOf(a, o) == a
  {}

  // Only worker w moves and nothing is committed.
  lemma MoveKeepsInv(s: State, w: WorkerId, x: Worker)
    requires Inv(s) && WorkerOk(s, x)
    requires forall w' | w' in s.workers && w' != w :: Compatible(x, s.workers[w']) && Compatible(s.workers[w'], x)
    ensures Inv(Set(s, w, x))
  {
    var s' := Set(s, w, x);
    forall v | v in s'.workers ensures WorkerOk(s', s'.workers[v]) {
      assert WorkerOk(s, s'.workers[v]);
    }
  }

  // A fresh order and its lines load as the creating body says, committed or not.
  lemma PendingView(db: Db, x: Worker, o: OrderId)
    requires LinesOwned(db) && WellFormed(x.call.body) && o !in db.orders
    requires x.tx.orders == map[o := RowOf(x.call.body)] && x.tx.lines == LinesFor(o, x.call.body.payload.value)
    ensures View(Visible(db, x.tx), o) == FreshView(o, x.call.body)
  {
    var l := LinesFor(o, x.call.body.payload.value);
    LinesOfNone(db.lines, o);
    LinesOfAll(l, o);
    LinesOfAppend(db.lines, l, o);
    assert Visible(db, x.tx).lines == db.lines + l;
    assert LinesOf(db.lines + l, o) == l;
  }

  lemma OldView(db: Db, tx: Db, o: OrderId)
    requires o in db.orders && o !in tx.orders
    requires forall i | 0 <= i < |tx.lines| :: tx.lines[i].orderId in tx.orders
    ensures View(Visible(db, tx), o) == View(db, o)
  {
    LinesOfNone(tx.lines, o);
    LinesOfAppend(db.lines, tx.lines, o);
  }

  // The insert leaves its worker aborted, or with the new order pending.
  lemma InsertedWorker(s: State, w: WorkerId, newId: OrderId)
    requires w in s.workers && WorkerOk(s, s.workers[w]) && s.workers[w].pc.InsertOrder?
    requires DoInsertOrder(s, w, s.workers[w], newId) != s
    ensures var s' := DoInsertOrder(s, w, s.workers[w], newId);
      && w in s'.workers && s' == Set(s, w, s'.workers[w]) && WorkerOk(s, s'.workers[w])
      && (s'.workers[w].pc.Aborted? || s'.workers[w].pc == InsertLines(newId))
  {}

  // What another open transaction holds is not the new order, nor its correlation id.
  lemma InsertMeets(s: State, w: WorkerId, newId: OrderId, v: WorkerId)
    requires w in s.workers && v in s.workers && v != w && WorkerOk(s, s.workers[v])
    requires WellFormed(s.workers[w].call.body) && !CorrelationHeld(s, w, s.workers[w].call.body.correlationId.value)
    requires !IdUsed(s, newId)
    ensures var y := s.workers[w].(tx := Db(map[newId := RowOf(s.workers[w].call.body)], [], map[]), pc := InsertLines(newId));
            Compatible(y, s.workers[v]) && Compatible(s.workers[v], y)
  {
    var z := s.workers[v];
    if Pending(z.pc).Some? {
      assert Pending(z.pc).value in z.tx.orders;
      assert z.tx.orders[Pending(z.pc).value].correlationId == z.call.body.correlationId.value;
      assert !HoldsCorrelation(z, s.workers[w].call.body.correlationId.value);
    }
  }

  lemma InsertOrderKeepsInv(s: State, w: WorkerId, newId: OrderId)
    requires Inv(s) && w in s.workers && s.workers[w].pc.InsertOrder?
    ensures Inv(DoInsertOrder(s, w, s.workers[w], newId))
  {
    var x := s.workers[w];
    var s' := DoInsertOrder(s, w, x, newId);
    if s' != s {
      var y := s'.workers[w];
      InsertedWorker(s, w, newId);
      if y.pc.InsertLines? {
        forall w' | w' in s.workers && w' != w ensures Compatible(y, s.workers[w']) && Compatible(s.workers[w'], y) {
          InsertMeets(s, w, newId, w');
        }
      }
      MoveKeepsInv(s, w, y);
    }
  }

  // The commit of a transaction that wrote nothing changes only its worker.
  lemma EmptyCommit(s: State, w: WorkerId, x: Worker, pc: Pc)
    requires x.tx == EMPTY
    ensures DoCommit(s, w, x, pc) == Set(s, w, x.(pc := pc))
  {
    assert Visible(s.db, EMPTY) == s.db;
    var c := map o | o in s.creator.Keys + x.tx.orders.Keys :: if o in x.tx.orders then x.call else s.creator[o];
    assert c == s.creator;
  }

  // What the commit of a transaction that created order o adds, and that the rest is as it was.
  ghost predicate Grown(db: Db, creator: map<OrderId, Call>, db': Db, creator': map<OrderId, Call>, c: Call, v: OrderView) {
    && WellFormed(c.body)
    && db'.orders == db.orders[v.id := RowOf(c.body)]
    && db'.processed == db.processed[c.key := v.id]
    && creator' == creator[v.id := c]
    && View(db', v.id) == v
    && (forall p | p in db.orders :: View(db', p) == View(db, p))
    && LinesOwned(db')
  }

  lemma CreatingCommit(s: State, w: WorkerId, x: Worker, pc: Pc)
    requires LinesOwned(s.db) && s.creator.Keys == s.db.orders.Keys && WorkerOk(s, x) && x.pc.Committing? && x.pc.emit
    ensures var s' := DoCommit(s, w, x, pc); Grown(s.db, s.creator, s'.db, s'.creator, x.call, x.pc.result)
  {
    var s', o := DoCommit(s, w, x, pc), x.pc.result.id;
    assert x.tx == Db(map[o := RowOf(x.call.body)], LinesFor(o, x.call.body.payload.value), map[x.call.key := o]);
    assert s'.db.orders == s.db.orders[o := RowOf(x.call.body)];
    assert s'.db.processed == s.db.processed[x.call.key := o];
    assert s'.creator == s.creator[o := x.call];
    PendingView(s.db, x, o);
    forall p | p in s.db.orders ensures View(s'.db, p) == View(s.db, p) {
      OldView(s.db, x.tx, p);
    }
  }

  lemma GrownKeepsUnique(db: Db, creator: map<OrderId, Call>, db': Db, creator': map<OrderId, Call>, c: Call, v: OrderView)
    requires UniqueCorrelations(db) && Grown(db, creator, db', creator', c, v)
    requires v.id !in db.orders && !CorrelationTaken(db, c.body.correlationId.value)
    ensures UniqueCorrelations(db')
  {}

  lemma GrownKeepsViews(db: Db, creator: map<OrderId, Call>, db': Db, creator': map<OrderId, Call>, c: Call, v: OrderView)
    requires ViewsOk(db, creator) && Grown(db, creator, db', creator', c, v)
    requires v == FreshView(v.id, c.body) && v.id !in db.orders
    ensures ViewsOk(db', creator')
  {
    forall p | p in db'.orders
      ensures WellFormed(creator'[p].body) && View(db', p) == FreshView(p, creator'[p].body)
    {
      if p != v.id {
        GrownKeepsView(db, creator, db', creator', c, v, p);
      }
    }
  }

  lemma GrownKeepsView(db: Db, creator: map<OrderId, Call>, db': Db, creator': map<OrderId, Call>,
                       c: Call, v: OrderView, p: OrderId)
    requires ViewsOk(db, creator) && Grown(db, creator, db', creator', c, v) && p in db.orders && p != v.id
    ensures creator'[p] == creator[p] && WellFormed(creator[p].body) && View(db', p) == FreshView(p, creator[p].body)
  {
    assert View(db', p) == View(db, p);
  }

  lemma GrownKeepsProcessed(db: Db, creator: map<OrderId, Call>, db': Db, creator': map<OrderId, Call>, c: Call, v: OrderView)
    requires ProcessedOk(db, creator) && Grown(db, creator, db', creator', c, v) && v.id !in db.orders
    ensures ProcessedOk(db', creator')
  {}

  lemma GrownKeepsDbOk(db: Db, creator: map<OrderId, Call>, db': Db, creator': map<OrderId, Call>, c: Call, v: OrderView)
    requires DbOk(db, creator) && Grown(db, creator, db', creator', c, v)
    requires v == FreshView(v.id, c.body) && v.id !in db.orders && !CorrelationTaken(db, c.body.correlationId.value)
    ensures DbOk(db', creator')
  {
    GrownKeepsUnique(db, creator, db', creator', c, v);
    GrownKeepsViews(db, creator, db', creator', c, v);
    GrownKeepsProcessed(db, creator, db', creator', c, v);
  }

  lemma GrownKeepsAnswers(db: Db, creator: map<OrderId, Call>, db': Db, creator': map<OrderId, Call>, c: Call, v: OrderView)
    requires Grown(db, creator, db', creator', c, v) && v.id !in db.orders
    ensures forall k, o | Answers(db, creator, k, o) :: Answers(db', creator', k, o)
    ensures forall k, r | ResultOk(db, creator, k, r) :: ResultOk(db', creator', k, r)
  {}

  // A worker that was fine before the commit of x is fine after it.
  lemma CommitKeepsOther(s: State, w: WorkerId, x: Worker, pc: Pc, y: Worker)
    requires DbOk(s.db, s.creator)
    requires WorkerOk(s, x) && WorkerOk(s, y) && Compatible(y, x) && x.pc.Committing? && x.pc.emit
    ensures WorkerOk(DoCommit(s, w, x, pc), y)
  {
    CreatingCommit(s, w, x, pc);
    CreatingIsNew(s, x);
    GrownKeepsPending(s, DoCommit(s, w, x, pc), x, y);
    GrownKeepsPc(s, DoCommit(s, w, x, pc), x, y);
  }

  lemma GrownKeepsPending(s: State, s': State, x: Worker, y: Worker)
    requires PendingOk(s.db, y) && Compatible(y, x) && x.pc.Committing? && x.pc.emit
    requires Grown(s.db, s.creator, s'.db, s'.creator, x.call, x.pc.result)
    ensures PendingOk(s'.db, y)
  {
    if Pending(y.pc).Some? {
      assert Pending(y.pc).value != x.pc.result.id;
    }
  }

  lemma GrownKeepsPc(s: State, s': State, x: Worker, y: Worker)
    requires PcOk(s.db, s.creator, s.publishCalls, y.call, y.pc) && s'.publishCalls == s.publishCalls
    requires x.pc.Committing? && x.pc.result.id !in s.db.orders
    requires Grown(s.db, s.creator, s'.db, s'.creator, x.call, x.pc.result)
    ensures PcOk(s'.db, s'.creator, s'.publishCalls, y.call, y.pc)
  {
    GrownKeepsAnswers(s.db, s.creator, s'.db, s'.creator, x.call, x.pc.result);
  }

  lemma CommittedWorkerOk(s: State, w: WorkerId, x: Worker, pc: Pc)
    requires DbOk(s.db, s.creator) && PublishedOk(s) && WorkerOk(s, x) && x.pc.Committing? && x.pc.emit
    requires pc == Aborted || pc == Emitting(x.pc.result)
    ensures WorkerOk(DoCommit(s, w, x, pc), x.(tx := EMPTY, pc := pc))
  {
    var s' := DoCommit(s, w, x, pc);
    CreatingCommit(s, w, x, pc);
    CreatingIsNew(s, x);
    GrownAnswersOwn(s.db, s.creator, s'.db, s'.creator, x.call, x.pc.result);
    assert x.pc.result.id !in s'.publishCalls;
  }

  lemma GrownAnswersOwn(db: Db, creator: map<OrderId, Call>, db': Db, creator': map<OrderId, Call>, c: Call, v: OrderView)
    requires Grown(db, creator, db', creator', c, v)
    ensures ResultOk(db', creator', c.key, v)
  {}

  lemma CommitKeepsCompatible(s: State, w: WorkerId, v: WorkerId)
    requires w in s.workers && v in s.workers && WorkerOk(s, s.workers[v])
    requires s.workers[w].pc.Committing? && s.workers[w].pc.emit && WorkerOk(s, s.workers[w])
    ensures var y := s.workers[w].(tx := EMPTY, pc := Emitting(s.workers[w].pc.result));
            Compatible(y, s.workers[v]) && Compatible(s.workers[v], y)
  {}

  lemma CreatingCommitKeepsPublished(s: State, w: WorkerId, x: Worker, pc: Pc)
    requires PublishedOk(s) && DbOk(s.db, s.creator) && WorkerOk(s, x) && x.pc.Committing? && x.pc.emit
    ensures PublishedOk(DoCommit(s, w, x, pc))
  {
    CreatingCommit(s, w, x, pc);
  }

  lemma CreatingIsNew(s: State, x: Worker)
    requires WorkerOk(s, x) && x.pc.Committing? && x.pc.emit
    ensures WellFormed(x.call.body) && x.pc.result == FreshView(x.pc.result.id, x.call.body)
    ensures x.pc.result.id !in s.db.orders && !CorrelationTaken(s.db, x.call.body.correlationId.value)
  {}

  lemma CreatingCommitKeepsDbOk(s: State, w: WorkerId, x: Worker, pc: Pc)
    requires DbOk(s.db, s.creator) && WorkerOk(s, x) && x.pc.Committing? && x.pc.emit
    ensures DbOk(DoCommit(s, w, x, pc).db, DoCommit(s, w, x, pc).creator)
  {
    CreatingIsNew(s, x);
    CreatingCommit(s, w, x, pc);
    GrownKeepsDbOk(s.db, s.creator, DoCommit(s, w, x, pc).db, DoCommit(s, w, x, pc).creator, x.call, x.pc.result);
  }

  lemma CreatingCommitKeepsWorkers(s: State, w: WorkerId, pc: Pc)
    requires Inv(s) && w in s.workers && s.workers[w].pc.Committing? && s.workers[w].pc.emit
    requires pc == Aborted || pc == Emitting(s.workers[w].pc.result)
    ensures var s' := DoCommit(s, w, s.workers[w], pc);
            WorkersOk(s')
  {
    var x := s.workers[w];
    var s' := DoCommit(s, w, x, pc);
    forall v | v in s'.workers ensures WorkerOk(s', s'.workers[v]) {
      if v == w {
        CommittedWorkerOk(s, w, x, pc);
      } else {
        assert Compatible(s.workers[v], x);
        CommitKeepsOther(s, w, x, pc, s.workers[v]);
      }
    }
  }

  lemma CreatingCommitKeepsCompatible(s: State, w: WorkerId, pc: Pc)
    requires Inv(s) && w in s.workers && s.workers[w].pc.Committing? && s.workers[w].pc.emit
    requires pc == Aborted || pc == Emitting(s.workers[w].pc.result)
    ensures var s' := DoCommit(s, w, s.workers[w], pc);
            AllCompatible(s')
  {
    var s' := DoCommit(s, w, s.workers[w], pc);
    forall v, v' | v in s'.workers && v' in s'.workers && v != v'
      ensures Compatible(s'.workers[v], s'.workers[v'])
    {
      if v == w {
        CommitKeepsCompatible(s, w, v');
      } else if v' == w {
        CommitKeepsCompatible(s, w, v);
      }
    }
  }

  lemma CreatingCommitKeepsInv(s: State, w: WorkerId, pc: Pc)
    requires Inv(s) && w in s.workers && s.workers[w].pc.Committing? && s.workers[w].pc.emit
    requires pc == Aborted || pc == Emitting(s.workers[w].pc.result)
    ensures Inv(DoCommit(s, w, s.workers[w], pc))
  {
    CreatingCommitKeepsDbOk(s, w, s.workers[w], pc);
    CreatingCommitKeepsPublished(s, w, s.workers[w], pc);
    CreatingCommitKeepsWorkers(s, w, pc);
    CreatingCommitKeepsCompatible(s, w, pc);
  }

  lemma CommitKeepsInv(s: State, w: WorkerId, lost: bool)
    requires Inv(s) && w in s.workers && s.workers[w].pc.Committing?
    ensures var x := s.workers[w];
            Inv(DoCommit(s, w, x,
              if lost then Aborted else if x.pc.emit then Emitting(x.pc.result) else Returned(x.pc.result)))
  {
    var x := s.workers[w];
    var pc := if lost then Aborted else if x.pc.emit then Emitting(x.pc.result) else Returned(x.pc.result);
    if x.pc.emit {
      CreatingCommitKeepsInv(s, w, pc);
    } else {
      EmptyCommitKeepsInv(s, w, pc);
    }
  }

  lemma EmptyCommitKeepsInv(s: State, w: WorkerId, pc: Pc)
    requires Inv(s) && w in s.workers && s.workers[w].pc.Committing? && !s.workers[w].pc.emit
    requires pc == Aborted || pc == Returned(s.workers[w].pc.result)
    ensures Inv(DoCommit(s, w, s.workers[w], pc))
  {
    var x := s.workers[w];
    assert WorkerOk(s, x);
    EmptyCommit(s, w, x, pc);
    var y := x.(pc := pc);
    assert Pending(pc).None? && !pc.Emitting?;
    MoveKeepsInv(s, w, y);
  }

  // At most worker w moves, and not if its call has returned.
  ghost predicate IsLocal(s: State, s': State, w: WorkerId) {
    && w in s.workers && w in s'.workers && s'.workers[w].call == s.workers[w].call
    && (s' == s || (!s.workers[w].pc.Returned? && s' == Set(s, w, s'.workers[w])))
  }

  lemma SetIsLocal(s: State, w: WorkerId, y: Worker)
    requires w in s.workers && y.call == s.workers[w].call && !s.workers[w].pc.Returned?
    ensures IsLocal(s, Set(s, w, y), w)
  {}

  lemma InsertIsLocal(s: State, w: WorkerId, newId: OrderId)
    requires w in s.workers && s.workers[w].pc.InsertOrder?
    ensures IsLocal(s, DoInsertOrder(s, w, s.workers[w], newId), w)
  {
    var s' := DoInsertOrder(s, w, s.workers[w], newId);
    if s' != s {
      SetIsLocal(s, w, s'.workers[w]);
    }
  }

  lemma SaveIsLocal(s: State, w: WorkerId, newId: OrderId)
    requires w in s.workers && (s.workers[w].pc.SaveInsert? || s.workers[w].pc.SaveUpdate?)
    ensures IsLocal(s, Resume(s, w, s.workers[w], newId), w)
  {
    var s' := Resume(s, w, s.workers[w], newId);
    if s' != s {
      SetIsLocal(s, w, s'.workers[w]);
    }
  }

  // An await other than COMMIT changes at most its own worker.
  lemma ResumeIsLocal(s: State, w: WorkerId, newId: OrderId)
    requires w in s.workers && !s.workers[w].pc.Committing?
    ensures IsLocal(s, Resume(s, w, s.workers[w], newId), w)
  {
    var pc := s.workers[w].pc;
    if pc.InsertOrder? {
      InsertIsLocal(s, w, newId);
    } else if pc.SaveInsert? || pc.SaveUpdate? {
      SaveIsLocal(s, w, newId);
    }
  }

  // Every other await changes its own worker only, and makes no new claim on an order or a publication.
  ghost predicate LocalMove(s: State, s': State, w: WorkerId) {
    && w in s.workers && w in s'.workers
    && (s' == s || s' == Set(s, w, s'.workers[w]))
    && var x, y := s.workers[w], s'.workers[w];
       && WorkerOk(s, y)
       && y.call == x.call
       && (Pending(y.pc).Some? ==> Pending(y.pc) == Pending(x.pc))
       && (y.pc.Emitting? ==> y == x)
  }

  lemma PreCheckMove(s: State, w: WorkerId, newId: OrderId)
    requires ProcessedOk(s.db, s.creator) && w in s.workers && WorkerOk(s, s.workers[w])
    requires (s.workers[w].pc.PreCheck? || s.workers[w].pc.PreLoad?)
    ensures LocalMove(s, Resume(s, w, s.workers[w], newId), w)
  {
  }

  lemma TxCheckMove(s: State, w: WorkerId, newId: OrderId)
    requires ProcessedOk(s.db, s.creator) && w in s.workers && WorkerOk(s, s.workers[w]) && s.workers[w].pc.TxCheck?
    ensures LocalMove(s, Resume(s, w, s.workers[w], newId), w)
  {
    assert Visible(s.db, EMPTY) == s.db;
  }

  lemma TxLoadMove(s: State, w: WorkerId, newId: OrderId)
    requires w in s.workers && WorkerOk(s, s.workers[w]) && s.workers[w].pc.TxLoad?
    ensures LocalMove(s, Resume(s, w, s.workers[w], newId), w)
  {
    var x := s.workers[w];
    assert Visible(s.db, EMPTY) == s.db;
    var y := x.(pc := Committing(View(s.db, x.pc.found), false));
    assert Resume(s, w, x, newId) == Set(s, w, y);
    assert ResultOk(s.db, s.creator, x.call.key, y.pc.result);
  }

  lemma InsertLinesMove(s: State, w: WorkerId, newId: OrderId)
    requires w in s.workers && WorkerOk(s, s.workers[w]) && (s.workers[w].pc.InsertLines? || s.workers[w].pc.SaveSelect?)
    ensures LocalMove(s, Resume(s, w, s.workers[w], newId), w)
  {
    var x := s.workers[w];
    if x.pc.InsertLines? {
      var l := LinesFor(x.pc.id, x.call.body.payload.value);
      assert [] + l == l;
    }
  }

  lemma SaveMove(s: State, w: WorkerId, newId: OrderId)
    requires w in s.workers && WorkerOk(s, s.workers[w]) && (s.workers[w].pc.SaveInsert? || s.workers[w].pc.SaveUpdate?)
    ensures LocalMove(s, Resume(s, w, s.workers[w], newId), w)
  {
    var x := s.workers[w];
    var saved := x.(tx := x.tx.(processed := map[x.call.key := x.pc.id]), pc := Reload(x.pc.id));
    assert x.tx.processed[x.call.key := x.pc.id] == map[x.call.key := x.pc.id];
    assert WorkerOk(s, saved);
    if x.pc.SaveUpdate? {
      assert DoSaveUpdate(s, w, x, x.pc.id) == s || DoSaveUpdate(s, w, x, x.pc.id) == Set(s, w, saved);
    }
  }

  lemma ReloadMove(s: State, w: WorkerId, newId: OrderId)
    requires LinesOwned(s.db) && w in s.workers && WorkerOk(s, s.workers[w]) && s.workers[w].pc.Reload?
    ensures LocalMove(s, Resume(s, w, s.workers[w], newId), w)
  {
    var x := s.workers[w];
    PendingView(s.db, x, x.pc.id);
  }

  lemma LocalMoveKeepsInv(s: State, s': State, w: WorkerId)
    requires Inv(s) && LocalMove(s, s', w)
    ensures Inv(s')
  {
    var x, y := s.workers[w], s'.workers[w];
    forall w' | w' in s.workers && w' != w
      ensures Compatible(y, s.workers[w']) && Compatible(s.workers[w'], y)
    {
      assert Compatible(x, s.workers[w']) && Compatible(s.workers[w'], x);
    }
    MoveKeepsInv(s, w, y);
  }

  lemma ResumeKeepsInv(s: State, w: WorkerId, newId: OrderId)
    requires Inv(s) && w in s.workers
    ensures Inv(Resume(s, w, s.workers[w], newId))
  {
    var x := s.workers[w];
    var s' := Resume(s, w, x, newId);
    assert WorkerOk(s, x);
    if x.pc.InsertOrder? {
      InsertOrderKeepsInv(s, w, newId);
    } else if x.pc.Committing? {
      CommitKeepsInv(s, w, false);
    } else if x.pc.PreCheck? || x.pc.PreLoad? {
      PreCheckMove(s, w, newId);
      LocalMoveKeepsInv(s, s', w);
    } else if x.pc.TxCheck? {
      TxCheckMove(s, w, newId);
      LocalMoveKeepsInv(s, s', w);
    } else if x.pc.TxLoad? {
      TxLoadMove(s, w, newId);
      LocalMoveKeepsInv(s, s', w);
    } else if x.pc.InsertLines? || x.pc.SaveSelect? {
      InsertLinesMove(s, w, newId);
      LocalMoveKeepsInv(s, s', w);
    } else if x.pc.SaveInsert? || x.pc.SaveUpdate? {
      SaveMove(s, w, newId);
      LocalMoveKeepsInv(s, s', w);
    } else if x.pc.Reload? {
      ReloadMove(s, w, newId);
      LocalMoveKeepsInv(s, s', w);
    }
  }

  lemma EmitKeepsPublished(s: State, w: WorkerId, copies: nat)
    requires PublishedOk(s) && w in s.workers && WorkerOk(s, s.workers[w]) && s.workers[w].pc.Emitting?
    ensures PublishedOk(Next(s, Emit(w, copies)))
  {
    var v := s.workers[w].pc.result;
    var s' := Next(s, Emit(w, copies));
    forall e | e in s'.events
      ensures e.orderId in s'.publishCalls && e.orderId in s'.db.orders && e == EventOf(View(s'.db, e.orderId))
    {
      assert e in s.events || e == EventOf(v);
    }
  }

  lemma EmitKeepsOther(s: State, s': State, o: OrderId, y: Worker)
    requires WorkerOk(s, y) && (y.pc.Emitting? ==> y.pc.result.id != o)
    requires s'.db == s.db && s'.creator == s.creator && s'.publishCalls == s.publishCalls + [o]
    ensures WorkerOk(s', y)
  {}

  lemma EmitKeepsWorkers(s: State, w: WorkerId, copies: nat)
    requires WorkersOk(s) && AllCompatible(s) && w in s.workers && s.workers[w].pc.Emitting?
    ensures WorkersOk(Next(s, Emit(w, copies)))
  {
    var s' := Next(s, Emit(w, copies));
    assert WorkerOk(s, s.workers[w]);
    forall v | v in s'.workers ensures WorkerOk(s', s'.workers[v]) {
      assert WorkerOk(s, s.workers[v]);
      if v != w {
        assert Compatible(s.workers[v], s.workers[w]);
        EmitKeepsOther(s, s', s.workers[w].pc.result.id, s.workers[v]);
      }
    }
  }

  lemma EmitKeepsCompatible(s: State, w: WorkerId, copies: nat)
    requires AllCompatible(s) && w in s.workers && s.workers[w].pc.Emitting?
    ensures AllCompatible(Next(s, Emit(w, copies)))
  {
    var s' := Next(s, Emit(w, copies));
    forall v, v' | v in s'.workers && v' in s'.workers && v != v'
      ensures Compatible(s'.workers[v], s'.workers[v'])
    {
      assert Compatible(s.workers[v], s.workers[v']);
    }
  }

  lemma EmitKeepsInv(s: State, w: WorkerId, copies: nat)
    requires Inv(s) && w in s.workers && s.workers[w].pc.Emitting?
    ensures Inv(Next(s, Emit(w, copies)))
  {
    assert WorkerOk(s, s.workers[w]);
    EmitKeepsPublished(s, w, copies);
    EmitKeepsWorkers(s, w, copies);
    EmitKeepsCompatible(s, w, copies);
  }

  lemma NextKeepsInv(s: State, a: Action)
    requires Inv(s)
    ensures Inv(Next(s, a))
  {
    if a.Start? {
      if a.w !in s.workers {
        MoveKeepsInv(s, a.w, Worker(a.call, EMPTY, PreCheck));
      }
    } else if a.w in s.workers {
      var x := s.workers[a.w];
      assert WorkerOk(s, x);
      match a {
        case Advance(w, newId) => ResumeKeepsInv(s, w, newId);
        case LoseCommit(w) => if x.pc.Committing? { CommitKeepsInv(s, w, true); }
        case Emit(w, copies) => if x.pc.Emitting? { EmitKeepsInv(s, w, copies); }
        case Fail(w) => if !x.pc.Returned? { MoveKeepsInv(s, w, Abort(x)); }
      }
    }
  }

  lemma {:induction false} RunKeepsInv(s: State, acts: seq<Action>)
    requires Inv(s)
    ensures Inv(Run(s, acts))
    decreases |acts|
  {
    if acts != [] {
      NextKeepsInv(s, acts[0]);
      RunKeepsInv(Next(s, acts[0]), acts[1..]);
    }
  }
}
