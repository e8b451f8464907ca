/**
 * createOrderFromCheckout as the service runs it when nothing interrupts it: a class over the
 * three tables. Its method is proved against `Solo`, and `Solo` against the concurrent machine:
 * an uninterrupted call is one of the machine's runs, so what holds over every run holds of it.
 */
module OrderService {
  import opened Prelude
  import opened OrderMachine
  import opened OrderSafety

  datatype OrderError = BadRequest | NotNullViolation | UniqueViolation

  datatype Outcome = Outcome(db: Db, result: Result<OrderView, OrderError>, emit: bool)

  predicate Processed(db: Db, key: string) {
    key in db.processed && db.processed[key] in db.orders
  }

  function Solo(db: Db, c: Call, newId: OrderId): Outcome {
    if Processed(db, c.key) then Outcome(db, Ok(View(db, db.processed[c.key])), false)
    else if !DimensionsOk(c.body) then Outcome(db, Err(BadRequest), false)
    else if c.body.correlationId.None? then Outcome(db, Err(NotNullViolation), false)
    else if CorrelationTaken(db, c.body.correlationId.value) then Outcome(db, Err(UniqueViolation), false)
    else
      var db' := Visible(db, Db(map[newId := RowOf(c.body)], LinesFor(newId, c.body.payload.value), map[c.key := newId]));
      Outcome(db', Ok(View(db', newId)), true)
  }

  // The message's order under the id: its row, and its lines after those that were there.
  ghost predicate Creates(db: Db, t: Db, body: Body, key: string, o: OrderId) {
    && body.payload.Some? && |body.payload.value.productIds| == |body.payload.value.quantities|
    && t.orders.Keys == db.orders.Keys + {o} && (forall p | p in db.orders && p != o :: t.orders[p] == db.orders[p])
    && t.orders[o].userId == body.userId && t.orders[o].cartId == body.cartId
    && Some(t.orders[o].correlationId) == body.correlationId && t.orders[o].status == "confirmed"
    && t.processed == db.processed[key := o]
    && |t.lines| == |db.lines| + |body.payload.value.productIds| && t.lines[..|db.lines|] == db.lines
    && forall i | 0 <= i < |body.payload.value.productIds| ::
         var l := t.lines[|db.lines| + i];
         && l.orderId == o && l.productId == body.payload.value.productIds[i]
         && l.quantity == body.payload.value.quantities[i] && l.priceCents == 0
  }

  // A creating call creates the message's order; any other leaves the tables alone.
  lemma SoloCreates(db: Db, body: Body, key: string, newId: OrderId)
    requires newId !in db.orders
    ensures var o := Solo(db, Call(key, body), newId);
      && (o.emit ==> Creates(db, o.db, body, key, newId) && o.result.Ok? && o.result.value.id == newId
                     && o.result.value.row == o.db.orders[newId])
      && (!o.emit ==> o.db == db)
  {
    var o := Solo(db, Call(key, body), newId);
    if o.emit {
      assert o.db.orders == db.orders[newId := RowOf(body)];
      assert o.db.processed == db.processed[key := newId];
      assert o.db.lines == db.lines + LinesFor(newId, body.payload.value);
    }
  }

  class OrderService {
    var orders: map<OrderId, OrderRow>
    var lines: seq<LineRow>
    var processed: map<string, OrderId>
    var publishCalls: seq<OrderId>
    var events: seq<OrderEvent>

    constructor ()
      ensures Tables() == EMPTY && publishCalls == [] && events == []
    {
      orders, lines, processed, publishCalls, events := map[], [], map[], [], [];
    }

    function Tables(): Db
      reads this
    {
      Db(orders, lines, processed)
    }

    method FindOrder(id: OrderId) returns (found: Option<OrderView>)
      ensures found == if id in orders then Some(View(Tables(), id)) else None
    {
      if id in orders {
        found := Some(View(Tables(), id));
      } else {
        found := None;
      }
    }

    // The send appends the event once, not at all (not connected, or it fails), or more than once
    // when the client library retries; it never fails the call.
    method PublishOrderCreated(order: OrderView, copies: nat)
      modifies `publishCalls, `events
      ensures publishCalls == old(publishCalls) + [order.id]
      ensures events == old(events) + Copies(EventOf(order), copies)
    {
      publishCalls := publishCalls + [order.id];
      events := events + Copies(EventOf(order), copies);
    }

    // The body of the transaction: its writes reach the fields only if it commits.
    method CreateInTransaction(body: Body, key: string, newId: OrderId)
        returns (r: Result<OrderView, OrderError>, shouldEmit: bool)
      requires DimensionsOk(body) && newId !in orders
      modifies `orders, `lines, `processed
      ensures Processed(old(Tables()), key) ==>
                Tables() == old(Tables()) && r == Ok(View(Tables(), processed[key])) && !shouldEmit
      ensures !Processed(old(Tables()), key) ==>
                var o := Solo(old(Tables()), Call(key, body), newId);
                Tables() == o.db && r == o.result && shouldEmit == o.emit
      ensures shouldEmit ==> r.Ok? && r.value.id == newId && r.value.row == orders[newId]
      ensures shouldEmit ==> Creates(old(Tables()), Tables(), body, key, newId)
      ensures !shouldEmit ==> Tables() == old(Tables())
    {
      shouldEmit := false;
      SoloCreates(Tables(), body, key, newId);
      if key in processed {
        var hit := FindOrder(processed[key]);
        if hit.Some? {
          return Ok(hit.value), false;
        }
      }
      if body.correlationId.None? {
        return Err(NotNullViolation), false;
      }
      if exists o | o in orders :: orders[o].correlationId == body.correlationId.value {
        return Err(UniqueViolation), false;
      }
      var lineEntities := BuildLineEntities(newId, body.payload.value);
      orders := orders + map[newId := RowOf(body)];
      lines := lines + lineEntities;
      processed := processed + map[key := newId];
      shouldEmit := true;
      var saved := FindOrder(newId);
      r := Ok(saved.value);
    }

    method CreateOrderFromCheckout(body: Body, key: string, newId: OrderId, copies: nat)
        returns (r: Result<OrderView, OrderError>)
      requires newId !in orders
      modifies this
      ensures var o := Solo(old(Tables()), Call(key, body), newId);
              && Tables() == o.db && r == o.result
              && publishCalls == old(publishCalls) + (if o.emit then [newId] else [])
              && events == old(events) + (if o.emit then Copies(EventOf(View(o.db, newId)), copies) else [])
      ensures Processed(old(Tables()), key) ==>
                Tables() == old(Tables()) && r.Ok? && r.value.id == old(processed)[key] && r.value.row == orders[r.value.id]
      ensures !Processed(old(Tables()), key) && r.Ok? ==>
                r.value.id == newId && r.value.row == orders[newId] && Creates(old(Tables()), Tables(), body, key, newId)
      ensures r.Err? ==> Tables() == old(Tables()) && publishCalls == old(publishCalls) && events == old(events)
      ensures !Processed(old(Tables()), key) ==>
                (r == Err(BadRequest) <==>
                 body.payload.None? || |body.payload.value.productIds| != |body.payload.value.quantities|)
      ensures !Processed(old(Tables()), key) && DimensionsOk(body) ==>
                (r == Err(NotNullViolation) <==> body.correlationId.None?)
      ensures !Processed(old(Tables()), key) && DimensionsOk(body) && body.correlationId.Some? ==>
                (r == Err(UniqueViolation) <==> exists o | o in old(orders) :: old(orders)[o].correlationId == body.correlationId.value)
    {
      if key in processed {
        var existing := FindOrder(processed[key]);
        if existing.Some? {
          return Ok(existing.value);
        }
      }
      if body.payload.None? || |body.payload.value.productIds| != |body.payload.value.quantities| {
        return Err(BadRequest);
      }
      var shouldEmit;
      r, shouldEmit := CreateInTransaction(body, key, newId);
      if shouldEmit {
        PublishOrderCreated(r.value, copies);
      }
    }
  }

  /* ---------- what a call promises ---------- */

  /** A second call with the same key, whatever its body, changes nothing and returns the first
      call's order; so does any number of later calls. */
  lemma SecondCallIsNoOp(db: Db, a: Call, b: Call, i: OrderId, j: OrderId)
    requires a.key == b.key && Solo(db, a, i).result.Ok?
    ensures var first := Solo(db, a, i); Solo(first.db, b, j) == Outcome(first.db, first.result, false)
  {
    var first := Solo(db, a, i);
    if Processed(db, a.key) {
    } else {
      assert first.db.processed[a.key] == i;
    }
  }

  // A failed call leaves the tables alone; a creating call leaves every existing order alone.
  lemma CallKeepsOrders(db: Db, c: Call, i: OrderId, o: OrderId)
    requires i !in db.orders && o in db.orders
    ensures var out := Solo(db, c, i);
      && (out.result.Err? ==> out.db == db)
      && o in out.db.orders && View(out.db, o) == View(db, o)
  {
    var out := Solo(db, c, i);
    if out.emit {
      OldView(db, Db(map[i := RowOf(c.body)], LinesFor(i, c.body.payload.value), map[c.key := i]), o);
    }
  }

  /* ---------- an uninterrupted call is a run of the machine ---------- */

  ghost predicate Quiet(s: State) {
    forall w | w in s.workers :: s.workers[w].tx == EMPTY
  }

  function SoloScript(db: Db, w: WorkerId, c: Call, newId: OrderId): seq<Action> {
    if Processed(db, c.key) then [Start(w, c), Advance(w, 0)] + [Advance(w, 0)]
    else if !DimensionsOk(c.body) then [Start(w, c), Advance(w, 0)]
    else if Solo(db, c, newId).result.Err? then [Start(w, c), Advance(w, 0)] + [Advance(w, 0), Advance(w, newId)]
    else Begin(w, c, newId) + Finish(w)
  }

  lemma HitIsARun(s: State, w: WorkerId, c: Call, newId: OrderId)
    requires w !in s.workers && Processed(s.db, c.key)
    ensures Run(s, SoloScript(s.db, w, c, newId)) == Set(s, w, Worker(c, EMPTY, Returned(View(s.db, s.db.processed[c.key]))))
  {
    Run2(s, Start(w, c), Advance(w, 0));
    var s2 := Set(s, w, Worker(c, EMPTY, PreLoad(s.db.processed[c.key])));
    assert Run(s, [Start(w, c), Advance(w, 0)]) == s2;
    Run1(s2, Advance(w, 0));
    RunAppend(s, [Start(w, c), Advance(w, 0)], [Advance(w, 0)]);
  }

  lemma InsertIsRefused(s: State, w: WorkerId, c: Call, newId: OrderId)
    requires Quiet(s) && w !in s.workers && c.key !in s.db.processed
    requires DimensionsOk(c.body) && Solo(s.db, c, newId).result.Err?
    ensures Run(Set(s, w, Worker(c, EMPTY, TxCheck)), [Advance(w, 0), Advance(w, newId)]) ==
            Set(s, w, Worker(c, EMPTY, Aborted))
  {
    var s2, s3 := Set(s, w, Worker(c, EMPTY, TxCheck)), Set(s, w, Worker(c, EMPTY, InsertOrder));
    assert Visible(s.db, EMPTY) == s.db;
    assert Next(s2, Advance(w, 0)) == s3;
    assert DoInsertOrder(s3, w, s3.workers[w], newId) == Set(s, w, Worker(c, EMPTY, Aborted));
    Run2(s2, Advance(w, 0), Advance(w, newId));
  }

  lemma RefusalIsARun(s: State, w: WorkerId, c: Call, newId: OrderId)
    requires Quiet(s) && w !in s.workers && c.key !in s.db.processed && Solo(s.db, c, newId).result.Err?
    ensures Run(s, SoloScript(s.db, w, c, newId)) == Set(s, w, Worker(c, EMPTY, Aborted))
  {
    if DimensionsOk(c.body) {
      BeginOpens(s, w, c);
      InsertIsRefused(s, w, c, newId);
      RunAppend(s, [Start(w, c), Advance(w, 0)], [Advance(w, 0), Advance(w, newId)]);
    } else {
      Run2(s, Start(w, c), Advance(w, 0));
    }
  }

  lemma CreatedView(s: State, c: Call, newId: OrderId)
    requires LinesOwned(s.db) && c.key !in s.db.processed && newId !in s.db.orders && Solo(s.db, c, newId).result.Ok?
    ensures Solo(s.db, c, newId).result.value == FreshView(newId, c.body)
  {
    var tx := Db(map[newId := RowOf(c.body)], LinesFor(newId, c.body.payload.value), map[c.key := newId]);
    PendingView(s.db, Worker(c, tx, Aborted), newId);
  }

  function Begun(c: Call, newId: OrderId): Worker
    requires WellFormed(c.body)
  {
    Worker(c, Db(map[newId := RowOf(c.body)], LinesFor(newId, c.body.payload.value), map[]), SaveSelect(newId))
  }

  lemma BegunIsReady(s: State, w: WorkerId, c: Call, newId: OrderId)
    requires Quiet(s) && newId !in s.db.orders && WellFormed(c.body) && !CorrelationTaken(s.db, c.body.correlationId.value)
    ensures WorkerOk(Set(s, w, Begun(c, newId)), Begun(c, newId))
    ensures !KeyHeld(Set(s, w, Begun(c, newId)), w, c.key)
  {}

  lemma CreationBegins(s: State, w: WorkerId, c: Call, newId: OrderId)
    requires Quiet(s) && w !in s.workers && c.key !in s.db.processed && newId !in s.db.orders
    requires Solo(s.db, c, newId).emit
    ensures WellFormed(c.body) && !CorrelationTaken(s.db, c.body.correlationId.value)
    ensures Run(s, Begin(w, c, newId) + Finish(w)) == Run(Set(s, w, Begun(c, newId)), Finish(w))
  {
    BeginInserts(s, w, c, newId);
    RunAppend(s, Begin(w, c, newId), Finish(w));
  }

  lemma CreationIsARun(s: State, w: WorkerId, c: Call, newId: OrderId)
    requires LinesOwned(s.db) && s.creator.Keys == s.db.orders.Keys
    requires Quiet(s) && w !in s.workers && c.key !in s.db.processed && newId !in s.db.orders
    requires Solo(s.db, c, newId).emit
    ensures var t := Run(s, Begin(w, c, newId) + Finish(w));
            t.workers == s.workers[w := Worker(c, EMPTY, Returned(FreshView(newId, c.body)))]
            && t.db == Solo(s.db, c, newId).db
  {
    CreationBegins(s, w, c, newId);
    BegunReturns(s, w, c, newId);
    CreationTables(s.db, c, newId);
  }

  lemma BegunReturns(s: State, w: WorkerId, c: Call, newId: OrderId)
    requires LinesOwned(s.db) && s.creator.Keys == s.db.orders.Keys && Quiet(s) && newId !in s.db.orders
    requires WellFormed(c.body) && !CorrelationTaken(s.db, c.body.correlationId.value)
    ensures var t := Run(Set(s, w, Begun(c, newId)), Finish(w));
            && t.workers == s.workers[w := Worker(c, EMPTY, Returned(FreshView(newId, c.body)))]
            && t.db == Visible(s.db, Begun(c, newId).tx.(processed := map[c.key := newId]))
  {
    BegunIsReady(s, w, c, newId);
    FinishReturns(Set(s, w, Begun(c, newId)), w);
  }

  lemma CreationTables(db: Db, c: Call, newId: OrderId)
    requires Solo(db, c, newId).emit && WellFormed(c.body)
    ensures Solo(db, c, newId).db == Visible(db, Begun(c, newId).tx.(processed := map[c.key := newId]))
  {}

  /** From any reachable state with no transaction open, the uninterrupted call is a run of the
      machine with the same tables and the same result, and only its own worker added. */
  lemma SoloIsARun(acts: seq<Action>, w: WorkerId, c: Call, newId: OrderId)
    requires var s := Run(INIT, acts); Quiet(s) && w !in s.workers && newId !in s.db.orders
    ensures var s := Run(INIT, acts);
      var t := Run(INIT, acts + SoloScript(s.db, w, c, newId)); var o := Solo(s.db, c, newId);
      && t.db == o.db
      && t.workers == s.workers[w := Worker(c, EMPTY, if o.result.Ok? then Returned(o.result.value) else Aborted)]
  {
    var s := Run(INIT, acts);
    InitInv();
    RunKeepsInv(INIT, acts);
    RunAppend(INIT, acts, SoloScript(s.db, w, c, newId));
    if Processed(s.db, c.key) {
      HitIsARun(s, w, c, newId);
    } else if Solo(s.db, c, newId).result.Err? {
      RefusalIsARun(s, w, c, newId);
    } else {
      CreatedView(s, c, newId);
      CreationIsARun(s, w, c, newId);
    }
  }
}
