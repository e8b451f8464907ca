/**
 * What holds over every run of the order machine: one order per correlation id,
 * no partial order, one publication per order, and exactly when all the calls
 * made with one key return the same order.
 */
module OrderSafety {
  import opened Prelude
  import opened OrderMachine

  // The calls a run may make; a run over `calls` starts only these.
  ghost predicate ActionsFrom(acts: seq<Action>, calls: iset<Call>) {
    forall i | 0 <= i < |acts| && acts[i].Start? :: acts[i].call in calls
  }

  // Well-formed messages with the same key carry the same correlation id.
  ghost predicate KeysDetermine(calls: iset<Call>) {
    forall a, b {:trigger Consistent(a, b)} | a in calls && b in calls :: Consistent(a, b)
  }

  predicate Consistent(a: Call, b: Call) {
    a.key == b.key && WellFormed(a.body) && WellFormed(b.body) ==> a.body.correlationId == b.body.correlationId
  }

  ghost predicate ReturnsAgree(s: State) {
    forall w, w' | w in s.workers && w' in s.workers && s.workers[w].pc.Returned? && s.workers[w'].pc.Returned? ::
      s.workers[w].call.key == s.workers[w'].call.key ==> s.workers[w].pc.result == s.workers[w'].pc.result
  }

  /* ---------- without any assumption on keys ---------- */

  lemma InitInv()
    ensures Inv(INIT)
  {}

  /** For every run: correlation ids are unique, each order has exactly the lines of one message,
      each processed row points at an order made for its key, OrderCreated is published at most
      once per order and only for committed orders. */
  lemma EveryRun(acts: seq<Action>)
    ensures var s := Run(INIT, acts);
      && (forall o1, o2 | o1 in s.db.orders && o2 in s.db.orders
            && s.db.orders[o1].correlationId == s.db.orders[o2].correlationId :: o1 == o2)
      && (forall o | o in s.db.orders ::
            && o in s.creator && WellFormed(s.creator[o].body)
            && s.db.orders[o].userId == s.creator[o].body.userId
            && s.db.orders[o].cartId == s.creator[o].body.cartId
            && Some(s.db.orders[o].correlationId) == s.creator[o].body.correlationId
            && s.db.orders[o].status == "confirmed"
            && View(s.db, o).lines == multiset(LinesFor(o, s.creator[o].body.payload.value)))
      && (forall k | k in s.db.processed :: s.db.processed[k] in s.db.orders && s.creator[s.db.processed[k]].key == k)
      && (forall i, j | 0 <= i < j < |s.publishCalls| :: s.publishCalls[i] != s.publishCalls[j])
      && (forall o | o in s.publishCalls :: o in s.db.orders)
      && (forall e | e in s.events :: e.orderId in s.publishCalls && e == EventOf(View(s.db, e.orderId)))
  {
    InitInv();
    RunKeepsInv(INIT, acts);
  }

  lemma {:induction false} LinesOfCounts(lines: seq<LineRow>, o: OrderId, l: LineRow)
    ensures multiset(LinesOf(lines, o))[l] == if l.orderId == o then multiset(lines)[l] else 0
  {
    if lines != [] {
      LinesOfCounts(lines[1..], o, l);
      assert lines == [lines[0]] + lines[1..];
    }
  }

  /** The rows of an order in every run: the order row has its message's user, cart and correlation id
      and is confirmed, and the lines table holds for it the message's products with their
      quantities, position by position, each at price zero, and no other line. */
  lemma OrderHoldsItsMessage(acts: seq<Action>, o: OrderId) returns (lines: seq<LineRow>)
    requires o in Run(INIT, acts).db.orders
    ensures var s := Run(INIT, acts); o in s.creator && var b := s.creator[o].body; var row := s.db.orders[o];
      && row.userId == b.userId && row.cartId == b.cartId && Some(row.correlationId) == b.correlationId
      && row.status == "confirmed"
      && b.payload.Some? && |lines| == |b.payload.value.productIds| == |b.payload.value.quantities|
      && (forall i | 0 <= i < |lines| ::
            && lines[i].orderId == o && lines[i].productId == b.payload.value.productIds[i]
            && lines[i].quantity == b.payload.value.quantities[i] && lines[i].priceCents == 0)
      && (forall l: LineRow | l.orderId == o :: multiset(s.db.lines)[l] == multiset(lines)[l])
  {
    EveryRun(acts);
    var s := Run(INIT, acts);
    lines := LinesFor(o, s.creator[o].body.payload.value);
    forall l: LineRow | l.orderId == o ensures multiset(s.db.lines)[l] == multiset(lines)[l] {
      LinesOfCounts(s.db.lines, o, l);
      assert View(s.db, o).lines[l] == multiset(lines)[l];
    }
  }

  // Every row named by processed_events is there to load: neither check falls through to the insert.
  lemma NoFallThrough(acts: seq<Action>, w: WorkerId)
    requires w in Run(INIT, acts).workers
    ensures var s := Run(INIT, acts);
      && (s.workers[w].pc.PreLoad? ==> s.workers[w].pc.found in s.db.orders)
      && (s.workers[w].pc.TxLoad? ==> s.workers[w].pc.found in s.db.orders)
  {
    InitInv();
    RunKeepsInv(INIT, acts);
    var s := Run(INIT, acts);
    assert WorkerOk(s, s.workers[w]);
  }

  // A call that returns normally returns a whole committed order, made for its own key:
  // two keys never share an order.
  lemma ReturnsAreCommitted(acts: seq<Action>, w: WorkerId, w': WorkerId)
    requires var s := Run(INIT, acts);
             w in s.workers && w' in s.workers && s.workers[w].pc.Returned? && s.workers[w'].pc.Returned?
    ensures var s := Run(INIT, acts); var v := s.workers[w].pc.result;
      && v.id in s.db.orders && v == View(s.db, v.id) && s.workers[w].call.key in s.db.processed
      && (v.id == s.workers[w'].pc.result.id ==> s.workers[w].call.key == s.workers[w'].call.key)
  {
    InitInv();
    RunKeepsInv(INIT, acts);
    var s := Run(INIT, acts);
    assert WorkerOk(s, s.workers[w]) && WorkerOk(s, s.workers[w']);
  }

  /* ---------- what never changes again ---------- */

  ghost predicate RowsStay(db: Db, db': Db) {
    && (forall o | o in db.orders :: o in db'.orders && View(db', o) == View(db, o))
    && (forall k | k in db.processed :: k in db'.processed)
  }

  ghost predicate ResultsStay(ws: map<WorkerId, Worker>, ws': map<WorkerId, Worker>) {
    forall w | w in ws ::
      w in ws' && ws'[w].call == ws[w].call && (ws[w].pc.Returned? ==> ws'[w] == ws[w])
  }

  ghost predicate CreatorsStay(creator: map<OrderId, Call>, creator': map<OrderId, Call>) {
    forall o | o in creator :: o in creator' && creator'[o] == creator[o]
  }

  ghost predicate Later(s: State, t: State) {
    RowsStay(s.db, t.db) && ResultsStay(s.workers, t.workers) && CreatorsStay(s.creator, t.creator)
  }

  lemma GrownRowsStay(db: Db, creator: map<OrderId, Call>, db': Db, creator': map<OrderId, Call>, c: Call, v: OrderView)
    requires Grown(db, creator, db', creator', c, v) && v.id !in creator
    ensures RowsStay(db, db') && CreatorsStay(creator, creator')
  {}

  lemma CommitIsLater(s: State, w: WorkerId, pc: Pc)
    requires DbOk(s.db, s.creator) && w in s.workers && WorkerOk(s, s.workers[w]) && s.workers[w].pc.Committing?
    ensures Later(s, DoCommit(s, w, s.workers[w], pc))
  {
    var x := s.workers[w];
    var s' := DoCommit(s, w, x, pc);
    if x.pc.emit {
      CreatingCommit(s, w, x, pc);
      CreatingIsNew(s, x);
      GrownRowsStay(s.db, s.creator, s'.db, s'.creator, x.call, x.pc.result);
    } else {
      EmptyCommit(s, w, x, pc);
    }
  }

  lemma SetIsLater(s: State, w: WorkerId, y: Worker)
    requires w in s.workers ==> y.call == s.workers[w].call && !s.workers[w].pc.Returned?
    ensures Later(s, Set(s, w, y))
  {}

  lemma AdvanceIsLater(s: State, w: WorkerId, newId: OrderId)
    requires w in s.workers && !s.workers[w].pc.Committing?
    ensures Later(s, Resume(s, w, s.workers[w], newId))
  {
    ResumeIsLocal(s, w, newId);
    var s' := Resume(s, w, s.workers[w], newId);
    if s' != s {
      SetIsLater(s, w, s'.workers[w]);
    }
  }

  lemma NextIsLater(s: State, a: Action)
    requires Inv(s)
    ensures Later(s, Next(s, a))
  {
    if !a.Start? && a.w in s.workers {
      var pc := s.workers[a.w].pc;
      if pc.Committing? && (a.Advance? || a.LoseCommit?) {
        assert WorkerOk(s, s.workers[a.w]);
        CommitIsLater(s, a.w,
          if a.LoseCommit? then Aborted else if pc.emit then Emitting(pc.result) else Returned(pc.result));
      } else if a.Advance? {
        AdvanceIsLater(s, a.w, a.newId);
      } else {
        OtherIsLater(s, a);
      }
    } else {
      OtherIsLater(s, a);
    }
  }

  // The actions that neither read nor commit.
  lemma OtherIsLater(s: State, a: Action)
    requires a.Start? || a.w !in s.workers || a.Emit? || a.Fail? || (a.LoseCommit? && !s.workers[a.w].pc.Committing?)
    ensures Later(s, Next(s, a))
  {
    if a.Start? {
      if a.w !in s.workers {
        SetIsLater(s, a.w, Worker(a.call, EMPTY, PreCheck));
      }
    } else if a.w in s.workers && a.Fail? && !s.workers[a.w].pc.Returned? {
      SetIsLater(s, a.w, Abort(s.workers[a.w]));
    }
  }

  /** A committed order never changes and a returned result stands, whatever happens afterwards. */
  lemma {:induction false} RunIsLater(s: State, acts: seq<Action>)
    requires Inv(s)
    ensures Later(s, Run(s, acts))
    decreases |acts|
  {
    if acts != [] {
      NextIsLater(s, acts[0]);
      NextKeepsInv(s, acts[0]);
      RunIsLater(Next(s, acts[0]), acts[1..]);
      var m, t := Next(s, acts[0]), Run(s, acts);
      forall o | o in s.db.orders ensures o in t.db.orders && View(t.db, o) == View(s.db, o) {
        assert View(m.db, o) == View(s.db, o);
      }
    }
  }

  lemma {:induction false} EventsStay(s: State, acts: seq<Action>)
    ensures s.events <= Run(s, acts).events && s.publishCalls <= Run(s, acts).publishCalls
    decreases |acts|
  {
    if acts != [] {
      EventsStay(Next(s, acts[0]), acts[1..]);
    }
  }

  /** An OrderCreated event is true of its order from the moment it is sent, in every continuation:
      the order is committed, with the fields and the number of lines the event says. */
  lemma EventsStayTrue(acts: seq<Action>, more: seq<Action>, e: OrderEvent)
    requires e in Run(INIT, acts).events
    ensures var s := Run(INIT, acts); var t := Run(s, more);
      && e in t.events && e.orderId in t.db.orders
      && e.userId == t.db.orders[e.orderId].userId && e.cartId == t.db.orders[e.orderId].cartId
      && e.correlationId == t.db.orders[e.orderId].correlationId && e.lineCount == |View(t.db, e.orderId).lines|
      && e.orderId in s.db.orders && View(s.db, e.orderId) == View(t.db, e.orderId)
  {
    InitInv();
    RunKeepsInv(INIT, acts);
    var s := Run(INIT, acts);
    EventsStay(s, more);
    RunIsLater(s, more);
    assert RowsStay(s.db, Run(s, more).db);
  }

  /** A call that publishes names its committed order once, and adds to the topic as many events of
      that order as the broker took copies, and no other. */
  lemma EmitAddsItsEvents(acts: seq<Action>, w: WorkerId, copies: nat)
    requires var s := Run(INIT, acts); w in s.workers && s.workers[w].pc.Emitting?
    ensures var s := Run(INIT, acts); var o := s.workers[w].pc.result.id; var t := Run(INIT, acts + [Emit(w, copies)]);
      && o in s.db.orders && t.db == s.db && t.publishCalls == s.publishCalls + [o] && o !in s.publishCalls
      && |t.events| == |s.events| + copies && t.events[..|s.events|] == s.events
      && (forall i | |s.events| <= i < |t.events| ::
            && t.events[i].orderId == o && t.events[i].userId == s.db.orders[o].userId
            && t.events[i].cartId == s.db.orders[o].cartId && t.events[i].correlationId == s.db.orders[o].correlationId
            && t.events[i].lineCount == |View(s.db, o).lines|)
  {
    InitInv();
    RunKeepsInv(INIT, acts);
    var s := Run(INIT, acts);
    assert WorkerOk(s, s.workers[w]);
    RunAppend(INIT, acts, [Emit(w, copies)]);
    Run1(s, Emit(w, copies));
  }

  /* ---------- when keys determine correlation ids ---------- */

  ghost predicate From(s: State, calls: iset<Call>) {
    && (forall w | w in s.workers :: s.workers[w].call in calls)
    && (forall o | o in s.creator :: s.creator[o] in calls)
  }

  // Where each call stands with respect to the row of its key.
  ghost predicate KeyOk(db: Db, c: Call, pc: Pc) {
    && (Pending(pc).Some? ==> c.key !in db.processed)
    && !pc.SaveUpdate?
    && match pc
       case PreLoad(o) => c.key in db.processed && db.processed[c.key] == o
       case TxLoad(o) => c.key in db.processed && db.processed[c.key] == o
       case Committing(v, emit) => !emit ==> c.key in db.processed && db.processed[c.key] == v.id
       case Emitting(v) => c.key in db.processed && db.processed[c.key] == v.id
       case Returned(v) => c.key in db.processed && db.processed[c.key] == v.id
       case _ => true
  }

  ghost predicate KeyInv(s: State) {
    forall w | w in s.workers :: KeyOk(s.db, s.workers[w].call, s.workers[w].pc)
  }

  // The unique correlation id stands in for a lock on the key: a transaction that inserted its
  // order cannot meet a processed row for its key.
  lemma ProcessedMeansTaken(s: State, x: Worker, calls: iset<Call>)
    requires DbOk(s.db, s.creator) && From(s, calls) && KeysDetermine(calls)
    requires x.call in calls && WellFormed(x.call.body)
    ensures x.call.key in s.db.processed ==> CorrelationTaken(s.db, x.call.body.correlationId.value)
  {
    if x.call.key in s.db.processed {
      var o := s.db.processed[x.call.key];
      assert View(s.db, o) == FreshView(o, s.creator[o].body);
      assert Consistent(s.creator[o], x.call);
      assert s.db.orders[o].correlationId == x.call.body.correlationId.value;
    }
  }

  lemma ReadKeepsKeyOk(s: State, w: WorkerId, newId: OrderId)
    requires w in s.workers && WorkerOk(s, s.workers[w]) && KeyOk(s.db, s.workers[w].call, s.workers[w].pc)
    requires var pc := s.workers[w].pc; pc.PreCheck? || pc.PreLoad? || pc.TxCheck? || pc.TxLoad?
    ensures var s' := Resume(s, w, s.workers[w], newId);
            w in s'.workers && KeyOk(s.db, s'.workers[w].call, s'.workers[w].pc)
  {
    assert s.workers[w].tx == EMPTY;
    assert Visible(s.db, EMPTY) == s.db;
  }

  lemma InsertKeepsKeyOk(s: State, w: WorkerId, newId: OrderId, calls: iset<Call>)
    requires DbOk(s.db, s.creator) && From(s, calls) && KeysDetermine(calls)
    requires w in s.workers && s.workers[w].pc.InsertOrder? && KeyOk(s.db, s.workers[w].call, s.workers[w].pc)
    ensures var s' := DoInsertOrder(s, w, s.workers[w], newId);
            w in s'.workers && KeyOk(s.db, s'.workers[w].call, s'.workers[w].pc)
  {
    var x := s.workers[w];
    if WellFormed(x.call.body) && !CorrelationTaken(s.db, x.call.body.correlationId.value) {
      ProcessedMeansTaken(s, x, calls);
    }
  }

  lemma WriteKeepsKeyOk(s: State, w: WorkerId, newId: OrderId)
    requires w in s.workers && WorkerOk(s, s.workers[w]) && KeyOk(s.db, s.workers[w].call, s.workers[w].pc)
    requires var pc := s.workers[w].pc; pc.InsertLines? || pc.SaveSelect? || pc.SaveInsert? || pc.Reload?
    ensures var s' := Resume(s, w, s.workers[w], newId);
            w in s'.workers && KeyOk(s.db, s'.workers[w].call, s'.workers[w].pc)
  {}

  lemma ResumeKeepsKeyInv(s: State, w: WorkerId, newId: OrderId, calls: iset<Call>)
    requires DbOk(s.db, s.creator) && From(s, calls) && KeysDetermine(calls) && KeyInv(s)
    requires w in s.workers && WorkerOk(s, s.workers[w]) && !s.workers[w].pc.Committing?
    ensures KeyInv(Resume(s, w, s.workers[w], newId)) && From(Resume(s, w, s.workers[w], newId), calls)
  {
    var pc := s.workers[w].pc;
    assert KeyOk(s.db, s.workers[w].call, pc);
    ResumeIsLocal(s, w, newId);
    if pc.InsertOrder? {
      InsertKeepsKeyOk(s, w, newId, calls);
    } else if pc.PreCheck? || pc.PreLoad? || pc.TxCheck? || pc.TxLoad? {
      ReadKeepsKeyOk(s, w, newId);
    } else if pc.InsertLines? || pc.SaveSelect? || pc.SaveInsert? || pc.Reload? {
      WriteKeepsKeyOk(s, w, newId);
    }
  }

  lemma CommitKeepsKeyOk(s: State, w: WorkerId, pc: Pc, v: WorkerId, calls: iset<Call>)
    requires DbOk(s.db, s.creator) && From(s, calls) && KeysDetermine(calls)
    requires w in s.workers && WorkerOk(s, s.workers[w]) && KeyOk(s.db, s.workers[w].call, s.workers[w].pc)
    requires s.workers[w].pc.Committing? && s.workers[w].pc.emit
    requires v in s.workers && v != w && WorkerOk(s, s.workers[v]) && Compatible(s.workers[v], s.workers[w])
    requires KeyOk(s.db, s.workers[v].call, s.workers[v].pc)
    ensures KeyOk(DoCommit(s, w, s.workers[w], pc).db, s.workers[v].call, s.workers[v].pc)
  {
    var x, y := s.workers[w], s.workers[v];
    CreatingCommit(s, w, x, pc);
    if y.call.key == x.call.key {
      assert Consistent(x.call, y.call);
      assert Pending(y.pc).None?;
    }
  }

  lemma CommittedKeyOk(s: State, w: WorkerId, x: Worker, pc: Pc)
    requires DbOk(s.db, s.creator) && WorkerOk(s, x) && x.pc.Committing? && x.pc.emit
    requires pc == Aborted || pc == Emitting(x.pc.result)
    ensures KeyOk(DoCommit(s, w, x, pc).db, x.call, pc)
  {
    CreatingCommit(s, w, x, pc);
  }

  lemma CreatingCommitKeepsKeyInv(s: State, w: WorkerId, pc: Pc, calls: iset<Call>)
    requires DbOk(s.db, s.creator) && WorkersOk(s) && AllCompatible(s) && From(s, calls) && KeysDetermine(calls) && KeyInv(s)
    requires w in s.workers && s.workers[w].pc.Committing? && s.workers[w].pc.emit
    requires pc == Aborted || pc == Emitting(s.workers[w].pc.result)
    ensures KeyInv(DoCommit(s, w, s.workers[w], pc))
  {
    var x := s.workers[w];
    var s' := DoCommit(s, w, x, pc);
    assert WorkerOk(s, x);
    forall v | v in s'.workers ensures KeyOk(s'.db, s'.workers[v].call, s'.workers[v].pc) {
      assert WorkerOk(s, s.workers[v]) && KeyOk(s.db, s.workers[v].call, s.workers[v].pc);
      if v != w {
        assert Compatible(s.workers[v], x);
        CommitKeepsKeyOk(s, w, pc, v, calls);
      } else {
        CommittedKeyOk(s, w, x, pc);
      }
    }
  }

  lemma CommitKeepsFrom(s: State, w: WorkerId, pc: Pc, calls: iset<Call>)
    requires From(s, calls) && w in s.workers
    ensures From(DoCommit(s, w, s.workers[w], pc), calls)
  {}

  lemma EmptyCommitKeepsKeyInv(s: State, w: WorkerId, pc: Pc)
    requires KeyInv(s) && w in s.workers && WorkerOk(s, s.workers[w]) && s.workers[w].pc.Committing? && !s.workers[w].pc.emit
    requires pc == Aborted || pc == Returned(s.workers[w].pc.result)
    ensures KeyInv(DoCommit(s, w, s.workers[w], pc))
  {
    assert KeyOk(s.db, s.workers[w].call, s.workers[w].pc);
    EmptyCommit(s, w, s.workers[w], pc);
  }

  lemma CommitKeepsKeyInv(s: State, w: WorkerId, lost: bool, calls: iset<Call>)
    requires DbOk(s.db, s.creator) && WorkersOk(s) && AllCompatible(s)
    requires From(s, calls) && KeysDetermine(calls) && KeyInv(s)
    requires w in s.workers && s.workers[w].pc.Committing?
    ensures var x := s.workers[w];
            var s' := DoCommit(s, w, x,
              if lost then Aborted else if x.pc.emit then Emitting(x.pc.result) else Returned(x.pc.result));
            KeyInv(s') && From(s', calls)
  {
    var x := s.workers[w];
    var pc := if lost then Aborted else if x.pc.emit then Emitting(x.pc.result) else Returned(x.pc.result);
    CommitKeepsFrom(s, w, pc, calls);
    if x.pc.emit {
      CreatingCommitKeepsKeyInv(s, w, pc, calls);
    } else {
      assert WorkerOk(s, x);
      EmptyCommitKeepsKeyInv(s, w, pc);
    }
  }

  // A step that commits nothing and leaves w aborted, returned or new.
  lemma SetKeepsKeyInv(s: State, w: WorkerId, y: Worker, calls: iset<Call>)
    requires From(s, calls) && KeyInv(s) && y.call in calls && KeyOk(s.db, y.call, y.pc)
    ensures KeyInv(Set(s, w, y)) && From(Set(s, w, y), calls)
  {}

  // The actions that neither read nor commit.
  lemma OtherKeepsKeyInv(s: State, a: Action, calls: iset<Call>)
    requires From(s, calls) && KeyInv(s) && (a.Start? ==> a.call in calls)
    requires a.Start? || a.Emit? || a.Fail?
    ensures KeyInv(Next(s, a)) && From(Next(s, a), calls)
  {
    if a.Start? {
      SetKeepsKeyInv(s, a.w, Worker(a.call, EMPTY, PreCheck), calls);
    } else if a.w in s.workers {
      var x := s.workers[a.w];
      assert KeyOk(s.db, x.call, x.pc);
      if a.Fail? {
        SetKeepsKeyInv(s, a.w, Abort(x), calls);
      } else if x.pc.Emitting? {
        SetKeepsKeyInv(s, a.w, x.(pc := Returned(x.pc.result)), calls);
      }
    }
  }

  lemma NextKeepsKeyInv(s: State, a: Action, calls: iset<Call>)
    requires Inv(s) && From(s, calls) && KeysDetermine(calls) && KeyInv(s)
    requires a.Start? ==> a.call in calls
    ensures KeyInv(Next(s, a)) && From(Next(s, a), calls)
  {
    if a.Start? || a.Emit? || a.Fail? {
      OtherKeepsKeyInv(s, a, calls);
    } else if a.w in s.workers {
      assert WorkerOk(s, s.workers[a.w]);
      if s.workers[a.w].pc.Committing? {
        CommitKeepsKeyInv(s, a.w, a.LoseCommit?, calls);
      } else if a.Advance? {
        ResumeKeepsKeyInv(s, a.w, a.newId, calls);
      }
    }
  }

  // Whatever their keys, the calls at work are those that were started.
  lemma NextKeepsFrom(s: State, a: Action, calls: iset<Call>)
    requires From(s, calls) && (a.Start? ==> a.call in calls)
    ensures From(Next(s, a), calls)
  {
    if !a.Start? && a.w in s.workers {
      var pc := s.workers[a.w].pc;
      if pc.Committing? && (a.Advance? || a.LoseCommit?) {
        CommitKeepsFrom(s, a.w,
          if a.LoseCommit? then Aborted else if pc.emit then Emitting(pc.result) else Returned(pc.result), calls);
      } else if a.Advance? {
        ResumeIsLocal(s, a.w, a.newId);
      }
    }
  }

  lemma {:induction false} RunKeepsKeyInv(s: State, acts: seq<Action>, calls: iset<Call>)
    requires Inv(s) && From(s, calls) && KeysDetermine(calls) && KeyInv(s) && ActionsFrom(acts, calls)
    ensures KeyInv(Run(s, acts)) && From(Run(s, acts), calls) && Inv(Run(s, acts))
    decreases |acts|
  {
    if acts != [] {
      NextKeepsKeyInv(s, acts[0], calls);
      NextKeepsInv(s, acts[0]);
      assert forall i | 0 <= i < |acts[1..]| :: acts[1..][i] == acts[i + 1];
      RunKeepsKeyInv(Next(s, acts[0]), acts[1..], calls);
    }
  }

  /** With keys that determine correlation ids, each processed row points at the one order with its
      key's correlation id, rows are never overwritten, and the second save never meets a row. */
  lemma ProcessedRowsAreRight(calls: iset<Call>, acts: seq<Action>, c: Call)
    requires KeysDetermine(calls) && ActionsFrom(acts, calls) && c in calls && WellFormed(c.body)
    requires c.key in Run(INIT, acts).db.processed
    ensures var s := Run(INIT, acts);
      && s.db.processed[c.key] in s.db.orders
      && (forall o | o in s.db.orders ::
            s.db.orders[o].correlationId == c.body.correlationId.value <==> o == s.db.processed[c.key])
      && (forall w | w in s.workers :: !s.workers[w].pc.SaveUpdate?)
  {
    InitInv();
    RunKeepsKeyInv(INIT, acts, calls);
    var s := Run(INIT, acts);
    var o := s.db.processed[c.key];
    assert View(s.db, o) == FreshView(o, s.creator[o].body);
    assert Consistent(s.creator[o], c);
    forall w | w in s.workers ensures !s.workers[w].pc.SaveUpdate? {
      assert KeyOk(s.db, s.workers[w].call, s.workers[w].pc);
    }
  }

  /** A message whose correlation id was used under another key can never be answered: in no run
      does a processed row appear for its key, so its call never returns and it is retried for ever. */
  lemma SecondKeyIsNeverAnswered(calls: iset<Call>, acts: seq<Action>, c: Call, o: OrderId)
    requires KeysDetermine(calls) && ActionsFrom(acts, calls) && c in calls && WellFormed(c.body)
    requires var s := Run(INIT, acts);
             o in s.db.orders && o in s.creator && s.creator[o].key != c.key
             && s.db.orders[o].correlationId == c.body.correlationId.value
    ensures c.key !in Run(INIT, acts).db.processed
    ensures forall w | w in Run(INIT, acts).workers && Run(INIT, acts).workers[w].call == c ::
              !Run(INIT, acts).workers[w].pc.Returned?
  {
    InitInv();
    RunKeepsInv(INIT, acts);
    var s := Run(INIT, acts);
    if c.key in s.db.processed {
      ProcessedRowsAreRight(calls, acts, c);
    }
    forall w | w in s.workers && s.workers[w].call == c ensures !s.workers[w].pc.Returned? {
      assert WorkerOk(s, s.workers[w]);
    }
  }

  lemma KeyInvAgrees(s: State)
    requires Inv(s) && KeyInv(s)
    ensures ReturnsAgree(s)
  {
    forall w, w' | w in s.workers && w' in s.workers && s.workers[w].pc.Returned? && s.workers[w'].pc.Returned?
                   && s.workers[w].call.key == s.workers[w'].call.key
      ensures s.workers[w].pc.result == s.workers[w'].pc.result
    {
      assert WorkerOk(s, s.workers[w]) && WorkerOk(s, s.workers[w']);
      assert KeyOk(s.db, s.workers[w].call, s.workers[w].pc) && KeyOk(s.db, s.workers[w'].call, s.workers[w'].pc);
    }
  }

  lemma KeyedReturnsAgree(calls: iset<Call>, acts: seq<Action>)
    requires KeysDetermine(calls) && ActionsFrom(acts, calls)
    ensures ReturnsAgree(Run(INIT, acts))
  {
    InitInv();
    RunKeepsKeyInv(INIT, acts, calls);
    KeyInvAgrees(Run(INIT, acts));
  }

  /* ---------- the run that breaks when they do not ---------- */

  lemma {:induction false} RunAppend(s: State, a: seq<Action>, b: seq<Action>)
    ensures Run(s, a + b) == Run(Run(s, a), b)
    decreases |a|
  {
    if a == [] {
      assert a + b == b;
    } else {
      assert (a + b)[1..] == a[1..] + b;
      RunAppend(Next(s, a[0]), a[1..], b);
    }
  }

  lemma Run1(s: State, a: Action)
    ensures Run(s, [a]) == Next(s, a)
  {}

  lemma Run2(s: State, a: Action, b: Action)
    ensures Run(s, [a, b]) == Next(Next(s, a), b)
  {
    assert [a, b] == [a] + [b];
    RunAppend(s, [a], [b]);
  }

  function Saved(x: Worker): Worker
    requires x.pc.SaveSelect? || x.pc.SaveInsert? || x.pc.SaveUpdate?
  {
    Worker(x.call, x.tx.(processed := map[x.call.key := x.pc.id]), Reload(x.pc.id))
  }

  // The write, whichever of the two the select chose.
  lemma SaveWrites(s: State, w: WorkerId)
    requires w in s.workers && !KeyHeld(s, w, s.workers[w].call.key)
    requires s.workers[w].tx.processed == map[]
    requires if s.workers[w].call.key in s.db.processed then s.workers[w].pc.SaveUpdate? else s.workers[w].pc.SaveInsert?
    ensures Next(s, Advance(w, 0)) == Set(s, w, Saved(s.workers[w]))
  {
    var x := s.workers[w];
    assert x.tx.processed[x.call.key := x.pc.id] == map[x.call.key := x.pc.id];
  }

  lemma SaveTwoSteps(s: State, w: WorkerId)
    requires w in s.workers && s.workers[w].pc.SaveSelect? && s.workers[w].tx.processed == map[]
    requires !KeyHeld(s, w, s.workers[w].call.key)
    ensures Next(Next(s, Advance(w, 0)), Advance(w, 0)) == Set(s, w, Saved(s.workers[w]))
  {
    var x := s.workers[w];
    var pc := if x.call.key in s.db.processed then SaveUpdate(x.pc.id) else SaveInsert(x.pc.id);
    var s1 := Set(s, w, x.(pc := pc));
    assert Next(s, Advance(w, 0)) == s1;
    assert !KeyHeld(s1, w, x.call.key);
    SaveWrites(s1, w);
  }

  lemma SavedOk(s: State, w: WorkerId, t: State)
    requires w in s.workers && WorkerOk(s, s.workers[w]) && s.workers[w].pc.SaveSelect?
    requires t == Set(s, w, Saved(s.workers[w]))
    ensures WorkerOk(t, Saved(s.workers[w]))
  {}

  // The save of a transaction that inserted order o, when no other transaction holds its key.
  lemma SaveRuns(s: State, w: WorkerId)
    requires w in s.workers && WorkerOk(s, s.workers[w]) && s.workers[w].pc.SaveSelect?
    requires !KeyHeld(s, w, s.workers[w].call.key)
    ensures var y := Saved(s.workers[w]);
            Run(s, [Advance(w, 0), Advance(w, 0)]) == Set(s, w, y) && WorkerOk(Set(s, w, y), y)
  {
    SavedOk(s, w, Set(s, w, Saved(s.workers[w])));
    SaveTwoSteps(s, w);
    Run2(s, Advance(w, 0), Advance(w, 0));
  }

  lemma ReloadReads(s: State, w: WorkerId, v: OrderView)
    requires LinesOwned(s.db) && w in s.workers && WorkerOk(s, s.workers[w]) && s.workers[w].pc.Reload?
    requires WellFormed(s.workers[w].call.body) && v == FreshView(s.workers[w].pc.id, s.workers[w].call.body)
    ensures Next(s, Advance(w, 0)) == Set(s, w, s.workers[w].(pc := Committing(v, true)))
  {
    PendingView(s.db, s.workers[w], s.workers[w].pc.id);
  }

  lemma CommitPublishes(s: State, w: WorkerId, v: OrderView)
    requires w in s.workers && s.workers[w].pc == Committing(v, true)
    ensures var x := s.workers[w]; var t := Next(s, Advance(w, 0));
            t.workers == s.workers[w := Worker(x.call, EMPTY, Emitting(v))] && t.db == Visible(s.db, x.tx)
  {}

  lemma CommitRuns(s: State, w: WorkerId)
    requires LinesOwned(s.db) && w in s.workers && WorkerOk(s, s.workers[w]) && s.workers[w].pc.Reload?
    ensures var t := Run(s, [Advance(w, 0), Advance(w, 0)]); var x := s.workers[w];
      && WellFormed(x.call.body)
      && t.workers == s.workers[w := Worker(x.call, EMPTY, Emitting(FreshView(x.pc.id, x.call.body)))]
      && t.db == Visible(s.db, x.tx)
  {
    var x := s.workers[w];
    var v := FreshView(x.pc.id, x.call.body);
    var s1 := Set(s, w, x.(pc := Committing(v, true)));
    ReloadReads(s, w, v);
    CommitPublishes(s1, w, v);
    Run2(s, Advance(w, 0), Advance(w, 0));
    assert s1.workers[w := Worker(x.call, EMPTY, Emitting(v))] == s.workers[w := Worker(x.call, EMPTY, Emitting(v))];
  }

  // From the select of its save to its return: save, reload, commit and publish.
  function Finish(w: WorkerId): seq<Action> {
    [Advance(w, 0), Advance(w, 0)] + [Advance(w, 0), Advance(w, 0)] + [Emit(w, 1)]
  }

  lemma EmitReturns(s: State, w: WorkerId)
    requires w in s.workers && s.workers[w].pc.Emitting?
    ensures var x := s.workers[w]; var t := Run(s, [Emit(w, 1)]);
            t.db == s.db && t.workers == s.workers[w := x.(pc := Returned(x.pc.result))]
  {}

  lemma FinishReturns(s: State, w: WorkerId)
    requires LinesOwned(s.db) && s.creator.Keys == s.db.orders.Keys
    requires w in s.workers && WorkerOk(s, s.workers[w]) && s.workers[w].pc.SaveSelect?
    requires !KeyHeld(s, w, s.workers[w].call.key)
    ensures var t := Run(s, Finish(w)); var x := s.workers[w];
      && WellFormed(x.call.body)
      && t.workers == s.workers[w := Worker(x.call, EMPTY, Returned(FreshView(x.pc.id, x.call.body)))]
      && t.db == Visible(s.db, x.tx.(processed := map[x.call.key := x.pc.id]))
  {
    var two := [Advance(w, 0), Advance(w, 0)];
    SaveThenCommit(s, w);
    EmitReturns(Run(s, two + two), w);
    RunAppend(s, two + two, [Emit(w, 1)]);
  }

  lemma SaveThenCommit(s: State, w: WorkerId)
    requires LinesOwned(s.db) && w in s.workers && WorkerOk(s, s.workers[w]) && s.workers[w].pc.SaveSelect?
    requires !KeyHeld(s, w, s.workers[w].call.key)
    ensures var t := Run(s, [Advance(w, 0), Advance(w, 0)] + [Advance(w, 0), Advance(w, 0)]); var x := s.workers[w];
      && WellFormed(x.call.body)
      && t.workers == s.workers[w := Worker(x.call, EMPTY, Emitting(FreshView(x.pc.id, x.call.body)))]
      && t.db == Visible(s.db, x.tx.(processed := map[x.call.key := x.pc.id]))
  {
    var two, y := [Advance(w, 0), Advance(w, 0)], Saved(s.workers[w]);
    SaveRuns(s, w);
    CommitRuns(Set(s, w, y), w);
    RunAppend(s, two, two);
  }

  // A new call up to the select of its save: it waits for nobody if its correlation id is free.
  function Begin(w: WorkerId, c: Call, o: OrderId): seq<Action> {
    [Start(w, c), Advance(w, 0)] + [Advance(w, 0), Advance(w, o)] + [Advance(w, 0)]
  }

  lemma BeginInsertsOrder(s: State, w: WorkerId, c: Call, o: OrderId)
    requires w !in s.workers && WellFormed(c.body) && c.key !in s.db.processed
    requires !CorrelationTaken(s.db, c.body.correlationId.value) && !CorrelationHeld(s, w, c.body.correlationId.value)
    requires !IdUsed(s, o)
    ensures Run(Set(s, w, Worker(c, EMPTY, TxCheck)), [Advance(w, 0), Advance(w, o)]) ==
            Set(s, w, Worker(c, Db(map[o := RowOf(c.body)], [], map[]), InsertLines(o)))
  {
    var s2 := Set(s, w, Worker(c, EMPTY, TxCheck));
    assert Visible(s.db, EMPTY) == s.db;
    var s3 := Set(s, w, Worker(c, EMPTY, InsertOrder));
    assert Next(s2, Advance(w, 0)) == s3;
    assert !CorrelationHeld(s3, w, c.body.correlationId.value);
    assert !IdUsed(s3, o);
    Run2(s2, Advance(w, 0), Advance(w, o));
  }

  lemma BeginOpens(s: State, w: WorkerId, c: Call)
    requires w !in s.workers && DimensionsOk(c.body) && c.key !in s.db.processed
    ensures Run(s, [Start(w, c), Advance(w, 0)]) == Set(s, w, Worker(c, EMPTY, TxCheck))
  {
    Run2(s, Start(w, c), Advance(w, 0));
    var s1 := Set(s, w, Worker(c, EMPTY, PreCheck));
    assert Next(s, Start(w, c)) == s1;
    assert Next(s1, Advance(w, 0)) == Set(s1, w, Worker(c, EMPTY, TxCheck));
  }

  lemma BeginInsertsLines(s: State, w: WorkerId, c: Call, o: OrderId)
    requires WellFormed(c.body)
    ensures Run(Set(s, w, Worker(c, Db(map[o := RowOf(c.body)], [], map[]), InsertLines(o))), [Advance(w, 0)]) ==
            Set(s, w, Worker(c, Db(map[o := RowOf(c.body)], LinesFor(o, c.body.payload.value), map[]), SaveSelect(o)))
  {
    var l := LinesFor(o, c.body.payload.value);
    assert [] + l == l;
    Run1(Set(s, w, Worker(c, Db(map[o := RowOf(c.body)], [], map[]), InsertLines(o))), Advance(w, 0));
  }

  lemma BeginInserts(s: State, w: WorkerId, c: Call, o: OrderId)
    requires w !in s.workers && WellFormed(c.body) && c.key !in s.db.processed
    requires !CorrelationTaken(s.db, c.body.correlationId.value) && !CorrelationHeld(s, w, c.body.correlationId.value)
    requires !IdUsed(s, o)
    ensures Run(s, Begin(w, c, o)) ==
            Set(s, w, Worker(c, Db(map[o := RowOf(c.body)], LinesFor(o, c.body.payload.value), map[]), SaveSelect(o)))
  {
    BeginOpens(s, w, c);
    BeginInsertsOrder(s, w, c, o);
    BeginInsertsLines(s, w, c, o);
    RunAppend(s, [Start(w, c), Advance(w, 0)], [Advance(w, 0), Advance(w, o)]);
    RunAppend(s, [Start(w, c), Advance(w, 0)] + [Advance(w, 0), Advance(w, o)], [Advance(w, 0)]);
  }

  function BadRun(a: Call, b: Call): seq<Action> {
    Begin(0, a, 0) + Begin(1, b, 1) + Finish(0) + Finish(1)
  }

  lemma BothInserted(a: Call, b: Call)
    requires a.key == b.key && WellFormed(a.body) && WellFormed(b.body) && a.body.correlationId != b.body.correlationId
    ensures var s := Run(INIT, Begin(0, a, 0) + Begin(1, b, 1));
      && s.workers.Keys == {0, 1}
      && s.workers[0].call == a && s.workers[0].pc == SaveSelect(0) && s.workers[0].tx.processed == map[]
      && s.workers[1].call == b && s.workers[1].pc == SaveSelect(1) && s.workers[1].tx.processed == map[]
  {
    BeginInserts(INIT, 0, a, 0);
    var s1 := Run(INIT, Begin(0, a, 0));
    assert s1.workers[0].tx.orders == map[0 := RowOf(a.body)];
    BeginInserts(s1, 1, b, 1);
    RunAppend(INIT, Begin(0, a, 0), Begin(1, b, 1));
  }

  lemma AtSave(acts: seq<Action>, w: WorkerId)
    requires w in Run(INIT, acts).workers
    ensures var s := Run(INIT, acts);
            LinesOwned(s.db) && s.creator.Keys == s.db.orders.Keys && WorkerOk(s, s.workers[w])
  {
    InitInv();
    RunKeepsInv(INIT, acts);
  }

  // Two messages with one key and two correlation ids, run side by side: two orders are created,
  // the processed row is overwritten, and the two calls return different orders.
  lemma BadRunDisagrees(a: Call, b: Call)
    requires a.key == b.key && WellFormed(a.body) && WellFormed(b.body) && a.body.correlationId != b.body.correlationId
    ensures !ReturnsAgree(Run(INIT, BadRun(a, b)))
  {
    BothInserted(a, b);
    var begun := Begin(0, a, 0) + Begin(1, b, 1);
    var s2 := Run(INIT, begun);
    AtSave(begun, 0);
    FinishReturns(s2, 0);
    RunAppend(INIT, begun, Finish(0));
    AtSave(begun + Finish(0), 1);
    FinishReturns(Run(s2, Finish(0)), 1);
    RunAppend(INIT, begun + Finish(0), Finish(1));
    var t := Run(INIT, BadRun(a, b));
    assert t.workers[0].pc.result.id == 0 && t.workers[1].pc.result.id == 1;
  }

  /** All the calls made with one key agree, in every run over `calls`, exactly when the keys of
      the well-formed messages determine their correlation ids. */
  lemma ReturnsAgreeExactlyWhen(calls: iset<Call>)
    ensures (forall acts | ActionsFrom(acts, calls) :: ReturnsAgree(Run(INIT, acts))) <==> KeysDetermine(calls)
  {
    if KeysDetermine(calls) {
      forall acts | ActionsFrom(acts, calls) ensures ReturnsAgree(Run(INIT, acts)) {
        KeyedReturnsAgree(calls, acts);
      }
    } else {
      var a, b :| a in calls && b in calls && !Consistent(a, b);
      assert ActionsFrom(BadRun(a, b), calls);
      BadRunDisagrees(a, b);
    }
  }
}
