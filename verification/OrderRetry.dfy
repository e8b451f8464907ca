/**
 * When a checkout message can still be answered: exactly when its key has a row, or its correlation
 * id is free. A correlation id that was used under another key blocks the message for ever.
 */
module OrderRetry {
  import opened Prelude
  import opened OrderMachine
  import opened OrderSafety
  import opened OrderService

  /* ---------- the key of every order has a row ---------- */

  ghost predicate KeysRecorded(s: State) {
    forall o | o in s.creator :: s.creator[o].key in s.db.processed
  }

  lemma CommitKeepsRecorded(s: State, w: WorkerId, pc: Pc)
    requires DbOk(s.db, s.creator) && KeysRecorded(s)
    requires w in s.workers && WorkerOk(s, s.workers[w]) && s.workers[w].pc.Committing?
    ensures KeysRecorded(DoCommit(s, w, s.workers[w], pc))
  {
    var x := s.workers[w];
    if x.pc.emit {
      CreatingCommit(s, w, x, pc);
    } else {
      EmptyCommit(s, w, x, pc);
    }
  }

  lemma NextKeepsRecorded(s: State, a: Action)
    requires Inv(s) && KeysRecorded(s)
    ensures KeysRecorded(Next(s, a))
  {
    if !a.Start? && a.w in s.workers {
      assert WorkerOk(s, s.workers[a.w]);
      var pc := s.workers[a.w].pc;
      if pc.Committing? && (a.Advance? || a.LoseCommit?) {
        CommitKeepsRecorded(s, a.w,
          if a.LoseCommit? then Aborted else if pc.emit then Emitting(pc.result) else Returned(pc.result));
      } else if a.Advance? {
        ResumeIsLocal(s, a.w, a.newId);
      }
    }
  }

  lemma {:induction false} RunKeepsRecorded(s: State, acts: seq<Action>)
    requires Inv(s) && KeysRecorded(s)
    ensures KeysRecorded(Run(s, acts))
    decreases |acts|
  {
    if acts != [] {
      NextKeepsRecorded(s, acts[0]);
      NextKeepsInv(s, acts[0]);
      RunKeepsRecorded(Next(s, acts[0]), acts[1..]);
    }
  }

  /* ---------- every open call fails ---------- */

  function FailEach(ids: seq<WorkerId>): seq<Action> {
    if ids == [] then [] else [Fail(ids[0])] + FailEach(ids[1..])
  }

  ghost function Listed(ids: set<WorkerId>): (r: seq<WorkerId>)
    ensures forall w :: w in r <==> w in ids
    decreases ids
  {
    if ids == {} then []
    else
      var w :| w in ids;
      assert forall v | v in ids :: v == w || v in ids - {w};
      [w] + Listed(ids - {w})
  }

  // Tables as they were; the calls named are closed, and no other has changed.
  ghost predicate Closed(s: State, t: State, ids: seq<WorkerId>) {
    && t.db == s.db && t.creator == s.creator && t.workers.Keys == s.workers.Keys
    && (forall w | w in ids && w in t.workers :: t.workers[w].tx == EMPTY)
    && (forall w | w in s.workers && s.workers[w].tx == EMPTY :: t.workers[w].tx == EMPTY)
  }

  lemma FailCloses(s: State, w: WorkerId)
    requires w in s.workers ==> WorkerOk(s, s.workers[w])
    ensures Closed(s, Next(s, Fail(w)), [w])
  {}

  lemma {:induction false} FailEachCloses(s: State, ids: seq<WorkerId>)
    requires Inv(s)
    ensures Closed(s, Run(s, FailEach(ids)), ids)
    decreases |ids|
  {
    if ids != [] {
      var w := ids[0];
      var s1 := Next(s, Fail(w));
      FailCloses(s, w);
      NextKeepsInv(s, Fail(w));
      FailEachCloses(s1, ids[1..]);
      assert FailEach(ids)[1..] == FailEach(ids[1..]);
      assert w in [w] && forall v | v in ids :: v == w || v in ids[1..];
    }
  }

  lemma {:induction false} FailEachStartsNothing(ids: seq<WorkerId>, calls: iset<Call>)
    ensures ActionsFrom(FailEach(ids), calls)
  {
    if ids != [] {
      FailEachStartsNothing(ids[1..], calls);
      var acts := FailEach(ids);
      forall i | 0 <= i < |acts| && acts[i].Start? ensures acts[i].call in calls {
        assert acts[i] == FailEach(ids[1..])[i - 1];
      }
    }
  }

  /* ---------- which calls can return ---------- */

  ghost predicate Returns(t: State, w: WorkerId, c: Call) {
    w in t.workers && t.workers[w].call == c && t.workers[w].pc.Returned?
  }

  // Some run that goes on from s over these calls returns a call c.
  ghost predicate CanReturn(s: State, calls: iset<Call>, c: Call) {
    exists more, w {:trigger Returns(Run(s, more), w, c)} :: ActionsFrom(more, calls) && Returns(Run(s, more), w, c)
  }

  lemma ActionsFromBoth(a: seq<Action>, b: seq<Action>, calls: iset<Call>)
    requires ActionsFrom(a, calls) && ActionsFrom(b, calls)
    ensures ActionsFrom(a + b, calls)
  {}

  lemma ScriptStartsOnly(db: Db, w: WorkerId, c: Call, newId: OrderId, calls: iset<Call>)
    requires c in calls
    ensures ActionsFrom(SoloScript(db, w, c, newId), calls)
  {}

  // A key with a row is answered by the pre-check, whatever else is under way.
  lemma AnsweredReturns(s: State, calls: iset<Call>, c: Call)
    requires Inv(s) && c in calls && c.key in s.db.processed
    ensures CanReturn(s, calls, c)
  {
    var w := Above(s.workers.Keys);
    var more := SoloScript(s.db, w, c, 0);
    HitIsARun(s, w, c, 0);
    ScriptStartsOnly(s.db, w, c, 0, calls);
    assert Returns(Run(s, more), w, c);
  }

  // With its correlation id free, a call returns once every open transaction has gone.
  lemma FreeReturns(acts: seq<Action>, calls: iset<Call>, c: Call)
    requires var s := Run(INIT, acts);
             c.key !in s.db.processed && WellFormed(c.body) && !CorrelationTaken(s.db, c.body.correlationId.value)
    requires c in calls
    ensures CanReturn(Run(INIT, acts), calls, c)
  {
    var s := Run(INIT, acts);
    InitInv();
    RunKeepsInv(INIT, acts);
    var ids := Listed(s.workers.Keys);
    var fails := FailEach(ids);
    FailEachCloses(s, ids);
    RunAppend(INIT, acts, fails);
    var t := Run(s, fails);
    var w, newId := Above(t.workers.Keys), Above(t.db.orders.Keys);
    var script := SoloScript(t.db, w, c, newId);
    SoloIsARun(acts + fails, w, c, newId);
    RunAppend(INIT, acts + fails, script);
    RunAppend(s, fails, script);
    FailEachStartsNothing(ids, calls);
    ScriptStartsOnly(t.db, w, c, newId, calls);
    ActionsFromBoth(fails, script, calls);
    assert Returns(Run(s, fails + script), w, c);
  }

  // The correlation id belongs to an order made for another key.
  lemma TakenNeverReturns(calls: iset<Call>, acts: seq<Action>, c: Call, more: seq<Action>, w: WorkerId)
    requires KeysDetermine(calls) && ActionsFrom(acts, calls) && ActionsFrom(more, calls)
    requires c in calls && WellFormed(c.body)
    requires var s := Run(INIT, acts);
             c.key !in s.db.processed && CorrelationTaken(s.db, c.body.correlationId.value)
    ensures !Returns(Run(Run(INIT, acts), more), w, c)
  {
    var s := Run(INIT, acts);
    InitInv();
    RunKeepsInv(INIT, acts);
    RunKeepsRecorded(INIT, acts);
    var o :| o in s.db.orders && s.db.orders[o].correlationId == c.body.correlationId.value;
    assert s.creator[o].key != c.key;
    RunAppend(INIT, acts, more);
    ActionsFromBoth(acts, more, calls);
    RunIsLater(s, more);
    var t := Run(s, more);
    assert View(t.db, o) == View(s.db, o);
    SecondKeyIsNeverAnswered(calls, acts + more, c, o);
  }

  /** Over calls whose keys determine their correlation ids, a well-formed call can still return,
      at any moment of any run, exactly when its key has a row already or no order has its
      correlation id. */
  lemma CanReturnExactlyWhen(calls: iset<Call>, acts: seq<Action>, c: Call)
    requires KeysDetermine(calls) && ActionsFrom(acts, calls) && c in calls && WellFormed(c.body)
    ensures var s := Run(INIT, acts);
      CanReturn(s, calls, c)
      <==> c.key in s.db.processed || !CorrelationTaken(s.db, c.body.correlationId.value)
  {
    var s := Run(INIT, acts);
    InitInv();
    RunKeepsInv(INIT, acts);
    if c.key in s.db.processed {
      AnsweredReturns(s, calls, c);
    } else if !CorrelationTaken(s.db, c.body.correlationId.value) {
      FreeReturns(acts, calls, c);
    } else {
      forall more, w | ActionsFrom(more, calls) ensures !Returns(Run(s, more), w, c) {
        TakenNeverReturns(calls, acts, c, more, w);
      }
    }
  }

  // The tables after a alone has been answered.
  lemma AfterFirst(a: Call, acts: seq<Action>)
    requires WellFormed(a.body) && acts == SoloScript(EMPTY, 0, a, 0)
    ensures var s := Run(INIT, acts);
      && s.db.orders == map[0 := RowOf(a.body)] && s.db.processed == map[a.key := 0]
      && 0 in s.creator && s.creator[0].key == a.key
  {
    assert Run(INIT, []) == INIT && [] + acts == acts;
    SoloIsARun([], 0, a, 0);
    EveryRun(acts);
    assert a.key in Run(INIT, acts).db.processed;
  }

  lemma TwoKeysDetermine(a: Call, b: Call)
    requires a.key != b.key
    ensures KeysDetermine(iset{a, b})
  {
    forall x, y | x in iset{a, b} && y in iset{a, b} ensures Consistent(x, y) {}
  }

  /** Such a run: message a is answered, and message b with a's correlation id under another key
      never will be. */
  lemma SecondKeyIsBlocked(a: Call, b: Call)
    requires WellFormed(a.body) && WellFormed(b.body) && a.key != b.key && a.body.correlationId == b.body.correlationId
    ensures var calls := iset{a, b}; var acts := SoloScript(EMPTY, 0, a, 0); var s := Run(INIT, acts);
      && KeysDetermine(calls) && ActionsFrom(acts, calls)
      && 0 in s.db.orders && 0 in s.creator && s.creator[0].key != b.key
      && s.db.orders[0].correlationId == b.body.correlationId.value
      && !CanReturn(s, calls, b)
  {
    var calls := iset{a, b};
    var acts := SoloScript(EMPTY, 0, a, 0);
    TwoKeysDetermine(a, b);
    ScriptStartsOnly(EMPTY, 0, a, 0, calls);
    AfterFirst(a, acts);
    CanReturnExactlyWhen(calls, acts, b);
  }
}
