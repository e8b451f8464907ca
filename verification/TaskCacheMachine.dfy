/**
 * task-svc under concurrency: reads through the cache, updates with a row version, deletes and
 * inserts, each split at its awaits and freely interleaved. A cache call may fail, an entry may
 * be evicted, and a request may be cancelled at any await.
 */
module TaskCacheMachine {
  import opened Prelude
  import D = Delivery

  type Id = nat
  type OpId = nat
  type Task = D.Task

  datatype Row = Row(task: Task, xmin: nat)

  /* ---------- history ---------- */

  // What became of the cache removal that follows a committed update or delete.
  datatype Removal = NotNeeded | Pending(w: OpId) | Removed(at: nat) | Missed

  // One committed change of a row. `basedOn` is the version an update had read.
  datatype Change = Change(value: Option<Task>, basedOn: Option<nat>, xmin: nat, removal: Removal)

  // A cached value, with the version of the row it was read from and the time it was put.
  datatype Entry = Entry(task: Task, version: nat, put: nat)

  /* ---------- operations ---------- */

  datatype Request = Request(title: D.Title, description: Option<D.Description>, status: D.Status,
                             priority: D.Priority, dueDate: Option<int>)

  datatype Op =
    | GetOp(id: Id)
    | UpdateOp(id: Id, request: Request)
    | DeleteOp(id: Id)
    | InsertOp(id: Id, task: Task)       // create, or the idempotent insert of a delivery task

  datatype Pc =
    | CacheRead
    | DbRead
    | CacheSet(task: Task, version: nat)
    | UpdateRead
    | Save(read: Task, xmin: nat, version: nat)
    | Exec                                           // DELETE, or INSERT
    | Remove(made: Option<nat>, result: Option<Task>)  // made: the version this operation committed
    | Done(result: Option<Task>)
    | Threw

  datatype Running = Running(op: Op, pc: Pc)

  /** `history` and the versions in cache entries are not stored anywhere; `now` counts steps and
      stands for the database's transaction ids. */
  datatype State = State(table: map<Id, Row>, cache: map<Id, Entry>, history: map<Id, seq<Change>>,
                         ops: map<OpId, Running>, now: nat)

  const INIT := State(map[], map[], map[], map[], 0)

  function Hist(s: State, id: Id): seq<Change> {
    if id in s.history then s.history[id] else []
  }

  function Latest(s: State, id: Id): nat {
    if Hist(s, id) == [] then 0 else |Hist(s, id)| - 1
  }

  function Applied(t: Task, r: Request, clock: int): Task {
    D.Task(r.title, r.description, r.status, r.priority, r.dueDate, t.createdAt, clock)
  }

  datatype Action =
    | Begin(w: OpId, op: Op)
    | Advance(w: OpId, ok: bool, clock: int)  // ok: whether the cache call, if it is one, succeeds
    | Cancel(w: OpId)                         // cancelled or crashed at the pending await
    | Evict(id: Id)

  function SetPc(s: State, w: OpId, pc: Pc): State
    requires w in s.ops
  {
    s.(ops := s.ops[w := s.ops[w].(pc := pc)])
  }

  function Record(s: State, id: Id, c: Change): State {
    s.(history := s.history[id := Hist(s, id) + [c]])
  }

  // The removal for version j of the row is settled.
  function Settle(s: State, id: Id, j: nat, r: Removal): State {
    if j < |Hist(s, id)| then s.(history := s.history[id := Hist(s, id)[j := Hist(s, id)[j].(removal := r)]]) else s
  }

  function First(op: Op): Pc {
    match op
    case GetOp(_) => CacheRead
    case UpdateOp(_, _) => UpdateRead
    case _ => Exec
  }

  function DoSave(s: State, w: OpId, id: Id, r: Request, pc: Pc, clock: int): State
    requires w in s.ops && pc.Save?
  {
    var task := Applied(pc.read, r, clock);
    if task == pc.read then SetPc(s, w, Remove(None, Some(task)))  // nothing modified: no UPDATE is sent
    else if id in s.table && s.table[id].xmin == pc.xmin then
      SetPc(Record(s, id, Change(Some(task), Some(pc.version), s.now, Pending(w))), w, Remove(Some(|Hist(s, id)|), Some(task))).(
        table := s.table[id := Row(task, s.now)])
    else SetPc(s, w, Threw)                                        // 409: the row version has moved
  }

  function DoDelete(s: State, w: OpId, id: Id): State
    requires w in s.ops
  {
    if id !in s.table then SetPc(s, w, Done(None))
    else
      SetPc(Record(s, id, Change(None, None, s.now, Pending(w))), w, Remove(Some(|Hist(s, id)|), None)).(table := s.table - {id})
  }

  function DoInsert(s: State, w: OpId, id: Id, task: Task): State
    requires w in s.ops
  {
    if id in s.table then SetPc(s, w, Done(None))                  // duplicate key: refused, nothing changes
    else SetPc(Record(s, id, Change(Some(task), None, s.now, NotNeeded)), w, Done(Some(task))).(
      table := s.table[id := Row(task, s.now)])
  }

  function DoRemove(s: State, w: OpId, id: Id, made: Option<nat>, done: Pc, ok: bool): State
    requires w in s.ops
  {
    var t := SetPc(s, w, done);
    var u := if made.Some? then Settle(t, id, made.value, if ok then Removed(s.now) else Missed) else t;
    if ok then u.(cache := s.cache - {id}) else u
  }

  function Resume(s: State, w: OpId, ok: bool, clock: int): State
    requires w in s.ops
  {
    var id := s.ops[w].op.id;
    match s.ops[w].pc
    case CacheRead =>
      SetPc(s, w, if ok && id in s.cache then Done(Some(s.cache[id].task)) else DbRead)
    case DbRead =>
      SetPc(s, w, if id in s.table then CacheSet(s.table[id].task, Latest(s, id)) else Done(None))
    case CacheSet(task, version) =>
      var t := SetPc(s, w, Done(Some(task)));
      if ok then t.(cache := s.cache[id := Entry(task, version, s.now)]) else t
    case UpdateRead =>
      SetPc(s, w, if id in s.table then Save(s.table[id].task, s.table[id].xmin, Latest(s, id)) else Done(None))
    case Save(_, _, _) =>
      if s.ops[w].op.UpdateOp? then DoSave(s, w, id, s.ops[w].op.request, s.ops[w].pc, clock) else s
    case Exec =>
      (match s.ops[w].op
       case DeleteOp(_) => DoDelete(s, w, id)
       case InsertOp(_, task) => DoInsert(s, w, id, task)
       case _ => s)
    case Remove(made, result) => DoRemove(s, w, id, made, Done(result), ok)
    case _ => s
  }

  function Next(s: State, a: Action): State {
    var t := match a
      case Begin(w, op) => if w in s.ops then s else s.(ops := s.ops[w := Running(op, First(op))])
      case Advance(w, ok, clock) => if w in s.ops then Resume(s, w, ok, clock) else s
      case Cancel(w) =>
        if w !in s.ops || s.ops[w].pc.Done? then s
        else if s.ops[w].pc.Remove? then DoRemove(s, w, s.ops[w].op.id, s.ops[w].pc.made, Threw, false)
        else SetPc(s, w, Threw)
      case Evict(id) => s.(cache := s.cache - {id});
    t.(now := s.now + 1)
  }

  function Run(s: State, acts: seq<Action>): State
    decreases |acts|
  {
    if acts == [] then s else Run(Next(s, acts[0]), acts[1..])
  }

  /* ---------- the invariant ---------- */

  // Inserts happen only where there is no row; an update is based on the version right before it.
  ghost predicate ChangeOk(h: seq<Change>, j: nat)
    requires j < |h|
  {
    && (h[j].removal.NotNeeded? <==> j == 0 || h[j - 1].value.None?)
    && (h[j].removal.NotNeeded? ==> h[j].value.Some? && h[j].basedOn.None?)
    && (h[j].basedOn.Some? ==>
          && j > 0 && h[j].basedOn.value == j - 1 && h[j].value.Some? && h[j - 1].value.Some?
          && h[j].value.value.createdAt == h[j - 1].value.value.createdAt)
    && (h[j].basedOn.None? && !h[j].removal.NotNeeded? ==> h[j].value.None?)
  }

  predicate Past(c: Change, now: nat) {
    c.xmin < now && (c.removal.Removed? ==> c.removal.at < now)
  }

  ghost predicate HistOk(h: seq<Change>, now: nat) {
    && (forall j | 0 <= j < |h| :: ChangeOk(h, j))
    && (forall j | 0 <= j < |h| :: Past(h[j], now))
    && (forall i, j | 0 <= i < j < |h| :: h[i].xmin < h[j].xmin)
  }

  // The table holds the last version of each row.
  ghost predicate RowOk(h: seq<Change>, table: map<Id, Row>, id: Id) {
    if id in table then
      |h| > 0 && h[|h| - 1].value == Some(table[id].task) && h[|h| - 1].xmin == table[id].xmin
    else |h| > 0 ==> h[|h| - 1].value.None?
  }

  // Why a change made after version v can have left an entry put at `put` in place.
  predicate Excused(c: Change, put: nat) {
    match c.removal
    case NotNeeded => true
    case Pending(_) => true
    case Missed => true
    case Removed(at) => at < put
  }

  ghost predicate EntryOk(h: seq<Change>, e: Entry) {
    && e.version < |h| && h[e.version].value == Some(e.task)
    && forall j | e.version < j < |h| :: Excused(h[j], e.put)
  }

  ghost predicate Held(h: seq<Change>, t: Task) {
    exists j | 0 <= j < |h| :: h[j].value == Some(t)
  }

  ghost predicate OpOk(s: State, w: OpId, x: Running) {
    var h := Hist(s, x.op.id);
    match x.pc
    case CacheRead => x.op.GetOp?
    case DbRead => x.op.GetOp?
    case UpdateRead => x.op.UpdateOp?
    case Exec => x.op.DeleteOp? || x.op.InsertOp?
    case CacheSet(task, version) => x.op.GetOp? && version < |h| && h[version].value == Some(task)
    case Save(read, xmin, version) =>
      x.op.UpdateOp? && version < |h| && h[version].value == Some(read) && h[version].xmin == xmin
    case Remove(made, _) => !x.op.GetOp? && (made.Some? ==> made.value < |h| && h[made.value].removal == Pending(w))
    case Done(result) => x.op.GetOp? && result.Some? ==> Held(h, result.value)
    case _ => true
  }

  // A pending removal belongs to an operation that is about to make it.
  predicate Owned(ops: map<OpId, Running>, w: OpId, id: Id, j: nat) {
    w in ops && ops[w].op.id == id && ops[w].pc.Remove? && ops[w].pc.made == Some(j)
  }

  ghost predicate PendingOk(h: seq<Change>, ops: map<OpId, Running>, id: Id) {
    forall j | 0 <= j < |h| && h[j].removal.Pending? :: Owned(ops, h[j].removal.w, id, j)
  }

  ghost predicate RowHistoryOk(s: State, id: Id) {
    HistOk(Hist(s, id), s.now) && RowOk(Hist(s, id), s.table, id) && PendingOk(Hist(s, id), s.ops, id)
  }

  ghost predicate Inv(s: State) {
    && (forall id :: RowHistoryOk(s, id))
    && (forall id | id in s.cache :: EntryOk(Hist(s, id), s.cache[id]))
    && (forall w | w in s.ops :: OpOk(s, w, s.ops[w]))
  }

  /* ---------- the invariant is kept ---------- */

  lemma LaterKeepsHistOk(h: seq<Change>, now: nat)
    requires HistOk(h, now)
    ensures HistOk(h, now + 1)
  {
    forall j | 0 <= j < |h| ensures Past(h[j], now + 1) {
      assert Past(h[j], now);
    }
  }

  // Operation w goes from one place to another; neither is the removal of a committed change.
  lemma QuietKeepsRow(s: State, t: State, w: OpId, id: Id)
    requires RowHistoryOk(s, id) && t.table == s.table && t.history == s.history && t.now == s.now + 1
    requires t.ops == s.ops || (w in t.ops && t.ops == s.ops[w := t.ops[w]])
    requires w in s.ops ==> w in t.ops && t.ops[w].op == s.ops[w].op && (s.ops[w].pc.Remove? ==> s.ops[w].pc.made.None? || t.ops[w] == s.ops[w])
    ensures RowHistoryOk(t, id)
  {
    LaterKeepsHistOk(Hist(s, id), s.now);
    var h := Hist(t, id);
    forall j | 0 <= j < |h| && h[j].removal.Pending? ensures Owned(t.ops, h[j].removal.w, id, j) {
      assert Owned(s.ops, h[j].removal.w, id, j);
    }
  }

  // A step that changes one operation's place, and possibly the cache, but no row.
  lemma QuietStep(s: State, t: State, w: OpId)
    requires Inv(s) && t.table == s.table && t.history == s.history && t.now == s.now + 1
    requires w in t.ops && t.ops == s.ops[w := t.ops[w]] && OpOk(s, w, t.ops[w])
    requires w in s.ops ==> t.ops[w].op == s.ops[w].op && (s.ops[w].pc.Remove? ==> s.ops[w].pc.made.None? || t.ops[w] == s.ops[w])
    requires forall id | id in t.cache :: EntryOk(Hist(s, id), t.cache[id])
    ensures Inv(t)
  {
    forall id ensures RowHistoryOk(t, id) {
      QuietKeepsRow(s, t, w, id);
    }
    forall v | v in t.ops ensures OpOk(t, v, t.ops[v]) {
      SamePastKeepsOpOk(s, t, v, t.ops[v]);
    }
  }

  // The past of a row does not change, except for what became of a removal.
  ghost predicate SamePast(h: seq<Change>, h': seq<Change>) {
    && |h| <= |h'|
    && forall j | 0 <= j < |h| :: h'[j].value == h[j].value && h'[j].xmin == h[j].xmin && h'[j].basedOn == h[j].basedOn
  }

  lemma SamePastKeepsOpOk(s: State, t: State, w: OpId, x: Running)
    requires OpOk(s, w, x) && SamePast(Hist(s, x.op.id), Hist(t, x.op.id))
    requires x.pc.Remove? && x.pc.made.Some? ==>
               Hist(t, x.op.id)[x.pc.made.value].removal == Hist(s, x.op.id)[x.pc.made.value].removal
    ensures OpOk(t, w, x)
  {
    var h, h' := Hist(s, x.op.id), Hist(t, x.op.id);
    if x.pc.Done? && x.op.GetOp? && x.pc.result.Some? {
      var j :| 0 <= j < |h| && h[j].value == Some(x.pc.result.value);
      assert h'[j].value == Some(x.pc.result.value);
    }
  }

  /* a change of a row is committed */

  ghost predicate Appends(h: seq<Change>, c: Change, now: nat) {
    && c.xmin == now && (c.removal.NotNeeded? || c.removal.Pending?)
    && (c.removal.NotNeeded? <==> h == [] || h[|h| - 1].value.None?)
    && (c.removal.NotNeeded? ==> c.value.Some? && c.basedOn.None?)
    && (c.basedOn.Some? ==>
          && h != [] && c.basedOn.value == |h| - 1 && c.value.Some? && h[|h| - 1].value.Some?
          && c.value.value.createdAt == h[|h| - 1].value.value.createdAt)
    && (c.basedOn.None? && !c.removal.NotNeeded? ==> c.value.None?)
  }

  lemma AppendKeepsHistOk(h: seq<Change>, c: Change, now: nat)
    requires HistOk(h, now) && Appends(h, c, now)
    ensures HistOk(h + [c], now + 1)
  {
    var h' := h + [c];
    forall j | 0 <= j < |h'| ensures ChangeOk(h', j) && Past(h'[j], now + 1) {
      if j < |h| {
        assert ChangeOk(h, j) && Past(h[j], now);
      }
    }
    forall i, j | 0 <= i < j < |h'| ensures h'[i].xmin < h'[j].xmin {
      assert Past(h[i], now);
    }
  }

  lemma AppendKeepsPending(h: seq<Change>, ops: map<OpId, Running>, ops': map<OpId, Running>, w: OpId, id: Id, c: Change)
    requires PendingOk(h, ops, id) && w in ops && !ops[w].pc.Remove? && w in ops' && ops' == ops[w := ops'[w]]
    requires c.removal.NotNeeded? || (c.removal == Pending(w) && Owned(ops', w, id, |h|))
    ensures PendingOk(h + [c], ops', id)
  {
    forall j | 0 <= j < |h| && h[j].removal.Pending? ensures Owned(ops', h[j].removal.w, id, j) {
      assert Owned(ops, h[j].removal.w, id, j);
    }
  }

  lemma OtherRowKept(s: State, t: State, w: OpId, i: Id)
    requires RowHistoryOk(s, i) && Hist(t, i) == Hist(s, i) && t.now == s.now + 1
    requires (i in t.table <==> i in s.table) && (i in s.table ==> t.table[i] == s.table[i])
    requires w in s.ops && w in t.ops && t.ops == s.ops[w := t.ops[w]] && s.ops[w].op.id != i
    ensures RowHistoryOk(t, i)
  {
    LaterKeepsHistOk(Hist(s, i), s.now);
    var h := Hist(t, i);
    forall j | 0 <= j < |h| && h[j].removal.Pending? ensures Owned(t.ops, h[j].removal.w, i, j) {
      assert Owned(s.ops, h[j].removal.w, i, j);
    }
  }

  // s goes to t by committing change c of the row, in operation w.
  ghost predicate Commits(s: State, t: State, w: OpId, id: Id, c: Change) {
    && t.now == s.now + 1 && t.cache == s.cache && t.history == s.history[id := Hist(s, id) + [c]]
    && Appends(Hist(s, id), c, s.now)
    && (if c.value.Some? then t.table == s.table[id := Row(c.value.value, s.now)] else t.table == s.table - {id})
    && w in s.ops && w in t.ops && t.ops == s.ops[w := t.ops[w]] && !s.ops[w].pc.Remove?
    && t.ops[w].op == s.ops[w].op && t.ops[w].op.id == id && !t.ops[w].op.GetOp?
    && (if c.removal.NotNeeded? then t.ops[w].pc.Done?
        else c.removal == Pending(w) && Owned(t.ops, w, id, |Hist(s, id)|))
  }

  lemma CommitKeepsRows(s: State, t: State, w: OpId, id: Id, c: Change, i: Id)
    requires RowHistoryOk(s, i) && Commits(s, t, w, id, c)
    ensures RowHistoryOk(t, i)
  {
    if i == id {
      AppendKeepsHistOk(Hist(s, id), c, s.now);
      AppendKeepsPending(Hist(s, id), s.ops, t.ops, w, id, c);
    } else {
      OtherRowKept(s, t, w, i);
    }
  }

  lemma AppendKeepsEntry(h: seq<Change>, c: Change, e: Entry)
    requires EntryOk(h, e) && (c.removal.NotNeeded? || c.removal.Pending?)
    ensures EntryOk(h + [c], e)
  {
    forall j | e.version < j < |h + [c]| ensures Excused((h + [c])[j], e.put) {
      if j < |h| {
        assert Excused(h[j], e.put);
      }
    }
  }

  lemma CommitStep(s: State, t: State, w: OpId, id: Id, c: Change)
    requires Inv(s) && Commits(s, t, w, id, c)
    ensures Inv(t)
  {
    forall i ensures RowHistoryOk(t, i) {
      CommitKeepsRows(s, t, w, id, c, i);
    }
    forall i | i in t.cache ensures EntryOk(Hist(t, i), t.cache[i]) {
      assert EntryOk(Hist(s, i), s.cache[i]);
      AppendKeepsEntry(Hist(s, i), c, s.cache[i]);
    }
    forall v | v in t.ops ensures OpOk(t, v, t.ops[v]) {
      if v != w {
        SamePastKeepsOpOk(s, t, v, s.ops[v]);
      }
    }
  }

  /* a removal is settled */

  function Settled(h: seq<Change>, j: nat, r: Removal): seq<Change>
    requires j < |h|
  {
    h[j := h[j].(removal := r)]
  }

  lemma SettleKeepsHistOk(h: seq<Change>, j: nat, r: Removal, now: nat)
    requires HistOk(h, now) && j < |h| && h[j].removal.Pending? && (r == Removed(now) || r == Missed)
    ensures HistOk(Settled(h, j, r), now + 1)
  {
    var h' := Settled(h, j, r);
    forall i | 0 <= i < |h'| ensures ChangeOk(h', i) && Past(h'[i], now + 1) {
      assert ChangeOk(h, i) && Past(h[i], now);
      assert i > 0 ==> h'[i - 1].value == h[i - 1].value;
    }
  }

  // s goes to t by operation w settling the removal for version j.
  ghost predicate Settles(s: State, t: State, w: OpId, id: Id, j: nat, r: Removal) {
    && t.now == s.now + 1 && t.table == s.table
    && Owned(s.ops, w, id, j) && j < |Hist(s, id)| && Hist(s, id)[j].removal == Pending(w)
    && t.history == s.history[id := Settled(Hist(s, id), j, r)]
    && ((r == Missed && t.cache == s.cache) || (r == Removed(s.now) && t.cache == s.cache - {id}))
    && w in t.ops && t.ops == s.ops[w := t.ops[w]] && t.ops[w].op == s.ops[w].op
    && !t.ops[w].op.GetOp? && (t.ops[w].pc.Done? || t.ops[w].pc.Threw?)
  }

  lemma SettleKeepsRows(s: State, t: State, w: OpId, id: Id, j: nat, r: Removal, i: Id)
    requires RowHistoryOk(s, i) && Settles(s, t, w, id, j, r)
    ensures RowHistoryOk(t, i)
  {
    if i == id {
      SettleKeepsHistOk(Hist(s, id), j, r, s.now);
      var h := Hist(t, id);
      forall k | 0 <= k < |h| && h[k].removal.Pending? ensures Owned(t.ops, h[k].removal.w, id, k) {
        assert Owned(s.ops, Hist(s, id)[k].removal.w, id, k);
      }
    } else {
      OtherRowKept(s, t, w, i);
    }
  }

  lemma MissedKeepsEntry(h: seq<Change>, j: nat, e: Entry)
    requires EntryOk(h, e) && j < |h|
    ensures EntryOk(Settled(h, j, Missed), e)
  {
    var h' := Settled(h, j, Missed);
    forall k | e.version < k < |h'| ensures Excused(h'[k], e.put) {
      assert Excused(h[k], e.put);
    }
  }

  lemma SettleStep(s: State, t: State, w: OpId, id: Id, j: nat, r: Removal)
    requires Inv(s) && Settles(s, t, w, id, j, r)
    ensures Inv(t)
  {
    forall i ensures RowHistoryOk(t, i) {
      SettleKeepsRows(s, t, w, id, j, r, i);
    }
    forall i | i in t.cache ensures EntryOk(Hist(t, i), t.cache[i]) {
      assert EntryOk(Hist(s, i), s.cache[i]);
      if i == id {
        MissedKeepsEntry(Hist(s, id), j, s.cache[id]);
      }
    }
    forall v | v in t.ops ensures OpOk(t, v, t.ops[v]) {
      assert OpOk(s, v, s.ops[v]);
      if v != w {
        SamePastKeepsOpOk(s, t, v, s.ops[v]);
      }
    }
  }

  /* one lemma per await */

  lemma ReadKeepsInv(s: State, w: OpId, ok: bool, clock: int)
    requires Inv(s) && w in s.ops
    requires var pc := s.ops[w].pc; pc.CacheRead? || pc.DbRead? || pc.UpdateRead?
    ensures Inv(Next(s, Advance(w, ok, clock)))
  {
    var id := s.ops[w].op.id;
    assert RowHistoryOk(s, id);
    if id in s.cache {
      assert EntryOk(Hist(s, id), s.cache[id]);
    }
    QuietStep(s, Next(s, Advance(w, ok, clock)), w);
  }

  lemma CacheSetKeepsInv(s: State, w: OpId, ok: bool, clock: int)
    requires Inv(s) && w in s.ops && s.ops[w].pc.CacheSet?
    ensures Inv(Next(s, Advance(w, ok, clock)))
  {
    var id := s.ops[w].op.id;
    assert OpOk(s, w, s.ops[w]) && RowHistoryOk(s, id);
    assert Held(Hist(s, id), s.ops[w].pc.task);
    QuietStep(s, Next(s, Advance(w, ok, clock)), w);
  }

  lemma SaveKeepsInv(s: State, w: OpId, ok: bool, clock: int)
    requires Inv(s) && w in s.ops && s.ops[w].pc.Save?
    ensures Inv(Next(s, Advance(w, ok, clock)))
  {
    var x := s.ops[w];
    var id := x.op.id;
    var t := Next(s, Advance(w, ok, clock));
    var h := Hist(s, id);
    assert OpOk(s, w, x) && RowHistoryOk(s, id);
    var task := Applied(x.pc.read, x.op.request, clock);
    if task != x.pc.read && id in s.table && s.table[id].xmin == x.pc.xmin {
      assert x.pc.version == |h| - 1;
      CommitStep(s, t, w, id, Change(Some(task), Some(x.pc.version), s.now, Pending(w)));
    } else {
      QuietStep(s, t, w);
    }
  }

  lemma ExecKeepsInv(s: State, w: OpId, ok: bool, clock: int)
    requires Inv(s) && w in s.ops && s.ops[w].pc.Exec?
    ensures Inv(Next(s, Advance(w, ok, clock)))
  {
    var x := s.ops[w];
    var id := x.op.id;
    var t := Next(s, Advance(w, ok, clock));
    assert RowHistoryOk(s, id);
    if x.op.DeleteOp? && id in s.table {
      CommitStep(s, t, w, id, Change(None, None, s.now, Pending(w)));
    } else if x.op.InsertOp? && id !in s.table {
      CommitStep(s, t, w, id, Change(Some(x.op.task), None, s.now, NotNeeded));
    } else {
      QuietStep(s, t, w);
    }
  }

  lemma RemoveKeepsInv(s: State, a: Action)
    requires Inv(s) && (a.Advance? || a.Cancel?) && a.w in s.ops && s.ops[a.w].pc.Remove?
    ensures Inv(Next(s, a))
  {
    var x := s.ops[a.w];
    var id := x.op.id;
    assert OpOk(s, a.w, x);
    if x.pc.made.Some? {
      SettleStep(s, Next(s, a), a.w, id, x.pc.made.value, if a.Advance? && a.ok then Removed(s.now) else Missed);
    } else {
      QuietStep(s, Next(s, a), a.w);
    }
  }

  lemma NextKeepsInv(s: State, a: Action)
    requires Inv(s)
    ensures Inv(Next(s, a))
  {
    match a
    case Begin(w, op) => if w !in s.ops { QuietStep(s, Next(s, a), w); } else { TickKeepsInv(s, Next(s, a)); }
    case Evict(id) => TickKeepsInv(s, Next(s, a));
    case Cancel(w) =>
      if w !in s.ops || s.ops[w].pc.Done? {
        TickKeepsInv(s, Next(s, a));
      } else if s.ops[w].pc.Remove? {
        RemoveKeepsInv(s, a);
      } else {
        QuietStep(s, Next(s, a), w);
      }
    case Advance(w, ok, clock) =>
      if w !in s.ops || s.ops[w].pc.Done? || s.ops[w].pc.Threw? {
        TickKeepsInv(s, Next(s, a));
      } else {
        AdvanceKeepsInv(s, w, ok, clock);
      }
  }

  // Nothing happens but time, and entries may vanish.
  lemma TickKeepsInv(s: State, t: State)
    requires Inv(s) && t.table == s.table && t.history == s.history && t.ops == s.ops && t.now == s.now + 1
    requires forall id | id in t.cache :: id in s.cache && t.cache[id] == s.cache[id]
    ensures Inv(t)
  {
    forall id ensures RowHistoryOk(t, id) {
      QuietKeepsRow(s, t, 0, id);
    }
    forall v | v in t.ops ensures OpOk(t, v, t.ops[v]) {
      SamePastKeepsOpOk(s, t, v, s.ops[v]);
    }
  }

  lemma AdvanceKeepsInv(s: State, w: OpId, ok: bool, clock: int)
    requires Inv(s) && w in s.ops && !s.ops[w].pc.Done? && !s.ops[w].pc.Threw?
    ensures Inv(Next(s, Advance(w, ok, clock)))
  {
    match s.ops[w].pc
    case CacheSet(_, _) => CacheSetKeepsInv(s, w, ok, clock);
    case Save(_, _, _) => SaveKeepsInv(s, w, ok, clock);
    case Exec => ExecKeepsInv(s, w, ok, clock);
    case Remove(_, _) => RemoveKeepsInv(s, Advance(w, ok, clock));
    case _ => ReadKeepsInv(s, w, ok, clock);
  }

  lemma {:induction false} RunKeepsInv(s: State, acts: seq<Action>)
    requires Inv(s)
    ensures Inv(Run(s, acts))
    decreases |acts|
  {
    if acts != [] {
      NextKeepsInv(s, acts[0]);
      RunKeepsInv(Next(s, acts[0]), acts[1..]);
    }
  }

  /* ---------- what holds over every run ---------- */

  lemma InitInv()
    ensures Inv(INIT)
  {}

  /** Every task a get returns was, at some moment, the row with that id. */
  lemma GetsReturnHeldValues(acts: seq<Action>, w: OpId)
    requires var s := Run(INIT, acts); w in s.ops && s.ops[w].op.GetOp? && s.ops[w].pc.Done? && s.ops[w].pc.result.Some?
    ensures var s := Run(INIT, acts); Held(Hist(s, s.ops[w].op.id), s.ops[w].pc.result.value)
  {
    InitInv();
    RunKeepsInv(INIT, acts);
    var s := Run(INIT, acts);
    assert OpOk(s, w, s.ops[w]);
  }

  /** When a cached entry is not the row, the first change it missed is an update or a delete whose
      writer is still between commit and removal, or whose removal failed or was cancelled, or
      whose removal came before a reader put back the version it had fetched before that commit. */
  lemma StaleEntriesHaveACause(acts: seq<Action>, id: Id)
    requires var s := Run(INIT, acts);
             id in s.cache && (id in s.table ==> s.table[id].task != s.cache[id].task)
    ensures var s := Run(INIT, acts); var h := Hist(s, id); var j := s.cache[id].version + 1;
      && j < |h| && h[j - 1].value == Some(s.cache[id].task)
      && match h[j].removal
         case NotNeeded => false
         case Pending(w) => w in s.ops && s.ops[w].op.id == id && s.ops[w].pc.Remove?
         case Missed => true
         case Removed(at) => at < s.cache[id].put
  {
    InitInv();
    RunKeepsInv(INIT, acts);
    var s := Run(INIT, acts);
    var h := Hist(s, id);
    var e := s.cache[id];
    var j := e.version + 1;
    assert EntryOk(h, e) && RowHistoryOk(s, id);
    assert j != |h|;
    assert Excused(h[j], e.put) && ChangeOk(h, j) && Past(h[j], s.now);
    assert h[j].removal.Pending? ==> Owned(s.ops, h[j].removal.w, id, j);
  }

  // The entry was read before the last change of its row.
  predicate Behind(s: State, id: Id) {
    id in s.cache && s.cache[id].version + 1 < |Hist(s, id)|
  }

  // The removal of a change is still to come, did not happen, or came before the entry was put.
  predicate Cause(c: Change, put: nat) {
    c.removal.Pending? || c.removal.Missed? || (c.removal.Removed? && c.removal.at < put)
  }

  /** Version by version: an entry is behind its row exactly when some change after its version has
      one of the three causes, and then the first one it missed has. */
  lemma BehindExactlyWhen(acts: seq<Action>, id: Id)
    requires id in Run(INIT, acts).cache
    ensures var s := Run(INIT, acts); var h := Hist(s, id); var e := s.cache[id];
      && (Behind(s, id) <==> exists j | e.version < j < |h| :: Cause(h[j], e.put))
      && (Behind(s, id) ==> Cause(h[e.version + 1], e.put))
  {
    InitInv();
    RunKeepsInv(INIT, acts);
    var s := Run(INIT, acts);
    var h := Hist(s, id);
    var e := s.cache[id];
    assert EntryOk(h, e) && RowHistoryOk(s, id);
    if Behind(s, id) {
      assert Excused(h[e.version + 1], e.put) && ChangeOk(h, e.version + 1);
    }
  }

  /* ---------- exactly when an entry is left behind ---------- */

  // A removal for a change after version v is still to come.
  predicate Awaited(h: seq<Change>, v: nat) {
    exists j | v < j < |h| :: h[j].removal.Pending?
  }

  // There are changes after version v, and all of them have been settled.
  predicate TooOld(h: seq<Change>, v: nat) {
    v + 1 < |h| && !Awaited(h, v)
  }

  // Nobody is about to remove the entry that is behind its row.
  predicate LeftBehind(s: State, id: Id) {
    id in s.cache && TooOld(Hist(s, id), s.cache[id].version)
  }

  // The entry is behind its row, and no removal is to come but perhaps w's.
  predicate DependsOn(s: State, w: OpId, id: Id)
    requires w in s.ops && s.ops[w].pc.Remove?
  {
    && s.ops[w].pc.made.Some? && Behind(s, id)
    && forall j | s.cache[id].version < j < |Hist(s, id)| && Hist(s, id)[j].removal.Pending? :: j == s.ops[w].pc.made.value
  }

  /** The steps that leave an entry behind: a reader puts a version older than a settled change, or
      the last removal that could have taken the entry fails or is cancelled. */
  predicate Spoils(s: State, a: Action, id: Id) {
    match a
    case Advance(w, ok, _) =>
      w in s.ops && s.ops[w].op.id == id
      && if s.ops[w].pc.CacheSet? then ok && TooOld(Hist(s, id), s.ops[w].pc.version)
         else s.ops[w].pc.Remove? && !ok && DependsOn(s, w, id)
    case Cancel(w) => w in s.ops && s.ops[w].op.id == id && s.ops[w].pc.Remove? && DependsOn(s, w, id)
    case _ => false
  }

  /** The steps that mend it: eviction, a removal or a put that succeeds, and the commit of another
      update or delete, whose removal is then to come. */
  predicate Mends(s: State, a: Action, id: Id) {
    match a
    case Evict(i) => i == id
    case Advance(w, ok, clock) =>
      w in s.ops && s.ops[w].op.id == id
      && (match s.ops[w].pc
          case CacheSet(_, _) => ok
          case Remove(_, _) => ok
          case Save(read, xmin, _) =>
            && s.ops[w].op.UpdateOp? && Applied(read, s.ops[w].op.request, clock) != read
            && id in s.table && s.table[id].xmin == xmin
          case Exec => s.ops[w].op.DeleteOp? && id in s.table
          case _ => false)
    case _ => false
  }

  predicate SameRow(s: State, t: State, id: Id) {
    Hist(t, id) == Hist(s, id) && (id in t.cache <==> id in s.cache) && (id in s.cache ==> t.cache[id] == s.cache[id])
  }

  lemma OtherRowAlone(s: State, a: Action, id: Id)
    requires a.Advance? || a.Cancel? ==> a.w in s.ops ==> s.ops[a.w].op.id != id
    requires a.Evict? ==> a.id != id
    ensures SameRow(s, Next(s, a), id)
  {
    match a
    case Begin(_, _) =>
    case Evict(_) =>
    case Cancel(w) =>
      if w in s.ops && s.ops[w].pc.Remove? {
        RemoveIsOwn(s, w, s.ops[w].op.id, s.ops[w].pc.made, Threw, false, id);
      }
    case Advance(w, ok, clock) =>
      if w in s.ops {
        AdvanceIsOwn(s, w, ok, clock, id);
      }
  }

  lemma RemoveIsOwn(s: State, w: OpId, i: Id, made: Option<nat>, done: Pc, ok: bool, id: Id)
    requires w in s.ops && i != id
    ensures SameRow(s, DoRemove(s, w, i, made, done, ok), id)
  {}

  lemma AdvanceIsOwn(s: State, w: OpId, ok: bool, clock: int, id: Id)
    requires w in s.ops && s.ops[w].op.id != id
    ensures SameRow(s, Resume(s, w, ok, clock), id)
  {
    var op, pc := s.ops[w].op, s.ops[w].pc;
    if pc.Remove? {
      RemoveIsOwn(s, w, op.id, pc.made, Done(pc.result), ok, id);
    } else if pc.Save? && op.UpdateOp? {
      assert SameRow(s, DoSave(s, w, op.id, op.request, pc, clock), id);
    } else if pc.Exec? && op.DeleteOp? {
      assert SameRow(s, DoDelete(s, w, op.id), id);
    } else if pc.Exec? && op.InsertOp? {
      assert SameRow(s, DoInsert(s, w, op.id, op.task), id);
    }
  }

  lemma AppendSettlesNothing(h: seq<Change>, c: Change, v: nat)
    requires v < |h| && !(c.removal.Pending?)
    ensures Awaited(h + [c], v) == Awaited(h, v)
  {
    var h' := h + [c];
    if Awaited(h, v) {
      var j :| v < j < |h| && h[j].removal.Pending?;
      assert h'[j].removal.Pending?;
    }
    if Awaited(h', v) {
      var j :| v < j < |h'| && h'[j].removal.Pending?;
      assert h[j].removal.Pending?;
    }
  }

  // A committed update or delete: its removal is to come.
  lemma WriteAwaits(s: State, t: State, id: Id, c: Change)
    requires Inv(s) && Hist(t, id) == Hist(s, id) + [c] && c.removal.Pending? && t.cache == s.cache
    ensures !LeftBehind(t, id)
  {
    if id in s.cache {
      assert EntryOk(Hist(s, id), s.cache[id]);
      assert Hist(t, id)[|Hist(s, id)|].removal.Pending?;
    }
  }

  // A row is inserted where the last change was a delete: an entry for it was behind already.
  lemma InsertLeaves(s: State, t: State, id: Id, c: Change)
    requires Inv(s) && id !in s.table && Hist(t, id) == Hist(s, id) + [c] && c.removal.NotNeeded? && t.cache == s.cache
    ensures LeftBehind(t, id) == LeftBehind(s, id)
  {
    if id in s.cache {
      var h, v := Hist(s, id), s.cache[id].version;
      assert EntryOk(h, s.cache[id]) && RowHistoryOk(s, id);
      assert v + 1 < |h|;
      AppendSettlesNothing(h, c, v);
    }
  }

  // A removal is missed: the entry stays, and the changes still awaited are the others.
  lemma MissLeaves(s: State, t: State, w: OpId, id: Id)
    requires Inv(s) && w in s.ops && s.ops[w].op.id == id && s.ops[w].pc.Remove? && s.ops[w].pc.made.Some?
    requires t.cache == s.cache && s.ops[w].pc.made.value < |Hist(s, id)|
    requires Hist(t, id) == Settled(Hist(s, id), s.ops[w].pc.made.value, Missed)
    ensures LeftBehind(t, id) == DependsOn(s, w, id)
  {
    if Behind(s, id) {
      var h, h', v, m := Hist(s, id), Hist(t, id), s.cache[id].version, s.ops[w].pc.made.value;
      assert forall j | 0 <= j < |h| && j != m :: h'[j] == h[j];
      if j :| v < j < |h| && h[j].removal.Pending? && j != m {
        assert h'[j].removal.Pending?;
      }
    }
  }

  lemma RemoveLeaves(s: State, a: Action, id: Id)
    requires Inv(s) && (a.Advance? || a.Cancel?) && a.w in s.ops && s.ops[a.w].pc.Remove? && s.ops[a.w].op.id == id
    ensures LeftBehind(Next(s, a), id) <==> Spoils(s, a, id) || (LeftBehind(s, id) && !Mends(s, a, id))
  {
    var t := Next(s, a);
    assert OpOk(s, a.w, s.ops[a.w]);
    if a.Advance? && a.ok {
      assert id !in t.cache;
    } else if s.ops[a.w].pc.made.Some? {
      MissLeaves(s, t, a.w, id);
      StaysWithout(s, a.w, id);
    } else {
      assert SameRow(s, t, id);
    }
  }

  // An entry that nobody was about to remove depended on no removal.
  lemma StaysWithout(s: State, w: OpId, id: Id)
    requires w in s.ops && s.ops[w].pc.Remove? && s.ops[w].pc.made.Some?
    ensures LeftBehind(s, id) ==> DependsOn(s, w, id)
  {}

  lemma ReadLeaves(s: State, w: OpId, ok: bool, clock: int)
    requires w in s.ops
    requires var pc := s.ops[w].pc; pc.CacheRead? || pc.DbRead? || pc.UpdateRead? || pc.Done? || pc.Threw?
    ensures SameRow(s, Next(s, Advance(w, ok, clock)), s.ops[w].op.id)
  {}

  lemma SaveLeaves(s: State, w: OpId, ok: bool, clock: int, id: Id)
    requires Inv(s) && w in s.ops && s.ops[w].pc.Save? && s.ops[w].op.id == id
    ensures var a := Advance(w, ok, clock);
            LeftBehind(Next(s, a), id) <==> Spoils(s, a, id) || (LeftBehind(s, id) && !Mends(s, a, id))
  {
    var a, t := Advance(w, ok, clock), Next(s, Advance(w, ok, clock));
    if Mends(s, a, id) {
      var pc := s.ops[w].pc;
      WriteAwaits(s, t, id, Change(Some(Applied(pc.read, s.ops[w].op.request, clock)), Some(pc.version), s.now, Pending(w)));
    } else {
      assert SameRow(s, t, id);
    }
  }

  lemma ExecLeaves(s: State, w: OpId, ok: bool, clock: int, id: Id)
    requires Inv(s) && w in s.ops && s.ops[w].pc.Exec? && s.ops[w].op.id == id
    ensures var a := Advance(w, ok, clock);
            LeftBehind(Next(s, a), id) <==> Spoils(s, a, id) || (LeftBehind(s, id) && !Mends(s, a, id))
  {
    var a, t := Advance(w, ok, clock), Next(s, Advance(w, ok, clock));
    if Mends(s, a, id) {
      WriteAwaits(s, t, id, Change(None, None, s.now, Pending(w)));
    } else if s.ops[w].op.InsertOp? && id !in s.table {
      InsertLeaves(s, t, id, Change(Some(s.ops[w].op.task), None, s.now, NotNeeded));
    } else {
      assert SameRow(s, t, id);
    }
  }

  lemma AdvanceLeaves(s: State, w: OpId, ok: bool, clock: int, id: Id)
    requires Inv(s) && w in s.ops && s.ops[w].op.id == id
    ensures var a := Advance(w, ok, clock);
            LeftBehind(Next(s, a), id) <==> Spoils(s, a, id) || (LeftBehind(s, id) && !Mends(s, a, id))
  {
    match s.ops[w].pc
    case CacheSet(task, version) => PutLeaves(s, w, ok, clock, id);
    case Remove(_, _) => RemoveLeaves(s, Advance(w, ok, clock), id);
    case Save(_, _, _) => SaveLeaves(s, w, ok, clock, id);
    case Exec => ExecLeaves(s, w, ok, clock, id);
    case _ => ReadLeaves(s, w, ok, clock);
  }

  lemma PutLeaves(s: State, w: OpId, ok: bool, clock: int, id: Id)
    requires w in s.ops && s.ops[w].pc.CacheSet? && s.ops[w].op.id == id
    ensures var a := Advance(w, ok, clock);
            LeftBehind(Next(s, a), id) <==> Spoils(s, a, id) || (LeftBehind(s, id) && !Mends(s, a, id))
  {
    var t := Next(s, Advance(w, ok, clock));
    assert Hist(t, id) == Hist(s, id);
    if ok {
      assert t.cache[id].version == s.ops[w].pc.version;
    } else {
      assert SameRow(s, t, id);
    }
  }

  /** Step by step: an entry is left behind after a step exactly when the step spoils it, or it was
      left behind and the step does not mend it. */
  lemma LeftBehindAfterStep(s: State, a: Action, id: Id)
    requires Inv(s)
    ensures LeftBehind(Next(s, a), id) <==> Spoils(s, a, id) || (LeftBehind(s, id) && !Mends(s, a, id))
  {
    if (a.Advance? || a.Cancel?) && a.w in s.ops && s.ops[a.w].op.id == id {
      if a.Advance? {
        AdvanceLeaves(s, a.w, a.ok, a.clock, id);
      } else if s.ops[a.w].pc.Remove? {
        RemoveLeaves(s, a, id);
      } else {
        assert SameRow(s, Next(s, a), id);
      }
    } else if a.Evict? && a.id == id {
      assert id !in Next(s, a).cache;
    } else {
      OtherRowAlone(s, a, id);
    }
  }

  // Some step of the run spoiled the entry, and no later one mended it.
  ghost predicate Spoiled(s: State, acts: seq<Action>, id: Id) {
    exists k | 0 <= k < |acts| :: SpoiledAt(s, acts, id, k)
  }

  ghost predicate SpoiledAt(s: State, acts: seq<Action>, id: Id, k: nat)
    requires k < |acts|
  {
    && Spoils(Run(s, acts[..k]), acts[k], id)
    && forall j | k < j < |acts| :: !Mends(Run(s, acts[..j]), acts[j], id)
  }

  // A longer run is spoiled by its last step, or was spoiled and is not mended by it.
  lemma SpoiledOneMore(s: State, acts: seq<Action>, a: Action, id: Id)
    ensures Spoiled(s, acts + [a], id)
            <==> Spoils(Run(s, acts), a, id) || (Spoiled(s, acts, id) && !Mends(Run(s, acts), a, id))
  {
    var all, n := acts + [a], |acts|;
    assert all[..n] == acts && all[n] == a;
    assert forall k | 0 <= k <= n :: all[..k] == acts[..k];
    assert forall k | 0 <= k < n :: all[k] == acts[k];
    if Spoils(Run(s, acts), a, id) {
      assert SpoiledAt(s, all, id, n);
    }
    if Spoiled(s, acts, id) && !Mends(Run(s, acts), a, id) {
      var k :| 0 <= k < n && SpoiledAt(s, acts, id, k);
      assert SpoiledAt(s, all, id, k);
    }
    if k :| 0 <= k < n && SpoiledAt(s, all, id, k) {
      assert all[n] == a;
      assert SpoiledAt(s, acts, id, k);
    }
  }

  lemma {:induction false} LeftBehindExactlyWhenSpoiled(s: State, acts: seq<Action>, id: Id)
    requires Inv(s) && !LeftBehind(s, id)
    ensures LeftBehind(Run(s, acts), id) <==> Spoiled(s, acts, id)
    decreases |acts|
  {
    if acts != [] {
      var init, a := acts[..|acts| - 1], acts[|acts| - 1];
      assert acts == init + [a];
      LeftBehindExactlyWhenSpoiled(s, init, id);
      RunKeepsInv(s, init);
      LeftBehindAfterStep(Run(s, init), a, id);
      SpoiledOneMore(s, init, a, id);
      RunAppend(s, init, [a]);
    }
  }

  // No writer of the row stands between its commit and its removal.
  predicate Quiet(s: State, id: Id) {
    forall w | w in s.ops && s.ops[w].op.id == id :: !s.ops[w].pc.Remove?
  }

  /** Over any run, once no writer of the row is at its removal: the cached entry is behind its row
      exactly when some step of the run spoiled it and no later one mended it. */
  lemma StaleExactlyWhenSpoiled(acts: seq<Action>, id: Id)
    requires Quiet(Run(INIT, acts), id)
    ensures Behind(Run(INIT, acts), id) <==> Spoiled(INIT, acts, id)
  {
    InitInv();
    RunKeepsInv(INIT, acts);
    LeftBehindExactlyWhenSpoiled(INIT, acts, id);
    var s := Run(INIT, acts);
    var h := Hist(s, id);
    assert RowHistoryOk(s, id);
    forall j | 0 <= j < |h| ensures !h[j].removal.Pending? {
      assert h[j].removal.Pending? ==> Owned(s.ops, h[j].removal.w, id, j);
    }
  }

  ghost predicate Coherent(s: State) {
    forall id | id in s.cache :: id in s.table && s.table[id].task == s.cache[id].task
  }

  /** So the cache is part of the table after every run that spoils no entry for good, once no writer
      is at its removal. */
  lemma CoherentUnlessSpoiled(acts: seq<Action>)
    requires forall id :: Quiet(Run(INIT, acts), id) && !Spoiled(INIT, acts, id)
    ensures Coherent(Run(INIT, acts))
  {
    var s := Run(INIT, acts);
    InitInv();
    RunKeepsInv(INIT, acts);
    forall id | id in s.cache ensures id in s.table && s.table[id].task == s.cache[id].task {
      StaleExactlyWhenSpoiled(acts, id);
      assert EntryOk(Hist(s, id), s.cache[id]) && RowHistoryOk(s, id);
    }
  }

  /** Committed updates of a row form a chain: each was computed from the version right before it,
      none overwrites a version it did not read, and none moves the creation time. */
  lemma UpdatesFormAChain(acts: seq<Action>, id: Id, j: nat)
    requires var h := Hist(Run(INIT, acts), id); 0 < j < |h| && h[j].value.Some? && h[j - 1].value.Some?
    ensures var h := Hist(Run(INIT, acts), id);
      && h[j].basedOn == Some(j - 1) && h[j - 1].xmin < h[j].xmin
      && h[j].value.value.createdAt == h[j - 1].value.value.createdAt
  {
    InitInv();
    RunKeepsInv(INIT, acts);
    assert RowHistoryOk(Run(INIT, acts), id);
    assert ChangeOk(Hist(Run(INIT, acts), id), j);
  }

  // An update about to save succeeds exactly when no change of its row was committed since it read it.
  lemma SaveSucceedsExactlyWhenUnchanged(acts: seq<Action>, w: OpId)
    requires var s := Run(INIT, acts); w in s.ops && s.ops[w].pc.Save?
    ensures var s := Run(INIT, acts); var id := s.ops[w].op.id; var pc := s.ops[w].pc;
      (id in s.table && s.table[id].xmin == pc.xmin) <==> pc.version == |Hist(s, id)| - 1
  {
    InitInv();
    RunKeepsInv(INIT, acts);
    var s := Run(INIT, acts);
    var id := s.ops[w].op.id;
    assert OpOk(s, w, s.ops[w]) && RowHistoryOk(s, id);
  }

  /** A save that goes through leaves the row as requested, field by field, keeps its creation time,
      stamps it, touches no other row, and is about to return that row. */
  lemma SaveWritesTheRequest(acts: seq<Action>, w: OpId, ok: bool, clock: int)
    requires var s := Run(INIT, acts);
      && w in s.ops && s.ops[w].pc.Save? && s.ops[w].op.id in s.table
      && s.table[s.ops[w].op.id].xmin == s.ops[w].pc.xmin
    ensures var s := Run(INIT, acts); var id := s.ops[w].op.id; var t := Next(s, Advance(w, ok, clock));
      && s.ops[w].op.UpdateOp? && t.table.Keys == s.table.Keys && (forall i | i in s.table && i != id :: t.table[i] == s.table[i])
      && var r, row := s.ops[w].op.request, t.table[id].task;
         && row.title == r.title && row.description == r.description && row.status == r.status
         && row.priority == r.priority && row.dueDate == r.dueDate
         && row.createdAt == s.table[id].task.createdAt && row.updatedAt == clock
         && t.ops[w].pc.Remove? && t.ops[w].pc.result == Some(row)
  {
    InitInv();
    RunKeepsInv(INIT, acts);
    var s := Run(INIT, acts);
    assert OpOk(s, w, s.ops[w]) && RowHistoryOk(s, s.ops[w].op.id);
    SaveSucceedsExactlyWhenUnchanged(acts, w);
  }

  /* ---------- each cause is real ---------- */

  // A row is created; a get misses the cache and reads the row, and is then suspended.
  function ReaderFetches(t: Task): seq<Action> {
    [Begin(0, InsertOp(1, t)), Advance(0, true, 0), Begin(1, GetOp(1)), Advance(1, true, 0), Advance(1, true, 0)]
  }

  // An update commits and removes the entry; then the reader puts back what it had fetched.
  function WriterPasses(r: Request, clock: int): seq<Action> {
    [Begin(2, UpdateOp(1, r)), Advance(2, true, 0), Advance(2, true, clock), Advance(2, true, 0), Advance(1, true, 0)]
  }

  function AfterFetch(t: Task): State {
    State(map[1 := Row(t, 1)], map[], map[1 := [Change(Some(t), None, 1, NotNeeded)]],
          map[0 := Running(InsertOp(1, t), Done(Some(t))), 1 := Running(GetOp(1), CacheSet(t, 0))], 5)
  }

  lemma {:induction false} RunAppend(s: State, a: seq<Action>, b: seq<Action>)
    ensures Run(s, a + b) == Run(Run(s, a), b)
    decreases |a|
  {
    if a == [] {
      assert a + b == b;
    } else {
      assert (a + b)[1..] == a[1..] + b;
      RunAppend(Next(s, a[0]), a[1..], b);
    }
  }

  lemma RunFive(s: State, a: Action, b: Action, c: Action, d: Action, e: Action)
    ensures Run(s, [a, b, c, d, e]) == Next(Next(Next(Next(Next(s, a), b), c), d), e)
  {
    assert [a, b] == [a] + [b] && [a, b, c] == [a, b] + [c];
    assert [a, b, c, d] == [a, b, c] + [d] && [a, b, c, d, e] == [a, b, c, d] + [e];
    RunAppend(s, [a], [b]);
    RunAppend(s, [a, b], [c]);
    RunAppend(s, [a, b, c], [d]);
    RunAppend(s, [a, b, c, d], [e]);
  }

  lemma ReaderFetchesState(t: Task)
    ensures Run(INIT, ReaderFetches(t)) == AfterFetch(t)
  {
    var c0 := Change(Some(t), None, 1, NotNeeded);
    assert [] + [c0] == [c0];
    var s2 := State(map[1 := Row(t, 1)], map[], map[1 := [c0]], map[0 := Running(InsertOp(1, t), Done(Some(t)))], 2);
    assert Next(Next(INIT, Begin(0, InsertOp(1, t))), Advance(0, true, 0)) == s2;
    RunFive(INIT, Begin(0, InsertOp(1, t)), Advance(0, true, 0), Begin(1, GetOp(1)), Advance(1, true, 0), Advance(1, true, 0));
  }

  function Written(t: Task, t': Task, r: Request): State {
    State(map[1 := Row(t', 7)], map[],
          map[1 := [Change(Some(t), None, 1, NotNeeded), Change(Some(t'), Some(0), 7, Removed(8))]],
          AfterFetch(t).ops[2 := Running(UpdateOp(1, r), Done(Some(t')))], 9)
  }

  function ReadyToSave(t: Task, r: Request): State {
    AfterFetch(t).(ops := AfterFetch(t).ops[2 := Running(UpdateOp(1, r), Save(t, 1, 0))], now := 7)
  }

  function Saved(t: Task, t': Task, r: Request): State {
    State(map[1 := Row(t', 7)], map[],
          map[1 := [Change(Some(t), None, 1, NotNeeded), Change(Some(t'), Some(0), 7, Pending(2))]],
          AfterFetch(t).ops[2 := Running(UpdateOp(1, r), Remove(Some(1), Some(t')))], 8)
  }

  lemma WriterReads(t: Task, r: Request)
    ensures Next(Next(AfterFetch(t), Begin(2, UpdateOp(1, r))), Advance(2, true, 0)) == ReadyToSave(t, r)
  {}

  lemma WriterSaves(t: Task, r: Request, clock: int)
    requires Applied(t, r, clock) != t
    ensures Next(ReadyToSave(t, r), Advance(2, true, clock)) == Saved(t, Applied(t, r, clock), r)
  {
    var c0, c1 := Change(Some(t), None, 1, NotNeeded), Change(Some(Applied(t, r, clock)), Some(0), 7, Pending(2));
    assert [c0] + [c1] == [c0, c1];
  }

  lemma WriterRemoves(t: Task, t': Task, r: Request)
    ensures Next(Saved(t, t', r), Advance(2, true, 0)) == Written(t, t', r)
  {
    var c0, c1 := Change(Some(t), None, 1, NotNeeded), Change(Some(t'), Some(0), 7, Pending(2));
    assert [c0, c1][1 := c1.(removal := Removed(8))] == [c0, c1.(removal := Removed(8))];
  }

  lemma WriterState(t: Task, r: Request, clock: int)
    requires Applied(t, r, clock) != t
    ensures Next(Next(Next(Next(AfterFetch(t), Begin(2, UpdateOp(1, r))), Advance(2, true, 0)), Advance(2, true, clock)),
                 Advance(2, true, 0))
            == Written(t, Applied(t, r, clock), r)
  {
    WriterReads(t, r);
    WriterSaves(t, r, clock);
    WriterRemoves(t, Applied(t, r, clock), r);
  }

  /** Invalidating after the commit is not enough: with no failure, nothing in flight and every
      removal made, a reader overtaken by an update leaves the old task in the cache. */
  lemma LatePutStaysStale(t: Task, r: Request, clock: int)
    requires Applied(t, r, clock) != t
    ensures var s := Run(INIT, ReaderFetches(t) + WriterPasses(r, clock));
      && (forall w | w in s.ops :: s.ops[w].pc.Done?)
      && (forall j | 0 <= j < |Hist(s, 1)| :: !Hist(s, 1)[j].removal.Missed?)
      && !Coherent(s)
  {
    ReaderFetchesState(t);
    WriterState(t, r, clock);
    RunFive(AfterFetch(t), Begin(2, UpdateOp(1, r)), Advance(2, true, 0), Advance(2, true, clock),
            Advance(2, true, 0), Advance(1, true, 0));
    RunAppend(INIT, ReaderFetches(t), WriterPasses(r, clock));
    var s := Next(Written(t, Applied(t, r, clock), r), Advance(1, true, 0));
    assert s.cache[1].task == t && s.table[1].task == Applied(t, r, clock);
  }
}
