/**
 * task-svc: the consumer of OrderCreated and the delivery tasks it makes, for one partition of
 * the topic. The position of a session lives in memory; the committed offset lives in the broker.
 * The loop never seeks back, so a record whose handling failed is behind the position for good.
 */
module Delivery {
  import opened Prelude
  import W = Text

  type OrderId = nat
  type SessionId = nat

  /* ---------- the filter ---------- */

  // A string that either parses as a GUID or does not.
  datatype GuidText = Guid(id: OrderId) | NotGuid(text: string)

  datatype Message =
    | Blank
    | Malformed
    | NullJson
    | Json(eventType: Option<string>, schemaVersion: int, orderId: Option<GuidText>,
           userId: Option<string>, cartId: Option<string>, correlationId: Option<string>, lineCount: int)

  datatype Command = Command(orderId: OrderId, userId: string, cartId: string, correlationId: string, lineCount: int)

  function Trim(s: string): string {
    W.Trim(s, W.IsWhiteSpace)
  }

  // !string.IsNullOrWhiteSpace(s)
  predicate HasText(s: Option<string>) {
    s.Some? && W.TrimStart(s.value, W.IsWhiteSpace) != ""
  }

  predicate AllWhiteSpace(s: string) {
    forall i | 0 <= i < |s| :: W.IsWhiteSpace(s[i])
  }

  lemma HasTextExactlyWhen(s: string)
    ensures HasText(Some(s)) <==> !AllWhiteSpace(s)
  {
    W.TrimStartCuts(s, W.IsWhiteSpace);
    var t := W.TrimStart(s, W.IsWhiteSpace);
    if t != "" {
      assert s[|s| - |t|] == t[0];
    }
  }

  // The command a record asks for, if it gets past every check.
  function Accept(m: Message): Option<Command> {
    if !m.Json? || m.eventType != Some("OrderCreated") || m.schemaVersion < 1 then None
    else if m.orderId.None? || m.orderId.value.NotGuid?
            || !HasText(m.userId) || !HasText(m.cartId) || !HasText(m.correlationId) then None
    else Some(Command(m.orderId.value.id, Trim(m.userId.value), Trim(m.cartId.value),
                      Trim(m.correlationId.value), m.lineCount))
  }

  /** The filter: a JSON record of an OrderCreated event of version 1 or later, with a GUID and with
      text in its three string fields, asks for the delivery of that order; no other record asks
      for anything. */
  lemma AcceptsExactlyWhen(m: Message)
    ensures Accept(m).Some? <==>
      && m.Json? && m.eventType == Some("OrderCreated") && m.schemaVersion >= 1
      && m.orderId.Some? && m.orderId.value.Guid?
      && m.userId.Some? && !AllWhiteSpace(m.userId.value)
      && m.cartId.Some? && !AllWhiteSpace(m.cartId.value)
      && m.correlationId.Some? && !AllWhiteSpace(m.correlationId.value)
    ensures Accept(m).Some? ==> var c := Accept(m).value;
      && c.orderId == m.orderId.value.id && c.userId == Trim(m.userId.value) && c.cartId == Trim(m.cartId.value)
      && c.correlationId == Trim(m.correlationId.value) && c.lineCount == m.lineCount
  {
    if m.Json? && m.userId.Some? && m.cartId.Some? && m.correlationId.Some? {
      HasTextExactlyWhen(m.userId.value);
      HasTextExactlyWhen(m.cartId.value);
      HasTextExactlyWhen(m.correlationId.value);
    }
  }

  /* ---------- the tasks table ---------- */

  datatype Status = Todo | InProgress | Done
  datatype Priority = Low | Medium | High
  datatype Title = DeliverOrder(id: OrderId) | Text(text: string)
  datatype Description = DeliveryOf(command: Command) | Note(text: string)

  datatype Task = Task(title: Title, description: Option<Description>, status: Status, priority: Priority,
                       dueDate: Option<int>, createdAt: int, updatedAt: int)

  function DeliveryTask(c: Command, now: int): Task {
    Task(DeliverOrder(c.orderId), Some(DeliveryOf(c)), Todo, High, None, now, now)
  }

  // The insert; a duplicate primary key (23505) is not an error.
  function Ensure(tasks: map<OrderId, Task>, c: Command, now: int): map<OrderId, Task> {
    if c.orderId in tasks then tasks else tasks[c.orderId := DeliveryTask(c, now)]
  }

  /* ---------- the machine ---------- */

  datatype Hand = Hand(offset: nat, finished: bool)

  datatype Session = Session(start: nat, position: nat, hand: Option<Hand>)

  /** History: `handled` (offsets whose handler returned after an insert attempt), `failures` and
      `commits` (by session), `delivered` (orders the consumer inserted a task for, with the
      command), `deleted` and `created` (tasks users deleted, and tasks users made). */
  datatype Sys = Sys(log: seq<Message>, tasks: map<OrderId, Task>, committed: Option<nat>, base: nat,
                     sessions: map<SessionId, Session>, owner: Option<SessionId>,
                     handled: set<nat>, failures: set<(SessionId, nat)>, commits: set<(SessionId, nat)>,
                     delivered: map<OrderId, Command>, deleted: set<OrderId>, created: set<OrderId>)

  function Init(log: seq<Message>): Sys {
    Sys(log, map[], None, |log|, map[], None, {}, {}, {}, map[], {}, {})
  }

  datatype Event =
    | Append(m: Message)
    | Join(i: SessionId)                            // no committed offset: begin at the end of the log
    | Consume(i: SessionId)                         // moves the in-memory position
    | Handle(i: SessionId, now: int)
    | HandleFails(i: SessionId, applied: bool, now: int)  // throws, possibly after the insert took effect
    | Commit(i: SessionId, ok: bool)                // a failed commit is logged and the loop goes on
    | Leave(i: SessionId)
    | UserPut(id: OrderId, task: Task)              // create or update through the API
    | UserDelete(id: OrderId)

  function SetSession(s: Sys, i: SessionId, x: Session): Sys {
    s.(sessions := s.sessions[i := x])
  }

  predicate InHand(s: Sys, i: SessionId, finished: bool) {
    i in s.sessions && s.sessions[i].hand.Some? && s.sessions[i].hand.value.finished == finished
    && s.sessions[i].hand.value.offset < |s.log|
  }

  function Insert(s: Sys, c: Command, now: int): Sys {
    s.(tasks := Ensure(s.tasks, c, now),
       delivered := if c.orderId in s.tasks then s.delivered else s.delivered[c.orderId := c])
  }

  function DoHandle(s: Sys, i: SessionId, now: int): Sys
    requires InHand(s, i, false)
  {
    var x := s.sessions[i];
    var o := x.hand.value.offset;
    var s' := SetSession(s, i, x.(hand := Some(Hand(o, true))));
    match Accept(s.log[o])
    case None => s'
    case Some(c) => Insert(s', c, now).(handled := s.handled + {o})
  }

  function DoFail(s: Sys, i: SessionId, applied: bool, now: int): Sys
    requires InHand(s, i, false)
  {
    var x := s.sessions[i];
    var o := x.hand.value.offset;
    var s' := SetSession(s, i, x.(hand := None)).(failures := s.failures + {(i, o)});
    if applied && Accept(s.log[o]).Some? then Insert(s', Accept(s.log[o]).value, now) else s'
  }

  function DoCommit(s: Sys, i: SessionId, ok: bool): Sys
    requires InHand(s, i, true)
  {
    var x := s.sessions[i];
    var o := x.hand.value.offset;
    var s' := SetSession(s, i, x.(hand := None));
    if ok && s.owner == Some(i) then s'.(committed := Some(o + 1), commits := s.commits + {(i, o)}) else s'
  }

  function Step(s: Sys, e: Event): Sys {
    match e
    case Append(m) => s.(log := s.log + [m])
    case Join(i) =>
      if i in s.sessions || exists p | p in s.failures + s.commits :: p.0 == i then s
      else
        var from := if s.committed.Some? then s.committed.value else |s.log|;
        SetSession(s, i, Session(from, from, None)).(owner := Some(i), base := if s.committed.Some? then s.base else from)
    case Consume(i) =>
      if i in s.sessions && s.sessions[i].hand.None? && s.sessions[i].position < |s.log| then
        var x := s.sessions[i];
        SetSession(s, i, x.(position := x.position + 1, hand := Some(Hand(x.position, false))))
      else s
    case Handle(i, now) => if InHand(s, i, false) then DoHandle(s, i, now) else s
    case HandleFails(i, applied, now) => if InHand(s, i, false) then DoFail(s, i, applied, now) else s
    case Commit(i, ok) => if InHand(s, i, true) then DoCommit(s, i, ok) else s
    case Leave(i) => s.(sessions := s.sessions - {i}, owner := if s.owner == Some(i) then None else s.owner)
    case UserPut(id, task) =>
      s.(tasks := s.tasks[id := task], created := if id in s.tasks then s.created else s.created + {id})
    case UserDelete(id) => s.(tasks := s.tasks - {id}, deleted := s.deleted + {id})
  }

  function Run(s: Sys, es: seq<Event>): Sys
    decreases |es|
  {
    if es == [] then s else Run(Step(s, es[0]), es[1..])
  }

  /* ---------- what becomes of a record ---------- */

  // It failed, and the same session committed a later record of the partition.
  ghost predicate Overtaken(s: Sys, o: nat) {
    exists i, o' :: (i, o) in s.failures && (i, o') in s.commits && o < o'
  }

  ghost predicate HasFate(s: Sys, o: nat) {
    o < |s.log| && (Accept(s.log[o]).None? || o in s.handled || Overtaken(s, o))
  }

  ghost predicate Passed(s: Sys, i: SessionId, o: nat) {
    o < |s.log| && (Accept(s.log[o]).None? || o in s.handled || (i, o) in s.failures)
  }

  ghost predicate SessionOk(s: Sys, i: SessionId, x: Session) {
    && x.start <= x.position <= |s.log|
    && (x.hand.Some? ==>
          && x.start <= x.hand.value.offset && x.hand.value.offset + 1 == x.position
          && (x.hand.value.finished ==> Accept(s.log[x.hand.value.offset]).None? || x.hand.value.offset in s.handled))
    && (forall o | x.start <= o < (if x.hand.Some? then x.position - 1 else x.position) :: Passed(s, i, o))
  }

  ghost predicate OffsetsOk(s: Sys) {
    && (s.committed.Some? ==> s.base <= s.committed.value <= |s.log| && forall o | s.base <= o < s.committed.value :: HasFate(s, o))
    && (s.owner.Some? ==>
          && s.owner.value in s.sessions
          && var x := s.sessions[s.owner.value];
             && s.base <= x.start && (forall o | s.base <= o < x.start :: HasFate(s, o))
             && (s.committed.Some? ==>
                   s.committed.value <= (if x.hand.Some? then x.position - 1 else x.position)))
  }

  // A handled record's order had a row then, and has one still unless a user deleted it.
  ghost predicate HandledOk(s: Sys, o: nat) {
    o < |s.log| && Accept(s.log[o]).Some?
    && (Accept(s.log[o]).value.orderId in s.tasks || Accept(s.log[o]).value.orderId in s.deleted)
  }

  // A delivered order was asked for by a record.
  ghost predicate DeliveredOk(s: Sys, id: OrderId) {
    id in s.delivered && s.delivered[id].orderId == id
    && exists o | 0 <= o < |s.log| :: Accept(s.log[o]) == Some(s.delivered[id])
  }

  ghost predicate TasksOk(s: Sys) {
    && (forall o | o in s.handled :: HandledOk(s, o))
    && (forall id | id in s.delivered :: DeliveredOk(s, id))
    && (forall id | id in s.tasks :: id in s.delivered || id in s.created)
  }

  ghost predicate Inv(s: Sys) {
    (forall i | i in s.sessions :: SessionOk(s, i, s.sessions[i])) && OffsetsOk(s) && TasksOk(s)
  }

  // The history only grows.
  ghost predicate Grows(s: Sys, t: Sys) {
    && |s.log| <= |t.log| && t.log[..|s.log|] == s.log
    && s.handled <= t.handled && s.failures <= t.failures && s.commits <= t.commits
  }

  lemma GrowsKeepsFates(s: Sys, t: Sys)
    requires Grows(s, t)
    ensures forall o | HasFate(s, o) :: HasFate(t, o)
    ensures forall i, o | Passed(s, i, o) :: Passed(t, i, o)
    ensures forall i, x | SessionOk(s, i, x) :: SessionOk(t, i, x)
  {
    forall o: nat | HasFate(s, o) ensures HasFate(t, o) {
      assert t.log[o] == t.log[..|s.log|][o];
      if Overtaken(s, o) {
        var i, o' :| (i, o) in s.failures && (i, o') in s.commits && o < o';
        assert (i, o) in t.failures && (i, o') in t.commits;
      }
    }
    forall i, o: nat | Passed(s, i, o) ensures Passed(t, i, o) {
      assert t.log[o] == t.log[..|s.log|][o];
    }
    forall i, x | SessionOk(s, i, x) ensures SessionOk(t, i, x) {
      if x.hand.Some? {
        assert t.log[x.hand.value.offset] == t.log[..|s.log|][x.hand.value.offset];
      }
    }
  }

  lemma StepGrows(s: Sys, e: Event)
    ensures Grows(s, Step(s, e))
  {}

  lemma StepKeepsSession(s: Sys, e: Event, i: SessionId)
    requires i in s.sessions && SessionOk(s, i, s.sessions[i]) && i in Step(s, e).sessions
    ensures SessionOk(Step(s, e), i, Step(s, e).sessions[i])
  {
    StepGrows(s, e);
    GrowsKeepsFates(s, Step(s, e));
    assert SessionOk(Step(s, e), i, s.sessions[i]);
    match e
    case Consume(j) => if j == i { ConsumedSession(s, i); }
    case Handle(j, now) => if j == i && InHand(s, i, false) { HandledSession(s, i, now); }
    case HandleFails(j, applied, now) => if j == i && InHand(s, i, false) { FailedSession(s, i, applied, now); }
    case Commit(j, ok) => if j == i && InHand(s, i, true) { CommittedSession(s, i, ok); }
    case _ =>
  }

  lemma ConsumedSession(s: Sys, i: SessionId)
    requires i in s.sessions && SessionOk(Step(s, Consume(i)), i, s.sessions[i])
    ensures var t := Step(s, Consume(i)); i in t.sessions && SessionOk(t, i, t.sessions[i])
  {}

  lemma HandledSession(s: Sys, i: SessionId, now: int)
    requires InHand(s, i, false) && SessionOk(DoHandle(s, i, now), i, s.sessions[i])
    ensures var t := DoHandle(s, i, now); SessionOk(t, i, t.sessions[i])
  {}

  lemma FailedSession(s: Sys, i: SessionId, applied: bool, now: int)
    requires InHand(s, i, false) && SessionOk(DoFail(s, i, applied, now), i, s.sessions[i])
    ensures var t := DoFail(s, i, applied, now); SessionOk(t, i, t.sessions[i])
  {
    var t := DoFail(s, i, applied, now);
    assert (i, s.sessions[i].hand.value.offset) in t.failures;
  }

  lemma CommittedSession(s: Sys, i: SessionId, ok: bool)
    requires InHand(s, i, true) && SessionOk(DoCommit(s, i, ok), i, s.sessions[i])
    ensures var t := DoCommit(s, i, ok); SessionOk(t, i, t.sessions[i])
  {}

  lemma StepKeepsSessions(s: Sys, e: Event)
    requires Inv(s)
    ensures var t := Step(s, e); forall i | i in t.sessions :: SessionOk(t, i, t.sessions[i])
  {
    var t := Step(s, e);
    forall i | i in t.sessions ensures SessionOk(t, i, t.sessions[i]) {
      if i in s.sessions {
        StepKeepsSession(s, e, i);
      }
    }
  }

  // What the session passed since its start, once it has committed the record in hand.
  lemma FateAtCommit(s: Sys, t: Sys, i: SessionId, x: Session, o: nat)
    requires SessionOk(s, i, x) && x.hand.Some? && x.hand.value.finished && x.start <= o <= x.hand.value.offset
    requires Grows(s, t) && (i, x.hand.value.offset) in t.commits
    ensures HasFate(t, o)
  {
    GrowsKeepsFates(s, t);
    if o < x.hand.value.offset {
      assert Passed(s, i, o);
    } else {
      assert t.log[o] == t.log[..|s.log|][o];
    }
  }

  lemma CommitKeepsOffsets(s: Sys, i: SessionId, ok: bool)
    requires Inv(s) && InHand(s, i, true)
    ensures OffsetsOk(DoCommit(s, i, ok))
  {
    var t := DoCommit(s, i, ok);
    assert t == Step(s, Commit(i, ok));
    StepGrows(s, Commit(i, ok));
    GrowsKeepsFates(s, t);
    if ok && s.owner == Some(i) {
      var x := s.sessions[i];
      assert SessionOk(s, i, x);
      forall o | s.base <= o < t.committed.value ensures HasFate(t, o) {
        if o < x.start {
          assert HasFate(s, o);
        } else {
          FateAtCommit(s, t, i, x, o);
        }
      }
    }
  }

  lemma OtherStepKeepsOffsets(s: Sys, e: Event)
    requires OffsetsOk(s) && !e.Commit?
    requires s.owner.Some? ==> SessionOk(s, s.owner.value, s.sessions[s.owner.value])
    ensures OffsetsOk(Step(s, e))
  {
    StepGrows(s, e);
    GrowsKeepsFates(s, Step(s, e));
  }

  lemma StepKeepsOffsets(s: Sys, e: Event)
    requires Inv(s)
    ensures OffsetsOk(Step(s, e))
  {
    if !e.Commit? {
      OtherStepKeepsOffsets(s, e);
    } else if InHand(s, e.i, true) {
      CommitKeepsOffsets(s, e.i, e.ok);
    }
  }

  // More records, and no change of the table.
  lemma MoreRecordsKeepTasks(s: Sys, t: Sys)
    requires TasksOk(s) && |s.log| <= |t.log| && t.log[..|s.log|] == s.log
    requires t.tasks == s.tasks && t.handled == s.handled
    requires t.delivered == s.delivered && t.deleted == s.deleted && t.created == s.created
    ensures TasksOk(t)
  {
    forall o | o in t.handled ensures HandledOk(t, o) {
      assert HandledOk(s, o) && t.log[o] == t.log[..|s.log|][o];
    }
    forall id | id in t.delivered ensures DeliveredOk(t, id) {
      assert DeliveredOk(s, id);
      var o :| 0 <= o < |s.log| && Accept(s.log[o]) == Some(s.delivered[id]);
      assert t.log[o] == t.log[..|s.log|][o];
    }
  }

  // The insert a record asks for.
  lemma InsertKeepsTasks(s: Sys, o: nat, now: int)
    requires TasksOk(s) && o < |s.log| && Accept(s.log[o]).Some?
    ensures var t := Insert(s, Accept(s.log[o]).value, now); TasksOk(t) && HandledOk(t, o)
  {
    var t := Insert(s, Accept(s.log[o]).value, now);
    forall p | p in t.handled ensures HandledOk(t, p) {
      assert HandledOk(s, p);
    }
    forall id | id in t.delivered ensures DeliveredOk(t, id) {
      assert id in s.delivered ==> DeliveredOk(s, id);
    }
  }

  lemma HandleKeepsTasks(s: Sys, i: SessionId, now: int)
    requires TasksOk(s) && InHand(s, i, false)
    ensures TasksOk(DoHandle(s, i, now))
  {
    var o := s.sessions[i].hand.value.offset;
    var s' := SetSession(s, i, s.sessions[i].(hand := Some(Hand(o, true))));
    MoreRecordsKeepTasks(s, s');
    if Accept(s.log[o]).Some? {
      InsertKeepsTasks(s', o, now);
      var t := Insert(s', Accept(s.log[o]).value, now);
      forall p | p in t.handled + {o} ensures HandledOk(t.(handled := t.handled + {o}), p) {
        assert HandledOk(t, p);
      }
      forall id | id in t.delivered ensures DeliveredOk(t.(handled := t.handled + {o}), id) {
        assert DeliveredOk(t, id);
      }
    }
  }

  lemma FailKeepsTasks(s: Sys, i: SessionId, applied: bool, now: int)
    requires TasksOk(s) && InHand(s, i, false)
    ensures TasksOk(DoFail(s, i, applied, now))
  {
    var o := s.sessions[i].hand.value.offset;
    var s' := SetSession(s, i, s.sessions[i].(hand := None)).(failures := s.failures + {(i, o)});
    MoreRecordsKeepTasks(s, s');
    if applied && Accept(s.log[o]).Some? {
      InsertKeepsTasks(s', o, now);
    }
  }

  lemma UserKeepsTasks(s: Sys, e: Event)
    requires TasksOk(s) && (e.UserPut? || e.UserDelete?)
    ensures TasksOk(Step(s, e))
  {
    var t := Step(s, e);
    forall o | o in t.handled ensures HandledOk(t, o) {
      assert HandledOk(s, o);
    }
    forall id | id in t.delivered ensures DeliveredOk(t, id) {
      assert DeliveredOk(s, id);
    }
  }

  lemma StepKeepsTasks(s: Sys, e: Event)
    requires TasksOk(s)
    ensures TasksOk(Step(s, e))
  {
    match e
    case Handle(i, now) => if InHand(s, i, false) { HandleKeepsTasks(s, i, now); }
    case HandleFails(i, applied, now) => if InHand(s, i, false) { FailKeepsTasks(s, i, applied, now); }
    case UserPut(_, _) => UserKeepsTasks(s, e);
    case UserDelete(_) => UserKeepsTasks(s, e);
    case _ => MoreRecordsKeepTasks(s, Step(s, e));
  }

  lemma StepKeepsInv(s: Sys, e: Event)
    requires Inv(s)
    ensures Inv(Step(s, e))
  {
    StepKeepsSessions(s, e);
    StepKeepsOffsets(s, e);
    StepKeepsTasks(s, e);
  }

  lemma {:induction false} RunKeepsInv(s: Sys, es: seq<Event>)
    requires Inv(s)
    ensures Inv(Run(s, es))
    decreases |es|
  {
    if es != [] {
      StepKeepsInv(s, es[0]);
      RunKeepsInv(Step(s, es[0]), es[1..]);
    }
  }

  /** Every record from the base to below the committed offset was skipped by the filter, was
      handled, or failed and was overtaken in its session; so with no handler failure each of them
      that the filter accepts has its task, unless a user deleted it. */
  lemma CommittedRecordsHaveAFate(log: seq<Message>, es: seq<Event>)
    ensures var s := Run(Init(log), es);
      && (s.committed.Some? ==> s.base <= s.committed.value <= |s.log|)
      && (forall o | s.committed.Some? && s.base <= o < s.committed.value :: HasFate(s, o))
      && (forall o | s.committed.Some? && s.base <= o < s.committed.value && s.failures == {} && Accept(s.log[o]).Some? ::
            Accept(s.log[o]).value.orderId in s.tasks || Accept(s.log[o]).value.orderId in s.deleted)
  {
    RunKeepsInv(Init(log), es);
    var s := Run(Init(log), es);
    forall o | s.committed.Some? && s.base <= o < s.committed.value && s.failures == {} && Accept(s.log[o]).Some?
      ensures Accept(s.log[o]).value.orderId in s.tasks || Accept(s.log[o]).value.orderId in s.deleted
    {
      assert HasFate(s, o) && HandledOk(s, o);
    }
  }

  /* ---------- what is still to be handled ---------- */

  // A session has not come to the record, or has it in hand.
  predicate Coming(x: Session, o: nat) {
    x.position <= o || x.hand == Some(Hand(o, false))
  }

  // A session is on its way to the record, or the next session will begin at it or before it.
  ghost predicate Ahead(s: Sys, o: nat) {
    || (s.committed.Some? && s.committed.value <= o)
    || (exists i | i in s.sessions :: Coming(s.sessions[i], o))
  }

  lemma SessionStaysPast(s: Sys, e: Event, i: SessionId, o: nat)
    requires i in s.sessions && !Coming(s.sessions[i], o) && i in Step(s, e).sessions
    ensures !Coming(Step(s, e).sessions[i], o)
  {}

  // A new session begins past the record, and a commit is of a later one.
  lemma StaysPast(s: Sys, e: Event, o: nat)
    requires Inv(s) && !Ahead(s, o) && o < |s.log|
    ensures !Ahead(Step(s, e), o)
  {
    var t := Step(s, e);
    forall i | i in t.sessions ensures !Coming(t.sessions[i], o) {
      if i in s.sessions {
        SessionStaysPast(s, e, i, o);
      }
    }
    if e.Commit? && InHand(s, e.i, true) {
      assert SessionOk(s, e.i, s.sessions[e.i]) && !Coming(s.sessions[e.i], o);
    }
  }

  lemma NotHandledPast(s: Sys, e: Event, o: nat)
    requires !Ahead(s, o)
    ensures o in Step(s, e).handled ==> o in s.handled
  {
    if e.Handle? && InHand(s, e.i, false) {
      assert !Coming(s.sessions[e.i], o);
    }
  }

  /** A record that no session is coming to, and that the next session will not begin before, is
      handled by no continuation. */
  lemma {:induction false} NeverHandedAgain(s: Sys, es: seq<Event>, o: nat)
    requires Inv(s) && !Ahead(s, o) && o < |s.log|
    ensures o in Run(s, es).handled ==> o in s.handled
    decreases |es|
  {
    if es != [] {
      StaysPast(s, es[0], o);
      NotHandledPast(s, es[0], o);
      StepKeepsInv(s, es[0]);
      StepGrows(s, es[0]);
      NeverHandedAgain(Step(s, es[0]), es[1..], o);
    }
  }

  lemma {:induction false} RunAppend(s: Sys, a: seq<Event>, b: seq<Event>)
    ensures Run(s, a + b) == Run(Run(s, a), b)
    decreases |a|
  {
    if a == [] {
      assert a + b == b;
    } else {
      assert (a + b)[1..] == a[1..] + b;
      RunAppend(Step(s, a[0]), a[1..], b);
    }
  }

  // Session i fails on every record before o, and handles o.
  function HandleAt(s: Sys, i: SessionId, o: nat): seq<Event>
    requires i in s.sessions && s.sessions[i].hand.None? && s.sessions[i].position <= o < |s.log|
    decreases o - s.sessions[i].position
  {
    var s1 := Step(s, Consume(i));
    if s.sessions[i].position == o then [Consume(i), Handle(i, 0)]
    else [Consume(i), HandleFails(i, false, 0)] + HandleAt(Step(s1, HandleFails(i, false, 0)), i, o)
  }

  lemma RunTwo(s: Sys, a: Event, b: Event)
    ensures Run(s, [a, b]) == Step(Step(s, a), b)
  {
    assert [a, b] == [a] + [b];
    RunAppend(s, [a], [b]);
  }

  lemma {:induction false} HandleAtHandles(s: Sys, i: SessionId, o: nat)
    requires i in s.sessions && s.sessions[i].hand.None? && s.sessions[i].position <= o < |s.log|
    requires Accept(s.log[o]).Some?
    ensures o in Run(s, HandleAt(s, i, o)).handled
    decreases o - s.sessions[i].position
  {
    var s1 := Step(s, Consume(i));
    if s.sessions[i].position == o {
      RunTwo(s, Consume(i), Handle(i, 0));
    } else {
      var s2 := Step(s1, HandleFails(i, false, 0));
      HandleAtHandles(s2, i, o);
      RunTwo(s, Consume(i), HandleFails(i, false, 0));
      RunAppend(s, [Consume(i), HandleFails(i, false, 0)], HandleAt(s2, i, o));
    }
  }

  // A session lets go of what it has in hand.
  lemma ComesToIt(s: Sys, i: SessionId, o: nat) returns (es: seq<Event>)
    requires Inv(s) && i in s.sessions && Coming(s.sessions[i], o) && o < |s.log| && Accept(s.log[o]).Some?
    ensures o in Run(s, es).handled
  {
    var x := s.sessions[i];
    assert SessionOk(s, i, x);
    if x.hand == Some(Hand(o, false)) {
      es := [Handle(i, 0)];
    } else if x.hand.None? {
      HandleAtHandles(s, i, o);
      es := HandleAt(s, i, o);
    } else {
      var e := if x.hand.value.finished then Commit(i, false) else HandleFails(i, false, 0);
      var t := Step(s, e);
      HandleAtHandles(t, i, o);
      es := [e] + HandleAt(t, i, o);
      RunAppend(s, [e], HandleAt(t, i, o));
    }
  }

  // The next session begins at the committed offset.
  lemma JoinsBefore(s: Sys, o: nat) returns (es: seq<Event>)
    requires Inv(s) && s.committed.Some? && s.committed.value <= o < |s.log| && Accept(s.log[o]).Some?
    ensures o in Run(s, es).handled
  {
    var used := s.sessions.Keys + (set p | p in s.failures + s.commits :: p.0);
    var i := Above(used);
    assert forall p | p in s.failures + s.commits :: p.0 in used;
    var t := Step(s, Join(i));
    assert t.sessions[i] == Session(s.committed.value, s.committed.value, None);
    HandleAtHandles(t, i, o);
    es := [Join(i)] + HandleAt(t, i, o);
    RunAppend(s, [Join(i)], HandleAt(t, i, o));
  }

  /** A record that the filter accepts and that no handler has finished can still be handled exactly
      when a session is on its way to it, or has it in hand, or the committed offset is not beyond
      it: nothing else brings it back, and a group without a committed offset never goes back. */
  lemma CanBeHandledExactlyWhen(s: Sys, o: nat)
    requires Inv(s) && o < |s.log| && Accept(s.log[o]).Some? && o !in s.handled
    ensures (exists es :: o in Run(s, es).handled) <==> Ahead(s, o)
  {
    if Ahead(s, o) {
      if i :| i in s.sessions && Coming(s.sessions[i], o) {
        var es := ComesToIt(s, i, o);
        assert o in Run(s, es).handled;
      } else {
        var es := JoinsBefore(s, o);
        assert o in Run(s, es).handled;
      }
    } else {
      forall es ensures o !in Run(s, es).handled {
        NeverHandedAgain(s, es, o);
      }
    }
  }

  function Wanted(id: OrderId): Message {
    Json(Some("OrderCreated"), 1, Some(Guid(id)), Some("u"), Some("c"), Some("k"), 1)
  }

  // Two records arrive; the handler of the first throws.
  function FirstFails(): seq<Event> {
    [Join(0), Append(Wanted(7)), Append(Wanted(8)), Consume(0), HandleFails(0, false, 0)]
  }

  // The loop goes on: the second record is handled and its offset committed.
  function SecondCommits(): seq<Event> {
    [Consume(0), Handle(0, 0), Commit(0, true)]
  }

  lemma FirstFailsState()
    ensures Run(Init([]), FirstFails()) ==
            Sys([Wanted(7), Wanted(8)], map[], None, 0, map[0 := Session(0, 1, None)], Some(0), {}, {(0, 0)}, {}, map[], {}, {})
  {}

  lemma SecondCommitsState(s: Sys)
    requires s == Sys([Wanted(7), Wanted(8)], map[], None, 0, map[0 := Session(0, 1, None)], Some(0), {}, {(0, 0)}, {}, map[], {}, {})
    ensures var t := Run(s, SecondCommits());
      && t.log == s.log && t.committed == Some(2) && t.tasks.Keys == {8} && t.handled == {1}
      && t.sessions == map[0 := Session(0, 2, None)]
  {}

  /** The comment on the loop's catch block, that the partition will retry, fails here: the first
      record is lost, whatever happens next. */
  lemma FailedThenOvertakenIsLost()
    ensures var s := Run(Init([]), FirstFails() + SecondCommits());
      && s.log == [Wanted(7), Wanted(8)] && Accept(Wanted(7)).Some?
      && s.committed == Some(2) && s.tasks.Keys == {8}
      && !exists es :: 0 in Run(s, es).handled
  {
    FirstFailsState();
    SecondCommitsState(Run(Init([]), FirstFails()));
    RunAppend(Init([]), FirstFails(), SecondCommits());
    RunKeepsInv(Init([]), FirstFails() + SecondCommits());
    CanBeHandledExactlyWhen(Run(Init([]), FirstFails() + SecondCommits()), 0);
  }

  // One record arrives and is consumed; the process is replaced before it is handled.
  function RestartsEarly(): seq<Event> {
    [Join(0), Append(Wanted(7)), Consume(0), Leave(0), Join(1)]
  }

  lemma RestartState()
    ensures Run(Init([]), RestartsEarly()) ==
            Sys([Wanted(7)], map[], None, 1, map[1 := Session(1, 1, None)], Some(1), {}, {}, {}, map[], {}, {})
  {
    var s0 := Step(Step(Init([]), Join(0)), Append(Wanted(7)));
    var s1 := Step(Step(Step(s0, Consume(0)), Leave(0)), Join(1));
    assert RestartsEarly()[1..][1..][1..][1..] == [Join(1)];
    assert Run(Init([]), RestartsEarly()) == s1;
  }

  /** A session that ends before the group's first commit loses even a record that never failed:
      the next one begins at the end of the log, and no continuation handles the record. */
  lemma RestartBeforeFirstCommitLoses()
    ensures var s := Run(Init([]), RestartsEarly());
      && s.log == [Wanted(7)] && Accept(Wanted(7)).Some? && s.failures == {} && s.committed == None
      && !exists es :: 0 in Run(s, es).handled
  {
    RestartState();
    RunKeepsInv(Init([]), RestartsEarly());
    LostAtRestart(Run(Init([]), RestartsEarly()));
  }

  lemma LostAtRestart(s: Sys)
    requires Inv(s) && s == Sys([Wanted(7)], map[], None, 1, map[1 := Session(1, 1, None)], Some(1), {}, {}, {}, map[], {}, {})
    ensures Accept(Wanted(7)).Some? && !exists es :: 0 in Run(s, es).handled
  {
    CanBeHandledExactlyWhen(s, 0);
  }

  // A task as the consumer makes it: for its order, still to be done, urgent, and never changed.
  ghost predicate AsMade(s: Sys, id: OrderId)
    requires id in s.tasks
  {
    && id in s.delivered && s.tasks[id].title == DeliverOrder(id) && s.tasks[id].description == Some(DeliveryOf(s.delivered[id]))
    && s.tasks[id].status == Todo && s.tasks[id].priority == High && s.tasks[id].dueDate == None
    && s.tasks[id].createdAt == s.tasks[id].updatedAt
  }

  ghost predicate AllAsMade(s: Sys) {
    forall id | id in s.tasks :: AsMade(s, id)
  }

  lemma StepKeepsAsMade(s: Sys, e: Event)
    requires AllAsMade(s) && !e.UserPut?
    ensures AllAsMade(Step(s, e))
  {
    var t := Step(s, e);
    forall id | id in t.tasks ensures AsMade(t, id) {
      assert id in s.tasks ==> AsMade(s, id);
    }
  }

  lemma {:induction false} RunKeepsAsMade(s: Sys, es: seq<Event>)
    requires AllAsMade(s) && forall k | 0 <= k < |es| :: !es[k].UserPut?
    ensures AllAsMade(Run(s, es))
    decreases |es|
  {
    if es != [] {
      StepKeepsAsMade(s, es[0]);
      assert forall k | 0 <= k < |es[1..]| :: es[1..][k] == es[k + 1];
      RunKeepsAsMade(Step(s, es[0]), es[1..]);
    }
  }

  /** While users put no task of their own, every row is the delivery task of its order: described by
      the command of a record, to be done, of high priority, without a due date, and unchanged. */
  lemma TasksAreAsMade(log: seq<Message>, es: seq<Event>, id: OrderId)
    requires (forall k | 0 <= k < |es| :: !es[k].UserPut?) && id in Run(Init(log), es).tasks
    ensures var s := Run(Init(log), es); var task := s.tasks[id];
      && id in s.delivered && s.delivered[id].orderId == id && task.title == DeliverOrder(id)
      && task.description == Some(DeliveryOf(s.delivered[id])) && task.status == Todo && task.priority == High
      && task.dueDate == None && task.createdAt == task.updatedAt
      && exists o | 0 <= o < |s.log| :: Accept(s.log[o]) == Some(s.delivered[id])
  {
    RunKeepsAsMade(Init(log), es);
    RunKeepsInv(Init(log), es);
    assert AsMade(Run(Init(log), es), id) && DeliveredOk(Run(Init(log), es), id);
  }

  /* ---------- redelivery leaves a task alone ---------- */

  /** No step of the consumer, and so no redelivery, changes a task that exists. */
  lemma {:induction false} RedeliveryKeepsTasks(s: Sys, es: seq<Event>, id: OrderId)
    requires id in s.tasks
    requires forall k | 0 <= k < |es| :: !es[k].UserPut? && !es[k].UserDelete?
    ensures id in Run(s, es).tasks && Run(s, es).tasks[id] == s.tasks[id]
    decreases |es|
  {
    if es != [] {
      assert forall k | 0 <= k < |es[1..]| :: es[1..][k] == es[k + 1];
      RedeliveryKeepsTasks(Step(s, es[0]), es[1..], id);
    }
  }
}
