/**
 * The consume loop of task-svc as it is written: poll, handle, commit, and on an exception log and
 * go on. Each pass of the loop is a few events of the delivery machine, so whatever holds over
 * every run of the machine holds of the loop.
 */
module DeliveryConsumer {
  import opened Prelude
  import opened Delivery

  // What one pass of the loop meets: a ConsumeException, an empty poll or end of partition, or a
  // record whose handling may throw and whose commit may fail.
  datatype Poll =
    | ConsumeError
    | Nothing
    | Record(throws: bool, applied: bool, commitOk: bool, now: int)

  function PassEvents(i: SessionId, p: Poll): seq<Event> {
    match p
    case ConsumeError => []
    case Nothing => []
    case Record(throws, applied, commitOk, now) =>
      if throws then [Consume(i), HandleFails(i, applied, now)] else [Consume(i), Handle(i, now), Commit(i, commitOk)]
  }

  function LoopEvents(i: SessionId, polls: seq<Poll>): seq<Event> {
    if polls == [] then [] else LoopEvents(i, polls[..|polls| - 1]) + PassEvents(i, polls[|polls| - 1])
  }

  // Consume, handle and commit, or consume and fail.
  function PassSteps(s: Sys, i: SessionId, throws: bool, applied: bool, commitOk: bool, now: int): Sys {
    if throws then Step(Step(s, Consume(i)), HandleFails(i, applied, now))
    else Step(Step(Step(s, Consume(i)), Handle(i, now)), Commit(i, commitOk))
  }

  // The session owns the partition and has nothing in hand.
  predicate Idle(s: Sys, i: SessionId) {
    s.owner == Some(i) && i in s.sessions && s.sessions[i].hand == None && s.sessions[i].position <= |s.log|
  }

  lemma ConsumeState(s: Sys, i: SessionId)
    requires Idle(s, i) && s.sessions[i].position < |s.log|
    ensures var p := s.sessions[i].position; var t := Step(s, Consume(i));
      && t.log == s.log && t.owner == s.owner && t.committed == s.committed && t.tasks == s.tasks
      && InHand(t, i, false) && t.sessions[i].position == p + 1 && t.sessions[i].hand == Some(Hand(p, false))
  {}

  lemma FailState(s: Sys, i: SessionId, p: nat, applied: bool, now: int)
    requires InHand(s, i, false) && s.owner == Some(i) && s.sessions[i].position == p + 1 && s.sessions[i].hand == Some(Hand(p, false))
    ensures var t := Step(s, HandleFails(i, applied, now));
      && Idle(t, i) && t.log == s.log && t.sessions[i].position == p + 1 && t.committed == s.committed
      && t.tasks == (if Accept(s.log[p]).Some? && applied then Ensure(s.tasks, Accept(s.log[p]).value, now) else s.tasks)
  {}

  lemma HandleState(s: Sys, i: SessionId, p: nat, now: int)
    requires InHand(s, i, false) && s.owner == Some(i) && s.sessions[i].position == p + 1 && s.sessions[i].hand == Some(Hand(p, false))
    ensures var t := Step(s, Handle(i, now));
      && t.log == s.log && t.owner == s.owner && t.committed == s.committed && InHand(t, i, true)
      && t.sessions[i].position == p + 1 && t.sessions[i].hand == Some(Hand(p, true))
      && t.tasks == (if Accept(s.log[p]).Some? then Ensure(s.tasks, Accept(s.log[p]).value, now) else s.tasks)
  {}

  lemma CommitState(s: Sys, i: SessionId, p: nat, ok: bool)
    requires InHand(s, i, true) && s.owner == Some(i) && s.sessions[i].position == p + 1 && s.sessions[i].hand == Some(Hand(p, true))
    ensures var t := Step(s, Commit(i, ok));
      && Idle(t, i) && t.log == s.log && t.sessions[i].position == p + 1 && t.tasks == s.tasks
      && t.committed == (if ok then Some(p + 1) else s.committed)
  {}

  lemma NothingToConsume(s: Sys, i: SessionId, throws: bool, applied: bool, commitOk: bool, now: int)
    requires Idle(s, i) && s.sessions[i].position == |s.log|
    ensures PassSteps(s, i, throws, applied, commitOk, now) == s
  {
    assert Step(s, Consume(i)) == s;
  }

  // What one pass leaves.
  lemma PassState(s: Sys, i: SessionId, throws: bool, applied: bool, commitOk: bool, now: int)
    requires Idle(s, i)
    ensures var p := s.sessions[i].position; var t := PassSteps(s, i, throws, applied, commitOk, now);
      && Idle(t, i) && t.log == s.log && t.sessions[i].position == (if p < |s.log| then p + 1 else p)
      && t.committed == (if p < |s.log| && !throws && commitOk then Some(p + 1) else s.committed)
      && t.tasks == (if p < |s.log| && Accept(s.log[p]).Some? && (!throws || applied)
                     then Ensure(s.tasks, Accept(s.log[p]).value, now) else s.tasks)
  {
    var p := s.sessions[i].position;
    if p == |s.log| {
      NothingToConsume(s, i, throws, applied, commitOk, now);
    } else {
      ConsumeState(s, i);
      var t := Step(s, Consume(i));
      if throws {
        FailState(t, i, p, applied, now);
      } else {
        HandleState(t, i, p, now);
        CommitState(Step(t, Handle(i, now)), i, p, commitOk);
      }
    }
  }

  class Consumer {
    const id: SessionId
    const log: seq<Message>
    var position: nat
    var committed: Option<nat>
    var tasks: map<OrderId, Task>
    ghost var sys: Sys

    // The fields are what this session, the partition's owner, sees of the machine.
    ghost predicate Valid()
      reads this
    {
      && sys.log == log && sys.tasks == tasks && sys.committed == committed && sys.owner == Some(id)
      && id in sys.sessions && sys.sessions[id].position == position && sys.sessions[id].hand == None
      && position <= |log|
    }

    // A new session joins the group, in whatever state earlier ones left it.
    constructor (id: SessionId, ghost before: Sys, log: seq<Message>, committed: Option<nat>, tasks: map<OrderId, Task>)
      requires Inv(before) && before.log == log && before.committed == committed && before.tasks == tasks
      requires id !in before.sessions && forall p | p in before.failures + before.commits :: p.0 != id
      ensures Valid() && sys == Step(before, Join(id)) && Inv(sys) && this.id == id
      ensures position == if committed.Some? then committed.value else |log|
    {
      this.id, this.log, this.committed, this.tasks := id, log, committed, tasks;
      position := if committed.Some? then committed.value else |log|;
      sys := Step(before, Join(id));
      new;
      StepKeepsInv(before, Join(id));
    }

    // True unless the insert fails; a record the filter refuses is skipped without a trace.
    method HandleMessage(m: Message, throws: bool, applied: bool, now: int) returns (ok: bool)
      modifies `tasks
      ensures ok == !throws
      ensures tasks == if Accept(m).Some? && (ok || applied) then Ensure(old(tasks), Accept(m).value, now) else old(tasks)
      ensures forall id | id in old(tasks) :: id in tasks && tasks[id] == old(tasks)[id]
      ensures Accept(m).Some? && (ok || applied) && Accept(m).value.orderId !in old(tasks) ==>
        var c := Accept(m).value;
        && tasks.Keys == old(tasks).Keys + {c.orderId}
        && tasks[c.orderId].title == DeliverOrder(c.orderId) && tasks[c.orderId].description == Some(DeliveryOf(c))
        && tasks[c.orderId].status == Todo && tasks[c.orderId].priority == High && tasks[c.orderId].dueDate == None
        && tasks[c.orderId].createdAt == now && tasks[c.orderId].updatedAt == now
    {
      if Accept(m).None? {
        return !throws;
      }
      var command := Accept(m).value;
      if throws && !applied {
        return false;
      }
      if command.orderId !in tasks {
        tasks := tasks[command.orderId := DeliveryTask(command, now)];
      }
      return !throws;
    }

    // A record is consumed before it is handled; nothing puts the position back if handling throws.
    method PassRecord(throws: bool, applied: bool, commitOk: bool, now: int)
      requires Valid()
      modifies this
      ensures Valid()
      ensures sys == PassSteps(old(sys), id, throws, applied, commitOk, now)
    {
      PassState(sys, id, throws, applied, commitOk, now);
      if position < |log| {
        var m := log[position];
        var offset := position;
        position := position + 1;
        var ok := HandleMessage(m, throws, applied, now);
        if ok && commitOk {
          committed := Some(offset + 1);
        }
      }
      sys := PassSteps(sys, id, throws, applied, commitOk, now);
    }

    method Pass(p: Poll)
      requires Valid()
      modifies this
      ensures Valid() && sys == Run(old(sys), PassEvents(id, p))
    {
      match p
      case ConsumeError =>
      case Nothing =>
      case Record(throws, applied, commitOk, now) =>
        PassRecord(throws, applied, commitOk, now);
        if throws {
          RunTwo(old(sys), Consume(id), HandleFails(id, applied, now));
        } else {
          RunThree(old(sys), Consume(id), Handle(id, now), Commit(id, commitOk));
        }
    }

    method Execute(polls: seq<Poll>)
      requires Valid()
      modifies this
      ensures Valid() && sys == Run(old(sys), LoopEvents(id, polls))
      ensures old(Inv(sys)) ==> Inv(sys)
    {
      var i := 0;
      while i < |polls|
        invariant 0 <= i <= |polls| && Valid()
        invariant sys == Run(old(sys), LoopEvents(id, polls[..i]))
      {
        ghost var before := LoopEvents(id, polls[..i]);
        assert polls[..i + 1][..i] == polls[..i];
        Pass(polls[i]);
        RunAppend(old(sys), before, PassEvents(id, polls[i]));
        i := i + 1;
      }
      assert polls[..i] == polls;
      if old(Inv(sys)) {
        RunKeepsInv(old(sys), LoopEvents(id, polls));
      }
    }
  }

  lemma RunThree(s: Sys, a: Event, b: Event, c: Event)
    ensures Run(s, [a, b, c]) == Step(Step(Step(s, a), b), c)
  {
    assert [a, b, c] == [a, b] + [c];
    RunAppend(s, [a, b], [c]);
    RunTwo(s, a, b);
  }
}
