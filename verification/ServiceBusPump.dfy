/**
 * The Service Bus pump as it is written: receive a batch; for each message call the order service,
 * then complete or dead-letter the message. It acts on the transport machine, and each batch is one
 * of the machine's runs, so whatever holds over every run holds of the pump.
 */
module ServiceBusPump {
  import opened Prelude
  import OM = OrderMachine
  import opened Transport

  /** One received message: the call it starts, whatever else happens in the system until that
      call's await is over, and whether the broker accepts a settlement. */
  datatype Job = Job(m: MessageId, w: OM.WorkerId, meanwhile: seq<Event>, completes: bool, deadLetters: bool)

  datatype Outcome = WasCompleted | WasDeadLettered | Abandoned

  // The message is there to be received and its call can be made.
  predicate CanStart(s: Sys, j: Job) {
    j.m in s.bus && s.bus[j.m].state.Queued? && j.w !in s.orders.workers && BusPlan(s.bus[j.m].msg).Place?
  }

  // The lock is still this call's.
  predicate Holds(s: Sys, j: Job) {
    j.m in s.bus && s.bus[j.m].state == Locked(j.w)
  }

  // How the message is settled once the await is over: completed if the call returned and the
  // completion is accepted, else dead-lettered if that is accepted.
  function OutcomeOf(s: Sys, j: Job): Outcome {
    if !Holds(s, j) then Abandoned
    else if Finished(s.orders, j.w, true) && j.completes then WasCompleted
    else if (Finished(s.orders, j.w, true) || Finished(s.orders, j.w, false)) && j.deadLetters then WasDeadLettered
    else Abandoned
  }

  function AwaitEvents(j: Job): seq<Event> {
    [Receive(j.m, j.w)] + j.meanwhile
  }

  function SettleEvents(j: Job, o: Outcome): seq<Event> {
    match o
    case WasCompleted => [Complete(j.m)]
    case WasDeadLettered => [DeadLetter(j.m)]
    case Abandoned => []
  }

  function JobEvents(s: Sys, j: Job): seq<Event> {
    AwaitEvents(j) + SettleEvents(j, OutcomeOf(Run(s, AwaitEvents(j)), j))
  }

  // A message that throws before its call, or that cannot be dead-lettered, ends the batch.
  function BatchEvents(s: Sys, jobs: seq<Job>): seq<Event>
    decreases |jobs|
  {
    if jobs == [] || !CanStart(s, jobs[0]) then []
    else if OutcomeOf(Run(s, AwaitEvents(jobs[0])), jobs[0]).Abandoned? then JobEvents(s, jobs[0])
    else JobEvents(s, jobs[0]) + BatchEvents(Run(s, JobEvents(s, jobs[0])), jobs[1..])
  }

  function PumpEvents(s: Sys, batches: seq<seq<Job>>): seq<Event>
    decreases |batches|
  {
    if batches == [] then []
    else BatchEvents(s, batches[0]) + PumpEvents(Run(s, BatchEvents(s, batches[0])), batches[1..])
  }

  lemma {:induction false} RunAppend(s: Sys, a: seq<Event>, b: seq<Event>)
    ensures Run(s, a + b) == Run(Run(s, a), b)
    decreases |a|
  {
    if a == [] {
      assert a + b == b;
    } else {
      assert (a + b)[1..] == a[1..] + b;
      RunAppend(Step(s, a[0]), a[1..], b);
    }
  }

  lemma RunOne(s: Sys, e: Event)
    ensures Run(s, [e]) == Step(s, e)
  {}

  // Completed is for good.
  ghost predicate IsCompleted(s: Sys, m: MessageId) {
    m in s.bus && s.bus[m].state.Completed?
  }

  lemma {:induction false} CompletedStays(s: Sys, es: seq<Event>, m: MessageId)
    requires IsCompleted(s, m)
    ensures IsCompleted(Run(s, es), m) && Run(s, es).bus[m].msg == s.bus[m].msg
    decreases |es|
  {
    if es != [] {
      StepStays(s, es[0], m);
      CompletedStays(Step(s, es[0]), es[1..], m);
    }
  }

  lemma StepStays(s: Sys, e: Event, m: MessageId)
    requires IsCompleted(s, m)
    ensures IsCompleted(Step(s, e), m) && Step(s, e).bus[m].msg == s.bus[m].msg
  {
    match e
    case Deliver(i, w) => assert DoDeliver(s, i, w).bus == s.bus;
    case _ =>
  }

  // Completed only with a committed order for its key.
  ghost predicate CompletedWithOrder(s: Sys, m: MessageId) {
    IsCompleted(s, m) && BusPlan(s.bus[m].msg).Place? && Answered(s.orders, BusPlan(s.bus[m].msg).call.key)
  }

  // The batch goes on with the next message, or ends with this one.
  lemma BatchStep(s: Sys, jobs: seq<Job>, i: nat)
    requires i < |jobs| && CanStart(s, jobs[i])
    ensures var t := Run(s, JobEvents(s, jobs[i])); var o := OutcomeOf(Run(s, AwaitEvents(jobs[i])), jobs[i]);
      Run(s, BatchEvents(s, jobs[i..])) == if o.Abandoned? then t else Run(t, BatchEvents(t, jobs[i + 1..]))
  {
    var t := Run(s, JobEvents(s, jobs[i]));
    assert jobs[i..][0] == jobs[i] && jobs[i..][1..] == jobs[i + 1..];
    RunAppend(s, JobEvents(s, jobs[i]), BatchEvents(t, jobs[i + 1..]));
  }

  ghost predicate AllCompleted(s: Sys, jobs: seq<Job>, settled: seq<Outcome>) {
    |settled| <= |jobs| && forall k | 0 <= k < |settled| && settled[k].WasCompleted? :: IsCompleted(s, jobs[k].m)
  }

  ghost predicate AllOrdered(s: Sys, jobs: seq<Job>, settled: seq<Outcome>) {
    |settled| <= |jobs| && forall k | 0 <= k < |settled| && settled[k].WasCompleted? :: CompletedWithOrder(s, jobs[k].m)
  }

  lemma AllStayCompleted(s: Sys, es: seq<Event>, jobs: seq<Job>, settled: seq<Outcome>)
    requires AllCompleted(s, jobs, settled)
    ensures AllCompleted(Run(s, es), jobs, settled)
  {
    forall k | 0 <= k < |settled| && settled[k].WasCompleted? ensures IsCompleted(Run(s, es), jobs[k].m) {
      CompletedStays(s, es, jobs[k].m);
    }
  }

  // What a batch has completed by its end has its order.
  lemma BatchIsSound(s: Sys, jobs: seq<Job>, settled: seq<Outcome>)
    requires AllCompleted(Run(s, BatchEvents(s, jobs)), jobs, settled)
    ensures Inv(s) ==> Inv(Run(s, BatchEvents(s, jobs))) && AllOrdered(Run(s, BatchEvents(s, jobs)), jobs, settled)
  {
    if Inv(s) {
      var t := Run(s, BatchEvents(s, jobs));
      RunKeepsInv(s, BatchEvents(s, jobs));
      forall k | 0 <= k < |settled| && settled[k].WasCompleted? ensures CompletedWithOrder(t, jobs[k].m) {
        assert BusOk(t, t.bus[jobs[k].m]);
      }
    }
  }

  class Pump {
    var sys: Sys

    constructor (s: Sys)
      ensures sys == s
    {
      sys := s;
    }

    // One message of the batch; the outcome says whether the loop goes on.
    method ProcessMessage(j: Job) returns (o: Outcome)
      requires CanStart(sys, j)
      modifies this
      ensures sys == Run(old(sys), JobEvents(old(sys), j))
      ensures o == OutcomeOf(Run(old(sys), AwaitEvents(j)), j)
      ensures o.WasCompleted? ==> IsCompleted(sys, j.m)
      ensures var t := Run(old(sys), AwaitEvents(j)); var ws := t.orders.workers;
        && (o.WasCompleted? <==> Holds(t, j) && j.w in ws && ws[j.w].pc.Returned? && j.completes)
        && (o.WasDeadLettered? <==>
              && Holds(t, j) && j.w in ws && j.deadLetters
              && (ws[j.w].pc.Aborted? || (ws[j.w].pc.Returned? && !j.completes)))
        && (o.WasDeadLettered? ==> j.m in sys.bus && sys.bus[j.m].state == DeadLettered)
        && (o.Abandoned? ==> sys == t)
    {
      sys := Run(sys, AwaitEvents(j));
      o := Abandoned;
      ghost var awaited := sys;
      if Holds(sys, j) {
        var returned := Finished(sys.orders, j.w, true);
        if returned && j.completes {
          sys := Step(sys, Complete(j.m));
          o := WasCompleted;
        } else if (returned || Finished(sys.orders, j.w, false)) && j.deadLetters {
          sys := Step(sys, DeadLetter(j.m));
          o := WasDeadLettered;
        }
      }
      RunAppend(old(sys), AwaitEvents(j), SettleEvents(j, o));
      RunOne(awaited, Complete(j.m));
      RunOne(awaited, DeadLetter(j.m));
    }

    /** The batch is a run of the machine, and every message it completes has its committed order, then
        and after whatever else the batch meets. */
    method ProcessBatch(jobs: seq<Job>) returns (settled: seq<Outcome>)
      modifies this
      ensures sys == Run(old(sys), BatchEvents(old(sys), jobs))
      ensures AllCompleted(sys, jobs, settled) && Abandoned !in settled
      ensures old(Inv(sys)) ==> Inv(sys) && AllOrdered(sys, jobs, settled)
    {
      settled := SettleEach(jobs);
      BatchIsSound(old(sys), jobs, settled);
    }

    // The loop over the batch: it stops at a message that throws before its call or that cannot be
    // dead-lettered.
    method SettleEach(jobs: seq<Job>) returns (settled: seq<Outcome>)
      modifies this
      ensures sys == Run(old(sys), BatchEvents(old(sys), jobs))
      ensures AllCompleted(sys, jobs, settled) && Abandoned !in settled
    {
      settled := [];
      var i := 0;
      ghost var goal := Run(sys, BatchEvents(sys, jobs));
      assert jobs[0..] == jobs;
      while i < |jobs| && CanStart(sys, jobs[i])
        invariant 0 <= i == |settled| <= |jobs|
        invariant Run(sys, BatchEvents(sys, jobs[i..])) == goal
        invariant AllCompleted(sys, jobs, settled) && Abandoned !in settled
      {
        ghost var before := sys;
        var o := ProcessMessage(jobs[i]);
        BatchStep(before, jobs, i);
        AllStayCompleted(before, JobEvents(before, jobs[i]), jobs, settled);
        if o.Abandoned? {
          return;
        }
        settled := settled + [o];
        i := i + 1;
      }
      assert BatchEvents(sys, jobs[i..]) == [];
    }

    /** The loop, for as many batches as come before the module closes. */
    method PumpBatches(batches: seq<seq<Job>>)
      modifies this
      ensures sys == Run(old(sys), PumpEvents(old(sys), batches))
      ensures old(Inv(sys)) ==> Inv(sys)
    {
      var i := 0;
      ghost var goal := Run(sys, PumpEvents(sys, batches));
      assert batches[0..] == batches;
      while i < |batches|
        invariant 0 <= i <= |batches|
        invariant Run(sys, PumpEvents(sys, batches[i..])) == goal
        invariant old(Inv(sys)) ==> Inv(sys)
      {
        ghost var before := sys;
        assert batches[i..][0] == batches[i] && batches[i..][1..] == batches[i + 1..];
        var settled := ProcessBatch(batches[i]);
        RunAppend(before, BatchEvents(before, batches[i]), PumpEvents(sys, batches[i + 1..]));
        i := i + 1;
      }
      assert batches[i..] == [];
    }
  }
}
