/** RunSQSWorker as the loop of effects it is, over the queue and coordinator objects. Every effect is one step
    of the protocol, so what the loop does is one of the runs the protocol's theorems are about; and the loop
    ends, because every receive uses up part of a bounded potential. */
module SqsWorker {
  import opened Inference
  import opened Jobs
  import opened Wrappers
  import opened Triage
  import opened SqsQueue
  import opened SqsCoordinator
  import opened SqsProtocol
  import opened SqsBounds
  import opened SqsProgress
  import opened Sums

  // ---- moving exhausted messages away is a run of single redrives ----

  /** The redrive of the tiers from `lowest` up, as far as the first `k` messages. */
  function RedrivenTo(q: Store, lowest: int, maxReceive: nat, k: nat): (r: Store)
    requires k <= |q|
    ensures |r| == |q|
  {
    Redriven(q[..k], lowest, maxReceive) + q[k..]
  }

  predicate OnlyRedrives(steps: seq<Step>) {
    forall i | 0 <= i < |steps| :: steps[i].Redriving?
  }

  lemma {:induction false} RedriveRun(maxReceive: nat, s: Sys, lowest: int, k: nat) returns (steps: seq<Step>)
    requires k <= |s.msgs|
    ensures Exec(maxReceive, s, steps) == Some(s.(msgs := RedrivenTo(s.msgs, lowest, maxReceive, k)))
    ensures OnlyRedrives(steps)
  {
    if k == 0 {
      RedrivenNone(s.msgs, lowest, maxReceive);
      steps := [];
    } else {
      steps := RedriveRun(maxReceive, s, lowest, k - 1);
      RedrivenNext(s.msgs, lowest, maxReceive, k - 1);
      if s.msgs[k - 1].tier >= lowest && Exhausted(s.msgs[k - 1], maxReceive) {
        OneMoreRedrive(maxReceive, s, lowest, k - 1, steps);
        steps := steps + [Redriving(k - 1)];
      }
    }
  }

  lemma OneMoreRedrive(maxReceive: nat, s: Sys, lowest: int, k: nat, steps: seq<Step>)
    requires k < |s.msgs| && s.msgs[k].tier >= lowest && Exhausted(s.msgs[k], maxReceive) && OnlyRedrives(steps)
    requires Exec(maxReceive, s, steps) == Some(s.(msgs := RedrivenTo(s.msgs, lowest, maxReceive, k)))
    ensures Exec(maxReceive, s, steps + [Redriving(k)]) ==
            Some(s.(msgs := RedrivenTo(s.msgs, lowest, maxReceive, k + 1)))
    ensures OnlyRedrives(steps + [Redriving(k)])
  {
    RedrivenNext(s.msgs, lowest, maxReceive, k);
    ExecMore(maxReceive, s, steps, s.(msgs := RedrivenTo(s.msgs, lowest, maxReceive, k)), Redriving(k));
  }

  lemma RedrivenNone(q: Store, lowest: int, maxReceive: nat)
    ensures RedrivenTo(q, lowest, maxReceive, 0) == q
  {
  }

  lemma RedrivenNext(q: Store, lowest: int, maxReceive: nat, k: nat)
    requires k < |q|
    ensures var r := RedrivenTo(q, lowest, maxReceive, k);
            && r[k] == q[k]
            && RedrivenTo(q, lowest, maxReceive, k + 1) ==
               if q[k].tier >= lowest && Exhausted(q[k], maxReceive) then r[k := q[k].(place := DeadLettered)] else r
  {
  }

  lemma ExecMore(maxReceive: nat, start: Sys, trace: seq<Step>, s: Sys, step: Step)
    requires Exec(maxReceive, start, trace) == Some(s) && Enabled(maxReceive, s, step)
    ensures Exec(maxReceive, start, trace + [step]) == Some(Apply(maxReceive, s, step))
  {
    assert (trace + [step])[..|trace|] == trace;
  }

  lemma {:induction false} ExecAppend(maxReceive: nat, s: Sys, first: seq<Step>, t: Sys, second: seq<Step>)
    requires Exec(maxReceive, s, first) == Some(t)
    ensures Exec(maxReceive, s, first + second) == Exec(maxReceive, t, second)
  {
    if second == [] {
      assert first + second == first;
    } else {
      ExecAppend(maxReceive, s, first, t, second[..|second| - 1]);
      assert (first + second)[..|first + second| - 1] == first + second[..|second| - 1];
    }
  }

  // ---- the worker ----

  lemma StepIsTaken(limit: nat, workers: nat, trace: seq<Step>, s: Sys, step: Step)
    requires Reached(limit, workers, trace, s) && Enabled(limit, s, step) && !step.Submitting?
    ensures Reached(limit, workers, trace + [step], Apply(limit, s, step))
            && |Apply(limit, s, step).workers| == |s.workers|
    ensures Total(Apply(limit, s, step), limit) <= Total(s, limit) - if step.Receiving? then 1 else 0
  {
    InitialInv(limit, workers);
    RunKeepsInv(limit, Initial(workers), trace);
    StepLowersTotal(limit, s, step);
    ExecMore(limit, Initial(workers), trace, s, step);
    OneWorkerMovesAll(limit, s, step);
  }

  // How a triaged failure ends: the message released, replaced by an adjusted copy, or dropped.
  datatype Ending = Freed(honoured: bool) | Replaced(honoured: bool) | Dropped(honoured: bool)

  // What follows a report: the message acknowledged at once, or triage.
  datatype Reply = Closed(honoured: bool) | Triaged(answer: Answer, ending: Ending)

  // What a worker does about one delivery.
  datatype Course = Skipped(honoured: bool) | Stalled | Reported(error: Option<string>, reply: Reply)

  ghost function Ended(w: nat, trace: seq<Step>, ending: Ending): seq<Step> {
    match ending
    case Freed(honoured) => trace + [Releasing(w, honoured)]
    case Replaced(honoured) => trace + [Resending(w)] + [Acknowledging(w, honoured)]
    case Dropped(honoured) => trace + [Acknowledging(w, honoured)]
  }

  ghost function Replied(w: nat, trace: seq<Step>, reply: Reply): seq<Step> {
    match reply
    case Closed(honoured) => trace + [Acknowledging(w, honoured)]
    case Triaged(answer, ending) => Ended(w, trace + [Deciding(w, answer)], ending)
  }

  ghost function Answered(w: nat, trace: seq<Step>, course: Course): seq<Step> {
    match course
    case Skipped(honoured) => trace + [Acknowledging(w, honoured)]
    case Stalled => trace
    case Reported(error, reply) => Replied(w, trace + [Reporting(w, error)], reply)
  }

  /** The protocol steps of one delivery, behind those before it. */
  ghost function Run(w: nat, trace: seq<Step>, course: Course): seq<Step> {
    Answered(w, trace + [Starting(w)], course)
  }

  lemma RunExtends(w: nat, trace: seq<Step>, course: Course)
    ensures trace <= Run(w, trace, course)
  {
  }

  /** Released only on a retry, replaced only on an adjustment. */
  ghost predicate Fitting(d: Delivery, answer: Answer, ending: Ending) {
    var action := Resolve(answer, Attempt(d), d.job.maxAttempts).action;
    (ending.Freed? ==> action.Retry?) && (ending.Replaced? ==> action.AutoAdjust?)
  }

  /** Only a failure is triaged, and by the agent's answer to it. */
  ghost predicate Proper(d: Delivery, error: Option<string>, agent: (Job, int, string) -> Answer, reply: Reply) {
    reply.Triaged? ==>
      error.Some? && reply.answer == agent(d.job, Attempt(d), error.value) && Fitting(d, reply.answer, reply.ending)
  }

  /** The message of a delivery still held, once its worker is through with it. */
  ghost predicate LeftAt(before: Store, after: Store, d: Delivery, place: Place) {
    d.msg < |before| <= |after| && (Current(before, d) ==> after[d.msg] == before[d.msg].(place := place))
  }

  /** Only a retry leaves the message in its queue. */
  ghost function PlaceAfter(reply: Reply): Place {
    if reply.Triaged? && reply.ending.Freed? then Visible else Deleted
  }

  class Worker {
    const qs: Queues
    const ctl: SQSCoordinator
    const index: nat
    // The protocol's state, and the steps that led to it since the system of `workers` workers started.
    ghost const workers: nat
    ghost var sys: Sys
    ghost var trace: seq<Step>

    ghost predicate Valid()
      reads this, qs, ctl
    {
      && sys.msgs == qs.msgs && sys.coord == ctl.State() && index < |sys.workers|
      && Reached(qs.maxReceive, workers, trace, sys)
    }

    constructor (qs: Queues, ctl: SQSCoordinator, index: nat, ghost workers: nat, ghost sys: Sys,
        ghost trace: seq<Step>)
      requires Reached(qs.maxReceive, workers, trace, sys)
      requires sys.msgs == qs.msgs && sys.coord == ctl.State() && index < |sys.workers|
      ensures Valid() && this.sys == sys && this.trace == trace && this.qs == qs && this.ctl == ctl
              && this.index == index
    {
      this.qs, this.ctl, this.index, this.workers, this.sys, this.trace := qs, ctl, index, workers, sys, trace;
    }

    ghost function Phase(): Phase
      requires index < |sys.workers|
      reads this
    {
      sys.workers[index]
    }

    lemma Invariants()
      requires Reached(qs.maxReceive, workers, trace, sys)
      ensures Inv(qs.maxReceive, sys)
    {
      InitialInv(qs.maxReceive, workers);
      RunKeepsInv(qs.maxReceive, Initial(workers), trace);
    }

    // The protocol takes the step the objects have just made.
    ghost method Take(step: Step)
      requires Reached(qs.maxReceive, workers, trace, sys)
      requires Enabled(qs.maxReceive, sys, step) && index < |sys.workers| && !step.Submitting?
      requires Apply(qs.maxReceive, sys, step).msgs == qs.msgs && Apply(qs.maxReceive, sys, step).coord == ctl.State()
      modifies this`sys, this`trace
      ensures Valid() && sys == Apply(qs.maxReceive, old(sys), step) && trace == old(trace) + [step]
      ensures Left() <= old(Left()) - if step.Receiving? then 1 else 0
    {
      ghost var next := Apply(qs.maxReceive, sys, step);
      StepIsTaken(qs.maxReceive, workers, trace, sys, step);
      sys, trace := next, trace + [step];
    }

    /** Receives still possible. */
    ghost function Left(): int
      reads this
    {
      Total(sys, qs.maxReceive)
    }

    method Receive() returns (d: Option<Delivery>)
      requires Valid() && Phase().Idle?
      modifies this`sys, this`trace, qs
      ensures Valid() && sys.coord == old(sys.coord) && old(trace) <= trace
      ensures d.None? ==>
                && Phase().Idle? && Left() <= old(Left())
                && forall i | 0 <= i < |sys.msgs| :: sys.msgs[i].place != Visible
      ensures d.Some? ==> Phase() == Received(d.value) && Left() < old(Left())
    {
      TiersInRange();
      d := qs.Receive();
      Redrive(if d.None? then MIN_TIER else d.value.tier);
      if d.Some? {
        Take(Receiving(index, d.value.msg));
      }
    }

    lemma TiersInRange()
      requires Reached(qs.maxReceive, workers, trace, sys)
      ensures forall i | 0 <= i < |sys.msgs| :: MIN_TIER <= sys.msgs[i].tier <= MAX_TIER
    {
      Invariants();
      forall i | 0 <= i < |sys.msgs| ensures MIN_TIER <= sys.msgs[i].tier <= MAX_TIER {
        assert MessageOk(qs.maxReceive, sys, sys.msgs[i]);
      }
    }

    // The protocol takes the redrives of a sweep down to `lowest`.
    ghost method Redrive(lowest: int)
      requires Reached(qs.maxReceive, workers, trace, sys)
      modifies this`sys, this`trace
      ensures Reached(qs.maxReceive, workers, trace, sys) && old(trace) <= trace
      ensures sys == old(sys).(msgs := Redriven(old(sys).msgs, lowest, qs.maxReceive))
      ensures Left() <= old(Left())
    {
      var steps := RedriveRun(qs.maxReceive, sys, lowest, |sys.msgs|);
      var q := sys.msgs;
      assert q[..|q|] == q && RedrivenTo(q, lowest, qs.maxReceive, |q|) == Redriven(q, lowest, qs.maxReceive);
      ExecAppend(qs.maxReceive, Initial(workers), trace, sys, steps);
      Invariants();
      RedriveLowersTotal(qs.maxReceive, sys, steps);
      sys, trace := sys.(msgs := Redriven(q, lowest, qs.maxReceive)), trace + steps;
    }

    method Started(d: Delivery) returns (duplicate: bool)
      requires Valid() && Phase() == Received(d)
      modifies this`sys, this`trace, ctl
      ensures Valid() && Phase() == (if duplicate then Acking(d) else Granted(d)) && Left() <= old(Left())
      ensures trace == old(trace) + [Starting(index)] && (duplicate <==> d.job.id in old(sys).coord.terminal)
    {
      duplicate := ctl.StartedLocked(d.job.id, d.receiveCount);
      Take(Starting(index));
    }

    /** The first lock section of Report. */
    method ReportOutcome(d: Delivery, error: Option<string>) returns (duplicate: bool)
      requires Valid() && Phase() == Granted(d) && !Stalls(d)
      modifies this`sys, this`trace, ctl
      ensures Valid() && Left() <= old(Left()) && trace == old(trace) + [Reporting(index, error)]
      ensures Phase() == if error.None? || duplicate then Acking(d) else Triaging(d, error.value, false)
    {
      duplicate := ctl.ReportOutcomeLocked(d.job, error.None?);
      Take(Reporting(index, error));
    }

    /** The second lock section of Report, with the agent's answer. */
    method ReportDecision(d: Delivery, error: string, answer: Answer) returns (decision: Decision, duplicate: bool)
      requires Valid() && Phase() == Triaging(d, error, false)
      modifies this`sys, this`trace, ctl
      ensures Valid() && Left() <= old(Left()) && trace == old(trace) + [Deciding(index, answer)]
      ensures decision == Resolve(answer, Attempt(d), d.job.maxAttempts)
      ensures Phase() == if duplicate
              || !(decision.action.Retry? || decision.action.AutoAdjust?) then Acking(d) else Told(d, decision)
    {
      decision := Resolve(answer, Attempt(d), d.job.maxAttempts);
      duplicate := ctl.ReportDecisionLocked(d.job, decision.action);
      Take(Deciding(index, answer));
    }

    method Ack(d: Delivery) returns (ghost honoured: bool)
      requires Valid() && Phase() == Acking(d)
      modifies this`sys, this`trace, qs
      ensures Valid() && Phase().Idle? && Left() <= old(Left())
      ensures trace == old(trace) + [Acknowledging(index, honoured)] && LeftAt(old(qs.msgs), qs.msgs, d, Deleted)
    {
      Invariants();
      assert PhaseOk(sys, Phase());
      var deleted := qs.Ack(d);
      honoured := deleted;
      Take(Acknowledging(index, honoured));
    }

    method Release(d: Delivery, ghost decision: Decision) returns (ghost honoured: bool)
      requires Valid() && Phase() == Told(d, decision) && decision.action.Retry?
      modifies this`sys, this`trace, qs
      ensures Valid() && Phase().Idle? && Left() <= old(Left())
      ensures trace == old(trace) + [Releasing(index, honoured)] && LeftAt(old(qs.msgs), qs.msgs, d, Visible)
    {
      Invariants();
      assert PhaseOk(sys, Phase());
      var freed := qs.Release(d);
      honoured := freed;
      Take(Releasing(index, honoured));
    }

    /** Sends the adjusted copy; the delivery is acknowledged after it. */
    method SendAdjusted(d: Delivery, decision: Decision)
      requires Valid() && Phase() == Told(d, decision) && decision.action.AutoAdjust?
      modifies this`sys, this`trace, qs
      ensures Valid() && Phase() == Acking(d) && Left() <= old(Left()) && trace == old(trace) + [Resending(index)]
      ensures |qs.msgs| == |old(qs.msgs)| + 1 && old(qs.msgs) <= qs.msgs
      ensures var m := qs.msgs[|old(qs.msgs)|];
              && CopyOf(m.job, d.job) && m.job.attempt == d.job.attempt + d.receiveCount && m.job.injectFailure == ""
              && m.job.batch.batchSize == decision.batchSize && m.job.batch.precision == decision.precision
              && m.place == Visible && m.receives == 0
    {
      qs.Send(AdjustedJob(d, decision));
      Take(Resending(index));
    }

    // The copy is sent before the delivery is acknowledged.
    method Replace(d: Delivery, decision: Decision) returns (ghost honoured: bool)
      requires Valid() && Phase() == Told(d, decision) && decision.action.AutoAdjust?
      modifies this`sys, this`trace, qs
      ensures Valid() && Phase().Idle? && Left() <= old(Left()) && LeftAt(old(qs.msgs), qs.msgs, d, Deleted)
      ensures trace == old(trace) + [Resending(index)] + [Acknowledging(index, honoured)]
    {
      ghost var before := qs.msgs;
      HoldsMessage(d);
      SendAdjusted(d, decision);
      ghost var between := qs.msgs;
      honoured := Ack(d);
      LeftBehind(before, between, qs.msgs, d);
    }

    lemma HoldsMessage(d: Delivery)
      requires Valid() && !Phase().Idle? && Phase().d == d
      ensures d.msg < |qs.msgs|
    {
      Invariants();
      assert PhaseOk(sys, Phase());
    }

    /** The body of the loop for one delivery. A delivery whose job has an outcome is only acknowledged; a
        stalled batch is held for ever, never acknowledged; any other is run and reported. */
    method Serve(d: Delivery, run: (Job, int) -> Option<string>, agent: (Job, int, string) -> Answer)
      returns (stalled: bool, ghost course: Course)
      requires Valid() && Phase() == Received(d)
      modifies this`sys, this`trace, qs, ctl
      ensures Valid() && Left() <= old(Left()) && trace == Run(index, old(trace), course)
      ensures if stalled then Phase() == Granted(d) && Stalls(d) else Phase().Idle?
      ensures (course.Skipped? <==> d.job.id in old(sys).coord.terminal) && (course.Stalled? <==> stalled)
      ensures var failure, attempt := d.job.injectFailure, d.job.attempt + d.receiveCount;
              && (!course.Skipped? ==> (stalled <==> failure == "poison" || (failure == "hang" && attempt == 1)))
              && (course.Reported? ==> course.error == run(d.job, attempt))
      ensures course.Reported? ==> Proper(d, course.error, agent, course.reply)
      ensures course.Skipped? ==> LeftAt(old(qs.msgs), qs.msgs, d, Deleted)
      ensures course.Reported? ==> LeftAt(old(qs.msgs), qs.msgs, d, PlaceAfter(course.reply))
    {
      var duplicate := Started(d);
      if duplicate {
        ghost var honoured := Ack(d);
        return false, Skipped(honoured);
      }
      StallsWhen(d);
      stalled, course := Execute(d, run, agent);
    }

    // Runs a batch it was granted.
    method Execute(d: Delivery, run: (Job, int) -> Option<string>, agent: (Job, int, string) -> Answer)
      returns (stalled: bool, ghost course: Course)
      requires Valid() && Phase() == Granted(d)
      modifies this`sys, this`trace, qs, ctl
      ensures Valid() && Left() <= old(Left()) && trace == Answered(index, old(trace), course)
      ensures (stalled <==> Stalls(d)) && if stalled then Phase() == Granted(d) else Phase().Idle?
      ensures !course.Skipped? && (course.Stalled? <==> stalled)
      ensures course.Reported? ==> course.error == run(d.job, d.job.attempt + d.receiveCount)
      ensures course.Reported? ==> Proper(d, course.error, agent, course.reply)
      ensures course.Reported? ==> LeftAt(old(qs.msgs), qs.msgs, d, PlaceAfter(course.reply))
    {
      if Stalls(d) {
        return true, Stalled;
      }
      var error := run(d.job, Attempt(d));
      ghost var reply := Finish(d, error, agent);
      return false, Reported(error, reply);
    }

    /** Reports the result, and acts on the reply: the acknowledgement is always last, and the adjusted copy is
        sent before it. */
    method Finish(d: Delivery, error: Option<string>, agent: (Job, int, string) -> Answer) returns (ghost reply: Reply)
      requires Valid() && Phase() == Granted(d) && !Stalls(d)
      modifies this`sys, this`trace, qs, ctl
      ensures Valid() && Left() <= old(Left()) && Phase().Idle?
      ensures trace == Replied(index, old(trace) + [Reporting(index, error)], reply) && Proper(d, error, agent, reply)
      ensures LeftAt(old(qs.msgs), qs.msgs, d, PlaceAfter(reply)) && (error.None? ==> reply.Closed?)
    {
      var duplicate := ReportOutcome(d, error);
      if error.None? || duplicate {
        ghost var honoured := Ack(d);
        return Closed(honoured);
      }
      ghost var answer := agent(d.job, Attempt(d), error.value);
      ghost var ending := Follow(d, error.value, agent(d.job, Attempt(d), error.value));
      return Triaged(answer, ending);
    }

    method Follow(d: Delivery, error: string, answer: Answer) returns (ghost ending: Ending)
      requires Valid() && Phase() == Triaging(d, error, false)
      modifies this`sys, this`trace, qs, ctl
      ensures Valid() && Left() <= old(Left()) && Phase().Idle?
      ensures trace == Ended(index, old(trace) + [Deciding(index, answer)], ending) && Fitting(d, answer, ending)
      ensures LeftAt(old(qs.msgs), qs.msgs, d, if ending.Freed? then Visible else Deleted)
    {
      var decision, duplicate := ReportDecision(d, error, answer);
      if !duplicate && decision.action.Retry? {
        ghost var honoured := Release(d, decision);
        return Freed(honoured);
      }
      if !duplicate && decision.action.AutoAdjust? {
        ghost var honoured := Replace(d, decision);
        return Replaced(honoured);
      }
      ghost var honoured := Ack(d);
      return Dropped(honoured);
    }

    /** The loop until there is nothing left to receive, where it would poll and sleep, or until it stalls.
        Whatever the runner and the agent answer, it ends, and what it did extends the run at entry. */
    method RunUntilIdle(run: (Job, int) -> Option<string>, agent: (Job, int, string) -> Answer) returns (stalled: bool)
      requires Valid() && Phase().Idle?
      modifies this`sys, this`trace, qs, ctl
      ensures Valid() && old(trace) <= trace
      ensures stalled ==> Phase().Granted? && Stalls(Phase().d)
      ensures !stalled ==> Phase().Idle? && forall i | 0 <= i < |sys.msgs| :: sys.msgs[i].place != Visible
    {
      while true
        invariant Valid() && Phase().Idle? && old(trace) <= trace
        decreases Left()
      {
        TotalIsNatural(sys, qs.maxReceive);
        var d := Receive();
        if d.None? {
          return false;
        }
        ghost var course;
        ghost var before := trace;
        stalled, course := Serve(d.value, run, agent);
        RunExtends(index, before, course);
        if stalled {
          return true;
        }
      }
    }
  }

  lemma {:induction false} RedriveLowersTotal(limit: nat, s: Sys, steps: seq<Step>)
    requires Inv(limit, s) && Exec(limit, s, steps).Some? && OnlyRedrives(steps)
    ensures Total(Exec(limit, s, steps).value, limit) <= Total(s, limit)
  {
    if steps != [] {
      var before := steps[..|steps| - 1];
      RedriveLowersTotal(limit, s, before);
      RunKeepsInv(limit, s, before);
      StepLowersTotal(limit, Exec(limit, s, before).value, steps[|steps| - 1]);
    }
  }

  lemma StallsWhen(d: Delivery)
    ensures Stalls(d) <==>
            d.job.injectFailure == "poison" || (d.job.injectFailure == "hang" && d.job.attempt + d.receiveCount == 1)
  {
  }

  // A message sent meanwhile does not matter to the one held.
  lemma LeftBehind(before: Store, between: Store, after: Store, d: Delivery)
    requires d.msg < |before| && before <= between && LeftAt(between, after, d, Deleted)
    ensures LeftAt(before, after, d, Deleted)
  {
  }
}
