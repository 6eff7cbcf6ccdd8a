/** Progress of the SQS backend with any number of workers: once nothing more is submitted the work still to
    do is bounded, however often workers crash and messages expire, and no job that reached a queue is stuck. */
module SqsProgress {
  import opened Jobs
  import opened Wrappers
  import opened Triage
  import opened SqsQueue
  import opened SqsCoordinator
  import opened SqsProtocol
  import opened SqsBounds
  import opened Sums

  // ---- receives over all jobs ----

  ghost function PotentialOf(s: Sys, limit: nat): string -> int {
    (id: string) => Potential(s, id, limit)
  }

  /** The receives still possible, over all jobs. */
  ghost function Total(s: Sys, limit: nat): int {
    SetSum(s.coord.jobs.Keys, PotentialOf(s, limit))
  }

  lemma TotalIsNatural(s: Sys, limit: nat)
    ensures Total(s, limit) >= 0
  {
    forall id ensures PotentialOf(s, limit)(id) >= 0 {
      PotentialIsNatural(s, id, limit);
    }
    SetSumMonotone(s.coord.jobs.Keys, (id: string) => 0, PotentialOf(s, limit));
    ZeroSum(s.coord.jobs.Keys);
  }

  lemma {:induction false} ZeroSum(ids: set<string>)
    ensures SetSum(ids, (id: string) => 0) == 0
    decreases ids
  {
    if ids != {} {
      var id :| id in ids;
      SetSumRemove(ids, id, (id: string) => 0);
      ZeroSum(ids - {id});
    }
  }

  lemma StepLowersEach(limit: nat, s: Sys, step: Step, id: string)
    requires Inv(limit, s) && Enabled(limit, s, step) && !step.Submitting?
    ensures PotentialOf(Apply(limit, s, step), limit)(id) <=
            PotentialOf(s, limit)(id) - if Delivers(s, step, id) then 1 else 0
  {
    DeliveryLowersPotential(limit, s, step, id);
  }

  lemma SumDrops(ids: set<string>, id: string, f: string -> int, g: string -> int)
    requires id in ids && g(id) < f(id) && forall x <- ids :: g(x) <= f(x)
    ensures SetSum(ids, g) < SetSum(ids, f)
  {
    SetSumRemove(ids, id, f);
    SetSumRemove(ids, id, g);
    SetSumMonotone(ids - {id}, g, f);
  }

  lemma StepLowersTotal(limit: nat, s: Sys, step: Step)
    requires Inv(limit, s) && Enabled(limit, s, step) && !step.Submitting?
    ensures Total(Apply(limit, s, step), limit) <= Total(s, limit) - if step.Receiving? then 1 else 0
  {
    var t := Apply(limit, s, step);
    var ids := s.coord.jobs.Keys;
    var f, g := PotentialOf(s, limit), PotentialOf(t, limit);
    JobsFrame(limit, s, step);
    forall id ensures g(id) <= f(id) - if Delivers(s, step, id) then 1 else 0 {
      StepLowersEach(limit, s, step, id);
    }
    if step.Receiving? {
      assert MessageOk(limit, s, s.msgs[step.msg]);
      SumDrops(ids, s.msgs[step.msg].job.id, f, g);
    } else {
      SetSumMonotone(ids, g, f);
    }
  }

  // ---- all steps ----

  /** A step of a worker, the coordinator, the submitter or the queue that does some of the work. What is left
      out may happen at any time and for ever: submissions, closing, watching, expiries and crashes. */
  predicate IsWork(step: Step) {
    || step.Enqueuing? || step.EnqueueFailing? || step.Receiving? || step.Redriving? || step.Starting?
    || step.Reporting? || step.Deciding? || step.Releasing? || step.Resending? || step.Acknowledging?
  }

  /** Steps a delivery may still need; sending an adjusted copy pays for the redrive of that copy. */
  ghost function StepsLeft(): Phase -> int {
    (p: Phase) =>
      match p
      case Idle => 0
      case Received(_) => 6
      case Granted(_) => 5
      case Triaging(_, _, _) => 4
      case Told(_, _) => 3
      case Acking(_) => 1
  }

  /** A message may be redriven once, unless it is deleted or in the dead-letter queue. */
  ghost function Redrivable(): Message -> int {
    (m: Message) => if m.place in {Visible, InFlight} then 1 else 0
  }

  /** The work left: receives with all that follows each, deliveries under way, redrives and enqueues. */
  ghost function WorkLeft(s: Sys, limit: nat): int {
    7 * Total(s, limit) + Sum(s.workers, StepsLeft()) + Sum(s.msgs, Redrivable()) + 2 * |s.unsent|
  }

  lemma WorkLeftIsNatural(s: Sys, limit: nat)
    ensures WorkLeft(s, limit) >= 0
  {
    TotalIsNatural(s, limit);
    SumBounds(s.workers, StepsLeft(), 0);
    SumBounds(s.msgs, Redrivable(), 0);
  }

  lemma RedrivableChange(limit: nat, s: Sys, step: Step)
    requires Enabled(limit, s, step)
    ensures Sum(Apply(limit, s, step).msgs, Redrivable()) <=
            Sum(s.msgs, Redrivable())
              + (if step.Enqueuing? || step.Resending? then 1 else 0) - (if step.Redriving? then 1 else 0)
  {
    var s' := Apply(limit, s, step);
    if |s'.msgs| > |s.msgs| {
      SumAppend(s.msgs, s'.msgs[|s.msgs|], Redrivable());
    } else if s'.msgs != s.msgs {
      var m := ChangedMessage(s, step);
      assert s'.msgs == s.msgs[m := s'.msgs[m]];
      SumUpdate(s.msgs, m, s'.msgs[m], Redrivable());
    }
  }

  // What a worker's own step costs it, at the least.
  function Paid(step: Step): int {
    if step.Resending? then 2 else if step.Crashing? then 0 else 1
  }

  lemma WorkerPays(limit: nat, s: Sys, step: Step)
    requires Enabled(limit, s, step)
    ensures var f := StepsLeft();
            Sum(Apply(limit, s, step).workers, f) <=
            Sum(s.workers, f) + if step.Receiving? then 6 else if MovesWorker(step) then -Paid(step) else 0
  {
    var s', f := Apply(limit, s, step), StepsLeft();
    if MovesWorker(step) {
      OneWorkerMovesAll(limit, s, step);
      var w := step.w;
      assert s'.workers == s.workers[w := s'.workers[w]];
      SumUpdate(s.workers, w, s'.workers[w], f);
    }
  }

  lemma UnsentChange(limit: nat, s: Sys, step: Step)
    requires Enabled(limit, s, step) && !step.Submitting?
    ensures |Apply(limit, s, step).unsent| == |s.unsent| - if step.Enqueuing? || step.EnqueueFailing? then 1 else 0
  {
  }

  /** Every step of work uses some of it up; nothing but a submission adds any, no crash and no expiry either. */
  lemma WorkGoesDown(limit: nat, s: Sys, step: Step)
    requires Inv(limit, s) && Enabled(limit, s, step) && !step.Submitting?
    ensures WorkLeft(Apply(limit, s, step), limit) <= WorkLeft(s, limit) - if IsWork(step) then 1 else 0
  {
    StepLowersTotal(limit, s, step);
    RedrivableChange(limit, s, step);
    WorkerPays(limit, s, step);
    UnsentChange(limit, s, step);
  }

  // A job that no message is about and no worker holds has nothing to come but what its submission brings.
  lemma {:induction false} NoMessagesNoPotential(msgs: Store, id: string, limit: nat)
    requires forall i | 0 <= i < |msgs| :: msgs[i].job.id != id
    ensures Sum(msgs, MessagePotential(id, limit)) == 0
  {
    if msgs != [] {
      NoMessagesNoPotential(msgs[..|msgs| - 1], id, limit);
    }
  }

  lemma {:induction false} NotHeldNoPotential(workers: seq<Phase>, id: string, limit: nat)
    requires forall w | 0 <= w < |workers| :: workers[w].Idle? || workers[w].d.job.id != id
    ensures Sum(workers, PhasePotential(id, limit)) == 0
  {
    if workers != [] {
      NotHeldNoPotential(workers[..|workers| - 1], id, limit);
    }
  }

  lemma NewHasNoPotential(limit: nat, s: Sys, id: string)
    requires Inv(limit, s) && id !in s.coord.jobs
    ensures Sum(s.msgs, MessagePotential(id, limit)) == 0 && Sum(s.workers, PhasePotential(id, limit)) == 0
  {
    forall i | 0 <= i < |s.msgs| ensures s.msgs[i].job.id != id {
      assert MessageOk(limit, s, s.msgs[i]);
    }
    forall w | 0 <= w < |s.workers| ensures s.workers[w].Idle? || s.workers[w].d.job.id != id {
      assert PhaseOk(s, s.workers[w]);
    }
    NoMessagesNoPotential(s.msgs, id, limit);
    NotHeldNoPotential(s.workers, id, limit);
  }

  lemma TotalOfSubmission(limit: nat, s: Sys, step: Step)
    requires Inv(limit, s) && Enabled(limit, s, step) && step.Submitting?
    ensures Total(Apply(limit, s, step), limit) ==
            Total(s, limit) + Budget(0, if step.job.maxAttempts >= 1 then step.job.maxAttempts else 3, limit)
  {
    var t, id := Apply(limit, s, step), step.job.id;
    OtherPotentials(limit, s, step);
    NewPotential(limit, s, step);
    SubmittedKeys(limit, s, step);
    SumGains(s.coord.jobs.Keys, id, PotentialOf(s, limit), PotentialOf(t, limit));
  }

  lemma SubmittedKeys(limit: nat, s: Sys, step: Step)
    requires Enabled(limit, s, step) && step.Submitting?
    ensures Apply(limit, s, step).coord.jobs.Keys == s.coord.jobs.Keys + {step.job.id}
  {
  }

  lemma SumGains(ids: set<string>, id: string, f: string -> int, g: string -> int)
    requires id !in ids && forall x <- ids :: g(x) == f(x)
    ensures SetSum(ids + {id}, g) == SetSum(ids, f) + g(id)
  {
    SetSumAgree(ids, f, g);
    SetSumInsert(ids, id, g);
  }

  lemma OtherPotential(limit: nat, s: Sys, step: Step, id: string)
    requires JobsOk(s) && Enabled(limit, s, step) && step.Submitting? && id != step.job.id
    ensures Potential(Apply(limit, s, step), id, limit) == Potential(s, id, limit)
  {
    SubmitChange(limit, s, step, id);
  }

  lemma OtherPotentials(limit: nat, s: Sys, step: Step)
    requires JobsOk(s) && Enabled(limit, s, step) && step.Submitting?
    ensures forall id <- s.coord.jobs.Keys ::
              PotentialOf(Apply(limit, s, step), limit)(id) == PotentialOf(s, limit)(id)
  {
    forall id <- s.coord.jobs.Keys
      ensures PotentialOf(Apply(limit, s, step), limit)(id) == PotentialOf(s, limit)(id)
    {
      OtherPotential(limit, s, step, id);
    }
  }

  lemma NewPotential(limit: nat, s: Sys, step: Step)
    requires Inv(limit, s) && Enabled(limit, s, step) && step.Submitting?
    ensures Potential(Apply(limit, s, step), step.job.id, limit) ==
            Budget(0, if step.job.maxAttempts >= 1 then step.job.maxAttempts else 3, limit)
  {
    NewHasNoPotential(limit, s, step.job.id);
    SubmitChange(limit, s, step, step.job.id);
  }

  /** A submission brings exactly this much: seven steps for each delivery its job may have, its enqueue, and the
      redrive of its message. */
  lemma WorkOfSubmission(limit: nat, s: Sys, step: Step)
    requires Inv(limit, s) && Enabled(limit, s, step) && step.Submitting?
    ensures var tries := if step.job.maxAttempts >= 1 then step.job.maxAttempts else 3;
            WorkLeft(Apply(limit, s, step), limit) == WorkLeft(s, limit) + 7 * Budget(0, tries, limit) + 2
  {
    TotalOfSubmission(limit, s, step);
    var t := Apply(limit, s, step);
    assert t.workers == s.workers && t.msgs == s.msgs && t.unsent == s.unsent + {step.job.id};
    assert step.job.id !in s.unsent;
  }

  ghost function WorkDone(steps: seq<Step>): nat {
    if steps == [] then 0 else WorkDone(steps[..|steps| - 1]) + if IsWork(steps[|steps| - 1]) then 1 else 0
  }

  predicate NoSubmissions(steps: seq<Step>) {
    forall i | 0 <= i < |steps| :: !steps[i].Submitting?
  }

  /** Once nothing more is submitted, at most WorkLeft steps of work can follow, in any interleaving of any
      workers with any agent; crashes, expiries, watching and closing may come between as often as they like. */
  lemma {:induction false} WorkIsBounded(limit: nat, s: Sys, steps: seq<Step>)
    requires Inv(limit, s) && NoSubmissions(steps) && Exec(limit, s, steps).Some?
    ensures WorkDone(steps) + WorkLeft(Exec(limit, s, steps).value, limit) <= WorkLeft(s, limit)
  {
    if steps != [] {
      var front := steps[..|steps| - 1];
      WorkIsBounded(limit, s, front);
      RunKeepsInv(limit, s, front);
      WorkGoesDown(limit, Exec(limit, s, front).value, steps[|steps| - 1]);
    }
  }

  // ---- nothing is stuck ----

  /** A worker is told to retry or adjust, or it goes on to acknowledge. */
  ghost predicate ToldOk(s: Sys) {
    forall w | 0 <= w < |s.workers| && s.workers[w].Told? ::
      s.workers[w].decision.action.Retry? || s.workers[w].decision.action.AutoAdjust?
  }

  lemma ToldOkStep(limit: nat, s: Sys, step: Step)
    requires ToldOk(s) && Enabled(limit, s, step)
    ensures ToldOk(Apply(limit, s, step))
  {
    var s' := Apply(limit, s, step);
    OneWorkerMovesAll(limit, s, step);
    forall v | 0 <= v < |s'.workers| && s'.workers[v].Told?
      ensures s'.workers[v].decision.action.Retry? || s'.workers[v].decision.action.AutoAdjust?
    {
      OneWorkerMoves(limit, s, step, v);
    }
  }

  lemma {:induction false} ToldOkRun(limit: nat, s: Sys, steps: seq<Step>)
    requires ToldOk(s) && Exec(limit, s, steps).Some?
    ensures ToldOk(Exec(limit, s, steps).value)
  {
    if steps != [] {
      ToldOkRun(limit, s, steps[..|steps| - 1]);
      ToldOkStep(limit, Exec(limit, s, steps[..|steps| - 1]).value, steps[|steps| - 1]);
    }
  }

  /** A stalled worker holds its batch for ever: only its crash goes on. */
  predicate StalledAt(s: Sys, w: nat) {
    w < |s.workers| && s.workers[w].Granted? && Stalls(s.workers[w].d)
  }

  /** The next step of a worker that is busy and not stalled. */
  ghost function NextOf(s: Sys, w: nat): Step
    requires w < |s.workers|
  {
    match s.workers[w]
    case Idle => Crashing(w)
    case Received(_) => Starting(w)
    case Granted(_) => Reporting(w, None)
    case Triaging(_, _, _) => Deciding(w, Failure(""))
    case Told(_, decision) => if decision.action.Retry? then Releasing(w, true) else Resending(w)
    case Acking(_) => Acknowledging(w, true)
  }

  lemma BusyWorkersCanGoOn(limit: nat, s: Sys, w: nat)
    requires Inv(limit, s) && ToldOk(s) && w < |s.workers| && !s.workers[w].Idle? && !StalledAt(s, w)
    ensures IsWork(NextOf(s, w)) && Enabled(limit, s, NextOf(s, w))
  {
    assert PhaseOk(s, s.workers[w]);
  }

  /** What can be done about a job that has no outcome: some work, the expiry of its delivery, a look at its
      dead letter that records its outcome, or the crash of a worker that stalls. */
  ghost predicate Helps(limit: nat, s: Sys, step: Step, id: string) {
    && Enabled(limit, s, step)
    && (IsWork(step) || step.Expiring? || (step.Crashing? && StalledAt(s, step.w))
        || (step.Watching? && id in Apply(limit, s, step).coord.terminal))
  }

  /** No job that reached a queue is ever stuck: in every reachable state with at least one worker, while the
      job has no outcome something that helps can happen. */
  lemma NoJobIsStuck(limit: nat, workers: nat, steps: seq<Step>, s: Sys, id: string)
    requires Reached(limit, workers, steps, s) && workers > 0
    requires id in s.coord.jobs && id !in s.unsent && id !in s.rejected && id !in s.coord.terminal
    ensures exists step :: Helps(limit, s, step, id)
  {
    InitialInv(limit, workers);
    RunKeepsInv(limit, Initial(workers), steps);
    ToldOkRun(limit, Initial(workers), steps);
    WorkersStay(limit, Initial(workers), steps);
    NoJobIsLost(limit, workers, steps, s, id);
    var n: nat :| Newest(s.msgs, id, n) && s.msgs[n].place != Deleted;
    var step := HelpfulStep(limit, s, id, n);
    assert Helps(limit, s, step, id);
  }

  // A look at one dead letter leaves its job with an outcome.
  lemma WatchingRecords(limit: nat, s: Sys, n: nat)
    requires n < |s.msgs| && s.msgs[n].place == DeadLettered
    ensures Enabled(limit, s, Watching([n]))
    ensures s.msgs[n].job.id in Apply(limit, s, Watching([n])).coord.terminal
  {
    BuryAllBuries(s.coord, DeadJobs(s.msgs, [n]), s.msgs[n].job.id);
    assert DeadJobs(s.msgs, [n])[0] == s.msgs[n].job;
  }

  lemma HelpfulStep(limit: nat, s: Sys, id: string, n: nat) returns (step: Step)
    requires Inv(limit, s) && ToldOk(s) && |s.workers| > 0
    requires Newest(s.msgs, id, n) && s.msgs[n].place != Deleted
    ensures Helps(limit, s, step, id)
  {
    match s.msgs[n].place
    case InFlight => step := Expiring(n);
    case DeadLettered =>
      step := Watching([n]);
      WatchingRecords(limit, s, n);
    case Visible =>
      if s.msgs[n].receives >= limit {
        step := Redriving(n);
      } else {
        step := FirstWorkerHelps(limit, s, id, n);
      }
  }

  lemma FirstWorkerHelps(limit: nat, s: Sys, id: string, n: nat) returns (step: Step)
    requires Inv(limit, s) && ToldOk(s) && |s.workers| > 0
    requires n < |s.msgs| && s.msgs[n].place == Visible && s.msgs[n].receives < limit
    ensures Helps(limit, s, step, id)
  {
    if s.workers[0].Idle? {
      step := Receiving(0, n);
    } else if StalledAt(s, 0) {
      step := Crashing(0);
    } else {
      BusyWorkersCanGoOn(limit, s, 0);
      step := NextOf(s, 0);
    }
  }

  lemma {:induction false} WorkersStay(limit: nat, s: Sys, steps: seq<Step>)
    requires Exec(limit, s, steps).Some?
    ensures |Exec(limit, s, steps).value.workers| == |s.workers|
  {
    if steps != [] {
      WorkersStay(limit, s, steps[..|steps| - 1]);
      OneWorkerMovesAll(limit, Exec(limit, s, steps[..|steps| - 1]).value, steps[|steps| - 1]);
    }
  }
}
