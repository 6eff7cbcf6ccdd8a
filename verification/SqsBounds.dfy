/** A bound on deliveries that holds for any agent and any pattern of crashes and expiries. */
module SqsBounds {
  import opened Jobs
  import opened Triage
  import opened SqsQueue
  import opened SqsCoordinator
  import opened SqsProtocol
  import opened Sums

  /** The receives that a fresh message with `base` earlier tries can still cause, in itself and in all the
      adjusted copies it may give rise to. Each of its `limit` receives may be followed by one adjusted copy,
      whose base is the number of tries so far; a job that has used up its tries is never adjusted. */
  ghost function Budget(base: int, maxAttempts: int, limit: nat): nat
    decreases maxAttempts - base, limit + 1
  {
    if base >= maxAttempts then 0 else Remaining(base, 0, maxAttempts, limit)
  }

  /** The same for a message that has been received `i` times. */
  ghost function Remaining(base: int, i: nat, maxAttempts: int, limit: nat): nat
    requires base < maxAttempts
    decreases maxAttempts - base, if i < limit then limit - i else 0
  {
    if i >= limit then 0
    else 1 + Budget(base + i + 1, maxAttempts, limit) + Remaining(base, i + 1, maxAttempts, limit)
  }

  /** In closed form: every try but the last doubles what the receive limit allows. */
  lemma {:induction false} BudgetDoubles(base: int, maxAttempts: int, limit: nat)
    requires base < maxAttempts
    ensures Budget(base, maxAttempts, limit) <= limit * Pow2(maxAttempts - base - 1)
    ensures maxAttempts - base <= limit ==> Budget(base, maxAttempts, limit) == limit * Pow2(maxAttempts - base - 1)
    decreases maxAttempts - base, limit + 1
  {
    RemainingDoubles(base, 0, maxAttempts, limit);
  }

  lemma {:induction false} RemainingDoubles(base: int, i: nat, maxAttempts: int, limit: nat)
    requires base < maxAttempts && i <= limit
    ensures var bound := limit * (if base + i < maxAttempts then Pow2(maxAttempts - base - i - 1) else 1) - i;
            && Remaining(base, i, maxAttempts, limit) <= bound
            && (maxAttempts - base <= limit ==> Remaining(base, i, maxAttempts, limit) == bound)
    decreases maxAttempts - base, limit - i
  {
    if i < limit {
      RemainingDoubles(base, i + 1, maxAttempts, limit);
      if base + i + 1 < maxAttempts {
        BudgetDoubles(base + i + 1, maxAttempts, limit);
        var half := Pow2(maxAttempts - base - i - 2);
        assert limit * (2 * half) == limit * half + limit * half;
      }
    } else if base + i < maxAttempts {
      ProductAtLeast(limit, Pow2(maxAttempts - base - i - 1));
    }
  }

  lemma ProductAtLeast(a: nat, b: nat)
    requires b >= 1
    ensures a * b >= a
  {
  }

  ghost function MessageReceives(id: string): Message -> int {
    (m: Message) => if m.job.id == id then m.receives else 0
  }

  ghost function MessagePotential(id: string, limit: nat): Message -> int {
    (m: Message) =>
      if m.job.id == id && m.job.attempt < m.job.maxAttempts
      then Remaining(m.job.attempt, m.receives, m.job.maxAttempts, limit) else 0
  }

  ghost predicate MayAdjust(p: Phase) {
    p.Received? || p.Granted? || p.Triaging? || (p.Told? && p.decision.action.AutoAdjust?)
  }

  ghost function PhasePotential(id: string, limit: nat): Phase -> int {
    (p: Phase) =>
      if MayAdjust(p) && p.d.job.id == id then Budget(Attempt(p.d), p.d.job.maxAttempts, limit) else 0
  }

  ghost function SubmitPotential(s: Sys, id: string, limit: nat): nat {
    if id in s.unsent && id in s.coord.jobs then Budget(0, s.coord.jobs[id].maxAttempts, limit) else 0
  }

  /** How often a job has been delivered: the receive counts of all its messages. */
  ghost function Deliveries(s: Sys, id: string): int {
    Sum(s.msgs, MessageReceives(id))
  }

  /** How often it may still be delivered. */
  ghost function Potential(s: Sys, id: string, limit: nat): int {
    Sum(s.msgs, MessagePotential(id, limit)) + Sum(s.workers, PhasePotential(id, limit)) + SubmitPotential(s, id, limit)
  }

  predicate Delivers(s: Sys, step: Step, id: string) {
    step.Receiving? && step.msg < |s.msgs| && s.msgs[step.msg].job.id == id
  }

  lemma DeliveriesCount(limit: nat, s: Sys, step: Step, id: string)
    requires Enabled(limit, s, step)
    ensures Deliveries(Apply(limit, s, step), id) == Deliveries(s, id) + if Delivers(s, step, id) then 1 else 0
  {
    var f := MessageReceives(id);
    var s' := Apply(limit, s, step);
    if |s'.msgs| > |s.msgs| {
      SumAppend(s.msgs, s'.msgs[|s.msgs|], f);
    } else if s'.msgs != s.msgs {
      var m := ChangedMessage(s, step);
      assert s'.msgs == s.msgs[m := s'.msgs[m]];
      SumUpdate(s.msgs, m, s'.msgs[m], f);
    }
  }

  // The message a step touches, when it touches one.
  function ChangedMessage(s: Sys, step: Step): nat {
    match step
    case Receiving(_, m) => m
    case Redriving(m) => m
    case Expiring(m) => m
    case Releasing(w, _) => if w < |s.workers| && !s.workers[w].Idle? then s.workers[w].d.msg else 0
    case Acknowledging(w, _) => if w < |s.workers| && !s.workers[w].Idle? then s.workers[w].d.msg else 0
    case _ => 0
  }

  // What happens to the message part of the potential.
  lemma MessageChange(limit: nat, s: Sys, step: Step, id: string)
    requires Enabled(limit, s, step)
    ensures var s' := Apply(limit, s, step);
            var f := MessagePotential(id, limit);
            Sum(s'.msgs, f) - Sum(s.msgs, f) ==
            if step.Receiving? then f(s'.msgs[step.msg]) - f(s.msgs[step.msg])
            else if |s'.msgs| > |s.msgs| then f(s'.msgs[|s.msgs|])
            else 0
  {
    var f := MessagePotential(id, limit);
    var s' := Apply(limit, s, step);
    if |s'.msgs| > |s.msgs| {
      SumAppend(s.msgs, s'.msgs[|s.msgs|], f);
    } else if s'.msgs != s.msgs {
      var m := ChangedMessage(s, step);
      assert s'.msgs == s.msgs[m := s'.msgs[m]];
      SumUpdate(s.msgs, m, s'.msgs[m], f);
    }
  }

  // What happens to the worker part.
  lemma WorkerChange(limit: nat, s: Sys, step: Step, id: string)
    requires Enabled(limit, s, step)
    ensures var s' := Apply(limit, s, step);
            var f := PhasePotential(id, limit);
            Sum(s'.workers, f) - Sum(s.workers, f) ==
            if MovesWorker(step) then f(s'.workers[step.w]) - f(s.workers[step.w]) else 0
  {
    var s' := Apply(limit, s, step);
    if MovesWorker(step) {
      assert s'.workers == s.workers[step.w := s'.workers[step.w]];
      SumUpdate(s.workers, step.w, s'.workers[step.w], PhasePotential(id, limit));
    }
  }

  // A worker's own move never gives it more to adjust, except that a receive hands it the message's share.
  lemma WorkerDescends(limit: nat, s: Sys, step: Step, id: string)
    requires Enabled(limit, s, step) && MovesWorker(step) && !step.Receiving? && WorkersOk(s)
    ensures var f := PhasePotential(id, limit);
            f(Apply(limit, s, step).workers[step.w]) <=
            if step.Resending? then 0 else f(s.workers[step.w])
  {
  }

  lemma ReceiveTransfers(limit: nat, s: Sys, step: Step, id: string)
    requires Enabled(limit, s, step) && step.Receiving? && MessagesOk(limit, s)
    ensures var s' := Apply(limit, s, step);
            var f, g := MessagePotential(id, limit), PhasePotential(id, limit);
            f(s'.msgs[step.msg]) + g(s'.workers[step.w]) ==
            f(s.msgs[step.msg]) - if Delivers(s, step, id) then 1 else 0
  {
    assert MessageOk(limit, s, s.msgs[step.msg]);
  }

  lemma ResendTransfers(limit: nat, s: Sys, step: Step, id: string)
    requires Enabled(limit, s, step) && step.Resending? && WorkersOk(s)
    ensures MessagePotential(id, limit)(Apply(limit, s, step).msgs[|s.msgs|]) ==
            PhasePotential(id, limit)(s.workers[step.w])
  {
    assert PhaseOk(s, s.workers[step.w]);
  }

  // What a worker's step does to the parts held by messages and workers.
  lemma WorkerStepLowers(limit: nat, s: Sys, step: Step, id: string)
    requires MessagesOk(limit, s) && WorkersOk(s) && Enabled(limit, s, step) && MovesWorker(step)
    ensures var s' := Apply(limit, s, step);
            var f, g := MessagePotential(id, limit), PhasePotential(id, limit);
            Sum(s'.msgs, f) + Sum(s'.workers, g) <=
            Sum(s.msgs, f) + Sum(s.workers, g) - if Delivers(s, step, id) then 1 else 0
  {
    MessageChange(limit, s, step, id);
    WorkerChange(limit, s, step, id);
    if step.Receiving? {
      ReceiveTransfers(limit, s, step, id);
    } else {
      WorkerDescends(limit, s, step, id);
      if step.Resending? {
        ResendTransfers(limit, s, step, id);
      }
    }
  }

  /** Every delivery of a job lowers its potential, and nothing but its submission raises it. */
  lemma DeliveryLowersPotential(limit: nat, s: Sys, step: Step, id: string)
    requires JobsOk(s) && MessagesOk(limit, s) && WorkersOk(s) && Enabled(limit, s, step)
    ensures var s' := Apply(limit, s, step);
            Potential(s', id, limit) <=
            Potential(s, id, limit)
              - (if Delivers(s, step, id) then 1 else 0)
              + (if step.Submitting? && step.job.id == id
                 then Budget(0, Normalised(step.job, step.now).maxAttempts, limit) else 0)
  {
    SubmitChange(limit, s, step, id);
    if MovesWorker(step) {
      WorkerStepLowers(limit, s, step, id);
    } else {
      MessageChange(limit, s, step, id);
      WorkerChange(limit, s, step, id);
    }
  }

  lemma SubmitChange(limit: nat, s: Sys, step: Step, id: string)
    requires JobsOk(s) && Enabled(limit, s, step)
    ensures var s' := Apply(limit, s, step);
            SubmitPotential(s', id, limit) ==
            if step.Submitting? && step.job.id == id then Budget(0, Normalised(step.job, step.now).maxAttempts, limit)
            else if (step == Enqueuing(id) || step == EnqueueFailing(id)) then 0
            else SubmitPotential(s, id, limit)
    ensures step == Enqueuing(id) ==>
              MessagePotential(id, limit)(Apply(limit, s, step).msgs[|s.msgs|]) == SubmitPotential(s, id, limit)
    ensures step.Enqueuing? && step.id != id ==> MessagePotential(id, limit)(Apply(limit, s, step).msgs[|s.msgs|]) == 0
  {
    JobsFrame(limit, s, step);
  }

  ghost function Allowance(s: Sys, id: string, limit: nat): nat {
    if id in s.coord.jobs then Budget(0, s.coord.jobs[id].maxAttempts, limit) else 0
  }

  lemma {:induction false} WithinAllowance(limit: nat, workers: nat, steps: seq<Step>, s: Sys, id: string)
    requires Reached(limit, workers, steps, s)
    ensures Deliveries(s, id) + Potential(s, id, limit) <= Allowance(s, id, limit)
  {
    if steps == [] {
      IdleHasNoPotential(s.workers, id, limit);
    } else {
      var front, step := steps[..|steps| - 1], steps[|steps| - 1];
      var prior := Exec(limit, Initial(workers), front).value;
      WithinAllowance(limit, workers, front, prior, id);
      InitialInv(limit, workers);
      RunKeepsInv(limit, Initial(workers), front);
      DeliveriesCount(limit, prior, step, id);
      DeliveryLowersPotential(limit, prior, step, id);
      JobsFrame(limit, prior, step);
    }
  }

  lemma {:induction false} IdleHasNoPotential(workers: seq<Phase>, id: string, limit: nat)
    requires forall w | 0 <= w < |workers| :: workers[w].Idle?
    ensures Sum(workers, PhasePotential(id, limit)) == 0
  {
    if workers != [] {
      IdleHasNoPotential(workers[..|workers| - 1], id, limit);
    }
  }

  /** A submitted job is delivered at most Budget(0, MaxAttempts, MaxReceiveCount) times in all its copies,
      whatever the agent answers, whoever crashes and however often messages expire. */
  lemma DeliveriesAreBounded(limit: nat, workers: nat, steps: seq<Step>, s: Sys, id: string)
    requires Reached(limit, workers, steps, s) && id in s.coord.jobs
    ensures Deliveries(s, id) <= Budget(0, s.coord.jobs[id].maxAttempts, limit)
    ensures s.coord.jobs[id].maxAttempts >= 1
    ensures Deliveries(s, id) <= limit * Pow2(s.coord.jobs[id].maxAttempts - 1)
  {
    WithinAllowance(limit, workers, steps, s, id);
    PotentialIsNatural(s, id, limit);
    SomeTryAllowed(limit, workers, steps, s, id);
    BudgetDoubles(0, s.coord.jobs[id].maxAttempts, limit);
  }

  lemma SomeTryAllowed(limit: nat, workers: nat, steps: seq<Step>, s: Sys, id: string)
    requires Reached(limit, workers, steps, s) && id in s.coord.jobs
    ensures s.coord.jobs[id].maxAttempts >= 1
  {
    InitialInv(limit, workers);
    RunKeepsInv(limit, Initial(workers), steps);
  }

  lemma PotentialIsNatural(s: Sys, id: string, limit: nat)
    ensures Potential(s, id, limit) >= 0
  {
    SumBounds(s.msgs, MessagePotential(id, limit), 0);
    SumBounds(s.workers, PhasePotential(id, limit), 0);
  }
}
