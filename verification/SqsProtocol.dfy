/** The whole SQS backend as one state machine: the coordinator, the message store and any number of
    workers, each anywhere inside RunSQSWorker. Every step is one lock section or one queue call, so a
    run is an arbitrary interleaving with crashes, visibility expiry and triage at any point. */
module SqsProtocol {
  import opened Inference
  import opened Jobs
  import opened Wrappers
  import opened Triage
  import opened SqsQueue
  import opened SqsCoordinator

  /** Where a worker process stands in its loop. A worker that crashes while the coordinator is triaging
      its report leaves an orphan: the coordinator finishes the report and the reply is lost. */
  datatype Phase =
    | Idle
    | Received(d: Delivery)
    | Granted(d: Delivery)
    | Triaging(d: Delivery, error: string, orphan: bool)
    | Told(d: Delivery, decision: Decision)
    | Acking(d: Delivery)

  // `unsent` jobs are recorded by Submit but not yet in a queue; for `rejected` ones Submit returned an error.
  datatype Sys = Sys(coord: Coord, msgs: Store, workers: seq<Phase>, unsent: set<string>, rejected: set<string>)

  datatype Step =
    | Submitting(job: Job, now: int)
    | Enqueuing(id: string)
    | EnqueueFailing(id: string)
    | Closing
    | Receiving(w: nat, msg: nat)
    | Redriving(msg: nat)
    | Expiring(msg: nat)
    | Starting(w: nat)
    | Reporting(w: nat, error: Option<string>)
    | Deciding(w: nat, answer: Answer)
    | Releasing(w: nat, honoured: bool)
    | Resending(w: nat)
    | Acknowledging(w: nat, honoured: bool)
    | Crashing(w: nat)
    | Watching(dead: seq<nat>)

  const POISON := "poison"
  const HANG := "hang"

  // Tries are counted across redeliveries and across adjusted copies.
  function Attempt(d: Delivery): int {
    d.job.attempt + d.receiveCount
  }

  predicate Stalls(d: Delivery) {
    d.job.injectFailure == POISON || (d.job.injectFailure == HANG && Attempt(d) == 1)
  }

  function AdjustedJob(d: Delivery, decision: Decision): Job {
    d.job.(batch := Adjusted(d.job.batch, decision), attempt := Attempt(d), injectFailure := "")
  }

  predicate Enabled(maxReceive: nat, s: Sys, step: Step) {
    match step
    case Submitting(job, now) => job.id !in s.coord.jobs && job.attempt == 0 && Submit(s.coord, job, now).Success?
    case Enqueuing(id) => id in s.unsent && id in s.coord.jobs
    case EnqueueFailing(id) => id in s.unsent
    case Closing => true
    case Receiving(w, m) =>
      && w < |s.workers| && s.workers[w].Idle? && m < |s.msgs|
      && s.msgs[m].place == Visible && s.msgs[m].receives < maxReceive
    case Redriving(m) => m < |s.msgs| && Exhausted(s.msgs[m], maxReceive)
    case Expiring(m) => m < |s.msgs| && s.msgs[m].place == InFlight
    case Starting(w) => w < |s.workers| && s.workers[w].Received?
    case Reporting(w, _) => w < |s.workers| && s.workers[w].Granted? && !Stalls(s.workers[w].d)
    case Deciding(w, _) => w < |s.workers| && s.workers[w].Triaging?
    case Releasing(w, honoured) =>
      && w < |s.workers| && s.workers[w].Told? && s.workers[w].decision.action.Retry?
      && s.workers[w].d.msg < |s.msgs| && MayHonour(s.msgs, s.workers[w].d, honoured)
    case Resending(w) =>
      w < |s.workers| && s.workers[w].Told? && s.workers[w].decision.action.AutoAdjust?
    case Acknowledging(w, honoured) =>
      && w < |s.workers| && s.workers[w].Acking?
      && s.workers[w].d.msg < |s.msgs| && MayHonour(s.msgs, s.workers[w].d, honoured)
    case Crashing(w) => w < |s.workers|
    case Watching(dead) => forall k | 0 <= k < |dead| :: dead[k] < |s.msgs| && s.msgs[dead[k]].place == DeadLettered
  }

  function At(s: Sys, w: nat, p: Phase): Sys
    requires w < |s.workers|
  {
    s.(workers := s.workers[w := p])
  }

  // The worker after the coordinator's decision; only a retry or an adjustment keeps the message alive.
  function AfterDecision(p: Phase, decision: Decision, duplicate: bool): Phase
    requires p.Triaging?
  {
    if p.orphan then Idle
    else if duplicate || (!decision.action.Retry? && !decision.action.AutoAdjust?) then Acking(p.d)
    else Told(p.d, decision)
  }

  function DecisionFor(p: Phase, answer: Answer): Decision
    requires p.Triaging?
  {
    Resolve(answer, Attempt(p.d), p.d.job.maxAttempts)
  }

  function DeadJobs(msgs: Store, dead: seq<nat>): seq<Job>
    requires forall k | 0 <= k < |dead| :: dead[k] < |msgs|
  {
    seq(|dead|, k requires 0 <= k < |dead| => msgs[dead[k]].job)
  }

  function Apply(maxReceive: nat, s: Sys, step: Step): Sys
    requires Enabled(maxReceive, s, step)
  {
    match step
    case Submitting(job, now) =>
      s.(coord := Submit(s.coord, job, now).value, unsent := s.unsent + {job.id})
    case Enqueuing(id) => s.(msgs := Sent(s.msgs, s.coord.jobs[id]), unsent := s.unsent - {id})
    case EnqueueFailing(id) => s.(unsent := s.unsent - {id}, rejected := s.rejected + {id})
    case Closing => s.(coord := Close(s.coord))
    case Receiving(w, m) => At(s, w, Received(DeliveryOf(s.msgs, m))).(msgs := Delivered(s.msgs, m))
    case Redriving(m) => s.(msgs := s.msgs[m := s.msgs[m].(place := DeadLettered)])
    case Expiring(m) => s.(msgs := s.msgs[m := s.msgs[m].(place := Visible)])
    case Starting(w) =>
      var d := s.workers[w].d;
      var (coord, duplicate) := Started(s.coord, d.job.id, d.receiveCount);
      At(s, w, if duplicate then Acking(d) else Granted(d)).(coord := coord)
    case Reporting(w, error) =>
      var d := s.workers[w].d;
      var (coord, duplicate) := ReportOutcome(s.coord, d.job, error.None?);
      At(s, w, if error.None? || duplicate then Acking(d) else Triaging(d, error.value, false)).(coord := coord)
    case Deciding(w, answer) =>
      var p := s.workers[w];
      var decision := DecisionFor(p, answer);
      var (coord, duplicate) := ReportDecision(s.coord, p.d.job, decision.action);
      At(s, w, AfterDecision(p, decision, duplicate)).(coord := coord)
    case Releasing(w, honoured) => At(s, w, Idle).(msgs := Released(s.msgs, s.workers[w].d, honoured))
    case Resending(w) =>
      var p := s.workers[w];
      At(s, w, Acking(p.d)).(msgs := Sent(s.msgs, AdjustedJob(p.d, p.decision)))
    case Acknowledging(w, honoured) => At(s, w, Idle).(msgs := Acked(s.msgs, s.workers[w].d, honoured))
    case Crashing(w) =>
      At(s, w, if s.workers[w].Triaging? then s.workers[w].(orphan := true) else Idle)
    case Watching(dead) => s.(coord := Watch(s.coord, DeadJobs(s.msgs, dead)))
  }

  function Initial(workers: nat): Sys {
    Sys(FRESH, [], seq(workers, _ => Idle), {}, {})
  }

  /** The state a run ends in, or None when some step of it could not happen. */
  function Exec(maxReceive: nat, s: Sys, steps: seq<Step>): Option<Sys> {
    if steps == [] then Some(s)
    else
      match Exec(maxReceive, s, steps[..|steps| - 1])
      case None => None
      case Some(prior) =>
        var step := steps[|steps| - 1];
        if Enabled(maxReceive, prior, step) then Some(Apply(maxReceive, prior, step)) else None
  }

  // ---- the invariant ----

  predicate Superseded(s: Sys, i: nat)
    requires i < |s.msgs|
  {
    s.msgs[i].job.id in s.coord.terminal || exists k | i < k < |s.msgs| :: s.msgs[k].job.id == s.msgs[i].job.id
  }

  ghost predicate JobsOk(s: Sys) {
    && s.unsent <= s.coord.jobs.Keys && s.rejected <= s.coord.jobs.Keys && s.unsent !! s.rejected
    && forall id <- s.coord.jobs ::
         s.coord.jobs[id].id == id && s.coord.jobs[id].attempt == 0 && s.coord.jobs[id].maxAttempts >= 1
  }

  ghost predicate MessageOk(maxReceive: nat, s: Sys, m: Message) {
    && m.job.id in s.coord.jobs && m.job.id !in s.unsent && m.job.id !in s.rejected
    && m.job.maxAttempts == s.coord.jobs[m.job.id].maxAttempts
    && 0 <= m.job.attempt < m.job.maxAttempts
    && m.receives <= maxReceive
    && m.tier == Tier(m.job.priority)
  }

  ghost predicate MessagesOk(maxReceive: nat, s: Sys) {
    forall i | 0 <= i < |s.msgs| :: MessageOk(maxReceive, s, s.msgs[i])
  }

  ghost predicate Enqueued(s: Sys, id: string) {
    exists i | 0 <= i < |s.msgs| :: s.msgs[i].job.id == id
  }

  ghost predicate AllAccounted(s: Sys) {
    forall id <- s.coord.jobs :: id in s.unsent || id in s.rejected || Enqueued(s, id)
  }

  ghost predicate PhaseOk(s: Sys, p: Phase) {
    p.Idle? ||
    (&& p.d.msg < |s.msgs| && p.d.job == s.msgs[p.d.msg].job
     && 1 <= p.d.receiveCount <= s.msgs[p.d.msg].receives
     && (p.Told? ==> Attempt(p.d) < p.d.job.maxAttempts)
     && (p.Acking? ==> Superseded(s, p.d.msg)))
  }

  ghost predicate WorkersOk(s: Sys) {
    forall w | 0 <= w < |s.workers| :: PhaseOk(s, s.workers[w])
  }

  ghost predicate DeletedOk(s: Sys) {
    forall i | 0 <= i < |s.msgs| :: s.msgs[i].place == Deleted ==> Superseded(s, i)
  }

  ghost predicate Inv(maxReceive: nat, s: Sys) {
    Consistent(s.coord) && JobsOk(s) && MessagesOk(maxReceive, s) && AllAccounted(s) && WorkersOk(s) && DeletedOk(s)
  }

  /** What no step undoes: outcomes, submitted jobs, and the messages ever sent. */
  ghost predicate Grows(s: Sys, s': Sys) {
    Extends(s.coord, s'.coord) && StoreGrows(s.msgs, s'.msgs)
  }

  ghost predicate StoreGrows(q: Store, q': Store) {
    |q| <= |q'| && forall i | 0 <= i < |q| :: MessageGrows(q[i], q'[i])
  }

  ghost predicate MessageGrows(m: Message, m': Message) {
    && m'.job == m.job && m.tier == m'.tier && m.receives <= m'.receives
    && (m.place == Deleted ==> m'.place == Deleted)
    && (m.place == DeadLettered ==> m'.place == DeadLettered)
  }

  lemma CoordinatorSteps(maxReceive: nat, s: Sys, step: Step)
    requires Inv(maxReceive, s) && Enabled(maxReceive, s, step)
    ensures var s' := Apply(maxReceive, s, step);
            Consistent(s'.coord) && Extends(s.coord, s'.coord)
  {
    match step
    case Submitting(job, now) => SubmitKeeps(s.coord, job, now);
    case Closing => CloseKeeps(s.coord);
    case Starting(w) => StartedKeeps(s.coord, s.workers[w].d.job.id, s.workers[w].d.receiveCount);
    case Reporting(w, error) =>
      assert PhaseOk(s, s.workers[w]);
      ReportOutcomeKeeps(s.coord, s.workers[w].d.job, error.None?);
    case Deciding(w, answer) =>
      assert PhaseOk(s, s.workers[w]);
      ReportDecisionKeeps(s.coord, s.workers[w].d.job, DecisionFor(s.workers[w], answer).action);
    case Watching(dead) =>
      var gone := DeadJobs(s.msgs, dead);
      forall i | 0 <= i < |gone|
        ensures gone[i].id in s.coord.jobs
      {
        assert MessageOk(maxReceive, s, s.msgs[dead[i]]);
      }
      WatchKeeps(s.coord, gone);
    case _ =>
  }

  lemma StoreSteps(maxReceive: nat, s: Sys, step: Step)
    requires Enabled(maxReceive, s, step)
    ensures StoreGrows(s.msgs, Apply(maxReceive, s, step).msgs)
  {
  }

  lemma StepGrows(maxReceive: nat, s: Sys, step: Step)
    requires Inv(maxReceive, s) && Enabled(maxReceive, s, step)
    ensures Grows(s, Apply(maxReceive, s, step))
  {
    CoordinatorSteps(maxReceive, s, step);
    StoreSteps(maxReceive, s, step);
  }

  lemma SupersededStays(s: Sys, s': Sys, i: nat)
    requires i < |s.msgs| && Superseded(s, i) && Grows(s, s')
    ensures Superseded(s', i)
  {
    if s.msgs[i].job.id !in s.coord.terminal {
      var k :| i < k < |s.msgs| && s.msgs[k].job.id == s.msgs[i].job.id;
      assert MessageGrows(s.msgs[k], s'.msgs[k]) && MessageGrows(s.msgs[i], s'.msgs[i]);
    }
  }

  lemma EnqueuedStays(s: Sys, s': Sys, id: string)
    requires Enqueued(s, id) && Grows(s, s')
    ensures Enqueued(s', id)
  {
    var i :| 0 <= i < |s.msgs| && s.msgs[i].job.id == id;
    assert MessageGrows(s.msgs[i], s'.msgs[i]);
  }

  // Only Submit adds jobs, and only the submitter moves them out of `unsent`.
  lemma JobsFrame(maxReceive: nat, s: Sys, step: Step)
    requires Enabled(maxReceive, s, step)
    ensures var s' := Apply(maxReceive, s, step);
            s'.coord.jobs == if step.Submitting? then s.coord.jobs[step.job.id := Normalised(step.job, step.now)]
                             else s.coord.jobs
  {
    if step.Watching? {
      BuryAllFrame(s.coord, DeadJobs(s.msgs, step.dead));
    } else if step.Starting? || step.Reporting? || step.Deciding? {
      LockSectionFrame(maxReceive, s, step);
    }
  }

  lemma LockSectionFrame(maxReceive: nat, s: Sys, step: Step)
    requires Enabled(maxReceive, s, step) && (step.Starting? || step.Reporting? || step.Deciding?)
    ensures Apply(maxReceive, s, step).coord.jobs == s.coord.jobs
  {
    var d := s.workers[step.w].d;
    if step.Starting? {
      assert Started(s.coord, d.job.id, d.receiveCount).0.jobs == s.coord.jobs;
    } else if step.Reporting? {
      assert ReportOutcome(s.coord, d.job, step.error.None?).0.jobs == s.coord.jobs;
    } else {
      assert ReportDecision(s.coord, d.job, DecisionFor(s.workers[step.w], step.answer).action).0.jobs == s.coord.jobs;
    }
  }

  lemma JobsStep(maxReceive: nat, s: Sys, step: Step)
    requires JobsOk(s) && Enabled(maxReceive, s, step)
    ensures JobsOk(Apply(maxReceive, s, step))
  {
    JobsFrame(maxReceive, s, step);
  }

  // A message a step adds: a job just submitted, or an adjusted copy within the retry budget.
  lemma NewMessage(maxReceive: nat, s: Sys, step: Step)
    requires JobsOk(s) && MessagesOk(maxReceive, s) && WorkersOk(s) && Enabled(maxReceive, s, step)
    ensures var s' := Apply(maxReceive, s, step);
            && |s'.msgs| == |s.msgs| + (if step.Enqueuing? || step.Resending? then 1 else 0)
            && (|s'.msgs| > |s.msgs| ==> MessageOk(maxReceive, s', s'.msgs[|s.msgs|]))
  {
    if step.Resending? {
      assert PhaseOk(s, s.workers[step.w]);
      assert MessageOk(maxReceive, s, s.msgs[s.workers[step.w].d.msg]);
    }
  }

  lemma OldMessage(maxReceive: nat, s: Sys, step: Step, i: nat)
    requires MessagesOk(maxReceive, s) && JobsOk(s) && Enabled(maxReceive, s, step) && i < |s.msgs|
    ensures var s' := Apply(maxReceive, s, step);
            i < |s'.msgs| && MessageOk(maxReceive, s', s'.msgs[i])
  {
    assert MessageOk(maxReceive, s, s.msgs[i]);
    JobsFrame(maxReceive, s, step);
  }

  lemma MessagesStep(maxReceive: nat, s: Sys, step: Step)
    requires JobsOk(s) && MessagesOk(maxReceive, s) && WorkersOk(s) && Enabled(maxReceive, s, step)
    ensures MessagesOk(maxReceive, Apply(maxReceive, s, step))
  {
    var s' := Apply(maxReceive, s, step);
    NewMessage(maxReceive, s, step);
    forall i | 0 <= i < |s'.msgs|
      ensures MessageOk(maxReceive, s', s'.msgs[i])
    {
      if i < |s.msgs| {
        OldMessage(maxReceive, s, step, i);
      }
    }
  }

  lemma AccountedStep(maxReceive: nat, s: Sys, step: Step)
    requires JobsOk(s) && AllAccounted(s) && Enabled(maxReceive, s, step)
    requires Grows(s, Apply(maxReceive, s, step))
    ensures AllAccounted(Apply(maxReceive, s, step))
  {
    var s' := Apply(maxReceive, s, step);
    JobsFrame(maxReceive, s, step);
    forall id <- s'.coord.jobs
      ensures id in s'.unsent || id in s'.rejected || Enqueued(s', id)
    {
      if step == Enqueuing(id) {
        assert s'.msgs[|s.msgs|].job.id == id;
        assert Enqueued(s', id);
      } else if id in s.coord.jobs && Enqueued(s, id) {
        EnqueuedStays(s, s', id);
      }
    }
  }

  lemma DeletedStep(maxReceive: nat, s: Sys, step: Step)
    requires DeletedOk(s) && WorkersOk(s) && Enabled(maxReceive, s, step)
    requires Grows(s, Apply(maxReceive, s, step))
    ensures DeletedOk(Apply(maxReceive, s, step))
  {
    var s' := Apply(maxReceive, s, step);
    forall i | 0 <= i < |s'.msgs| && s'.msgs[i].place == Deleted
      ensures Superseded(s', i)
    {
      if s.msgs[i].place != Deleted {
        assert step.Acknowledging? && s.workers[step.w].d.msg == i;
        assert PhaseOk(s, s.workers[step.w]);
      }
      SupersededStays(s, s', i);
    }
  }

  predicate MovesWorker(step: Step) {
    && !step.Submitting? && !step.Enqueuing? && !step.EnqueueFailing? && !step.Closing?
    && !step.Redriving? && !step.Expiring? && !step.Watching?
  }

  // A worker that goes on to delete its message may do so: its job has an outcome or a newer message.
  lemma AckingIsSafe(maxReceive: nat, s: Sys, step: Step)
    requires WorkersOk(s) && Enabled(maxReceive, s, step) && MovesWorker(step)
    requires Grows(s, Apply(maxReceive, s, step))
    requires Apply(maxReceive, s, step).workers[step.w].Acking?
    ensures s.workers[step.w].d == Apply(maxReceive, s, step).workers[step.w].d
    ensures Superseded(Apply(maxReceive, s, step), s.workers[step.w].d.msg)
  {
    var s' := Apply(maxReceive, s, step);
    var p := s.workers[step.w];
    assert PhaseOk(s, p);
    assert MessageGrows(s.msgs[p.d.msg], s'.msgs[p.d.msg]);
    if step.Resending? {
      assert s'.msgs[|s.msgs|].job.id == s'.msgs[p.d.msg].job.id;
    } else {
      assert p.d.job.id in s'.coord.terminal;
    }
  }

  lemma MovedWorker(maxReceive: nat, s: Sys, step: Step)
    requires WorkersOk(s) && Enabled(maxReceive, s, step) && MovesWorker(step)
    requires Grows(s, Apply(maxReceive, s, step))
    ensures PhaseOk(Apply(maxReceive, s, step), Apply(maxReceive, s, step).workers[step.w])
  {
    var s' := Apply(maxReceive, s, step);
    var p := s.workers[step.w];
    assert PhaseOk(s, p);
    if s'.workers[step.w].Acking? {
      AckingIsSafe(maxReceive, s, step);
    }
    if !p.Idle? {
      assert MessageGrows(s.msgs[p.d.msg], s'.msgs[p.d.msg]);
    }
  }

  lemma OtherWorker(s: Sys, s': Sys, p: Phase)
    requires PhaseOk(s, p) && Grows(s, s')
    ensures PhaseOk(s', p)
  {
    if !p.Idle? {
      assert MessageGrows(s.msgs[p.d.msg], s'.msgs[p.d.msg]);
      if p.Acking? {
        SupersededStays(s, s', p.d.msg);
      }
    }
  }

  lemma OneWorkerMoves(maxReceive: nat, s: Sys, step: Step, v: nat)
    requires Enabled(maxReceive, s, step) && v < |s.workers|
    ensures |Apply(maxReceive, s, step).workers| == |s.workers|
    ensures (MovesWorker(step) && v == step.w) || Apply(maxReceive, s, step).workers[v] == s.workers[v]
  {
  }

  lemma OneWorkerMovesAll(maxReceive: nat, s: Sys, step: Step)
    requires Enabled(maxReceive, s, step)
    ensures |Apply(maxReceive, s, step).workers| == |s.workers|
  {
  }

  lemma WorkersStep(maxReceive: nat, s: Sys, step: Step)
    requires WorkersOk(s) && Enabled(maxReceive, s, step)
    requires Grows(s, Apply(maxReceive, s, step))
    ensures WorkersOk(Apply(maxReceive, s, step))
  {
    var s' := Apply(maxReceive, s, step);
    forall v | 0 <= v < |s'.workers|
      ensures PhaseOk(s', s'.workers[v])
    {
      OneWorkerMoves(maxReceive, s, step, v);
      if MovesWorker(step) && v == step.w {
        MovedWorker(maxReceive, s, step);
      } else {
        OtherWorker(s, s', s.workers[v]);
      }
    }
  }

  lemma StepKeepsInv(maxReceive: nat, s: Sys, step: Step)
    requires Inv(maxReceive, s) && Enabled(maxReceive, s, step)
    ensures Inv(maxReceive, Apply(maxReceive, s, step)) && Grows(s, Apply(maxReceive, s, step))
  {
    CoordinatorSteps(maxReceive, s, step);
    StepGrows(maxReceive, s, step);
    JobsStep(maxReceive, s, step);
    MessagesStep(maxReceive, s, step);
    AccountedStep(maxReceive, s, step);
    DeletedStep(maxReceive, s, step);
    WorkersStep(maxReceive, s, step);
  }

  lemma GrowsTransitive(a: Sys, b: Sys, c: Sys)
    requires Grows(a, b) && Grows(b, c)
    ensures Grows(a, c)
  {
    ExtendsTransitive(a.coord, b.coord, c.coord);
    forall i | 0 <= i < |a.msgs|
      ensures MessageGrows(a.msgs[i], c.msgs[i])
    {
      assert MessageGrows(a.msgs[i], b.msgs[i]) && MessageGrows(b.msgs[i], c.msgs[i]);
    }
  }

  lemma {:induction false} RunKeepsInv(maxReceive: nat, s: Sys, steps: seq<Step>)
    requires Inv(maxReceive, s) && Exec(maxReceive, s, steps).Some?
    ensures var s' := Exec(maxReceive, s, steps).value;
            Inv(maxReceive, s') && Grows(s, s')
  {
    if steps != [] {
      var front := steps[..|steps| - 1];
      var prior := Exec(maxReceive, s, front).value;
      RunKeepsInv(maxReceive, s, front);
      StepKeepsInv(maxReceive, prior, steps[|steps| - 1]);
      GrowsTransitive(s, prior, Exec(maxReceive, s, steps).value);
    }
  }

  lemma InitialInv(maxReceive: nat, workers: nat)
    ensures Inv(maxReceive, Initial(workers))
  {
  }

  // ---- the theorems ----

  ghost predicate Reached(maxReceive: nat, workers: nat, steps: seq<Step>, s: Sys) {
    Exec(maxReceive, Initial(workers), steps) == Some(s)
  }

  predicate Newest(q: Store, id: string, i: nat) {
    i < |q| && q[i].job.id == id && forall k | i < k < |q| :: q[k].job.id != id
  }

  lemma {:induction false} NewestExists(q: Store, i: nat) returns (n: nat)
    requires i < |q|
    ensures Newest(q, q[i].job.id, n)
    decreases |q| - i
  {
    if k :| i < k < |q| && q[k].job.id == q[i].job.id {
      n := NewestExists(q, k);
    } else {
      n := i;
    }
  }

  /** No job is ever lost: whatever crashes, expires or is triaged, a job whose Submit succeeded has a
      recorded outcome, or the newest message for it is still in its tier queue or in the dead-letter queue. */
  lemma NoJobIsLost(maxReceive: nat, workers: nat, steps: seq<Step>, s: Sys, id: string)
    requires Reached(maxReceive, workers, steps, s)
    requires id in s.coord.jobs && id !in s.unsent && id !in s.rejected
    ensures id in s.coord.terminal || exists n: nat :: Newest(s.msgs, id, n) && s.msgs[n].place != Deleted
  {
    InitialInv(maxReceive, workers);
    RunKeepsInv(maxReceive, Initial(workers), steps);
    assert Enqueued(s, id);
    var i :| 0 <= i < |s.msgs| && s.msgs[i].job.id == id;
    var n := NewestExists(s.msgs, i);
    assert s.msgs[n].place == Deleted ==> Superseded(s, n);
  }

  /** Outcomes are exactly-once: the three counters count the recorded outcomes, a recorded outcome and
      its batch never change in any continuation of the run, and only submitted jobs have one. */
  lemma OutcomesAreExactlyOnce(maxReceive: nat, workers: nat, before: seq<Step>, s: Sys, more: seq<Step>, s': Sys)
    requires Reached(maxReceive, workers, before, s)
    requires Exec(maxReceive, s, more) == Some(s')
    ensures Counts(s.coord) && Extends(s.coord, s'.coord)
    ensures s.coord.stats.succeeded + s.coord.stats.escalated + s.coord.stats.deadLettered == |s.coord.terminal|
  {
    InitialInv(maxReceive, workers);
    RunKeepsInv(maxReceive, Initial(workers), before);
    RunKeepsInv(maxReceive, s, more);
    CountsAddUp(s.coord);
  }

  /** The done signal is exact: it is up precisely when submissions are closed and every submitted job has
      an outcome. */
  lemma DoneIsExact(maxReceive: nat, workers: nat, steps: seq<Step>, s: Sys)
    requires Reached(maxReceive, workers, steps, s)
    ensures s.coord.done <==> s.coord.closed && s.coord.terminal.Keys == s.coord.jobs.Keys
  {
    InitialInv(maxReceive, workers);
    RunKeepsInv(maxReceive, Initial(workers), steps);
  }

  // Only a Started that finds no outcome hands a batch to a worker.
  lemma GrantNeedsNoOutcome(maxReceive: nat, s: Sys, step: Step, w: nat)
    requires Enabled(maxReceive, s, step) && w < |s.workers|
    requires Apply(maxReceive, s, step).workers[w].Granted?
    ensures Apply(maxReceive, s, step).workers[w] == s.workers[w] || s.workers[w].Received?
    ensures Apply(maxReceive, s, step).workers[w] != s.workers[w] ==>
              Apply(maxReceive, s, step).workers[w].d.job.id !in s.coord.terminal
  {
    OneWorkerMoves(maxReceive, s, step, w);
  }

  /** Once a job has an outcome, no worker ever starts to run it again: whoever is granted its batch in any
      continuation was granted it before the outcome was recorded and has held it since. */
  lemma {:induction false} NoRunAfterOutcome(maxReceive: nat, s: Sys, more: seq<Step>, s': Sys, id: string, w: nat)
    requires Inv(maxReceive, s) && id in s.coord.terminal && Exec(maxReceive, s, more) == Some(s')
    requires w < |s'.workers| && s'.workers[w].Granted? && s'.workers[w].d.job.id == id
    ensures w < |s.workers| && s.workers[w] == s'.workers[w]
  {
    if more != [] {
      var front, step := more[..|more| - 1], more[|more| - 1];
      var prior := Exec(maxReceive, s, front).value;
      RunKeepsInv(maxReceive, s, front);
      OneWorkerMovesAll(maxReceive, prior, step);
      GrantNeedsNoOutcome(maxReceive, prior, step, w);
      NoRunAfterOutcome(maxReceive, s, front, prior, id, w);
    }
  }

  // ---- jobs whose enqueue failed ----

  /** No outcome is recorded for a job that never reached a queue. */
  ghost predicate OutcomesWereSent(s: Sys) {
    forall id <- s.coord.terminal :: id !in s.unsent && id !in s.rejected
  }

  // An outcome is recorded only for the job of some message.
  lemma OutcomeHasMessage(maxReceive: nat, s: Sys, step: Step, id: string)
    requires MessagesOk(maxReceive, s) && WorkersOk(s) && Enabled(maxReceive, s, step)
    requires id !in s.coord.terminal && id in Apply(maxReceive, s, step).coord.terminal
    ensures exists i | 0 <= i < |s.msgs| :: s.msgs[i].job.id == id
  {
    if step.Watching? {
      BuryAllBuries(s.coord, DeadJobs(s.msgs, step.dead), id);
      var k :| 0 <= k < |step.dead| && DeadJobs(s.msgs, step.dead)[k].id == id;
      assert s.msgs[step.dead[k]].job.id == id;
    } else {
      ReporterRecords(maxReceive, s, step, id);
      assert PhaseOk(s, s.workers[step.w]);
      assert s.msgs[s.workers[step.w].d.msg].job.id == id;
    }
  }

  // But for the watcher, only the worker that reports a job records its outcome.
  lemma ReporterRecords(maxReceive: nat, s: Sys, step: Step, id: string)
    requires Enabled(maxReceive, s, step) && !step.Watching?
    requires id !in s.coord.terminal && id in Apply(maxReceive, s, step).coord.terminal
    ensures (step.Reporting? || step.Deciding?) && s.workers[step.w].d.job.id == id
  {
    if !step.Reporting? && !step.Deciding? {
      OthersRecordNothing(maxReceive, s, step);
    }
  }

  lemma OthersRecordNothing(maxReceive: nat, s: Sys, step: Step)
    requires Enabled(maxReceive, s, step) && !step.Watching? && !step.Reporting? && !step.Deciding?
    ensures Apply(maxReceive, s, step).coord.terminal == s.coord.terminal
  {
  }

  lemma SubmittersStep(maxReceive: nat, s: Sys, step: Step)
    requires Enabled(maxReceive, s, step)
    ensures var s' := Apply(maxReceive, s, step);
            && s.rejected <= s'.rejected
            && (forall id :: id in s'.unsent || id in s'.rejected ==>
                  id in s.unsent || id in s.rejected || (step.Submitting? && id == step.job.id))
  {
  }

  lemma OutcomesWereSentStep(maxReceive: nat, s: Sys, step: Step)
    requires Inv(maxReceive, s) && OutcomesWereSent(s) && Enabled(maxReceive, s, step)
    ensures OutcomesWereSent(Apply(maxReceive, s, step))
  {
    var s' := Apply(maxReceive, s, step);
    SubmittersStep(maxReceive, s, step);
    forall id <- s'.coord.terminal
      ensures id !in s'.unsent && id !in s'.rejected
    {
      if id !in s.coord.terminal {
        OutcomeHasMessage(maxReceive, s, step, id);
        var i :| 0 <= i < |s.msgs| && s.msgs[i].job.id == id;
        assert MessageOk(maxReceive, s, s.msgs[i]);
      }
    }
  }

  lemma {:induction false} OnlySentJobsFinish(maxReceive: nat, s: Sys, steps: seq<Step>)
    requires Inv(maxReceive, s) && OutcomesWereSent(s) && Exec(maxReceive, s, steps).Some?
    ensures OutcomesWereSent(Exec(maxReceive, s, steps).value)
    ensures s.rejected <= Exec(maxReceive, s, steps).value.rejected
  {
    if steps != [] {
      var front := steps[..|steps| - 1];
      OnlySentJobsFinish(maxReceive, s, front);
      RunKeepsInv(maxReceive, s, front);
      OutcomesWereSentStep(maxReceive, Exec(maxReceive, s, front).value, steps[|steps| - 1]);
      SubmittersStep(maxReceive, Exec(maxReceive, s, front).value, steps[|steps| - 1]);
    }
  }

  // No message can be received any more, no submission is half done and no worker is in its loop body.
  predicate Quiescent(s: Sys) {
    && s.unsent == {}
    && (forall w | 0 <= w < |s.workers| :: s.workers[w].Idle?)
    && (forall i | 0 <= i < |s.msgs| :: s.msgs[i].place in {Deleted, DeadLettered})
  }

  predicate DeadLettersSeen(s: Sys) {
    forall i | 0 <= i < |s.msgs| :: s.msgs[i].place == DeadLettered ==> s.msgs[i].job.id in s.coord.terminal
  }

  /** When nothing is left to receive and the watcher has seen every dead letter, exactly the jobs whose
      enqueue did not fail have an outcome; and once submissions are closed the done signal is up if and only
      if no enqueue failed. */
  lemma QuiescentMeansFinished(maxReceive: nat, workers: nat, steps: seq<Step>, s: Sys)
    requires Reached(maxReceive, workers, steps, s)
    requires Quiescent(s) && DeadLettersSeen(s)
    ensures s.coord.terminal.Keys == s.coord.jobs.Keys - s.rejected
    ensures s.coord.closed ==> (s.coord.done <==> s.rejected == {})
  {
    InitialInv(maxReceive, workers);
    RunKeepsInv(maxReceive, Initial(workers), steps);
    OnlySentJobsFinish(maxReceive, Initial(workers), steps);
    forall id <- s.coord.jobs
      ensures id in s.coord.terminal || id in s.rejected
    {
      if id !in s.rejected {
        NoJobIsLost(maxReceive, workers, steps, s, id);
      }
    }
    DoneIsExact(maxReceive, workers, steps, s);
  }

  /** One failed enqueue is for good: in every continuation its job has no outcome and done never rises. */
  lemma FailedEnqueueBlocksDone(maxReceive: nat, workers: nat, steps: seq<Step>, s: Sys, more: seq<Step>, s': Sys,
      id: string)
    requires Reached(maxReceive, workers, steps, s) && id in s.rejected
    requires Exec(maxReceive, s, more) == Some(s')
    ensures id in s'.coord.jobs && id !in s'.coord.terminal && !s'.coord.done
  {
    InitialInv(maxReceive, workers);
    RunKeepsInv(maxReceive, Initial(workers), steps);
    OnlySentJobsFinish(maxReceive, Initial(workers), steps);
    OnlySentJobsFinish(maxReceive, s, more);
    RunKeepsInv(maxReceive, s, more);
  }

  /** The shortest such run: a submission is recorded, its send fails, submissions close. Nothing is left to
      do, and done is down. */
  lemma FailedEnqueueRun(maxReceive: nat, workers: nat, job: Job)
    requires Valid(job.batch) && job.attempt == 0
    ensures var run := Exec(maxReceive, Initial(workers), [Submitting(job, 1), EnqueueFailing(job.id), Closing]);
            && run.Some? && Quiescent(run.value) && DeadLettersSeen(run.value)
            && run.value.coord.closed && run.value.rejected == {job.id} && !run.value.coord.done
  {
    var steps := [Submitting(job, 1), EnqueueFailing(job.id), Closing];
    assert steps[..2][..1] == steps[..1] && steps[..1][..0] == [] && steps[..3] == steps
           && steps[..|steps| - 1] == steps[..2];
    var s1 := Apply(maxReceive, Initial(workers), steps[0]);
    assert Exec(maxReceive, Initial(workers), steps[..1]) == Some(s1);
    var s2 := Apply(maxReceive, s1, steps[1]);
    assert Exec(maxReceive, Initial(workers), steps[..2]) == Some(s2);
    assert |s2.coord.terminal| == 0 && s2.coord.stats.submitted == 1;
    assert s2.rejected == {job.id} && s2.unsent == {};
  }
}
