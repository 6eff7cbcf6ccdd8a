/** Whole runs of the broker: they end whatever the agent answers, and what becomes of a job does not
    depend on the order in which the workers happen to claim and report. */
module BrokerRuns {
  import opened Inference
  import opened Jobs
  import opened Wrappers
  import opened Triage
  import opened Sums
  import opened Broker

  // ---- termination ----

  predicate IsWork(step: Step) {
    step.Claiming? || step.Reporting? || step.Deciding?
  }

  /** How many more claims, reports and decisions a job can take part in. */
  ghost function JobWork(s: State, id: string): int {
    if id !in s.jobs || id in s.finished then 0
    else
      3 * (s.jobs[id].maxAttempts - s.jobs[id].attempt)
      + if id in s.running then 2 else if id in s.triaging then 1 else 0
  }

  /** Every claim, report and triage decision uses up some of its job's work, and touches no other job's. */
  lemma WorkDescends(s: State, step: Step, id: string)
    requires InOnePlace(s, id) && Enabled(s, step) && id in s.jobs && id in s.original && JobOk(s, id)
    ensures var s' := Apply(s, step);
            0 <= JobWork(s', id) <= JobWork(s, id)
    ensures IsWork(step) && id == Subject(step) ==> JobWork(Apply(s, step), id) < JobWork(s, id)
    ensures IsWork(step) && id == Subject(step) && id !in Apply(s, step).finished ==>
              JobWork(Apply(s, step), id) == JobWork(s, id) - 1
    ensures !IsWork(step) || id != Subject(step) ==> JobWork(Apply(s, step), id) == JobWork(s, id)
  {
    if id != Subject(step) {
      OtherJob(s, step, id);
    }
  }

  /** A new job brings three units for every try it is allowed. */
  lemma WorkOfSubmission(s: State, step: Step)
    requires InOnePlace(s, Subject(step)) && Enabled(s, step) && step.Submitting?
    ensures JobWork(Apply(s, step), step.job.id) ==
            3 * if step.job.maxAttempts >= 1 then step.job.maxAttempts else 3
  {
  }

  ghost function Works(s: State): string -> int {
    (id: string) => JobWork(s, id)
  }

  ghost function TotalWork(s: State): int {
    SetSum(s.jobs.Keys, Works(s))
  }

  ghost function WorkSteps(steps: seq<Step>): nat {
    if steps == [] then 0 else WorkSteps(steps[..|steps| - 1]) + if IsWork(steps[|steps| - 1]) then 1 else 0
  }

  lemma TotalWorkDescends(s: State, step: Step)
    requires Inv(s) && Enabled(s, step) && !step.Submitting?
    ensures Apply(s, step).jobs.Keys == s.jobs.Keys
    ensures TotalWork(Apply(s, step)) <= TotalWork(s) - if IsWork(step) then 1 else 0
  {
    var s' := Apply(s, step);
    assert InOnePlace(s, Subject(step));
    KeysStep(s, step);
    forall id <- s.jobs.Keys
      ensures Works(s')(id) <= Works(s)(id)
      ensures id != Subject(step) || !IsWork(step) ==> Works(s')(id) == Works(s)(id)
    {
      assert InOnePlace(s, id) && JobOk(s, id);
      WorkDescends(s, step, id);
    }
    if IsWork(step) {
      WorkDescends(s, step, Subject(step));
      SetSumChange(s.jobs.Keys, Subject(step), Works(s), Works(s'));
    } else {
      SetSumAgree(s.jobs.Keys, Works(s), Works(s'));
    }
  }

  predicate NoSubmissions(steps: seq<Step>) {
    forall i | 0 <= i < |steps| :: !steps[i].Submitting?
  }

  /** The broker terminates against an adversarial agent: once nothing more is submitted, at most
      TotalWork claims, reports and decisions can still happen, in any order and with any answers. */
  lemma {:induction false} WorkIsBounded(s: State, steps: seq<Step>)
    requires Inv(s) && NoSubmissions(steps) && Exec(s, steps).Some?
    ensures var s' := Exec(s, steps).value;
            Inv(s') && s'.jobs.Keys == s.jobs.Keys && 0 <= TotalWork(s') <= TotalWork(s) - WorkSteps(steps)
  {
    if steps == [] {
      WorkIsNatural(s);
    } else {
      var front, step := steps[..|steps| - 1], steps[|steps| - 1];
      WorkIsBounded(s, front);
      var prior := Exec(s, front).value;
      StepKeepsInv(prior, step);
      TotalWorkDescends(prior, step);
      WorkIsNatural(Apply(prior, step));
    }
  }

  lemma WorkIsNatural(s: State)
    requires Inv(s)
    ensures TotalWork(s) >= 0
  {
    forall id <- s.jobs.Keys
      ensures 0 <= Works(s)(id)
    {
      assert JobOk(s, id);
    }
    var zero := (_: string) => 0;
    SetSumMonotone(s.jobs.Keys, zero, Works(s));
    ZeroSum(s.jobs.Keys, zero);
  }

  lemma {:induction false} ZeroSum(ids: set<string>, f: string -> int)
    requires forall id <- ids :: f(id) == 0
    ensures SetSum(ids, f) == 0
  {
    if ids != {} {
      var id :| id in ids;
      SetSumRemove(ids, id, f);
      ZeroSum(ids - {id}, f);
    }
  }

  /** What is stuck is only waiting: while a job is unfinished some claim, report or decision is possible. */
  lemma UnfinishedJobsCanMove(s: State, id: string)
    requires Inv(s) && id in s.jobs && id !in s.finished
    ensures exists step :: IsWork(step) && Subject(step) == id && Enabled(s, step)
  {
    assert InOnePlace(s, id);
    var step :=
      if id in s.queued then Claiming(id, "", 0)
      else if id in s.running then Reporting(id, None)
      else Deciding(id, Failure(""));
    assert IsWork(step) && Subject(step) == id && Enabled(s, step);
  }

  // ---- claims ----

  ghost function Tries(s: State): string -> int {
    (id: string) => if id in s.jobs then s.jobs[id].attempt else 0
  }

  ghost function Limits(s: State): string -> int {
    (id: string) => if id in s.original then s.original[id].maxAttempts else 0
  }

  ghost function Claims(steps: seq<Step>): nat {
    if steps == [] then 0 else Claims(steps[..|steps| - 1]) + if steps[|steps| - 1].Claiming? then 1 else 0
  }

  lemma TriesOfOneJob(s: State, step: Step, id: string)
    requires InOnePlace(s, id) && Enabled(s, step)
    ensures Tries(Apply(s, step))(id) == Tries(s)(id) + if step.Claiming? && id == step.id then 1 else 0
  {
    if id != Subject(step) {
      OtherJob(s, step, id);
    }
  }

  lemma ClaimAddsATry(s: State, step: Step)
    requires Placed(s) && Enabled(s, step)
    ensures var s' := Apply(s, step);
            SetSum(s'.jobs.Keys, Tries(s')) == SetSum(s.jobs.Keys, Tries(s)) + if step.Claiming? then 1 else 0
  {
    var s', id := Apply(s, step), Subject(step);
    KeysStep(s, step);
    forall other
      ensures Tries(s')(other) == Tries(s)(other) + if step.Claiming? && other == id then 1 else 0
    {
      assert InOnePlace(s, other);
      TriesOfOneJob(s, step, other);
    }
    if step.Claiming? {
      SetSumChange(s.jobs.Keys, id, Tries(s), Tries(s'));
    } else {
      SetSumAgree(s.jobs.Keys, Tries(s), Tries(s'));
      if step.Submitting? {
        SetSumInsert(s.jobs.Keys, id, Tries(s'));
      }
    }
  }

  lemma {:induction false} ClaimsAreTries(steps: seq<Step>, s: State)
    requires Reached(steps, s)
    ensures Claims(steps) == SetSum(s.jobs.Keys, Tries(s))
  {
    if steps != [] {
      var front := steps[..|steps| - 1];
      var prior := Exec(INITIAL, front).value;
      ClaimsAreTries(front, prior);
      RunKeepsInv(front);
      ClaimAddsATry(prior, steps[|steps| - 1]);
    }
  }

  /** All claims of a run together are at most the sum of the retry budgets of the submitted jobs. */
  lemma ClaimsAreBounded(steps: seq<Step>, s: State)
    requires Reached(steps, s)
    ensures Claims(steps) <= SetSum(s.jobs.Keys, Limits(s))
  {
    ClaimsAreTries(steps, s);
    RunKeepsInv(steps);
    forall id <- s.jobs.Keys
      ensures Tries(s)(id) <= Limits(s)(id)
    {
      assert JobOk(s, id);
    }
    SetSumMonotone(s.jobs.Keys, Tries(s), Limits(s));
  }

  // ---- confluence ----

  /** The world a job meets: whether try number `attempt` of a batch fails, and a triage agent that is a
      function of the failure it is shown. */
  datatype World = World(run: (string, int, Batch) -> Option<string>, agent: Agent)

  datatype Fate = Fate(outcome: Outcome, batch: Batch, retried: nat, adjusted: nat)

  /** What becomes of a job whose next try is number `attempt`, followed by itself. */
  ghost function FateOf(w: World, id: string, attempt: int, maxAttempts: int, batch: Batch): Fate
    decreases maxAttempts - attempt, 1
  {
    match w.run(id, attempt, batch)
    case None => Fate(Succeeded, batch, 0, 0)
    case Some(error) => FateAfterFailure(w, id, attempt, maxAttempts, batch, error)
  }

  ghost function FateAfterFailure(w: World, id: string, attempt: int, maxAttempts: int, batch: Batch,
      error: string): Fate
    decreases maxAttempts - attempt, 0
  {
    var d := Resolve(w.agent(FailureInfo(id, attempt, maxAttempts, error, batch)), attempt, maxAttempts);
    if d.action.Retry? then
      var rest := FateOf(w, id, attempt + 1, maxAttempts, batch);
      rest.(retried := rest.retried + 1)
    else if d.action.AutoAdjust? then
      var rest := FateOf(w, id, attempt + 1, maxAttempts, Adjusted(batch, d));
      rest.(adjusted := rest.adjusted + 1)
    else Fate(Escalated, batch, 0, 0)
  }

  ghost predicate Faithful(w: World, s: State, step: Step)
    requires Enabled(s, step)
  {
    match step
    case Reporting(id, error) => error == w.run(id, s.jobs[id].attempt, s.jobs[id].batch)
    case Deciding(id, answer) => answer == w.agent(FailureOf(s, id))
    case _ => true
  }

  /** A run in which outcomes and answers are those of the world. */
  ghost predicate FaithfulRun(w: World, steps: seq<Step>, s: State)
    decreases |steps|
  {
    if steps == [] then s == INITIAL
    else exists prior :: FaithfulStep(w, steps, prior, s)
  }

  ghost predicate FaithfulStep(w: World, steps: seq<Step>, prior: State, s: State)
    requires steps != []
    decreases |steps|, 0
  {
    var step := steps[|steps| - 1];
    FaithfulRun(w, steps[..|steps| - 1], prior) && Enabled(prior, step) && Faithful(w, prior, step)
    && s == Apply(prior, step)
  }

  /** What is still to come for a job, from wherever it is now. */
  ghost function Future(w: World, s: State, id: string): Fate
    requires id in s.jobs
  {
    var job := s.jobs[id];
    if id in s.finished then Fate(s.finished[id], job.batch, 0, 0)
    else if id in s.triaging then FateAfterFailure(w, id, job.attempt, job.maxAttempts, job.batch, s.triaging[id])
    else if id in s.running then FateOf(w, id, job.attempt, job.maxAttempts, job.batch)
    else FateOf(w, id, job.attempt + 1, job.maxAttempts, job.batch)
  }

  ghost function Destiny(w: World, job: Job): Fate {
    FateOf(w, job.id, 1, job.maxAttempts, job.batch)
  }

  // The two decisions that are counted.
  datatype Kind = Retries | Adjustments

  ghost function CountOf(f: Fate, k: Kind): int {
    if k == Retries then f.retried else f.adjusted
  }

  function Counter(stats: Stats, k: Kind): int {
    if k == Retries then stats.retried else stats.adjusted
  }

  lemma ClaimFuture(w: World, s: State, step: Step)
    requires Inv(s) && Enabled(s, step) && step.Claiming?
    ensures Future(w, Apply(s, step), step.id) == Future(w, s, step.id)
  {
    assert InOnePlace(s, step.id);
  }

  lemma ReportFuture(w: World, s: State, step: Step)
    requires Inv(s) && Enabled(s, step) && Faithful(w, s, step) && step.Reporting?
    ensures Future(w, Apply(s, step), step.id) == Future(w, s, step.id)
  {
    assert InOnePlace(s, step.id);
    assert JobOk(s, step.id);
  }

  lemma DecisionFuture(w: World, s: State, step: Step, k: Kind)
    requires InOnePlace(s, Subject(step)) && Enabled(s, step) && Faithful(w, s, step) && step.Deciding?
    ensures var s' := Apply(s, step);
            var was, now := Future(w, s, step.id), Future(w, s', step.id);
            && was.outcome == now.outcome && was.batch == now.batch
            && CountOf(was, k) - CountOf(now, k) == Counter(s'.stats, k) - Counter(s.stats, k)
  {
    if DecisionFor(s, step.id, step.answer).action.Escalate? {
      EscalationFuture(w, s, step, k);
    } else {
      RequeueFuture(w, s, step, k);
    }
  }

  lemma EscalationFuture(w: World, s: State, step: Step, k: Kind)
    requires InOnePlace(s, Subject(step)) && Enabled(s, step) && Faithful(w, s, step) && step.Deciding?
    requires DecisionFor(s, step.id, step.answer).action.Escalate?
    ensures var s' := Apply(s, step);
            var was, now := Future(w, s, step.id), Future(w, s', step.id);
            && was.outcome == now.outcome && was.batch == now.batch
            && CountOf(was, k) - CountOf(now, k) == Counter(s'.stats, k) - Counter(s.stats, k)
  {
    var d := DecisionFor(s, step.id, step.answer);
    var job := s.jobs[step.id];
    assert Future(w, s, step.id) ==
           FateAfterFailure(w, step.id, job.attempt, job.maxAttempts, job.batch, s.triaging[step.id]);
    assert d == Resolve(w.agent(FailureInfo(step.id, job.attempt, job.maxAttempts, s.triaging[step.id], job.batch)),
                        job.attempt, job.maxAttempts);
  }

  lemma RequeueFuture(w: World, s: State, step: Step, k: Kind)
    requires InOnePlace(s, Subject(step)) && Enabled(s, step) && Faithful(w, s, step) && step.Deciding?
    requires !DecisionFor(s, step.id, step.answer).action.Escalate?
    ensures var s' := Apply(s, step);
            var was, now := Future(w, s, step.id), Future(w, s', step.id);
            && was.outcome == now.outcome && was.batch == now.batch
            && CountOf(was, k) - CountOf(now, k) == Counter(s'.stats, k) - Counter(s.stats, k)
  {
    var d := DecisionFor(s, step.id, step.answer);
    var job := s.jobs[step.id];
    assert Future(w, s, step.id) ==
           FateAfterFailure(w, step.id, job.attempt, job.maxAttempts, job.batch, s.triaging[step.id]);
    assert d == Resolve(w.agent(FailureInfo(step.id, job.attempt, job.maxAttempts, s.triaging[step.id], job.batch)),
                        job.attempt, job.maxAttempts);
  }

  lemma SubjectFuture(w: World, s: State, step: Step, k: Kind)
    requires Inv(s) && Enabled(s, step) && Faithful(w, s, step) && IsWork(step)
    ensures var id := Subject(step);
            && id in s.jobs && id in Apply(s, step).jobs
            && Future(w, s, id).outcome == Future(w, Apply(s, step), id).outcome
            && Future(w, s, id).batch == Future(w, Apply(s, step), id).batch
            && CountOf(Future(w, s, id), k) - CountOf(Future(w, Apply(s, step), id), k) ==
               Counter(Apply(s, step).stats, k) - Counter(s.stats, k)
  {
    assert InOnePlace(s, Subject(step));
    KeysStep(s, step);
    if step.Claiming? {
      ClaimFuture(w, s, step);
    } else if step.Reporting? {
      ReportFuture(w, s, step);
    } else {
      DecisionFuture(w, s, step, k);
    }
  }

  ghost function ToCome(w: World, s: State, k: Kind): string -> int {
    (id: string) => if id in s.jobs then CountOf(Future(w, s, id), k) else 0
  }

  ghost function Destined(w: World, original: map<string, Job>, k: Kind): string -> int {
    (id: string) => if id in original then CountOf(Destiny(w, original[id]), k) else 0
  }

  /** Every job is heading for its destiny, ... */
  ghost predicate Heading(w: World, s: State) {
    forall id <- s.jobs :: HeadingAt(w, s, id)
  }

  ghost predicate HeadingAt(w: World, s: State, id: string) {
    id in s.jobs ==>
      && id in s.original && Future(w, s, id).outcome == Destiny(w, s.original[id]).outcome
      && Future(w, s, id).batch == Destiny(w, s.original[id]).batch
  }

  /** ... and what has been counted plus what is to come is what all the destinies add up to. */
  ghost predicate AddsUp(w: World, s: State, k: Kind) {
    Counter(s.stats, k) + SetSum(s.jobs.Keys, ToCome(w, s, k)) == SetSum(s.jobs.Keys, Destined(w, s.original, k))
  }

  lemma OtherFuture(w: World, s: State, step: Step, id: string)
    requires Enabled(s, step) && id in s.jobs && (id != Subject(step) || step.Closing? || step.Polling?)
    ensures id in Apply(s, step).jobs && Future(w, Apply(s, step), id) == Future(w, s, id)
    ensures id in s.original ==> id in Apply(s, step).original && Apply(s, step).original[id] == s.original[id]
  {
    if id != Subject(step) {
      OtherJob(s, step, id);
    }
  }

  lemma HeadingStepAt(w: World, s: State, step: Step, id: string)
    requires Inv(s) && Heading(w, s) && Enabled(s, step) && Faithful(w, s, step)
    ensures HeadingAt(w, Apply(s, step), id)
  {
    var s' := Apply(s, step);
    KeysStep(s, step);
    if id in s'.jobs {
      if id != Subject(step) || step.Closing? || step.Polling? {
        OtherFuture(w, s, step, id);
      } else if step.Submitting? {
        SubmittedFuture(w, s, step);
      } else {
        SubjectFuture(w, s, step, Retries);
      }
    }
  }

  lemma HeadingStep(w: World, s: State, step: Step)
    requires Inv(s) && Heading(w, s) && Enabled(s, step) && Faithful(w, s, step)
    ensures Heading(w, Apply(s, step))
  {
    var s' := Apply(s, step);
    forall id <- s'.jobs ensures HeadingAt(w, s', id) {
      HeadingStepAt(w, s, step, id);
    }
  }

  lemma SubmittedFuture(w: World, s: State, step: Step)
    requires Inv(s) && Enabled(s, step) && step.Submitting?
    ensures var s', id := Apply(s, step), step.job.id;
            && id in s'.jobs && id in s'.original && Future(w, s', id) == Destiny(w, s'.original[id])
            && s'.stats.retried == s.stats.retried && s'.stats.adjusted == s.stats.adjusted
  {
    assert InOnePlace(s, step.job.id);
  }

  // The summands of all jobs but the step's own stay as they were.
  lemma OtherSummands(w: World, s: State, step: Step, k: Kind, id: string)
    requires Inv(s) && Enabled(s, step) && id in s.jobs && (id != Subject(step) || step.Closing? || step.Polling?)
    ensures ToCome(w, s, k)(id) == ToCome(w, Apply(s, step), k)(id)
    ensures Destined(w, s.original, k)(id) == Destined(w, Apply(s, step).original, k)(id)
  {
    assert InOnePlace(s, id);
    OtherFuture(w, s, step, id);
  }

  lemma SubmitAddsUp(w: World, s: State, step: Step, k: Kind)
    requires Inv(s) && AddsUp(w, s, k) && Enabled(s, step) && step.Submitting?
    ensures AddsUp(w, Apply(s, step), k)
  {
    var s', id := Apply(s, step), step.job.id;
    KeysStep(s, step);
    forall other <- s.jobs
      ensures ToCome(w, s, k)(other) == ToCome(w, s', k)(other)
      ensures Destined(w, s.original, k)(other) == Destined(w, s'.original, k)(other)
    {
      OtherSummands(w, s, step, k, other);
    }
    SubmittedFuture(w, s, step);
    SetSumAgree(s.jobs.Keys, ToCome(w, s, k), ToCome(w, s', k));
    SetSumAgree(s.jobs.Keys, Destined(w, s.original, k), Destined(w, s'.original, k));
    SetSumInsert(s.jobs.Keys, id, ToCome(w, s', k));
    SetSumInsert(s.jobs.Keys, id, Destined(w, s'.original, k));
  }

  lemma WorkAddsUp(w: World, s: State, step: Step, k: Kind)
    requires Inv(s) && AddsUp(w, s, k) && Enabled(s, step) && Faithful(w, s, step) && IsWork(step)
    ensures AddsUp(w, Apply(s, step), k)
  {
    var s', id := Apply(s, step), Subject(step);
    KeysStep(s, step);
    forall other <- s.jobs.Keys | other != id
      ensures ToCome(w, s, k)(other) == ToCome(w, s', k)(other)
    {
      OtherSummands(w, s, step, k, other);
    }
    SubjectFuture(w, s, step, k);
    SetSumChange(s.jobs.Keys, id, ToCome(w, s, k), ToCome(w, s', k));
  }

  lemma AddsUpStep(w: World, s: State, step: Step, k: Kind)
    requires Inv(s) && AddsUp(w, s, k) && Enabled(s, step) && Faithful(w, s, step)
    ensures AddsUp(w, Apply(s, step), k)
  {
    if step.Submitting? {
      SubmitAddsUp(w, s, step, k);
    } else if IsWork(step) {
      WorkAddsUp(w, s, step, k);
    } else {
      QuietAddsUp(w, s, step, k);
    }
  }

  lemma QuietAddsUp(w: World, s: State, step: Step, k: Kind)
    requires Inv(s) && AddsUp(w, s, k) && Enabled(s, step) && !step.Submitting? && !IsWork(step)
    ensures AddsUp(w, Apply(s, step), k)
  {
    KeysStep(s, step);
    QuietSummands(w, s, step, k);
    SameAddsUp(w, s, Apply(s, step), k);
  }

  lemma SameAddsUp(w: World, s: State, t: State, k: Kind)
    requires AddsUp(w, s, k) && t.jobs.Keys == s.jobs.Keys && t.original == s.original && t.stats == s.stats
    requires forall id <- s.jobs.Keys :: ToCome(w, s, k)(id) == ToCome(w, t, k)(id)
    ensures AddsUp(w, t, k)
  {
    SetSumAgree(s.jobs.Keys, ToCome(w, s, k), ToCome(w, t, k));
  }

  lemma QuietSummands(w: World, s: State, step: Step, k: Kind)
    requires Inv(s) && Enabled(s, step) && !step.Submitting? && !IsWork(step)
    ensures forall id <- s.jobs.Keys :: ToCome(w, s, k)(id) == ToCome(w, Apply(s, step), k)(id)
  {
    forall id <- s.jobs.Keys
      ensures ToCome(w, s, k)(id) == ToCome(w, Apply(s, step), k)(id)
    {
      OtherSummands(w, s, step, k, id);
    }
  }

  lemma {:induction false} RunStaysOnCourse(w: World, steps: seq<Step>, s: State, k: Kind)
    requires FaithfulRun(w, steps, s)
    ensures Reached(steps, s) && Inv(s) && Heading(w, s) && AddsUp(w, s, k)
  {
    if steps != [] {
      var prior :| FaithfulStep(w, steps, prior, s);
      RunStaysOnCourse(w, steps[..|steps| - 1], prior, k);
      var step := steps[|steps| - 1];
      StepKeepsInv(prior, step);
      HeadingStep(w, prior, step);
      AddsUpStep(w, prior, step, k);
    }
  }

  predicate Complete(s: State) {
    s.queued == {} && s.running == {} && s.triaging == map[]
  }

  /** Every complete run ends each job as its destiny says, in whatever order the workers took them, and
      its totals are those of the destinies. */
  lemma CompleteRunsMeetDestiny(w: World, steps: seq<Step>, s: State, k: Kind)
    requires FaithfulRun(w, steps, s) && Complete(s)
    ensures s.finished.Keys == s.jobs.Keys == s.original.Keys
    ensures forall id <- s.original ::
              s.finished[id] == Destiny(w, s.original[id]).outcome
                  && s.jobs[id].batch == Destiny(w, s.original[id]).batch
    ensures Counter(s.stats, k) == SetSum(s.original.Keys, Destined(w, s.original, k))
  {
    RunStaysOnCourse(w, steps, s, k);
    CompleteMeansFinished(s);
    NothingToCome(w, s, k);
    FinishedMetDestiny(w, s);
  }

  lemma FinishedMetDestiny(w: World, s: State)
    requires Heading(w, s) && s.finished.Keys == s.jobs.Keys == s.original.Keys
    ensures forall id <- s.original ::
              s.finished[id] == Destiny(w, s.original[id]).outcome
                  && s.jobs[id].batch == Destiny(w, s.original[id]).batch
  {
    forall id <- s.original
      ensures s.finished[id] == Destiny(w, s.original[id]).outcome
              && s.jobs[id].batch == Destiny(w, s.original[id]).batch
    {
      assert id in s.finished.Keys && HeadingAt(w, s, id);
    }
  }

  lemma CompleteMeansFinished(s: State)
    requires Placed(s) && Complete(s)
    ensures s.finished.Keys == s.jobs.Keys == s.original.Keys
  {
    forall id
      ensures id in s.finished <==> id in s.jobs
      ensures id in s.original <==> id in s.jobs
    {
      assert InOnePlace(s, id);
    }
  }

  lemma NothingToCome(w: World, s: State, k: Kind)
    requires s.finished.Keys == s.jobs.Keys
    ensures SetSum(s.jobs.Keys, ToCome(w, s, k)) == 0
  {
    forall id <- s.jobs.Keys
      ensures ToCome(w, s, k)(id) == 0
    {
      assert id in s.finished.Keys;
    }
    ZeroSum(s.jobs.Keys, ToCome(w, s, k));
  }

  /** The same work, as far as a job's destiny can tell. */
  ghost predicate SameWork(a: map<string, Job>, b: map<string, Job>) {
    && a.Keys == b.Keys
    && forall id <- a :: a[id].id == b[id].id && a[id].maxAttempts == b[id].maxAttempts && a[id].batch == b[id].batch
  }

  lemma SameWorkSameTotal(w: World, a: map<string, Job>, b: map<string, Job>, k: Kind)
    requires SameWork(a, b)
    ensures SetSum(a.Keys, Destined(w, a, k)) == SetSum(b.Keys, Destined(w, b, k))
  {
    SetSumAgree(a.Keys, Destined(w, a, k), Destined(w, b, k));
  }

  lemma FinishedDecidesCounts(s1: State, s2: State)
    requires Inv(s1) && Inv(s2) && s1.finished == s2.finished && s1.jobs.Keys == s2.jobs.Keys
    ensures s1.stats.submitted == s2.stats.submitted && s1.stats.succeeded == s2.stats.succeeded
    ensures s1.stats.escalated == s2.stats.escalated
  {
    SameFinished(s1, s2);
    assert |s1.jobs| == |s1.jobs.Keys| && |s2.jobs| == |s2.jobs.Keys|;
  }

  /** Order does not matter: two complete runs over the same jobs in the same world agree on every job's
      outcome and final batch and on all the totals. */
  lemma RunsAreConfluent(w: World, steps1: seq<Step>, s1: State, steps2: seq<Step>, s2: State)
    requires FaithfulRun(w, steps1, s1) && Complete(s1)
    requires FaithfulRun(w, steps2, s2) && Complete(s2)
    requires SameWork(s1.original, s2.original)
    ensures s1.finished == s2.finished
    ensures forall id <- s1.original :: id in s1.jobs && id in s2.jobs && s1.jobs[id].batch == s2.jobs[id].batch
    ensures s1.stats == s2.stats
  {
    SameTotals(w, steps1, s1, steps2, s2, Retries);
    SameTotals(w, steps1, s1, steps2, s2, Adjustments);
    SameEndings(w, steps1, s1, steps2, s2);
    RunStaysOnCourse(w, steps1, s1, Retries);
    RunStaysOnCourse(w, steps2, s2, Retries);
    FinishedDecidesCounts(s1, s2);
  }

  lemma SameTotals(w: World, steps1: seq<Step>, s1: State, steps2: seq<Step>, s2: State, k: Kind)
    requires FaithfulRun(w, steps1, s1) && Complete(s1)
    requires FaithfulRun(w, steps2, s2) && Complete(s2)
    requires SameWork(s1.original, s2.original)
    ensures Counter(s1.stats, k) == Counter(s2.stats, k)
  {
    CompleteRunsMeetDestiny(w, steps1, s1, k);
    CompleteRunsMeetDestiny(w, steps2, s2, k);
    SameWorkSameTotal(w, s1.original, s2.original, k);
  }

  lemma SameEndings(w: World, steps1: seq<Step>, s1: State, steps2: seq<Step>, s2: State)
    requires FaithfulRun(w, steps1, s1) && Complete(s1)
    requires FaithfulRun(w, steps2, s2) && Complete(s2)
    requires SameWork(s1.original, s2.original)
    ensures s1.jobs.Keys == s2.jobs.Keys == s1.original.Keys && s1.finished == s2.finished
    ensures forall id <- s1.original :: s1.jobs[id].batch == s2.jobs[id].batch
  {
    CompleteRunsMeetDestiny(w, steps1, s1, Retries);
    CompleteRunsMeetDestiny(w, steps2, s2, Retries);
    forall id <- s1.original
      ensures s1.finished[id] == s2.finished[id] && s1.jobs[id].batch == s2.jobs[id].batch
    {
      assert Destiny(w, s1.original[id]) == Destiny(w, s2.original[id]);
    }
  }

  // ---- batches ----

  ghost predicate BatchesValid(s: State) {
    forall id <- s.jobs :: Valid(s.jobs[id].batch)
  }

  ghost predicate AnswersArePolicy(s: State, step: Step)
    requires Enabled(s, step)
  {
    step.Deciding? ==> step.answer == Policy(FailureOf(s, step.id))
  }

  /** With the offline policy every batch in the broker stays one that Submit would admit. */
  lemma PolicyKeepsBatchesValid(s: State, step: Step)
    requires Inv(s) && BatchesValid(s) && Enabled(s, step) && AnswersArePolicy(s, step)
    ensures BatchesValid(Apply(s, step))
  {
    assert InOnePlace(s, Subject(step));
    forall id <- Apply(s, step).jobs
      ensures Valid(Apply(s, step).jobs[id].batch)
    {
      if id == Subject(step) {
        SubjectBatchValid(s, step);
      } else {
        OtherJob(s, step, id);
      }
    }
  }

  lemma SubjectBatchValid(s: State, step: Step)
    requires BatchesValid(s) && Enabled(s, step) && AnswersArePolicy(s, step)
    ensures Subject(step) in Apply(s, step).jobs ==> Valid(Apply(s, step).jobs[Subject(step)].batch)
  {
    if step.Deciding? {
      PolicyStands(FailureOf(s, step.id));
    }
  }

  lemma {:induction false} PolicyRunsKeepBatchesValid(w: World, steps: seq<Step>, s: State)
    requires FaithfulRun(w, steps, s) && forall f :: w.agent(f) == Policy(f)
    ensures BatchesValid(s)
  {
    if steps != [] {
      var prior :| FaithfulStep(w, steps, prior, s);
      PolicyRunsKeepBatchesValid(w, steps[..|steps| - 1], prior);
      RunStaysOnCourse(w, steps[..|steps| - 1], prior, Retries);
      PolicyKeepsBatchesValid(prior, steps[|steps| - 1]);
    }
  }
}
