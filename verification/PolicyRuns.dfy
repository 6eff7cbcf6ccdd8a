/** Runs of the broker with the offline policy as its agent: no batch ever grows, and one that keeps running out
    of memory is halved from try to try, down to a single image, until its tries are spent. */
module PolicyRuns {
  import opened Inference
  import opened Jobs
  import opened Wrappers
  import opened Triage
  import opened Sums
  import opened Broker
  import opened BrokerRuns

  /** The size of a batch halved `k` times, never below 1. */
  ghost function Halved(size: int, k: nat): int {
    if k == 0 then size
    else if Halved(size, k - 1) < 2 then 1
    else Halved(size, k - 1) / 2
  }

  /** Every halving of more than one image leaves strictly fewer, and `k` of them at most 1 in 2^k of the images. */
  lemma {:induction false} HalvedShrinks(size: int, k: nat)
    requires size >= 1
    ensures Halved(size, k) >= 1
    ensures Halved(size, k) > 1 ==> Halved(size, k + 1) < Halved(size, k)
    ensures Halved(size, k) == 1 || Halved(size, k) * Pow2(k) <= size
  {
    if k > 0 {
      HalvedShrinks(size, k - 1);
      var before := Halved(size, k - 1);
      if before >= 2 {
        assert before / 2 * (2 * Pow2(k - 1)) == 2 * (before / 2) * Pow2(k - 1);
        ProductMonotone(2 * (before / 2), before, Pow2(k - 1));
      }
    }
  }

  lemma ProductMonotone(a: int, b: int, n: nat)
    requires a <= b
    ensures a * n <= b * n
  {
  }

  ghost predicate PolicyRun(w: World, steps: seq<Step>, s: State) {
    FaithfulRun(w, steps, s) && forall f :: w.agent(f) == Policy(f)
  }

  // ---- one decision ----

  /** A failure that mentions memory, with tries left: the job is queued again with half its batch in half
      precision; any other leaves the batch as it was. */
  lemma DecisionHalves(s: State, id: string, answer: Answer)
    requires Inv(s) && Enabled(s, Deciding(id, answer)) && answer == Policy(FailureOf(s, id))
    ensures var t, was := Apply(s, Deciding(id, answer)), s.jobs[id];
            var now := t.jobs[id];
            && now.attempt == was.attempt
            && if was.attempt < was.maxAttempts && OutOfMemory(s.triaging[id])
               then id in t.queued && now.batch.precision == FP16 && Halves(now.batch.batchSize, was.batch.batchSize)
               else now.batch == was.batch
    ensures var t, was := Apply(s, Deciding(id, answer)), s.jobs[id];
            was.attempt >= was.maxAttempts ==> id in t.finished && t.finished[id] == Escalated
  {
    var f := FailureOf(s, id);
    assert InOnePlace(s, id);
    if f.attempt < f.maxAttempts {
      PolicyDecides(f);
    } else {
      PolicyGivesUp(f);
    }
  }

  // ---- whole runs ----

  /** The batch of a job has at least one image and no more than were submitted, in the submitted or half
      precision. */
  ghost predicate NotGrown(s: State, id: string)
    requires id in s.jobs && id in s.original
  {
    var now, first := s.jobs[id].batch, s.original[id].batch;
    1 <= now.batchSize <= first.batchSize && now.precision in {first.precision, FP16}
  }

  ghost predicate NoneGrown(s: State) {
    forall id <- s.jobs :: id in s.original && NotGrown(s, id)
  }

  lemma SubmittedNotGrown(s: State, step: Step)
    requires Enabled(s, step) && step.Submitting?
    ensures var t, id := Apply(s, step), step.job.id; id in t.jobs && id in t.original && NotGrown(t, id)
  {
  }

  // Only a decision changes a batch.
  lemma BatchStays(s: State, step: Step, id: string)
    requires Enabled(s, step) && id in s.jobs && (step.Claiming? || step.Reporting? || step.Closing? || step.Polling?)
    ensures var t := Apply(s, step);
            id in t.jobs && t.jobs[id].batch == s.jobs[id].batch && t.original == s.original
  {
  }

  lemma NotGrownStep(s: State, step: Step, id: string)
    requires Inv(s) && NoneGrown(s) && Enabled(s, step) && AnswersArePolicy(s, step)
    requires id in s.jobs || (step.Submitting? && id == step.job.id)
    ensures id in Apply(s, step).jobs && id in Apply(s, step).original && NotGrown(Apply(s, step), id)
  {
    if step.Submitting? && id == step.job.id {
      SubmittedNotGrown(s, step);
    } else if (step.Submitting? || step.Deciding?) && id != Subject(step) {
      OtherJob(s, step, id);
    } else if step.Deciding? {
      KeysStep(s, step);
      DecisionHalves(s, id, step.answer);
    } else {
      BatchStays(s, step, id);
    }
  }

  lemma NoneGrownStep(s: State, step: Step)
    requires Inv(s) && NoneGrown(s) && Enabled(s, step) && AnswersArePolicy(s, step)
    ensures NoneGrown(Apply(s, step))
  {
    var t := Apply(s, step);
    KeysStep(s, step);
    forall id <- t.jobs ensures id in t.original && NotGrown(t, id) {
      NotGrownStep(s, step, id);
    }
  }

  /** With the policy no batch ever grows, in any run, whatever fails. */
  lemma {:induction false} BatchesNeverGrow(w: World, steps: seq<Step>, s: State)
    requires PolicyRun(w, steps, s)
    ensures Inv(s) && NoneGrown(s)
  {
    RunStaysOnCourse(w, steps, s, Retries);
    if steps != [] {
      var front, step := steps[..|steps| - 1], steps[|steps| - 1];
      assert FaithfulRun(w, steps, s);
      var prior :| FaithfulStep(w, steps, prior, s);
      BatchesNeverGrow(w, front, prior);
      NoneGrownStep(prior, step);
    }
  }

  /** Every try of this job fails for want of memory. */
  ghost predicate AlwaysOutOfMemory(w: World, id: string) {
    forall attempt, batch :: w.run(id, attempt, batch).Some? && OutOfMemory(w.run(id, attempt, batch).value)
  }

  // The tries whose failures have been decided on.
  function Decided(s: State, id: string): int
    requires id in s.jobs
  {
    if id in s.queued then s.jobs[id].attempt else s.jobs[id].attempt - 1
  }

  ghost predicate OnTheWayDown(s: State, id: string)
    requires id in s.jobs
  {
    var job, tries := s.jobs[id], Decided(s, id);
    && id in s.original && tries >= 0 && job.batch.batchSize == Halved(s.original[id].batch.batchSize, tries)
    && (tries > 0 ==> job.batch.precision == FP16)
    && (id in s.triaging ==> OutOfMemory(s.triaging[id]))
    && (id in s.finished ==> s.finished[id] == Escalated && job.attempt == job.maxAttempts)
  }

  lemma ClaimGoesOn(s: State, step: Step)
    requires Inv(s) && Enabled(s, step) && step.Claiming? && OnTheWayDown(s, step.id)
    ensures OnTheWayDown(Apply(s, step), step.id)
  {
    assert InOnePlace(s, step.id);
  }

  lemma FailureGoesOn(w: World, s: State, step: Step)
    requires Inv(s) && Enabled(s, step) && Faithful(w, s, step) && step.Reporting? && OnTheWayDown(s, step.id)
    requires AlwaysOutOfMemory(w, step.id)
    ensures OnTheWayDown(Apply(s, step), step.id)
  {
    assert InOnePlace(s, step.id);
  }

  lemma HalvingGoesOn(s: State, id: string, answer: Answer)
    requires Inv(s) && Enabled(s, Deciding(id, answer)) && OnTheWayDown(s, id)
    requires answer == Policy(FailureOf(s, id)) && NoneGrown(s)
    ensures id in Apply(s, Deciding(id, answer)).jobs && OnTheWayDown(Apply(s, Deciding(id, answer)), id)
  {
    assert InOnePlace(s, id) && JobOk(s, id) && NotGrown(s, id);
    KeysStep(s, Deciding(id, answer));
    DecisionHalves(s, id, answer);
    DecisionPlaces(s, id, answer);
    var job, next := s.jobs[id], Apply(s, Deciding(id, answer)).jobs[id];
    if job.attempt < job.maxAttempts {
      assert next.batch.batchSize == Halved(s.original[id].batch.batchSize, job.attempt);
    }
  }

  // A decision with tries left, on a failure for want of memory, queues the job; without, it finishes it.
  lemma DecisionPlaces(s: State, id: string, answer: Answer)
    requires InOnePlace(s, id) && JobsOk(s) && Enabled(s, Deciding(id, answer))
    requires answer == Policy(FailureOf(s, id)) && OutOfMemory(s.triaging[id])
    ensures var t, was := Apply(s, Deciding(id, answer)), s.jobs[id];
            && id in t.jobs && t.jobs[id].attempt == was.attempt && t.jobs[id].maxAttempts == was.maxAttempts
            && id !in t.triaging && t.original == s.original
            && (id in t.queued <==> was.attempt < was.maxAttempts) && (id in t.finished <==> id !in t.queued)
  {
    var f := FailureOf(s, id);
    assert JobOk(s, id);
    if f.attempt < f.maxAttempts {
      PolicyDecides(f);
    } else {
      PolicyGivesUp(f);
    }
  }

  lemma SubmittedGoesOn(s: State, step: Step)
    requires InOnePlace(s, Subject(step)) && Enabled(s, step) && step.Submitting?
    ensures Subject(step) in Apply(s, step).jobs && OnTheWayDown(Apply(s, step), Subject(step))
  {
  }

  lemma OthersGoOn(s: State, t: State, id: string)
    requires SameJob(s, t, id) && id in s.jobs && OnTheWayDown(s, id)
    ensures id in t.jobs && OnTheWayDown(t, id)
  {
  }

  lemma QuietGoesOn(s: State, step: Step, id: string)
    requires Enabled(s, step) && (step.Closing? || step.Polling? || id != Subject(step))
    ensures SameJob(s, Apply(s, step), id)
  {
    if step.Closing? || step.Polling? {
    } else {
      OtherJob(s, step, id);
    }
  }

  lemma WayDownStep(w: World, s: State, step: Step, id: string)
    requires Inv(s) && NoneGrown(s) && Enabled(s, step) && Faithful(w, s, step) && AnswersArePolicy(s, step)
    requires AlwaysOutOfMemory(w, id) && id in Apply(s, step).jobs
    requires id in s.jobs ==> OnTheWayDown(s, id)
    ensures OnTheWayDown(Apply(s, step), id)
  {
    if step.Closing? || step.Polling? || id != Subject(step) {
      QuietGoesOn(s, step, id);
      OthersGoOn(s, Apply(s, step), id);
    } else {
      assert InOnePlace(s, id);
      match step
      case Submitting(_, _) => SubmittedGoesOn(s, step);
      case Claiming(_, _, _) => ClaimGoesOn(s, step);
      case Reporting(_, _) => FailureGoesOn(w, s, step);
      case Deciding(_, answer) => HalvingGoesOn(s, id, answer);
      case _ =>
    }
  }

  /** A job that always runs out of memory: in every run with the policy, whatever the workers do meanwhile, its
      batch is the submitted one halved once for every failure decided so far, and it ends escalated, with all its
      tries spent. */
  lemma {:induction false} OutOfMemoryHalves(w: World, steps: seq<Step>, s: State, id: string)
    requires PolicyRun(w, steps, s) && AlwaysOutOfMemory(w, id) && id in s.jobs
    ensures OnTheWayDown(s, id)
  {
    if steps != [] {
      var front, step := steps[..|steps| - 1], steps[|steps| - 1];
      assert FaithfulRun(w, steps, s);
      var prior :| FaithfulStep(w, steps, prior, s);
      BatchesNeverGrow(w, front, prior);
      if id in prior.jobs {
        OutOfMemoryHalves(w, front, prior, id);
      }
      WayDownStep(w, prior, step, id);
    }
  }
}
