/** What the broker knows of its jobs, over whole runs: every job is still the one that was submitted, its state
    says where it is, and workers are given the jobs by priority and then by submission time. */
module BrokerRecords {
  import opened Jobs
  import opened Wrappers
  import opened Triage
  import opened PriorityQueue
  import opened Broker

  // ---- what was submitted ----

  predicate Admits(step: Step, job: Job) {
    step.Submitting? && AdmittedFrom(job, step.job, step.now)
  }

  /** Some step of the run submitted the job, and it was admitted as Submit promises. */
  ghost predicate Submitted(steps: seq<Step>, job: Job) {
    exists k :: 0 <= k < |steps| && Admits(steps[k], job)
  }

  lemma SubmittedMore(steps: seq<Step>, step: Step, job: Job)
    requires Submitted(steps, job) || Admits(step, job)
    ensures Submitted(steps + [step], job)
  {
    var more := steps + [step];
    if Submitted(steps, job) {
      var k :| 0 <= k < |steps| && Admits(steps[k], job);
      assert more[k] == steps[k];
    } else {
      assert more[|steps|] == step;
    }
  }

  lemma {:induction false} OriginalsAreSubmitted(steps: seq<Step>, s: State, id: string)
    requires Reached(steps, s) && id in s.original
    ensures Submitted(steps, s.original[id])
  {
    if steps != [] {
      var front, step := steps[..|steps| - 1], steps[|steps| - 1];
      var prior := Exec(INITIAL, front).value;
      KeysStep(prior, step);
      if !(step.Submitting? && step.job.id == id) {
        if step.Submitting? {
          OtherJob(prior, step, id);
        }
        OriginalsAreSubmitted(front, prior, id);
      }
      SubmittedMore(front, step, s.original[id]);
      assert steps == front + [step];
    }
  }

  // ---- what became of it ----

  /** The state of a job says where it is. */
  ghost predicate StateShows(s: State, id: string)
    requires id in s.jobs
  {
    && (s.jobs[id].state == Pending <==> id in s.queued)
    && (s.jobs[id].state == Running <==> id in s.running || id in s.triaging)
    && (s.jobs[id].state == Completed <==> id in s.finished)
  }

  /** The same job as submitted, unchanged until it is first claimed, and without the injected failure once it is
      queued again. */
  ghost predicate RecordOk(s: State, id: string)
    requires id in s.jobs && id in s.original
  {
    var job, first := s.jobs[id], s.original[id];
    && CopyOf(job, first) && StateShows(s, id)
    && (job.attempt == 0 ==> job == first)
    && (job.attempt > 0 && id in s.queued ==> job.injectFailure == "")
    && job.injectFailure in {first.injectFailure, ""}
  }

  ghost predicate RecordsOk(s: State) {
    forall id <- s.jobs :: id in s.original && RecordOk(s, id)
  }

  lemma SubmittedRecord(s: State, step: Step)
    requires InOnePlace(s, Subject(step)) && Enabled(s, step) && step.Submitting?
    ensures var t, id := Moved(s, step), Subject(step); id in t.jobs && id in t.original && RecordOk(t, id)
  {
  }

  lemma SubjectRecord(s: State, step: Step)
    requires Enabled(s, step) && !step.Submitting? && !step.Closing? && !step.Polling?
    requires var id := Subject(step);
             InOnePlace(s, id) && id in s.jobs && id in s.original && JobOk(s, id) && RecordOk(s, id)
    ensures var t, id := Moved(s, step), Subject(step); id in t.jobs && id in t.original && RecordOk(t, id)
  {
    match step
    case Claiming(id, worker, now) => assert RecordOk(Claim(s, id, worker, now), id);
    case Reporting(id, error) => assert RecordOk(ReportOutcome(s, id, error), id);
    case Deciding(id, answer) => DecidedRecord(s, id, DecisionFor(s, id, answer));
    case _ =>
  }

  lemma DecidedRecord(s: State, id: string, decision: Decision)
    requires InOnePlace(s, id) && id in s.jobs && id in s.original && id in s.triaging && JobOk(s, id)
    requires RecordOk(s, id) && !decision.action.UnknownAction?
    ensures var t := ReportDecision(s, id, decision); id in t.original && RecordOk(t, id)
  {
  }

  lemma OtherRecord(s: State, t: State, id: string)
    requires SameJob(s, t, id) && id in s.jobs && id in s.original && RecordOk(s, id)
    ensures id in t.jobs && id in t.original && RecordOk(t, id)
  {
  }

  lemma RecordsOkStep(s: State, step: Step)
    requires Inv(s) && RecordsOk(s) && Enabled(s, step)
    ensures RecordsOk(Apply(s, step))
  {
    MovedRecords(s, step);
    DoneAsideRecords(Moved(s, step));
  }

  lemma DoneAsideRecords(s: State)
    requires RecordsOk(s)
    ensures RecordsOk(MaybeDone(s))
  {
    var t := MaybeDone(s);
    assert t.jobs == s.jobs && t.original == s.original && t.queued == s.queued;
    forall id <- t.jobs ensures id in t.original && RecordOk(t, id) {
      assert RecordOk(s, id);
    }
  }

  lemma MovedRecords(s: State, step: Step)
    requires Inv(s) && RecordsOk(s) && Enabled(s, step)
    ensures RecordsOk(Moved(s, step))
  {
    var t := Moved(s, step);
    MovedKeys(s, step);
    forall id <- t.jobs ensures id in t.original && RecordOk(t, id) {
      RecordStep(s, step, id);
    }
  }

  lemma MovedKeys(s: State, step: Step)
    requires Enabled(s, step)
    ensures Moved(s, step).jobs.Keys == s.jobs.Keys + if step.Submitting? then {step.job.id} else {}
  {
    KeysStep(s, step);
    assert Apply(s, step).jobs == Moved(s, step).jobs;
  }

  lemma RecordStep(s: State, step: Step, id: string)
    requires Placed(s) && JobsOk(s) && RecordsOk(s) && Enabled(s, step)
    requires id in s.jobs || (step.Submitting? && id == step.job.id)
    ensures id in Moved(s, step).jobs && id in Moved(s, step).original && RecordOk(Moved(s, step), id)
  {
    assert InOnePlace(s, id);
    if step.Closing? || step.Polling? {
    } else if id != Subject(step) {
      OtherJob(s, step, id);
      OtherRecord(s, Moved(s, step), id);
    } else if step.Submitting? {
      SubmittedRecord(s, step);
    } else {
      SubjectRecord(s, step);
    }
  }

  lemma {:induction false} RecordsRun(steps: seq<Step>, s: State)
    requires Reached(steps, s)
    ensures Inv(s) && RecordsOk(s)
  {
    RunKeepsInv(steps);
    if steps != [] {
      var front := steps[..|steps| - 1];
      RecordsRun(front, Exec(INITIAL, front).value);
      RecordsOkStep(Exec(INITIAL, front).value, steps[|steps| - 1]);
    }
  }

  /** In every reachable state: a job was submitted by some step of the run, and it still has that priority, those
      resources, that submission time and that limit of tries; until its first claim it is the record Submit
      promises; its state tells queued, running and finished jobs apart; and what is queued again carries no
      injected failure. */
  lemma JobsAreSubmissions(steps: seq<Step>, s: State, id: string)
    requires Reached(steps, s) && id in s.jobs
    ensures id in s.original && Submitted(steps, s.original[id]) && CopyOf(s.jobs[id], s.original[id])
    ensures s.jobs[id].attempt == 0 ==> s.jobs[id] == s.original[id]
    ensures StateShows(s, id)
    ensures s.jobs[id].attempt > 0 && id in s.queued ==> s.jobs[id].injectFailure == ""
  {
    RecordsRun(steps, s);
    OriginalsAreSubmitted(steps, s, id);
  }

  // ---- who is served first ----

  /** A claim of the heap: every queued job may come out behind this one. */
  ghost predicate IsFirst(s: State, id: string) {
    id in s.queued && id in s.jobs && forall q <- s.queued :: q in s.jobs && MayFollow(s.jobs[q], s.jobs[id])
  }

  /** A run all of whose claims are such, as those of the broker are. */
  ghost predicate InOrder(s: State, steps: seq<Step>)
    decreases |steps|
  {
    steps == [] || (InOrder(s, steps[..|steps| - 1]) && LastInOrder(s, steps))
  }

  ghost predicate LastInOrder(s: State, steps: seq<Step>)
    requires steps != []
  {
    var step := steps[|steps| - 1];
    step.Claiming? ==>
      match Exec(s, steps[..|steps| - 1])
      case None => false
      case Some(prior) => IsFirst(prior, step.id)
  }

  predicate IsClaimOf(step: Step, id: string) {
    step.Claiming? && step.id == id
  }

  ghost predicate ClaimedIn(steps: seq<Step>, id: string) {
    exists k :: 0 <= k < |steps| && IsClaimOf(steps[k], id)
  }

  lemma ClaimedMore(steps: seq<Step>, id: string)
    requires steps != []
    ensures ClaimedIn(steps, id) <==>
            ClaimedIn(steps[..|steps| - 1], id) || IsClaimOf(steps[|steps| - 1], id)
  {
    var front := steps[..|steps| - 1];
    if ClaimedIn(front, id) {
      var k :| 0 <= k < |front| && IsClaimOf(front[k], id);
      assert steps[k] == front[k];
    }
    if ClaimedIn(steps, id) {
      var k :| 0 <= k < |steps| && IsClaimOf(steps[k], id);
      assert k < |front| ==> front[k] == steps[k];
    }
  }

  // What is not claimed stays queued as it is.
  lemma {:induction false} UnclaimedStays(s: State, more: seq<Step>, id: string)
    requires Inv(s) && id in s.queued && Exec(s, more).Some? && !ClaimedIn(more, id)
    ensures var t := Exec(s, more).value;
            Inv(t) && id in t.queued && id in t.jobs && id in s.jobs && t.jobs[id] == s.jobs[id]
  {
    assert InOnePlace(s, id);
    if more != [] {
      var front, step := more[..|more| - 1], more[|more| - 1];
      ClaimedMore(more, id);
      UnclaimedStays(s, front, id);
      var prior := Exec(s, front).value;
      StepKeepsInv(prior, step);
      assert InOnePlace(prior, id);
      StaysQueued(prior, step, id);
      OrderKeysStay(prior, step, id);
    }
  }

  lemma StaysQueued(s: State, step: Step, id: string)
    requires InOnePlace(s, id) && Enabled(s, step) && id in s.queued && !IsClaimOf(step, id)
    ensures id in Apply(s, step).queued
  {
    if id != Subject(step) {
      OtherJob(s, step, id);
    }
  }

  /** Of two queued jobs the one with the higher priority, or with the same and the earlier submission, is claimed
      first: in any run the broker makes from there, the other is not claimed unless this one was. */
  lemma {:induction false} FirstComeFirstServed(s: State, more: seq<Step>, a: string, b: string)
    requires Inv(s) && a in s.queued && b in s.queued && InOrder(s, more) && Exec(s, more).Some?
    requires a in s.jobs && b in s.jobs
    requires s.jobs[a].priority > s.jobs[b].priority
             || (s.jobs[a].priority == s.jobs[b].priority && s.jobs[a].submitTime < s.jobs[b].submitTime)
    ensures ClaimedIn(more, b) ==> ClaimedIn(more, a)
  {
    if more != [] {
      var front, step := more[..|more| - 1], more[|more| - 1];
      FirstComeFirstServed(s, front, a, b);
      ClaimedMore(more, a);
      ClaimedMore(more, b);
      if IsClaimOf(step, b) && !ClaimedIn(front, a) {
        UnclaimedStays(s, front, a);
        UnclaimedStays(s, front, b);
      }
    }
  }
}
