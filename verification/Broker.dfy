/** The in-process broker as a state machine: internal/dispatch/broker.go. Every lock section is one step;
    a job whose report is out with the triage agent is in no data structure of the broker, so the model
    keeps it in `triaging`. Which queued job a claim takes is left open here, see BrokerObject. */
module Broker {
  import opened Inference
  import opened Jobs
  import opened Wrappers
  import opened Triage
  import opened Sums

  datatype Stats = Stats(submitted: nat, succeeded: nat, escalated: nat, retried: nat, adjusted: nat)

  // `original` holds the jobs as Submit admitted them, `jobs` as they are now.
  datatype State = State(original: map<string, Job>, jobs: map<string, Job>,
                         queued: set<string>, running: set<string>, triaging: map<string, string>,
                         finished: map<string, Outcome>, stats: Stats, closed: bool, done: bool)

  datatype Step =
    | Submitting(job: Job, now: int)
    | Closing
    | Claiming(id: string, worker: string, now: int)
    | Polling
    | Reporting(id: string, error: Option<string>)
    | Deciding(id: string, answer: Answer)

  datatype Reply = Wait | Shutdown

  const INITIAL := State(map[], map[], {}, {}, map[], map[], Stats(0, 0, 0, 0, 0), false, false)

  function MaybeDone(s: State): State {
    if s.closed && s.queued == {} && s.running == {} && s.stats.succeeded + s.stats.escalated == s.stats.submitted
    then s.(done := true) else s
  }

  function Submit(s: State, job: Job, now: int): Result<State, string> {
    if !Valid(job.batch) then Failure("job " + job.id + ": invalid batch")
    else if s.closed then Failure("submissions are closed")
    else Success(Admitted(s, Normalised(job, now)))
  }

  function Admitted(s: State, job: Job): State {
    s.(original := s.original[job.id := job], jobs := s.jobs[job.id := job],
       queued := s.queued + {job.id}, stats := s.stats.(submitted := s.stats.submitted + 1))
  }

  function Claimed(job: Job, worker: string, now: int): Job {
    job.(attempt := job.attempt + 1, state := Running, startTime := now, node := worker)
  }

  function Claim(s: State, id: string, worker: string, now: int): State
    requires id in s.jobs
  {
    s.(jobs := s.jobs[id := Claimed(s.jobs[id], worker, now)], queued := s.queued - {id}, running := s.running + {id})
  }

  // What a claim on an empty queue answers.
  function EmptyReply(s: State): Reply {
    if s.closed && s.running == {} then Shutdown else Wait
  }

  /** The first lock section of Report: a success finishes the job, a failure takes it out for triage. */
  function ReportOutcome(s: State, id: string, error: Option<string>): State
    requires id in s.jobs
  {
    match error
    case None =>
      s.(running := s.running - {id}, jobs := s.jobs[id := s.jobs[id].(state := Completed)],
         finished := s.finished[id := Succeeded], stats := s.stats.(succeeded := s.stats.succeeded + 1))
    case Some(e) => s.(running := s.running - {id}, triaging := s.triaging[id := e])
  }

  function Requeued(job: Job, decision: Decision): Job {
    var job1 := job.(state := Pending, injectFailure := "");
    if decision.action.AutoAdjust? then job1.(batch := Adjusted(job.batch, decision)) else job1
  }

  /** The second lock section of Report. */
  function ReportDecision(s: State, id: string, decision: Decision): State
    requires id in s.jobs
  {
    var s1 := s.(triaging := s.triaging - {id});
    if decision.action.Retry? || decision.action.AutoAdjust? then
      s1.(jobs := s.jobs[id := Requeued(s.jobs[id], decision)], queued := s.queued + {id},
          stats := if decision.action.Retry? then s.stats.(retried := s.stats.retried + 1)
                   else s.stats.(adjusted := s.stats.adjusted + 1))
    else if decision.action.Escalate? then
      s1.(jobs := s.jobs[id := s.jobs[id].(state := Completed)], finished := s.finished[id := Escalated],
          stats := s.stats.(escalated := s.stats.escalated + 1))
    else s1
  }

  function FailureOf(s: State, id: string): FailureInfo
    requires id in s.jobs && id in s.triaging
  {
    FailureInfo(id, s.jobs[id].attempt, s.jobs[id].maxAttempts, s.triaging[id], s.jobs[id].batch)
  }

  function DecisionFor(s: State, id: string, answer: Answer): Decision
    requires id in s.jobs
  {
    Resolve(answer, s.jobs[id].attempt, s.jobs[id].maxAttempts)
  }

  predicate Enabled(s: State, step: Step) {
    match step
    case Submitting(job, now) => job.id !in s.jobs && job.attempt == 0 && Submit(s, job, now).Success?
    case Closing => true
    case Claiming(id, _, _) => id in s.queued && id in s.jobs
    case Polling => s.queued == {}
    case Reporting(id, _) => id in s.running && id in s.jobs
    case Deciding(id, _) => id in s.triaging && id in s.jobs
  }

  // The effect of a step on everything but `done` ...
  function Moved(s: State, step: Step): State
    requires Enabled(s, step)
  {
    match step
    case Submitting(job, now) => Submit(s, job, now).value
    case Closing => s.(closed := true)
    case Claiming(id, worker, now) => Claim(s, id, worker, now)
    case Polling => s
    case Reporting(id, error) => ReportOutcome(s, id, error)
    case Deciding(id, answer) => ReportDecision(s, id, DecisionFor(s, id, answer))
  }

  // ... and the steps that end with a look at whether everything is finished.
  predicate ChecksDone(s: State, step: Step) {
    match step
    case Closing => true
    case Polling => EmptyReply(s) == Shutdown
    case Reporting(_, error) => error.None?
    case Deciding(_, _) => true
    case _ => false
  }

  function Apply(s: State, step: Step): State
    requires Enabled(s, step)
  {
    if ChecksDone(s, step) then MaybeDone(Moved(s, step)) else Moved(s, step)
  }

  function Exec(s: State, steps: seq<Step>): Option<State> {
    if steps == [] then Some(s)
    else
      match Exec(s, steps[..|steps| - 1])
      case None => None
      case Some(prior) =>
        var step := steps[|steps| - 1];
        if Enabled(prior, step) then Some(Apply(prior, step)) else None
  }

  // ---- the invariant ----

  ghost function Ids(s: State, o: Outcome): set<string> {
    set id | id in s.finished && s.finished[id] == o
  }

  /** A submitted job is in exactly one place. */
  ghost predicate InOnePlace(s: State, id: string) {
    && (id in s.jobs <==> id in s.original)
    && (id in s.jobs <==> id in s.queued || id in s.running || id in s.triaging || id in s.finished)
    && (id in s.queued ==> id !in s.running && id !in s.triaging && id !in s.finished)
    && (id in s.running ==> id !in s.triaging && id !in s.finished)
    && (id in s.triaging ==> id !in s.finished)
  }

  ghost predicate Placed(s: State) {
    forall id :: InOnePlace(s, id)
  }

  ghost predicate Counts(s: State) {
    && s.stats.submitted == |s.jobs|
    && s.stats.succeeded == |Ids(s, Succeeded)|
    && s.stats.escalated == |Ids(s, Escalated)|
    && Ids(s, Dead) == {}
  }

  ghost predicate JobOk(s: State, id: string)
    requires id in s.jobs && id in s.original
  {
    var job, first := s.jobs[id], s.original[id];
    && job.id == id && first.id == id && first.attempt == 0
    && job.maxAttempts == first.maxAttempts >= 1
    && job.priority == first.priority && job.submitTime == first.submitTime
    && (id in s.queued ==> 0 <= job.attempt < job.maxAttempts)
    && (id in s.running || id in s.triaging ==> 1 <= job.attempt <= job.maxAttempts)
    && 0 <= job.attempt <= job.maxAttempts
  }

  ghost predicate JobsOk(s: State) {
    forall id <- s.jobs :: id in s.original && JobOk(s, id)
  }

  ghost predicate DoneExact(s: State) {
    s.done <==> s.closed && s.finished.Keys == s.jobs.Keys
  }

  ghost predicate Inv(s: State) {
    Placed(s) && Counts(s) && JobsOk(s) && DoneExact(s)
  }

  lemma FinishedCount(s: State)
    requires Counts(s)
    ensures s.stats.succeeded + s.stats.escalated == |s.finished|
  {
    assert s.finished.Keys == Ids(s, Succeeded) + Ids(s, Escalated) by {
      forall id <- s.finished
        ensures id in Ids(s, Succeeded) + Ids(s, Escalated)
      {
        assert id !in Ids(s, Dead);
      }
    }
    assert Ids(s, Succeeded) !! Ids(s, Escalated);
    assert |s.finished| == |s.finished.Keys|;
  }

  lemma PlacesAsSets(s: State)
    requires Placed(s)
    ensures s.jobs.Keys == s.original.Keys == s.queued + s.running + s.triaging.Keys + s.finished.Keys
    ensures s.queued !! s.running !! s.triaging.Keys !! s.finished.Keys
  {
    forall id
      ensures id in s.jobs <==> id in s.original
      ensures id in s.jobs <==> id in s.queued + s.running + s.triaging.Keys + s.finished.Keys
      ensures id in s.queued ==> id !in s.running + s.triaging.Keys + s.finished.Keys
      ensures id in s.running ==> id !in s.triaging.Keys + s.finished.Keys
      ensures id in s.triaging ==> id !in s.finished
    {
      assert InOnePlace(s, id);
    }
  }

  /** In every state between lock sections the submitted jobs are exactly those queued, running, out for
      triage, succeeded or escalated. */
  lemma JobsAreConserved(s: State)
    requires Inv(s)
    ensures s.stats.submitted ==
            |s.queued| + |s.running| + |s.triaging| + s.stats.succeeded + s.stats.escalated
  {
    FinishedCount(s);
    PlacesAsSets(s);
    var t, f := s.triaging.Keys, s.finished.Keys;
    assert |s.queued + s.running + t + f| == |s.queued| + |s.running| + |t| + |f|;
    assert |s.jobs| == |s.jobs.Keys| && |s.triaging| == |t| && |s.finished| == |f|;
  }

  lemma MaybeDoneIsExact(s: State)
    requires Placed(s) && Counts(s) && (s.done ==> s.closed && s.finished.Keys == s.jobs.Keys)
    ensures DoneExact(MaybeDone(s))
  {
    FinishedCount(s);
    PlacesAsSets(s);
    SubsetCardinality(s.finished.Keys, s.jobs.Keys);
    assert |s.jobs| == |s.jobs.Keys| && |s.finished| == |s.finished.Keys|;
  }

  function Subject(step: Step): string {
    match step
    case Submitting(job, _) => job.id
    case Claiming(id, _, _) => id
    case Reporting(id, _) => id
    case Deciding(id, _) => id
    case _ => ""
  }

  lemma PlacedStep(s: State, step: Step)
    requires Placed(s) && Enabled(s, step)
    ensures Placed(Moved(s, step))
  {
    var s' := Moved(s, step);
    forall id
      ensures InOnePlace(s', id)
    {
      assert InOnePlace(s, id);
      if id == Subject(step) {
        SubjectPlaced(s, step);
      } else {
        OtherJob(s, step, id);
      }
    }
  }

  lemma SubjectPlaced(s: State, step: Step)
    requires InOnePlace(s, Subject(step)) && Enabled(s, step)
    ensures InOnePlace(Moved(s, step), Subject(step))
  {
  }

  lemma GrownIds(s: State, s': State, id: string, o: Outcome, p: Outcome)
    requires id !in s.finished && s'.finished == s.finished[id := o]
    ensures Ids(s', p) == if p == o then Ids(s, p) + {id} else Ids(s, p)
    ensures id !in Ids(s, p)
  {
  }

  lemma SameFinished(s: State, s': State)
    requires s'.finished == s.finished
    ensures forall o :: Ids(s', o) == Ids(s, o)
  {
    forall o
      ensures Ids(s', o) == Ids(s, o)
    {
    }
  }

  // The outcome a step records, if it records one.
  function Records(s: State, step: Step): Option<Outcome>
    requires Enabled(s, step)
  {
    match step
    case Reporting(_, error) => if error.None? then Some(Succeeded) else None
    case Deciding(id, answer) => if DecisionFor(s, id, answer).action.Escalate? then Some(Escalated) else None
    case _ => None
  }

  lemma SubmitCounts(s: State, step: Step)
    requires Placed(s) && Counts(s) && Enabled(s, step) && step.Submitting?
    ensures Counts(Moved(s, step))
  {
    var s' := Moved(s, step);
    SameFinished(s, s');
    assert s'.jobs.Keys == s.jobs.Keys + {step.job.id};
    assert |s'.jobs| == |s'.jobs.Keys| && |s.jobs| == |s.jobs.Keys|;
  }

  lemma FinishCounts(s: State, step: Step)
    requires Placed(s) && Counts(s) && Enabled(s, step) && Records(s, step).Some?
    ensures Counts(Moved(s, step))
  {
    var s' := Moved(s, step);
    var id, o := Subject(step), Records(s, step).value;
    assert InOnePlace(s, id);
    assert s'.jobs.Keys == s.jobs.Keys;
    SameKeys(s.jobs, s'.jobs);
    GrownIds(s, s', id, o, Succeeded);
    GrownIds(s, s', id, o, Escalated);
    GrownIds(s, s', id, o, Dead);
  }

  lemma CountsStep(s: State, step: Step)
    requires Placed(s) && Counts(s) && Enabled(s, step)
    ensures Counts(Moved(s, step))
  {
    if step.Submitting? {
      SubmitCounts(s, step);
    } else if Records(s, step).Some? {
      FinishCounts(s, step);
    } else {
      var s' := Moved(s, step);
      assert s'.jobs.Keys == s.jobs.Keys;
      SameKeys(s.jobs, s'.jobs);
      SameFinished(s, s');
    }
  }

  lemma SameKeys<V>(a: map<string, V>, b: map<string, V>)
    requires a.Keys == b.Keys
    ensures |a| == |b|
  {
    assert |a| == |a.Keys| && |b| == |b.Keys|;
  }

  lemma UpdatedKeys<V>(m: map<string, V>, id: string, v: V)
    ensures m[id := v].Keys == m.Keys + {id}
    ensures id in m ==> m[id := v].Keys == m.Keys
  {
  }

  // The records change at most at the subject of the step.
  lemma RecordsStep(s: State, step: Step)
    requires Enabled(s, step)
    ensures var s', id := Moved(s, step), Subject(step);
            && (s'.jobs == s.jobs || (id in s'.jobs && s'.jobs == s.jobs[id := s'.jobs[id]]))
            && (step.Submitting? ==> id == step.job.id && id in s'.jobs)
            && (!step.Submitting? ==> s'.original == s.original && (s'.jobs == s.jobs || id in s.jobs))
  {
    match step
    case Submitting(job, now) =>
    case Closing =>
    case Claiming(id, _, _) =>
    case Polling =>
    case Reporting(id, error) =>
    case Deciding(id, answer) =>
  }

  lemma KeysStep(s: State, step: Step)
    requires Enabled(s, step)
    ensures Apply(s, step).jobs.Keys == s.jobs.Keys + if step.Submitting? then {step.job.id} else {}
    ensures !step.Submitting? ==> Apply(s, step).jobs.Keys == s.jobs.Keys && Apply(s, step).original == s.original
  {
    var s', id := Moved(s, step), Subject(step);
    RecordsStep(s, step);
    assert Apply(s, step).jobs == s'.jobs && Apply(s, step).original == s'.original;
    if s'.jobs != s.jobs {
      UpdatedKeys(s.jobs, id, s'.jobs[id]);
    }
  }

  // Jobs other than the one a step is about keep their record and their place.
  lemma OtherJob(s: State, step: Step, id: string)
    requires Enabled(s, step) && id != Subject(step)
    ensures SameJob(s, Moved(s, step), id)
  {
    if step.Reporting? || step.Deciding? {
      OtherJobReported(s, step, id);
    }
  }

  lemma OtherJobReported(s: State, step: Step, id: string)
    requires Enabled(s, step) && id != Subject(step) && (step.Reporting? || step.Deciding?)
    ensures SameJob(s, Moved(s, step), id)
  {
    if step.Reporting? {
      OtherThanReported(s, step.id, step.error, id);
    } else {
      OtherThanDecided(s, step.id, DecisionFor(s, step.id, step.answer), id);
    }
  }

  lemma OtherThanReported(s: State, subject: string, error: Option<string>, id: string)
    requires subject in s.jobs && id != subject
    ensures SameJob(s, ReportOutcome(s, subject, error), id)
  {
  }

  lemma OtherThanDecided(s: State, subject: string, decision: Decision, id: string)
    requires subject in s.jobs && id != subject
    ensures SameJob(s, ReportDecision(s, subject, decision), id)
  {
  }

  ghost predicate SameJob(s: State, s': State, id: string) {
    && (id in s'.jobs <==> id in s.jobs) && (id in s.jobs ==> s'.jobs[id] == s.jobs[id])
    && (id in s'.original <==> id in s.original) && (id in s.original ==> s'.original[id] == s.original[id])
    && (id in s'.queued <==> id in s.queued) && (id in s'.running <==> id in s.running)
    && (id in s'.triaging <==> id in s.triaging) && (id in s.triaging ==> s'.triaging[id] == s.triaging[id])
    && (id in s'.finished <==> id in s.finished) && (id in s.finished ==> s'.finished[id] == s.finished[id])
  }

  lemma SubjectJob(s: State, step: Step)
    requires InOnePlace(s, Subject(step)) && Enabled(s, step)
    requires Subject(step) in s.jobs && Subject(step) in s.original && JobOk(s, Subject(step))
    requires !step.Submitting? && !step.Closing? && !step.Polling?
    ensures var s' := Moved(s, step);
            Subject(step) in s'.jobs && Subject(step) in s'.original && JobOk(s', Subject(step))
  {
  }

  lemma JobsStep(s: State, step: Step)
    requires Placed(s) && JobsOk(s) && Enabled(s, step)
    ensures JobsOk(Moved(s, step))
  {
    var s' := Moved(s, step);
    forall id <- s'.jobs
      ensures id in s'.original && JobOk(s', id)
    {
      if step.Closing? || step.Polling? {
      } else if id == Subject(step) {
        assert InOnePlace(s, id);
        if !step.Submitting? {
          SubjectJob(s, step);
        }
      } else {
        OtherJob(s, step, id);
      }
    }
  }

  lemma DoneStep(s: State, step: Step)
    requires Inv(s) && Enabled(s, step)
    ensures DoneExact(Apply(s, step))
  {
    var s' := Moved(s, step);
    PlacedStep(s, step);
    CountsStep(s, step);
    assert InOnePlace(s, Subject(step));
    if ChecksDone(s, step) {
      MaybeDoneIsExact(s');
    } else if step.Submitting? {
      assert Subject(step) in s'.jobs.Keys && Subject(step) !in s'.finished.Keys;
    } else {
      assert s'.jobs.Keys == s.jobs.Keys && s'.finished == s.finished;
    }
  }

  lemma StepKeepsInv(s: State, step: Step)
    requires Inv(s) && Enabled(s, step)
    ensures Inv(Apply(s, step))
  {
    PlacedStep(s, step);
    CountsStep(s, step);
    JobsStep(s, step);
    DoneStep(s, step);
    DoneAside(Moved(s, step));
  }

  lemma DoneAside(s: State)
    requires Placed(s) && Counts(s) && JobsOk(s)
    ensures Placed(MaybeDone(s)) && Counts(MaybeDone(s)) && JobsOk(MaybeDone(s))
  {
    forall id
      ensures InOnePlace(MaybeDone(s), id)
    {
      assert InOnePlace(s, id);
    }
    SameFinished(s, MaybeDone(s));
  }

  lemma {:induction false} RunKeepsInv(steps: seq<Step>)
    requires Exec(INITIAL, steps).Some?
    ensures Inv(Exec(INITIAL, steps).value)
  {
    if steps != [] {
      RunKeepsInv(steps[..|steps| - 1]);
      StepKeepsInv(Exec(INITIAL, steps[..|steps| - 1]).value, steps[|steps| - 1]);
    }
  }

  // ---- the theorems ----

  ghost predicate Reached(steps: seq<Step>, s: State) {
    Exec(INITIAL, steps) == Some(s)
  }

  /** Conservation and an exact done signal in every reachable state: the submitted jobs are those queued,
      running, out for triage, succeeded or escalated, and `done` is up precisely when submissions are
      closed and every job is finished. */
  lemma NothingLeaksAndDoneIsExact(steps: seq<Step>, s: State)
    requires Reached(steps, s)
    ensures s.stats.submitted == |s.queued| + |s.running| + |s.triaging| + s.stats.succeeded + s.stats.escalated
    ensures s.done <==> s.closed && s.finished.Keys == s.jobs.Keys
    ensures s.done <==> s.closed && s.queued == {} && s.running == {} && s.triaging == map[]
  {
    RunKeepsInv(steps);
    JobsAreConserved(s);
    PlacesAsSets(s);
    if s.closed && s.queued == {} && s.running == {} && s.triaging == map[] {
      assert s.triaging.Keys == {};
      assert s.finished.Keys == s.jobs.Keys;
    }
    if s.done {
      assert s.triaging.Keys == {};
    }
  }

  /** On an empty queue a claim answers Shutdown if and only if submissions are closed and whatever is unfinished is
      out for triage: always once everything is done, ... */
  lemma ShutdownMeansOnlyTriage(steps: seq<Step>, s: State)
    requires Reached(steps, s) && Enabled(s, Polling)
    ensures EmptyReply(s) == Shutdown <==>
            s.closed && forall id <- s.jobs :: id !in s.finished ==> id in s.triaging
    ensures s.done ==> EmptyReply(s) == Shutdown
    ensures EmptyReply(s) == Shutdown ==>
              && (s.done <==> s.triaging == map[])
              && (s.done <==> s.stats.succeeded + s.stats.escalated == s.stats.submitted)
  {
    NothingLeaksAndDoneIsExact(steps, s);
    RunKeepsInv(steps);
    PlacesAsSets(s);
    assert |s.triaging| == 0 <==> s.triaging == map[];
    if s.running != {} {
      var id :| id in s.running;
      assert InOnePlace(s, id);
    }
    forall id <- s.jobs ensures s.running == {} ==> id in s.finished || id in s.triaging {
      assert InOnePlace(s, id);
    }
  }

  /** ... but also too early, as this run shows: a worker is told to shut down although its failed job is about to
      be requeued. */
  lemma ShutdownCanComeEarly(job: Job)
    requires Valid(job.batch) && job.attempt == 0 && job.maxAttempts == 3
    ensures var steps := [Submitting(job, 1), Closing, Claiming(job.id, "w", 2), Reporting(job.id, Some("oom"))];
            var s := Exec(INITIAL, steps);
            s.Some? && Enabled(s.value, Polling) && EmptyReply(s.value) == Shutdown && !s.value.done
  {
    var s1 := Apply(INITIAL, Submitting(job, 1));
    var s2 := Apply(s1, Closing);
    var s3 := Apply(s2, Claiming(job.id, "w", 2));
    ExecStep(INITIAL, [], Submitting(job, 1));
    ExecStep(INITIAL, [Submitting(job, 1)], Closing);
    ExecStep(INITIAL, [Submitting(job, 1), Closing], Claiming(job.id, "w", 2));
    ExecStep(INITIAL, [Submitting(job, 1), Closing, Claiming(job.id, "w", 2)], Reporting(job.id, Some("oom")));
    assert [] + [Submitting(job, 1)] == [Submitting(job, 1)];
    assert [Submitting(job, 1)] + [Closing] == [Submitting(job, 1), Closing];
    assert [Submitting(job, 1), Closing] + [Claiming(job.id, "w", 2)] ==
           [Submitting(job, 1), Closing, Claiming(job.id, "w", 2)];
    assert [Submitting(job, 1), Closing, Claiming(job.id, "w", 2)] + [Reporting(job.id, Some("oom"))] ==
           [Submitting(job, 1), Closing, Claiming(job.id, "w", 2), Reporting(job.id, Some("oom"))];
    assert s3.queued == {} && s3.running == {job.id};
  }

  lemma ExecStep(s: State, steps: seq<Step>, step: Step)
    ensures Exec(s, steps + [step]) ==
            match Exec(s, steps)
            case None => None
            case Some(prior) => if Enabled(prior, step) then Some(Apply(prior, step)) else None
  {
    assert (steps + [step])[..|steps|] == steps;
  }

  /** What the heap orders by never changes once a job is admitted, and a job that stays queued keeps its
      whole record. */
  lemma OrderKeysStay(s: State, step: Step, id: string)
    requires Enabled(s, step) && id in s.jobs && InOnePlace(s, id)
    ensures id in Apply(s, step).jobs
    ensures Apply(s, step).jobs[id].priority == s.jobs[id].priority
            && Apply(s, step).jobs[id].submitTime == s.jobs[id].submitTime
    ensures id in s.queued && id in Apply(s, step).queued ==> Apply(s, step).jobs[id] == s.jobs[id]
  {
    if id != Subject(step) {
      OtherJob(s, step, id);
    }
  }
}
