/** What the tick scheduler knows of its jobs, over whole runs: every job is still the request that arrived, its
    state says where it is, and a running job is given the time its batch takes. */
module SchedulerRecords {
  import opened Wrappers
  import opened Jobs
  import I = Inference
  import opened Resources
  import opened PriorityQueue
  import opened Scheduler
  import opened SchedulerRuns

  /** The state of a job says where it is; `Preempted` is never seen between steps. */
  ghost predicate StateShows(s: State, id: string)
    requires id in s.jobs
  {
    && (s.jobs[id].state == Pending <==> id in s.queued || id in s.waiting)
    && (s.jobs[id].state == JobState.Running <==> id in s.running)
    && (s.jobs[id].state == JobState.Completed <==> id in s.completed)
  }

  /** `ticks` are the four that every job takes, one for every four images of the batch, and the jitter drawn. */
  predicate TakesTicks(ticks: int, batch: I.Batch, jitter: nat) {
    4 * (ticks - 4 - jitter) <= batch.batchSize < 4 * (ticks - 4 - jitter) + 4
  }

  ghost predicate MayTake(ticks: int, batch: I.Batch) {
    exists jitter :: TakesTicks(ticks, batch, jitter)
  }

  /** A running job was started at some tick up to now, and finishes after the time its batch takes. */
  ghost predicate TimesShow(s: State, id: string)
    requires id in s.jobs
  {
    && s.base <= s.jobs[id].submitTime <= Now(s)
    && (id in s.running ==>
          s.base <= s.jobs[id].startTime <= Now(s)
              && MayTake(s.running[id] - (s.jobs[id].startTime - s.base), s.jobs[id].batch))
    && (id in s.started ==> s.jobs[id].startTime == Now(s))
  }

  ghost predicate RecordOk(s: State, id: string)
    requires id in s.jobs
  {
    StateShows(s, id) && TimesShow(s, id)
  }

  ghost predicate RecordsOk(s: State) {
    forall id <- s.jobs :: RecordOk(s, id)
  }

  // ---- one turn ----

  /** A turn either starts its job, on the node found for it, now and for the time its batch takes, or sets it aside
      untouched; in both cases the job leaves the queue. A job it preempted is queued again as if submitted now. */
  lemma TurnDecides(s: State, id: string, victim: Option<string>, jitter: nat)
    requires Inv(s) && Enabled(s, Turning(id, victim, jitter))
    ensures var t := Turn(s, id, victim, jitter);
            && id in t.jobs && id !in t.queued
            && (if id in t.waiting then t.jobs[id] == s.jobs[id] && id !in t.running
                else
                  && id in t.running && t.jobs[id].state == JobState.Running && t.jobs[id].startTime == Now(s)
                  && TakesTicks(t.running[id] - s.tick, s.jobs[id].batch, jitter)
                  && exists k :: 0 <= k < |s.nodes| && s.nodes[k].name == t.jobs[id].node)
    ensures forall v <- s.running :: v !in Turn(s, id, victim, jitter).running ==>
              var t := Turn(s, id, victim, jitter);
              && victim == Some(v) && v in t.queued && v in s.jobs && v in t.jobs
              && t.jobs[v] == s.jobs[v].(state := Pending, submitTime := Now(s))
  {
    assert InOnePlace(s, id);
    if FindFit(s.nodes, s.jobs[id].resources).None? && victim.Some? {
      VictimIsNotStarted(s, id, victim.value);
      PlacementDecides(SentBack(s, victim.value), id, jitter);
    } else {
      PlacementDecides(s, id, jitter);
    }
  }

  lemma PlacementDecides(s: State, id: string, jitter: nat)
    requires id in s.jobs && id in s.queued && id !in s.waiting && id !in s.running
    ensures var t := PlacedOrAside(s, id, jitter);
            && id in t.jobs && id !in t.queued
            && (if id in t.waiting then t.jobs[id] == s.jobs[id] && id !in t.running
                else
                  && id in t.running && t.jobs[id].state == JobState.Running && t.jobs[id].startTime == Now(s)
                  && TakesTicks(t.running[id] - s.tick, s.jobs[id].batch, jitter)
                  && exists k :: 0 <= k < |s.nodes| && s.nodes[k].name == t.jobs[id].node)
  {
  }

  // ---- every step keeps the records ----

  lemma SentBackRecords(s: State, victim: string)
    requires Inv(s) && RecordsOk(s) && victim in s.running && victim !in s.started && victim in s.jobs
    ensures RecordsOk(SentBack(s, victim))
  {
    var t := SentBack(s, victim);
    forall id <- t.jobs ensures RecordOk(t, id) {
      assert RecordOk(s, id) && InOnePlace(s, id);
    }
  }

  // A job that a placement is not about keeps its record and its place.
  lemma OtherRecord(s: State, id: string, jitter: nat, x: string)
    requires id in s.jobs && x in s.jobs && x != id && RecordOk(s, x)
    ensures x in PlacedOrAside(s, id, jitter).jobs && RecordOk(PlacedOrAside(s, id, jitter), x)
  {
    var t := PlacedOrAside(s, id, jitter);
    assert t.jobs[x] == s.jobs[x] && t.base == s.base && t.tick == s.tick;
    assert x in s.running ==> t.running[x] == s.running[x];
  }

  lemma PlacedRecord(s: State, id: string, jitter: nat)
    requires InOnePlace(s, id) && RecordsOk(s) && id in s.queued && id in s.jobs && id !in s.started
    ensures id in PlacedOrAside(s, id, jitter).jobs && RecordOk(PlacedOrAside(s, id, jitter), id)
  {
    var t := PlacedOrAside(s, id, jitter);
    PlacementDecides(s, id, jitter);
    assert RecordOk(s, id);
    if id in t.running {
      assert TakesTicks(t.running[id] - s.tick, t.jobs[id].batch, jitter);
    }
  }

  lemma PlacedOrAsideRecords(s: State, id: string, jitter: nat)
    requires Inv(s) && RecordsOk(s) && id in s.queued && id in s.jobs
    ensures RecordsOk(PlacedOrAside(s, id, jitter))
  {
    var t := PlacedOrAside(s, id, jitter);
    assert InOnePlace(s, id);
    PlacedRecord(s, id, jitter);
    forall x <- t.jobs ensures RecordOk(t, x) {
      if x != id {
        assert RecordOk(s, x);
        OtherRecord(s, id, jitter, x);
      }
    }
  }

  lemma TurnRecords(s: State, id: string, victim: Option<string>, jitter: nat)
    requires Inv(s) && RecordsOk(s) && Enabled(s, Turning(id, victim, jitter))
    ensures RecordsOk(Turn(s, id, victim, jitter))
  {
    if FindFit(s.nodes, s.jobs[id].resources).None? && victim.Some? {
      VictimIsNotStarted(s, id, victim.value);
      SentBackRecords(s, victim.value);
      PlacedOrAsideRecords(SentBack(s, victim.value), id, jitter);
    } else {
      PlacedOrAsideRecords(s, id, jitter);
    }
  }

  lemma ArrivedRecords(s: State, job: Job)
    requires Inv(s) && RecordsOk(s) && Enabled(s, Arriving(job))
    ensures RecordsOk(Arrived(s, job))
  {
    var t := Arrived(s, job);
    forall id <- t.jobs ensures RecordOk(t, id) {
      assert InOnePlace(s, id);
      assert id in s.jobs ==> RecordOk(s, id);
    }
  }

  lemma FinishedRecords(s: State, id: string)
    requires Inv(s) && RecordsOk(s) && id in s.running && id in s.jobs && id !in s.started
    ensures RecordsOk(Finished(s, id))
  {
    var t := Finished(s, id);
    forall x <- t.jobs ensures RecordOk(t, x) {
      assert RecordOk(s, x) && InOnePlace(s, x);
    }
  }

  lemma PhaseRecords(s: State, step: Step)
    requires Inv(s) && RecordsOk(s) && Enabled(s, step) && (step.AllArrived? || step.AllEnded? || step.NextTick?)
    ensures RecordsOk(Apply(s, step))
  {
    var t := Apply(s, step);
    forall id <- t.jobs ensures RecordOk(t, id) {
      assert RecordOk(s, id);
    }
  }

  lemma RecordsStep(s: State, step: Step)
    requires Inv(s) && RecordsOk(s) && Enabled(s, step)
    ensures RecordsOk(Apply(s, step))
  {
    match step
    case Arriving(job) => ArrivedRecords(s, job);
    case Ending(id) => FinishedRecords(s, id);
    case Turning(id, victim, jitter) => TurnRecords(s, id, victim, jitter);
    case _ => PhaseRecords(s, step);
  }

  /** A running job goes on until the tick it was to finish in, when it is completed and its node has its resources
      back, unless a turn sends it back to the queue as the victim it found. */
  lemma JobsRunToTheirEnd(s: State, step: Step, id: string)
    requires Inv(s) && Enabled(s, step) && id in s.running && id !in Apply(s, step).running
    ensures var t := Apply(s, step);
            || (s.running[id] == s.tick && id in t.completed)
            || (step.Turning? && step.victim == Some(id) && id in t.queued)
  {
    if step.Turning? {
      TurnDecides(s, step.id, step.victim, step.jitter);
    }
  }

  // ---- what arrived ----

  /** The same request as the job that arrived. */
  predicate SameRequest(job: Job, given: Job) {
    job == given.(state := job.state, submitTime := job.submitTime, startTime := job.startTime, node := job.node)
  }

  predicate Brings(step: Step, job: Job) {
    step.Arriving? && SameRequest(job, step.job)
  }

  ghost predicate ArrivedIn(steps: seq<Step>, job: Job) {
    exists k :: 0 <= k < |steps| && Brings(steps[k], job)
  }

  lemma ArrivedMore(steps: seq<Step>, step: Step, before: Job, after: Job)
    requires (ArrivedIn(steps, before) && SameRequest(after, before)) || Brings(step, after)
    ensures ArrivedIn(steps + [step], after)
  {
    var more := steps + [step];
    if Brings(step, after) {
      assert more[|steps|] == step;
    } else {
      var k :| 0 <= k < |steps| && Brings(steps[k], before);
      assert more[k] == steps[k] && Brings(more[k], after);
    }
  }

  lemma StepKeepsRequests(s: State, step: Step, id: string)
    requires Enabled(s, step) && id in Apply(s, step).jobs
    ensures id in s.jobs ==> SameRequest(Apply(s, step).jobs[id], s.jobs[id])
    ensures id !in s.jobs ==>
              && Brings(step, Apply(s, step).jobs[id])
              && id in Apply(s, step).queued && Apply(s, step).jobs[id].submitTime == Now(s)
  {
  }

  /** In every reachable state: a job is the request that arrived in some step of the run; its state tells where it
      is; it was queued and started no later than now; and a running job finishes once the time its batch takes has
      passed since it was started. */
  lemma {:induction false} JobsAreArrivals(nodes: seq<Capacity>, base: int, steps: seq<Step>, id: string)
    requires EmptyCluster(nodes) && Exec(Initial(nodes, base), steps).Some?
    requires id in Exec(Initial(nodes, base), steps).value.jobs
    ensures var s := Exec(Initial(nodes, base), steps).value;
            ArrivedIn(steps, s.jobs[id]) && StateShows(s, id) && TimesShow(s, id)
  {
    RecordsRun(nodes, base, steps);
    RequestsRun(nodes, base, steps, id);
  }

  lemma {:induction false} RecordsRun(nodes: seq<Capacity>, base: int, steps: seq<Step>)
    requires EmptyCluster(nodes) && Exec(Initial(nodes, base), steps).Some?
    ensures Inv(Exec(Initial(nodes, base), steps).value) && RecordsOk(Exec(Initial(nodes, base), steps).value)
  {
    RunKeepsInv(nodes, base, steps);
    if steps != [] {
      var front := steps[..|steps| - 1];
      RecordsRun(nodes, base, front);
      RecordsStep(Exec(Initial(nodes, base), front).value, steps[|steps| - 1]);
    }
  }

  lemma {:induction false} RequestsRun(nodes: seq<Capacity>, base: int, steps: seq<Step>, id: string)
    requires Exec(Initial(nodes, base), steps).Some?
    requires id in Exec(Initial(nodes, base), steps).value.jobs
    ensures ArrivedIn(steps, Exec(Initial(nodes, base), steps).value.jobs[id])
  {
    var s := Exec(Initial(nodes, base), steps).value;
    if steps != [] {
      var front, step := steps[..|steps| - 1], steps[|steps| - 1];
      var prior := Exec(Initial(nodes, base), front).value;
      StepKeepsRequests(prior, step, id);
      if id in prior.jobs {
        RequestsRun(nodes, base, front, id);
        ArrivedMore(front, step, prior.jobs[id], s.jobs[id]);
      } else {
        ArrivedMore(front, step, s.jobs[id], s.jobs[id]);
      }
      assert steps == front + [step];
    }
  }
}
