/** The two backends agree. A run of the SQS backend in which no worker crashes and no message expires is a run of
    the broker, so with the broker's confluence all its results are fixed; and at its end every message is deleted
    and no delivery was counted as one after a death. */
module Agreement {
  import opened Jobs
  import opened Wrappers
  import opened Triage
  import opened SqsQueue
  import opened SmoothRuns
  import C = SqsCoordinator
  import P = SqsProtocol
  import B = Broker
  import R = BrokerRuns

  // ---- every delivery is settled ----

  ghost predicate HasHolder(s: P.Sys, i: nat) {
    exists w :: 0 <= w < |s.workers| && !s.workers[w].Idle? && s.workers[w].d.msg == i
  }

  /** Every message in flight is held by a worker that is not through with it. */
  ghost predicate FlightsHeld(s: P.Sys) {
    forall i | 0 <= i < |s.msgs| && s.msgs[i].place == InFlight :: HasHolder(s, i)
  }

  lemma HolderStays(limit: nat, s: P.Sys, step: P.Step, i: nat)
    requires Held(s) && HasHolder(s, i) && P.Enabled(limit, s, step) && Smooth(limit, step)
    requires i < |P.Apply(limit, s, step).msgs| && P.Apply(limit, s, step).msgs[i].place == InFlight
    requires !step.Receiving? || step.msg != i
    ensures HasHolder(P.Apply(limit, s, step), i)
  {
    var s' := P.Apply(limit, s, step);
    var w :| 0 <= w < |s.workers| && !s.workers[w].Idle? && s.workers[w].d.msg == i;
    assert Current(s.msgs, s.workers[w].d);
    P.OneWorkerMoves(limit, s, step, w);
    assert !s'.workers[w].Idle? && s'.workers[w].d.msg == i;
  }

  lemma FlightsStep(limit: nat, s: P.Sys, step: P.Step)
    requires Held(s) && FlightsHeld(s) && P.Enabled(limit, s, step) && Smooth(limit, step)
    ensures FlightsHeld(P.Apply(limit, s, step))
  {
    var s' := P.Apply(limit, s, step);
    forall i | 0 <= i < |s'.msgs| && s'.msgs[i].place == InFlight
      ensures HasHolder(s', i)
    {
      if step.Receiving? && step.msg == i {
        assert !s'.workers[step.w].Idle? && s'.workers[step.w].d.msg == i;
      } else {
        HolderStays(limit, s, step, i);
      }
    }
  }

  // ---- no delivery comes after a death ----

  /** A job that is to be delivered again was told to retry, and the coordinator remembers that. */
  ghost predicate Planned(s: P.Sys, c: Carrier) {
    Carries(s, c) ==>
      match c
      case Unsent(_) => true
      case InStore(i) => s.msgs[i].receives > 0 ==> s.msgs[i].job.id in s.coord.released
      case AtWorker(w) =>
        var p := s.workers[w];
        (p.Received? && p.d.receiveCount > 1) || (p.Told? && p.decision.action.Retry?) ==>
          p.d.job.id in s.coord.released
  }

  ghost predicate AllPlanned(s: P.Sys) {
    s.coord.stats.redelivered == 0 && forall c :: Planned(s, c)
  }

  // What a step does not fill is where it was, and as it was.
  lemma UntouchedIsSame(limit: nat, s: P.Sys, step: P.Step, c: Carrier)
    requires P.Enabled(limit, s, step) && Smooth(limit, step) && Held(s) && !step.Redriving?
    requires Carries(P.Apply(limit, s, step), c) && Some(c) != To(limit, s, step)
    requires Carries(s, c) && Some(c) != From(s, step)
    ensures match c
            case Unsent(_) => true
            case InStore(i) => P.Apply(limit, s, step).msgs[i] == s.msgs[i]
            case AtWorker(w) => P.Apply(limit, s, step).workers[w] == s.workers[w]
  {
    match c
    case Unsent(_) =>
    case InStore(i) =>
    case AtWorker(w) => P.OneWorkerMoves(limit, s, step, w);
  }

  lemma ReleasedOfOthers(limit: nat, s: P.Sys, step: P.Step, id: string)
    requires P.Enabled(limit, s, step) && id in s.coord.released
    requires step.Starting? ==> id != Subject(s, step)
    ensures id in P.Apply(limit, s, step).coord.released
  {
    if step.Watching? {
      BuryAllKeepsReleased(s.coord, P.DeadJobs(s.msgs, step.dead));
    }
  }

  lemma {:induction false} BuryAllKeepsReleased(c: C.Coord, dead: seq<Job>)
    ensures C.BuryAll(c, dead).released == c.released && C.BuryAll(c, dead).stats.redelivered == c.stats.redelivered
  {
    if dead != [] {
      BuryAllKeepsReleased(c, dead[..|dead| - 1]);
    }
  }

  lemma FilledIsPlanned(limit: nat, s: P.Sys, step: P.Step)
    requires P.Enabled(limit, s, step) && Smooth(limit, step) && To(limit, s, step).Some?
    requires From(s, step).Some? ==> Carries(s, From(s, step).value) && Planned(s, From(s, step).value)
    requires step.Deciding? || step.Starting? ==> Subject(s, step) !in s.coord.terminal
    requires step.Releasing? ==> P.PhaseOk(s, s.workers[step.w])
    requires step.Deciding? ==> s.workers[step.w].Triaging? && !s.workers[step.w].orphan
    ensures Planned(P.Apply(limit, s, step), To(limit, s, step).value)
  {
  }

  lemma SubjectIsPlanned(limit: nat, s: P.Sys, step: P.Step)
    requires P.WorkersOk(s) && AllPlanned(s) && P.Enabled(limit, s, step) && Smooth(limit, step)
    requires From(s, step).Some? ==> Carries(s, From(s, step).value) && Subject(s, step) !in s.coord.terminal
    requires WorkerOk(s, step) && To(limit, s, step).Some?
    ensures Planned(P.Apply(limit, s, step), To(limit, s, step).value)
  {
    assert From(s, step).Some? ==> Planned(s, From(s, step).value);
    if step.Releasing? {
      assert P.PhaseOk(s, s.workers[step.w]);
    }
    FilledIsPlanned(limit, s, step);
  }

  lemma PlannedStepAt(limit: nat, w: R.World, s: P.Sys, b: B.State, step: P.Step, c: Carrier)
    requires Simulates(limit, s, b) && AllPlanned(s) && P.Enabled(limit, s, step) && Smooth(limit, step)
    requires Faithful(limit, w, s, step) && !step.Redriving?
    ensures Planned(P.Apply(limit, s, step), c)
  {
    SubjectShown(limit, s, b, step);
    WorkerJob(limit, s, step);
    if Some(c) == To(limit, s, step) {
      SubjectIsPlanned(limit, s, step);
    } else if Carries(P.Apply(limit, s, step), c) {
      Untouched(limit, s, b, step, c);
      UntouchedIsPlanned(limit, s, step, c);
    }
  }

  lemma UntouchedIsPlanned(limit: nat, s: P.Sys, step: P.Step, c: Carrier)
    requires P.Enabled(limit, s, step) && Smooth(limit, step) && Held(s) && !step.Redriving?
    requires Carries(P.Apply(limit, s, step), c) && Some(c) != To(limit, s, step)
    requires Carries(s, c) && Some(c) != From(s, step) && Planned(s, c)
    requires forall x, y :: Carries(s, x) && Carries(s, y) && IdOf(s, x) == IdOf(s, y) ==> x == y
    ensures Planned(P.Apply(limit, s, step), c)
  {
    UntouchedIsSame(limit, s, step, c);
    if IdOf(s, c) in s.coord.released {
      if step.Starting? {
        assert Carries(s, AtWorker(step.w));
      }
      ReleasedOfOthers(limit, s, step, IdOf(s, c));
    }
  }

  lemma NothingRedelivered(limit: nat, s: P.Sys, step: P.Step)
    requires AllPlanned(s) && P.Enabled(limit, s, step)
    ensures P.Apply(limit, s, step).coord.stats.redelivered == 0
  {
    if step.Starting? {
      assert Planned(s, AtWorker(step.w));
    } else if step.Watching? {
      BuryAllKeepsReleased(s.coord, P.DeadJobs(s.msgs, step.dead));
    }
  }

  lemma NeverRedriven(limit: nat, s: P.Sys, b: B.State, step: P.Step)
    requires Simulates(limit, s, b) && P.Enabled(limit, s, step)
    ensures !step.Redriving?
  {
    forall i: nat | i < |s.msgs| && s.msgs[i].place == Visible ensures s.msgs[i].receives < limit {
      NothingIsExhausted(limit, s, b, i);
    }
  }

  lemma PlannedStep(limit: nat, w: R.World, s: P.Sys, b: B.State, step: P.Step)
    requires Simulates(limit, s, b) && AllPlanned(s) && P.Enabled(limit, s, step) && Smooth(limit, step)
    requires Faithful(limit, w, s, step)
    ensures AllPlanned(P.Apply(limit, s, step))
  {
    NothingRedelivered(limit, s, step);
    NeverRedriven(limit, s, b, step);
    forall c ensures Planned(P.Apply(limit, s, step), c) {
      PlannedStepAt(limit, w, s, b, step, c);
    }
  }

  lemma {:induction false} SmoothRunKeeps(limit: nat, workers: nat, w: R.World, steps: seq<P.Step>, s: P.Sys)
    requires SmoothRun(limit, workers, w, steps, s)
    ensures FlightsHeld(s) && AllPlanned(s)
  {
    if steps != [] {
      var front, step := steps[..|steps| - 1], steps[|steps| - 1];
      var prior :| SmoothStep(limit, workers, w, steps, prior, s);
      SmoothRunKeeps(limit, workers, w, front, prior);
      var _, a := RunIsSimulated(limit, workers, w, front, prior);
      FlightsStep(limit, prior, step);
      PlannedStep(limit, w, prior, a, step);
    }
  }

  // ---- the end of a smooth run ----

  /** Nothing is left to receive, no submission is half done and no worker is in its loop body. */
  predicate AtRest(s: P.Sys) {
    && s.unsent == {}
    && (forall w | 0 <= w < |s.workers| :: s.workers[w].Idle?)
    && (forall i | 0 <= i < |s.msgs| :: s.msgs[i].place != Visible)
  }

  /** At the end of a run without crashes and expiry every message ever sent is deleted, and the counter of
      deliveries after a death is still 0: every further delivery was a planned retry. */
  lemma RestIsClean(limit: nat, workers: nat, w: R.World, steps: seq<P.Step>, s: P.Sys)
    requires SmoothRun(limit, workers, w, steps, s) && AtRest(s)
    ensures forall i | 0 <= i < |s.msgs| :: s.msgs[i].place == Deleted
    ensures s.coord.stats.redelivered == 0
    ensures P.Quiescent(s) && P.DeadLettersSeen(s)
  {
    SmoothRunKeeps(limit, workers, w, steps, s);
    var _, a := RunIsSimulated(limit, workers, w, steps, s);
    RestDeletes(s);
  }

  lemma RestDeletes(s: P.Sys)
    requires Held(s) && FlightsHeld(s) && AtRest(s)
    ensures forall i | 0 <= i < |s.msgs| :: s.msgs[i].place == Deleted
  {
  }

  // A run that has come to rest, with no enqueue failed, is mirrored by a complete run of the broker.
  lemma QuiescentIsComplete(limit: nat, workers: nat, steps: seq<P.Step>, s: P.Sys, b: B.State)
    requires P.Reached(limit, workers, steps, s) && P.Quiescent(s) && P.DeadLettersSeen(s) && s.rejected == {}
    requires SameRecord(s.coord, b) && B.Placed(b)
    ensures R.Complete(b)
  {
    P.QuiescentMeansFinished(limit, workers, steps, s);
    B.PlacesAsSets(b);
    assert b.finished.Keys == b.jobs.Keys;
    FinishedIsComplete(b);
  }

  lemma FinishedIsComplete(b: B.State)
    requires B.Placed(b) && b.finished.Keys == b.jobs.Keys
    ensures R.Complete(b)
  {
    B.PlacesAsSets(b);
    assert b.triaging.Keys == {};
  }

  /** The two backends agree: in the same world, a complete run of the SQS backend without crashes or
      expiry, in any interleaving of its workers, gives every job the outcome and the final batch it gets
      from any complete run of the broker over the same jobs, and the totals are the same. */
  lemma BackendsAgree(limit: nat, workers: nat, w: R.World, steps: seq<P.Step>, s: P.Sys, trace: seq<B.Step>,
      b: B.State)
    requires SmoothRun(limit, workers, w, steps, s) && AtRest(s)
    requires R.FaithfulRun(w, trace, b) && R.Complete(b)
    requires R.SameWork(s.coord.jobs, b.original)
    ensures s.coord.terminal == b.finished
    ensures forall id <- b.jobs :: id in s.coord.final && s.coord.final[id] == b.jobs[id].batch
    ensures b.stats == B.Stats(s.coord.stats.submitted, s.coord.stats.succeeded, s.coord.stats.escalated,
                               s.coord.stats.retried, s.coord.stats.adjusted)
    ensures s.coord.stats.deadLettered == 0 && s.coord.stats.duplicates == 0 && s.coord.stats.redelivered == 0
    ensures forall i | 0 <= i < |s.msgs| :: s.msgs[i].place == Deleted
  {
    var t, a := RunIsSimulated(limit, workers, w, steps, s);
    RestIsClean(limit, workers, w, steps, s);
    QuiescentIsComplete(limit, workers, steps, s, a);
    R.RunsAreConfluent(w, t, a, trace, b);
    R.CompleteRunsMeetDestiny(w, trace, b, R.Retries);
    assert C.Ids(s.coord, Dead) == {} by {
      assert B.Ids(a, Dead) == {};
      assert C.Ids(s.coord, Dead) == B.Ids(a, Dead);
    }
  }
}
