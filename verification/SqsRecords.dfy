/** What the messages of the SQS backend carry, over whole runs: the first message of a job is the job as it was
    submitted, every later one a copy of it, and an acknowledged message is gone for good. */
module SqsRecords {
  import opened Jobs
  import opened Wrappers
  import opened Triage
  import opened SqsQueue
  import opened SqsCoordinator
  import opened SqsProtocol

  // ---- what was submitted is what the coordinator keeps ----

  predicate Admits(step: Step, job: Job) {
    step.Submitting? && AdmittedFrom(job, step.job, step.now)
  }

  /** Some step of the run submitted the job, and it was admitted as Submit promises. */
  ghost predicate Submitted(steps: seq<Step>, job: Job) {
    exists k :: 0 <= k < |steps| && Admits(steps[k], job)
  }

  lemma SubmittedMore(steps: seq<Step>, step: Step, job: Job)
    requires Submitted(steps, job) || Admits(step, job)
    ensures Submitted(steps + [step], job)
  {
    var more := steps + [step];
    if Submitted(steps, job) {
      var k :| 0 <= k < |steps| && Admits(steps[k], job);
      assert more[k] == steps[k];
    } else {
      assert more[|steps|] == step;
    }
  }

  lemma {:induction false} JobsAreSubmitted(limit: nat, workers: nat, steps: seq<Step>, s: Sys, id: string)
    requires Reached(limit, workers, steps, s) && id in s.coord.jobs
    ensures Submitted(steps, s.coord.jobs[id])
  {
    if steps != [] {
      var front, step := steps[..|steps| - 1], steps[|steps| - 1];
      var prior := Exec(limit, Initial(workers), front).value;
      JobsFrame(limit, prior, step);
      if !(step.Submitting? && step.job.id == id) {
        JobsAreSubmitted(limit, workers, front, prior, id);
      }
      SubmittedMore(front, step, s.coord.jobs[id]);
      assert steps == front + [step];
    }
  }

  // ---- what the messages of a job are ----

  /** No message for the same job was sent before this one. */
  predicate Oldest(q: Store, i: nat)
    requires i < |q|
  {
    forall k | 0 <= k < i :: q[k].job.id != q[i].job.id
  }

  /** The oldest message of a job is the job itself; a later one is a copy with an earlier try counted and
      the injected failure gone. */
  ghost predicate CopyOk(s: Sys, i: nat)
    requires i < |s.msgs|
  {
    var job := s.msgs[i].job;
    && job.id in s.coord.jobs && CopyOf(job, s.coord.jobs[job.id])
    && if Oldest(s.msgs, i) then job == s.coord.jobs[job.id] else job.attempt >= 1 && job.injectFailure == ""
  }

  ghost predicate CopiesOk(s: Sys) {
    forall i | 0 <= i < |s.msgs| :: CopyOk(s, i)
  }

  lemma OldCopy(limit: nat, s: Sys, step: Step, i: nat)
    requires Inv(limit, s) && CopiesOk(s) && Enabled(limit, s, step) && i < |s.msgs|
    ensures i < |Apply(limit, s, step).msgs| && CopyOk(Apply(limit, s, step), i)
  {
    var s' := Apply(limit, s, step);
    StepGrows(limit, s, step);
    JobsFrame(limit, s, step);
    assert CopyOk(s, i);
    forall k | 0 <= k <= i ensures s'.msgs[k].job == s.msgs[k].job {
      assert MessageGrows(s.msgs[k], s'.msgs[k]);
    }
  }

  // A job is enqueued once, so its enqueued message is its oldest.
  lemma EnqueuedIsOldest(limit: nat, s: Sys, step: Step)
    requires Inv(limit, s) && Enabled(limit, s, step) && step.Enqueuing?
    ensures CopyOk(Apply(limit, s, step), |s.msgs|)
  {
    var s' := Apply(limit, s, step);
    forall k | 0 <= k < |s.msgs| ensures s'.msgs[k].job.id != step.id {
      assert MessageOk(limit, s, s.msgs[k]);
    }
  }

  // An adjusted copy is sent behind the message it was made from.
  lemma ResentIsCopy(limit: nat, s: Sys, step: Step)
    requires Inv(limit, s) && CopiesOk(s) && Enabled(limit, s, step) && step.Resending?
    ensures CopyOk(Apply(limit, s, step), |s.msgs|)
  {
    var s' := Apply(limit, s, step);
    var d := s.workers[step.w].d;
    assert PhaseOk(s, s.workers[step.w]);
    assert CopyOk(s, d.msg) && MessageOk(limit, s, s.msgs[d.msg]);
    assert s'.msgs[d.msg].job.id == s'.msgs[|s.msgs|].job.id;
  }

  lemma CopiesStep(limit: nat, s: Sys, step: Step)
    requires Inv(limit, s) && CopiesOk(s) && Enabled(limit, s, step)
    ensures CopiesOk(Apply(limit, s, step))
  {
    var s' := Apply(limit, s, step);
    NewMessage(limit, s, step);
    forall i | 0 <= i < |s'.msgs| ensures CopyOk(s', i) {
      if i < |s.msgs| {
        OldCopy(limit, s, step, i);
      } else if step.Enqueuing? {
        EnqueuedIsOldest(limit, s, step);
      } else {
        ResentIsCopy(limit, s, step);
      }
    }
  }

  lemma {:induction false} CopiesRun(limit: nat, workers: nat, steps: seq<Step>, s: Sys)
    requires Reached(limit, workers, steps, s)
    ensures Inv(limit, s) && CopiesOk(s)
  {
    InitialInv(limit, workers);
    RunKeepsInv(limit, Initial(workers), steps);
    if steps != [] {
      var front := steps[..|steps| - 1];
      var prior := Exec(limit, Initial(workers), front).value;
      CopiesRun(limit, workers, front, prior);
      CopiesStep(limit, prior, steps[|steps| - 1]);
    }
  }

  /** In every reachable state: a message is about a job that some step of the run submitted, which the
      coordinator keeps as Submit promises; the first message of that job is exactly this record, in the tier of the
      submitted priority; and every other message is a copy of it in the same tier. */
  lemma MessagesAreSubmissions(limit: nat, workers: nat, steps: seq<Step>, s: Sys, i: nat)
    requires Reached(limit, workers, steps, s) && i < |s.msgs|
    ensures var m := s.msgs[i];
            && m.job.id in s.coord.jobs && Submitted(steps, s.coord.jobs[m.job.id])
            && CopyOf(m.job, s.coord.jobs[m.job.id])
            && (Oldest(s.msgs, i) ==> m.job == s.coord.jobs[m.job.id])
            && (MIN_TIER <= s.coord.jobs[m.job.id].priority <= MAX_TIER ==>
                  m.tier == s.coord.jobs[m.job.id].priority)
  {
    CopiesRun(limit, workers, steps, s);
    assert CopyOk(s, i) && MessageOk(limit, s, s.msgs[i]);
    JobsAreSubmitted(limit, workers, steps, s, s.msgs[i].job.id);
  }

  /** A batch stalls its worker only if it was submitted to: "poison" whenever the first message of its job is
      delivered, "hang" on the very first delivery. No adjusted copy ever stalls. */
  lemma OnlyFirstMessagesStall(limit: nat, workers: nat, steps: seq<Step>, s: Sys, w: nat)
    requires Reached(limit, workers, steps, s) && w < |s.workers| && s.workers[w].Granted?
    ensures var d := s.workers[w].d;
            && d.msg < |s.msgs| && d.job.id in s.coord.jobs
            && var failure := s.coord.jobs[d.job.id].injectFailure;
               Stalls(d) <==>
               Oldest(s.msgs, d.msg) && (failure == "poison" || (failure == "hang" && d.receiveCount == 1))
  {
    CopiesRun(limit, workers, steps, s);
    assert PhaseOk(s, s.workers[w]);
    assert CopyOk(s, s.workers[w].d.msg);
  }

  // ---- acknowledged for good ----

  predicate Receives(step: Step, msg: nat) {
    step.Receiving? && step.msg == msg
  }

  lemma {:induction false} DeletedStaysDeleted(limit: nat, s: Sys, more: seq<Step>, s': Sys, msg: nat)
    requires Exec(limit, s, more) == Some(s') && msg < |s.msgs| && s.msgs[msg].place == Deleted
    ensures msg < |s'.msgs| && s'.msgs[msg].place == Deleted
    ensures forall k | 0 <= k < |more| :: !Receives(more[k], msg)
  {
    if more != [] {
      var front := more[..|more| - 1];
      var prior := Exec(limit, s, front).value;
      DeletedStaysDeleted(limit, s, front, prior, msg);
      StoreSteps(limit, prior, more[|more| - 1]);
      assert MessageGrows(prior.msgs[msg], s'.msgs[msg]);
      assert forall k | 0 <= k < |front| :: more[k] == front[k];
    }
  }

  /** An ack whose receipt is current, that is while its message is in flight and has not been received again,
      deletes the message and touches no other; and in no continuation is it received again or anything but
      deleted. */
  lemma AckIsForGood(limit: nat, s: Sys, w: nat, honoured: bool, more: seq<Step>, s': Sys)
    requires Enabled(limit, s, Acknowledging(w, honoured))
    requires var d := s.workers[w].d; s.msgs[d.msg].place == InFlight && s.msgs[d.msg].receives == d.receiveCount
    requires Exec(limit, Apply(limit, s, Acknowledging(w, honoured)), more) == Some(s')
    ensures var d, t := s.workers[w].d, Apply(limit, s, Acknowledging(w, honoured));
            && SameBut(s.msgs, t.msgs, d.msg) && t.msgs[d.msg] == s.msgs[d.msg].(place := Deleted)
            && d.msg < |s'.msgs| && s'.msgs[d.msg].place == Deleted
            && (forall k | 0 <= k < |more| :: !Receives(more[k], d.msg))
  {
    DeletedStaysDeleted(limit, Apply(limit, s, Acknowledging(w, honoured)), more, s', s.workers[w].d.msg);
  }

  // ---- what may go wrong ----

  /** Anything may go wrong at any time: every worker may crash, every delivery expire, and every enqueue that a
      submission still owes may fail as well as succeed. */
  lemma FaultsComeAtAnyTime(limit: nat, s: Sys)
    requires Inv(limit, s)
    ensures forall w: nat :: w < |s.workers| ==> Enabled(limit, s, Crashing(w))
    ensures forall i: nat :: i < |s.msgs| && s.msgs[i].place == InFlight ==> Enabled(limit, s, Expiring(i))
    ensures forall id <- s.unsent :: Enabled(limit, s, EnqueueFailing(id)) && Enabled(limit, s, Enqueuing(id))
  {
  }

  /** A crash frees the worker and leaves its message in flight, to be received again once it has expired; a
      report under triage is still decided, but nobody is told. */
  lemma CrashLosesTheDelivery(limit: nat, s: Sys, w: nat)
    requires Inv(limit, s) && w < |s.workers| && !s.workers[w].Idle?
    ensures var t := Apply(limit, s, Crashing(w));
            && t.msgs == s.msgs && t.coord == s.coord
            && if s.workers[w].Triaging?
               then t.workers[w].Triaging? && (forall answer: Answer ::
                  Enabled(limit, t, Deciding(w, answer)) && Apply(limit, t, Deciding(w, answer)).workers[w].Idle?)
               else t.workers[w].Idle?
    ensures var i, t := s.workers[w].d.msg, Apply(limit, s, Crashing(w));
            t.msgs[i].place == InFlight && t.msgs[i].receives < limit ==>
              && Enabled(limit, t, Expiring(i))
              && (t.workers[w].Idle? ==> Enabled(limit, Apply(limit, t, Expiring(i)), Receiving(w, i)))
  {
    assert PhaseOk(s, s.workers[w]);
  }
}
