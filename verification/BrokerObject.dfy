/** The broker as the object it is: a heap of job references, a map of running jobs and counters, updated
    in place. Each method is one lock section and moves the abstract state exactly as the machine in Broker
    does; which job a claim takes, left open there, is settled here by the priority heap. */
module BrokerObject {
  import I = Inference
  import opened Jobs
  import opened Wrappers
  import opened Triage
  import opened PriorityQueue
  import opened JobTable
  import B = Broker
  import R = BrokerRecords

  datatype ClaimReply = Assigned(ref: JobRef) | Wait | Shutdown

  /** What a decision makes of the job's record. */
  predicate Followed(before: Job, after: Job, d: Decision) {
    match d.action
    case Escalate => after == before.(state := Completed)
    case Retry => after == before.(state := Pending, injectFailure := "")
    case AutoAdjust =>
      after == before.(state := Pending, injectFailure := "",
                       batch := before.batch.(batchSize := d.batchSize, precision := d.precision))
    case UnknownAction(_) => false
  }

  /** What a claim makes of it: one try more, by this worker from now on. */
  predicate Handed(before: Job, after: Job, worker: string, now: int) {
    after == before.(attempt := before.attempt + 1, state := Running, startTime := now, node := worker)
  }

  class Broker {
    const table: Table
    var running: map<string, JobRef>
    var stats: B.Stats
    var closed: bool
    var done: bool
    // The state of the machine, and the steps that led to it.
    ghost var state: B.State
    ghost var trace: seq<B.Step>

    ghost predicate RunningOk(ids: set<string>)
      reads this`running, table`refs
    {
      running.Keys == ids && running.Keys <= table.refs.Keys && forall id <- running :: running[id] == table.refs[id]
    }

    ghost predicate Agrees(s: B.State)
      reads this`running, this`stats, this`closed, this`done, table`refs, table.queue, table.Refs()`job
    {
      && RunningOk(s.running)
      && (table.Records(), table.Queued(), stats, closed, done) == (s.jobs, s.queued, s.stats, s.closed, s.done)
    }

    // The fields are those of the state, which inside a lock section need not be one of the machine's.
    ghost predicate Synced()
      reads this, table`refs, table.queue, table.queue.Members(), table.Refs()`job
    {
      table.Valid() && Agrees(state)
    }

    /** Between lock sections the state is one the machine reaches by the calls made so far, each claim of which
        took a first job. */
    ghost predicate Valid()
      reads this, table`refs, table.queue, table.queue.Members(), table.Refs()`job
    {
      Synced() && B.Reached(trace, state) && R.InOrder(B.INITIAL, trace)
    }

    // The lock section just done was a step of the machine.
    ghost method Take(before: B.State, step: B.Step)
      requires Synced() && B.Reached(trace, before) && B.Enabled(before, step) && state == B.Apply(before, step)
      requires R.InOrder(B.INITIAL, trace) && (step.Claiming? ==> R.IsFirst(before, step.id))
      modifies this`trace
      ensures Valid() && trace == old(trace) + [step]
    {
      B.ExecStep(B.INITIAL, trace, step);
      assert (trace + [step])[..|trace|] == trace;
      trace := trace + [step];
    }

    constructor ()
      ensures Valid() && state == B.INITIAL && trace == [] && fresh(table) && fresh(table.queue)
    {
      table := new Table();
      running, stats, closed, done := map[], B.Stats(0, 0, 0, 0, 0), false, false;
      state, trace := B.INITIAL, [];
    }

    // The machine catches up with the fields.
    ghost method Advance(next: B.State)
      requires table.Valid() && Agrees(next)
      modifies this`state
      ensures Synced() && state == next
    {
      state := next;
    }

    method MaybeDoneLocked()
      requires Synced()
      modifies this`done, this`state
      ensures Synced() && state == B.MaybeDone(old(state))
    {
      table.IsEmpty();
      assert |running| == |running.Keys|;
      if closed && |table.queue.heap| == 0 && |running| == 0 && stats.succeeded + stats.escalated == stats.submitted {
        done := true;
      }
      state := B.MaybeDone(state);
    }

    method Submit(ref: JobRef, now: int) returns (r: Result<(), string>)
      requires Valid() && ref !in table.Refs() && ref.job.id !in table.refs && ref.job.attempt == 0
      modifies this, table`refs, table.queue, ref, table.queue.Members()`index
      ensures Valid()
      ensures match B.Submit(old(state), old(ref.job), now)
              case Success(_) =>
                && r.Success? && table.Refs() == old(table.Refs()) + {ref}
                && trace == old(trace) + [B.Submitting(old(ref.job), now)]
              case Failure(e) => r == Failure(e) && state == old(state) && trace == old(trace)
      ensures r.Failure? <==> !I.Valid(old(ref.job).batch) || old(closed)
      ensures r.Success? ==>
                && AdmittedFrom(ref.job, old(ref.job), now) && ref in table.queue.Members()
                && stats == old(stats).(submitted := old(stats).submitted + 1)
    {
      if !I.Valid(ref.job.batch) {
        return Failure("job " + ref.job.id + ": invalid batch");
      }
      if closed {
        return Failure("submissions are closed");
      }
      ghost var before, job := state, ref.job;
      Admit(ref, now);
      Take(before, B.Submitting(job, now));
      r := Success(());
    }

    method Admit(ref: JobRef, now: int)
      requires Synced() && ref !in table.Refs() && ref.job.id !in table.refs
      modifies this`state, this`stats, table`refs, table.queue, ref, table.queue.Members()`index
      ensures Synced() && state == B.Admitted(old(state), Normalised(old(ref.job), now))
      ensures ref.job == Normalised(old(ref.job), now) && ref in table.queue.Members()
      ensures table.Refs() == old(table.Refs()) + {ref}
    {
      var job, st := Normalised(ref.job, now), stats.(submitted := stats.submitted + 1);
      ghost var next := B.Admitted(state, job);
      QueuedAreKnown();
      Adopt(ref);
      PutBack(ref, job, st, next);
    }

    lemma QueuedAreKnown()
      requires Synced()
      ensures state.queued <= table.refs.Keys
    {
    }

    // A new job object becomes known, with its own record, in no place yet.
    ghost method Adopt(ref: JobRef)
      requires Synced() && ref !in table.Refs() && ref.job.id !in table.refs
      modifies this`state, table`refs
      ensures Synced() && Known(ref, ref.job.id) && table.Refs() == old(table.Refs()) + {ref}
      ensures state == old(state).(original := state.original, jobs := old(state).jobs[ref.job.id := ref.job])
    {
      table.Register(ref);
      assert RunningOk(state.running);
      Advance(state.(jobs := state.jobs[ref.job.id := ref.job]));
    }

    method CloseSubmissions()
      requires Valid()
      modifies this`closed, this`done, this`state, this`trace
      ensures Valid() && trace == old(trace) + [B.Closing]
    {
      ghost var before := state;
      closed := true;
      Advance(state.(closed := true));
      MaybeDoneLocked();
      Take(before, B.Closing);
    }

    /** Takes the job that no queued job goes before, if there is one. */
    method Claim(worker: string, now: int) returns (reply: ClaimReply)
      requires Valid()
      modifies this, table.queue, table.Refs()
      ensures Valid()
      ensures old(table.queue.heap) == [] ==>
                && trace == old(trace) + [B.Polling]
                && reply == if B.EmptyReply(old(state)) == B.Shutdown then Shutdown else Wait
      ensures old(table.queue.heap) == [] ==>
                && (reply == Shutdown <==> old(closed) && old(running) == map[])
                && (reply == Wait <==> !old(closed) || old(running) != map[])
      ensures old(table.queue.heap) != [] ==>
                && reply.Assigned? && reply.ref in old(table.queue.Members())
                && trace == old(trace) + [B.Claiming(old(reply.ref.job.id), worker, now)]
                && old(NoneBefore(table.queue.Members(), reply.ref.job))
                && running == old(running)[old(reply.ref.job.id) := reply.ref]
                && Handed(old(reply.ref.job), reply.ref.job, worker, now)
    {
      ghost var before := state;
      if |table.queue.heap| == 0 {
        reply := ClaimNothing();
        Take(before, B.Polling);
      } else {
        var ref, id := ClaimFirst(worker, now);
        Take(before, B.Claiming(id, worker, now));
        reply := Assigned(ref);
      }
    }

    method ClaimNothing() returns (reply: ClaimReply)
      requires Synced() && table.queue.heap == []
      modifies this`done, this`state
      ensures Synced()
      ensures B.Enabled(old(state), B.Polling) && state == B.Apply(old(state), B.Polling)
      ensures reply == if B.EmptyReply(old(state)) == B.Shutdown then Shutdown else Wait
      ensures reply == if closed && running == map[] then Shutdown else Wait
    {
      table.IsEmpty();
      assert |running| == |running.Keys|;
      if closed && |running| == 0 {
        reply := Shutdown;
        MaybeDoneLocked();
      } else {
        reply := Wait;
      }
    }

    method ClaimFirst(worker: string, now: int) returns (ref: JobRef, id: string)
      requires Synced() && table.queue.heap != []
      modifies this`state, this`running, this`stats, table.queue, table.queue.Members()
      ensures Synced() && ref in old(table.queue.Members()) && old(NoneBefore(table.queue.Members(), ref.job))
      ensures id == old(ref.job.id) && B.Enabled(old(state), B.Claiming(id, worker, now))
      ensures state == B.Claim(old(state), id, worker, now) && R.IsFirst(old(state), id)
      ensures running == old(running)[id := ref]
      ensures Handed(old(ref.job), ref.job, worker, now)
    {
      ref, id := Pop();
      Assign(ref, id, worker, now);
    }

    // Takes the first job off the heap.
    method Pop() returns (ref: JobRef, id: string)
      requires Synced() && table.queue.heap != []
      modifies this`state, table.queue, table.queue.Members()`index
      ensures Synced() && ref in old(table.queue.Members()) && old(NoneBefore(table.queue.Members(), ref.job))
      ensures id == old(ref.job.id) && Known(ref, id) && id in old(state).queued && R.IsFirst(old(state), id)
      ensures state == old(state).(queued := old(state).queued - {id}) && ref.job == old(ref.job)
    {
      ghost var members := table.queue.Members();
      ref := table.Dequeue();
      id := ref.job.id;
      ghost var next := state.(queued := state.queued - {id});
      assert RunningOk(next.running);
      forall q <- state.queued ensures q in state.jobs && MayFollow(state.jobs[q], ref.job) {
        assert table.refs[q] in members && table.Records()[q] == table.refs[q].job;
      }
      assert table.Records()[id] == ref.job;
      Advance(next);
    }

    /** The object behind a known id. */
    ghost predicate Known(ref: JobRef, id: string)
      reads table`refs
    {
      id in table.refs && table.refs[id] == ref
    }

    // A known job's record is the machine's.
    lemma RecordOf(ref: JobRef, id: string)
      requires Synced() && Known(ref, id)
      ensures id in state.jobs && ref.job == state.jobs[id] && ref.job.id == id
    {
      assert id in table.Records();
    }

    // Hands a job that left the queue to its worker.
    method Assign(ref: JobRef, id: string, worker: string, now: int)
      requires Synced() && Known(ref, id) && id !in state.queued
      modifies this`state, this`running, this`stats, ref`job
      ensures Synced() && id in old(state).jobs
      ensures state == old(state).(jobs := old(state).jobs[id := B.Claimed(old(state).jobs[id], worker, now)],
                                   running := old(state).running + {id})
      ensures running == old(running)[id := ref] && Handed(old(ref.job), ref.job, worker, now)
    {
      RecordOf(ref, id);
      var job := B.Claimed(ref.job, worker, now);
      running := running[id := ref];
      Advance(state.(running := state.running + {id}));
      Write(ref, job, stats, state.(jobs := state.jobs[job.id := job]));
    }

    method Count(st: B.Stats)
      requires Synced()
      modifies this`state, this`stats
      ensures Synced() && state == old(state).(stats := st)
    {
      stats := st;
      Advance(state.(stats := st));
    }

    // Writes a job's record and the counters; what no field holds moves along.
    method Write(ref: JobRef, job: Job, st: B.Stats, ghost next: B.State)
      requires Synced() && Known(ref, job.id) && job.id !in state.queued
      requires next == state.(jobs := state.jobs[job.id := job], stats := st, finished := next.finished,
               triaging := next.triaging)
      modifies this`state, this`stats, ref`job
      ensures Synced() && state == next && ref.job == job
    {
      table.Rewrite(ref, job);
      stats := st;
      assert RunningOk(next.running);
      Advance(next);
    }

    // Writes a job's record and the counters, and queues the job.
    method PutBack(ref: JobRef, job: Job, st: B.Stats, ghost next: B.State)
      requires Synced() && Known(ref, job.id) && job.id !in state.queued
      requires next == state.(original := next.original, jobs := state.jobs[job.id := job],
               queued := state.queued + {job.id},
                              stats := st, triaging := next.triaging)
      modifies this`state, this`stats, table.queue, ref, table.queue.Members()`index
      ensures Synced() && state == next && ref.job == job
    {
      ghost var between := next.(stats := stats);
      table.PutBack(ref, job);
      assert RunningOk(between.running);
      Advance(between);
      Count(st);
    }

    /** The first lock section of Report; a failed job is handed back for triage. */
    method ReportOutcome(id: string, error: Option<string>) returns (r: Result<Option<JobRef>, string>)
      requires Valid()
      modifies this, table.Refs()`job
      ensures Valid()
      ensures id !in old(running) ==> r.Failure? && state == old(state) && trace == old(trace)
      ensures id in old(running) ==>
                && trace == old(trace) + [B.Reporting(id, error)]
                && r == Success(if error.None? then None else Some(old(running[id])))
                && running == old(running) - {id}
                && old(running[id]).job ==
                   if error.None? then old(running[id].job).(state := Completed) else old(running[id].job)
    {
      if id !in running {
        return Failure("job " + id + " is not assigned");
      }
      InOnePlace(id);
      ghost var before := state;
      var ref := TakeAndSettle(id, error);
      Take(before, B.Reporting(id, error));
      r := Success(if error.None? then None else Some(ref));
    }

    method TakeAndSettle(id: string, error: Option<string>) returns (ref: JobRef)
      requires Synced() && id in running && B.InOnePlace(state, id)
      modifies this`running, this`stats, this`done, this`state, table.Refs()`job
      ensures Synced() && ref == old(running[id]) && B.Enabled(old(state), B.Reporting(id, error))
      ensures running == old(running) - {id}
      ensures ref.job == if error.None? then old(running[id].job).(state := Completed) else old(running[id].job)
      ensures state == B.Apply(old(state), B.Reporting(id, error))
    {
      ReportInTwo(state, id, error);
      ref := TakeRunning(id);
      Settle(ref, id, error);
    }

    lemma InOnePlace(id: string)
      requires B.Reached(trace, state)
      ensures B.InOnePlace(state, id)
    {
      B.RunKeepsInv(trace);
    }

    // Finishes a job that succeeded, and marks one that failed as out for triage.
    method Settle(ref: JobRef, id: string, error: Option<string>)
      requires Synced() && Known(ref, id) && id !in state.queued
      modifies this`state, this`stats, this`done, ref`job
      ensures Synced() && id in old(state).jobs
      ensures state == if error.None? then B.MaybeDone(CompletedIn(old(state), id))
                       else old(state).(triaging := old(state).triaging[id := error.value])
      ensures ref.job == if error.None? then old(ref.job).(state := Completed) else old(ref.job)
    {
      if error.None? {
        Complete(ref, id);
        MaybeDoneLocked();
      } else {
        RecordOf(ref, id);
        Advance(state.(triaging := state.triaging[id := error.value]));
      }
    }

    method TakeRunning(id: string) returns (ref: JobRef)
      requires Synced() && id in running
      modifies this`running, this`state
      ensures Synced() && ref == old(running[id]) && Known(ref, id) && running == old(running) - {id}
      ensures id in old(state).running && state == old(state).(running := old(state).running - {id})
    {
      ref := running[id];
      running := running - {id};
      Advance(state.(running := state.running - {id}));
    }

    method Complete(ref: JobRef, id: string)
      requires Synced() && Known(ref, id) && id !in state.queued
      modifies this`state, this`stats, ref`job
      ensures Synced() && id in old(state).jobs && state == CompletedIn(old(state), id)
      ensures ref.job == old(ref.job).(state := Completed)
    {
      RecordOf(ref, id);
      var job, st := ref.job.(state := Completed), stats.(succeeded := stats.succeeded + 1);
      Write(ref, job, st, CompletedIn(state, id));
    }

    /** The rest of Report, with the agent's answer in hand. */
    method ReportDecision(ref: JobRef, id: string, answer: Answer) returns (decision: Decision)
      requires Valid() && Known(ref, id) && id in state.triaging
      modifies this, table.queue, table.Refs()
      ensures Valid() && id in old(state).jobs
      ensures decision == B.DecisionFor(old(state), id, answer) && trace == old(trace) + [B.Deciding(id, answer)]
      ensures Followed(old(ref.job), ref.job, decision) && !decision.action.UnknownAction?
    {
      InOnePlace(id);
      ghost var before := state;
      decision := Decide(ref, id, answer);
      Take(before, B.Deciding(id, answer));
    }

    method Decide(ref: JobRef, id: string, answer: Answer) returns (decision: Decision)
      requires Synced() && Known(ref, id) && id !in state.queued
      modifies this`state, this`stats, this`done, table.queue, ref, table.queue.Members()`index
      ensures Synced() && id in old(state).jobs && decision == B.DecisionFor(old(state), id, answer)
      ensures state == B.MaybeDone(B.ReportDecision(old(state), id, decision))
      ensures Followed(old(ref.job), ref.job, decision) && !decision.action.UnknownAction?
    {
      RecordOf(ref, id);
      decision := Resolve(answer, ref.job.attempt, ref.job.maxAttempts);
      Follow(ref, id, decision);
      MaybeDoneLocked();
    }

    method Follow(ref: JobRef, id: string, decision: Decision)
      requires Synced() && Known(ref, id) && id !in state.queued && !decision.action.UnknownAction?
      modifies this`state, this`stats, table.queue, ref, table.queue.Members()`index
      ensures Synced() && id in old(state).jobs && state == B.ReportDecision(old(state), id, decision)
      ensures Followed(old(ref.job), ref.job, decision)
    {
      if decision.action.Escalate? {
        Escalate(ref, id, decision);
      } else {
        Requeue(ref, id, decision);
      }
    }

    method Requeue(ref: JobRef, id: string, decision: Decision)
      requires Synced() && Known(ref, id) && id !in state.queued
      requires decision.action.Retry? || decision.action.AutoAdjust?
      modifies this`state, this`stats, table.queue, ref, table.queue.Members()`index
      ensures Synced() && id in old(state).jobs && state == B.ReportDecision(old(state), id, decision)
      ensures Followed(old(ref.job), ref.job, decision)
    {
      RecordOf(ref, id);
      var job := B.Requeued(ref.job, decision);
      var st := if decision.action.Retry? then stats.(retried := stats.retried + 1)
          else stats.(adjusted := stats.adjusted + 1);
      PutBack(ref, job, st, B.ReportDecision(state, id, decision));
    }

    method Escalate(ref: JobRef, id: string, decision: Decision)
      requires Synced() && Known(ref, id) && decision.action.Escalate? && id !in state.queued
      modifies this`state, this`stats, ref`job
      ensures Synced() && id in old(state).jobs && state == B.ReportDecision(old(state), id, decision)
      ensures Followed(old(ref.job), ref.job, decision)
    {
      RecordOf(ref, id);
      Write(ref, ref.job.(state := Completed), stats.(escalated := stats.escalated + 1),
          B.ReportDecision(state, id, decision));
    }
  }

  ghost function CompletedIn(s: B.State, id: string): B.State
    requires id in s.jobs
  {
    s.(jobs := s.jobs[id := s.jobs[id].(state := Completed)], finished := s.finished[id := Succeeded],
       stats := s.stats.(succeeded := s.stats.succeeded + 1))
  }

  // The first lock section of Report: the job leaves the running ones, and then is finished or out for triage.
  lemma ReportInTwo(s: B.State, id: string, error: Option<string>)
    requires id in s.jobs && id in s.running
    ensures B.Enabled(s, B.Reporting(id, error))
    ensures var taken := s.(running := s.running - {id});
            B.Apply(s, B.Reporting(id, error)) ==
            if error.None? then B.MaybeDone(CompletedIn(taken, id))
                else taken.(triaging := taken.triaging[id := error.value])
  {
  }
}
