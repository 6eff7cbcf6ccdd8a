/** The simulation as the loop it is: nodes, queue, running map and clock updated in place. Every part of a
    tick moves the abstract state by steps of the machine in Scheduler, and the placement loop ends. */
module SchedulerObject {
  import opened Wrappers
  import opened Jobs
  import I = Inference
  import opened Resources
  import opened PriorityQueue
  import opened JobTable
  import S = Scheduler
  import R = SchedulerRuns

  /** The jobs set aside in a tick, each once. */
  ghost predicate AreAside(refs: seq<JobRef>, ids: seq<string>, waiting: set<string>, known: map<string, JobRef>) {
    && |refs| == |ids| && (set id | id in ids) == waiting
    && (forall i | 0 <= i < |ids| :: ids[i] in known && known[ids[i]] == refs[i])
    && (forall i, j | 0 <= i < j < |ids| :: ids[i] != ids[j])
  }

  ghost function UpTo(ids: seq<string>, k: nat): set<string>
    requires k <= |ids|
  {
    set i | 0 <= i < k :: ids[i]
  }

  lemma UpToNext(ids: seq<string>, k: nat)
    requires k < |ids| && forall i, j | 0 <= i < j < |ids| :: ids[i] != ids[j]
    ensures ids[k] !in UpTo(ids, k) && UpTo(ids, k + 1) == UpTo(ids, k) + {ids[k]}
  {
  }

  lemma OneMoreAside(refs: seq<JobRef>, ids: seq<string>, waiting: set<string>, known: map<string, JobRef>,
      ref: JobRef, id: string,
                     aside: bool, after: set<string>)
    requires AreAside(refs, ids, waiting, known) && id !in waiting && id in known && known[id] == ref
    requires aside == (id in after) && after == waiting + if id in after then {id} else {}
    ensures AreAside(if aside then refs + [ref] else refs, if aside then ids + [id] else ids, after, known)
  {
  }

  datatype RunningJob = RunningJob(ref: JobRef, finishTick: int)

  // A job to be submitted when the clock reaches its tick.
  datatype Arrival = Arrival(ref: JobRef, tick: int)

  class Simulation {
    const pool: seq<Node>
    const table: Table
    const base: int
    var running: map<string, RunningJob>
    var tick: nat
    // The state of the machine.
    ghost var state: S.State

    ghost predicate RunningOk(r: map<string, int>)
      reads this`running, table`refs
    {
      && running.Keys == r.Keys && running.Keys <= table.refs.Keys
      && forall id <- running :: running[id] == RunningJob(table.refs[id], r[id])
    }

    ghost predicate Agrees(s: S.State)
      reads this`running, this`tick, table`refs, table.queue, table.Refs()`job, pool
    {
      && RunningOk(s.running)
      && (table.Records(), table.Queued(), Views(pool), tick, base) == (s.jobs, s.queued, s.nodes, s.tick, s.base)
    }

    ghost predicate Valid()
      reads this, table`refs, table.queue, table.queue.Members(), table.Refs()`job, pool
    {
      table.Valid() && Agrees(state)
    }

    constructor (pool: seq<Node>, base: int)
      ensures Valid() && state == S.Initial(Views(pool), base) && this.pool == pool
      ensures fresh(table) && fresh(table.queue) && table.refs == map[]
    {
      this.pool, this.base := pool, base;
      table := new Table();
      running, tick := map[], 0;
      state := S.Initial(Views(pool), base);
    }

    // The machine catches up with the fields.
    ghost method Advance(next: S.State)
      requires table.Valid() && Agrees(next)
      modifies this`state
      ensures Valid() && state == next
    {
      state := next;
    }

    /** A job's arrival. */
    method Arrive(ref: JobRef)
      requires Valid() && ref !in table.Refs() && ref.job.id !in table.refs
      modifies this`state, table`refs, table.queue, ref, table.queue.Members()`index
      ensures Valid() && state == S.Arrived(old(state), old(ref.job))
      ensures table.refs == old(table.refs)[old(ref.job.id) := ref] && table.Refs() == old(table.Refs()) + {ref}
    {
      ghost var next := S.Arrived(state, ref.job);
      QueuedAreKnown();
      Adopt(ref);
      Requeue(ref, ref.job.(submitTime := base + tick, state := Pending), next);
    }

    lemma QueuedAreKnown()
      requires Valid()
      ensures state.queued <= table.refs.Keys
    {
    }

    // A new job object becomes known, with its own record, in no place yet.
    ghost method Adopt(ref: JobRef)
      requires Valid() && ref !in table.Refs() && ref.job.id !in table.refs
      modifies this`state, table`refs
      ensures Valid() && Known(ref, ref.job.id)
      ensures table.refs == old(table.refs)[ref.job.id := ref] && table.Refs() == old(table.Refs()) + {ref}
      ensures state == old(state).(jobs := old(state).jobs[ref.job.id := ref.job])
    {
      ghost var next := state.(jobs := state.jobs[ref.job.id := ref.job]);
      table.Register(ref);
      assert RunningOk(next.running) && Views(pool) == next.nodes;
      Advance(next);
    }

    /** Gives back a job's resources on the first node of that name. */
    method ReleaseNode(name: string, req: Requirements)
      requires S.DistinctNames(Views(pool))
      modifies pool
      ensures Views(pool) == S.ReleasedOn(old(Views(pool)), name, req)
    {
      ghost var before := Views(pool);
      for k := 0 to |pool|
        invariant Views(pool) == before
        invariant forall j | 0 <= j < k :: before[j].name != name
      {
        if pool[k].name == name {
          FirstNamed(before, name, k);
          pool[k].Release(req);
          assert Views(pool) == before[k := pool[k].View()];
          return;
        }
      }
      NotNamed(before, name);
    }

    method ReserveNode(node: Node, ghost k: nat, req: Requirements)
      requires Valid() && k < |pool| && node == pool[k] && S.DistinctNames(state.nodes)
      modifies this`state, pool
      ensures Valid() && state == old(state).(nodes := S.ReservedOn(old(state).nodes, k, req))
    {
      ghost var next := state.(nodes := S.ReservedOn(state.nodes, k, req));
      node.Reserve(req);
      assert Views(pool) == state.nodes[k := pool[k].View()];
      assert RunningOk(next.running);
      Advance(next);
    }

    method Enter(ref: JobRef, id: string, finish: int)
      requires Valid() && Known(ref, id)
      modifies this`state, this`running
      ensures Valid() && state == old(state).(running := old(state).running[id := finish])
    {
      running := running[id := RunningJob(ref, finish)];
      Advance(state.(running := state.running[id := finish]));
    }

    method LeaveNode(name: string, req: Requirements)
      requires Valid() && S.DistinctNames(state.nodes)
      modifies this`state, pool
      ensures Valid() && state == old(state).(nodes := S.ReleasedOn(old(state).nodes, name, req))
    {
      ghost var next := state.(nodes := S.ReleasedOn(state.nodes, name, req));
      ReleaseNode(name, req);
      assert RunningOk(next.running);
      Advance(next);
    }

    method LeaveRunning(id: string)
      requires Valid()
      modifies this`state, this`running
      ensures Valid() && state == old(state).(running := old(state).running - {id})
    {
      running := running - {id};
      Advance(state.(running := state.running - {id}));
    }

    // Takes a job off its node and off the running map.
    method Vacate(id: string, ref: JobRef)
      requires Valid() && S.DistinctNames(state.nodes)
      modifies this`state, this`running, pool
      ensures Valid()
      ensures state == old(state).(nodes := S.ReleasedOn(old(state).nodes, ref.job.node, ref.job.resources),
                                   running := old(state).running - {id})
    {
      LeaveNode(ref.job.node, ref.job.resources);
      LeaveRunning(id);
    }

    // Puts a job on a node and on the running map.
    method Occupy(ref: JobRef, id: string, node: Node, ghost k: nat, req: Requirements, finish: int)
      requires Valid() && k < |pool| && node == pool[k] && Known(ref, id) && S.DistinctNames(state.nodes)
      modifies this`state, this`running, pool
      ensures Valid()
      ensures state == old(state).(nodes := S.ReservedOn(old(state).nodes, k, req),
              running := old(state).running[id := finish])
    {
      ReserveNode(node, k, req);
      Enter(ref, id, finish);
    }

    /** The object behind a known id. */
    ghost predicate Known(ref: JobRef, id: string)
      reads table`refs
    {
      id in table.refs && table.refs[id] == ref
    }

    // A known job's record is the machine's.
    lemma RecordOf(ref: JobRef, id: string)
      requires Valid() && Known(ref, id)
      ensures id in state.jobs && ref.job == state.jobs[id] && ref.job.id == id
    {
      assert id in table.Records();
    }

    // Writes a job's record; what no field holds moves along.
    method Record(ref: JobRef, job: Job, ghost next: S.State)
      requires Valid() && Known(ref, job.id) && job.id !in state.queued
      requires next == state.(jobs := state.jobs[job.id := job], completed := next.completed, started := next.started)
      modifies this`state, ref`job
      ensures Valid() && state == next
    {
      table.Rewrite(ref, job);
      assert RunningOk(next.running) && Views(pool) == next.nodes;
      Advance(next);
    }

    // Writes a job's record and queues it.
    method Requeue(ref: JobRef, job: Job, ghost next: S.State)
      requires Valid() && Known(ref, job.id) && job.id !in state.queued
      requires next == state.(jobs := state.jobs[job.id := job], queued := state.queued + {job.id})
      modifies this`state, ref, table.queue, table.queue.Members()`index
      ensures Valid() && state == next
    {
      table.PutBack(ref, job);
      assert RunningOk(next.running) && Views(pool) == next.nodes;
      Advance(next);
    }

    method Queue(ref: JobRef, ghost id: string)
      requires Valid() && Known(ref, id) && id !in state.queued
      modifies this`state, ref`index, table.queue, table.queue.Members()`index
      ensures Valid() && state == old(state).(queued := old(state).queued + {id})
    {
      RecordOf(ref, id);
      ghost var next := state.(queued := state.queued + {id});
      table.Enqueue(ref);
      assert RunningOk(next.running) && Views(pool) == next.nodes;
      Advance(next);
    }

    // Takes the first job off the queue.
    method Pop() returns (ref: JobRef)
      requires Valid() && table.queue.heap != []
      modifies this`state, table.queue, table.queue.Members()`index
      ensures Valid() && Known(ref, ref.job.id) && ref.job.id in old(state).jobs
              && ref.job == old(state).jobs[ref.job.id]
      ensures old(state).queued <= old(state).jobs.Keys && S.IsFirst(old(state).jobs, old(state).queued, ref.job.id)
      ensures state == old(state).(queued := old(state).queued - {ref.job.id})
    {
      ghost var members := table.queue.Members();
      ref := table.Dequeue();
      assert ref.job == table.Records()[ref.job.id];
      ghost var next := state.(queued := state.queued - {ref.job.id});
      assert RunningOk(next.running) && Views(pool) == next.nodes;
      forall q <- state.queued ensures q in state.jobs && MayFollow(state.jobs[q], ref.job) {
        assert table.refs[q] in members;
      }
      Advance(next);
    }

    /** Completes a running job. */
    method Finish(id: string, ref: JobRef)
      requires Valid() && id in running && running[id].ref == ref && id in state.jobs && id !in state.queued
               && S.DistinctNames(state.nodes)
      modifies this`state, this`running, pool, ref`job
      ensures Valid() && state == S.Finished(old(state), id)
    {
      RecordOf(ref, id);
      ghost var next := S.Finished(state, id);
      Vacate(id, ref);
      Record(ref, ref.job.(state := Completed), next);
    }

    /** Preempts a running job and queues it again; its wait clock restarts. */
    method SendBack(id: string, ref: JobRef)
      requires Valid() && id in running && running[id].ref == ref && id in state.jobs && id !in state.queued
               && S.DistinctNames(state.nodes)
      modifies this`state, this`running, pool, ref, table.queue, table.queue.Members()`index
      ensures Valid() && state == S.SentBack(old(state), id)
    {
      RecordOf(ref, id);
      ghost var next := S.SentBack(state, id);
      var job := ref.job.(state := Pending, submitTime := base + tick);
      assert job == next.jobs[id] && next.jobs == state.jobs[job.id := job];
      Vacate(id, ref);
      Requeue(ref, job, next);
    }

    /** Starts a job that left the queue on the node found for it. */
    method Start(ref: JobRef, id: string, node: Node, ghost k: nat, jitter: nat)
      requires Valid() && k < |pool| && node == pool[k] && Known(ref, id) && S.DistinctNames(state.nodes)
               && id in state.jobs && id !in state.queued
      modifies this`state, this`running, pool, ref`job
      ensures Valid() && state == S.StartedOn(old(state), id, k, jitter)
    {
      RecordOf(ref, id);
      ghost var next := S.StartedOn(state, id, k, jitter);
      var finish := tick + S.Duration(ref.job, jitter);
      var job := ref.job.(state := JobState.Running, node := node.name, startTime := base + tick);
      assert job == next.jobs[id] && next.jobs == state.jobs[job.id := job] && next.queued == state.queued;
      ghost var between := state.(nodes := S.ReservedOn(state.nodes, k, ref.job.resources),
          running := state.running[id := finish]);
      assert next == between.(jobs := next.jobs, completed := next.completed, started := next.started);
      Occupy(ref, id, node, k, ref.job.resources, finish);
      Record(ref, job, next);
    }

    /** A lowest-priority running job with less priority than the candidate, whatever order the map is in. */
    method FindPreemptionVictim(candidate: JobRef) returns (victim: Option<string>)
      requires Valid() && candidate.job.id in state.jobs && state.jobs[candidate.job.id] == candidate.job
      ensures state.running.Keys <= state.jobs.Keys
      ensures S.IsVictim(state.jobs, state.running.Keys, candidate.job.id, victim)
      ensures match victim
              case None => forall id <- running :: running[id].ref.job.priority >= candidate.job.priority
              case Some(v) =>
                && v in running && running[v].ref.job.priority < candidate.job.priority
                && forall id <- running :: running[v].ref.job.priority <= running[id].ref.job.priority
    {
      victim := None;
      var seen, rest := {}, running.Keys;
      while rest != {}
        invariant seen !! rest && seen + rest == running.Keys && running.Keys <= state.jobs.Keys
        invariant S.IsVictim(state.jobs, seen, candidate.job.id, victim)
        decreases rest
      {
        var id :| id in rest;
        var job := running[id].ref.job;
        assert job == table.Records()[id];
        if job.priority < candidate.job.priority {
          if victim.None? || job.priority < running[victim.value].ref.job.priority {
            victim := Some(id);
          }
        }
        seen, rest := seen + {id}, rest - {id};
      }
      assert seen == state.running.Keys;
    }

    /** Sends back a victim for a job that fits nowhere, if there is one, and looks for a node again. */
    method Preempt(ref: JobRef, id: string, req: Requirements)
      returns (node: Node?, ghost at: Option<nat>, ghost victim: Option<string>)
      requires Valid() && S.DistinctNames(state.nodes) && state.running.Keys !! state.queued
      requires Known(ref, id) && id in state.jobs && state.running.Keys <= state.jobs.Keys
      requires FindFit(state.nodes, req).None?
      modifies this`state, this`running, pool, table.Refs(), table.queue
      ensures Valid() && S.IsVictim(old(state).jobs, old(state).running.Keys, id, victim)
      ensures state == if victim.Some? then S.SentBack(old(state), victim.value) else old(state)
      ensures at == FindFit(state.nodes, req) && node == if at.Some? then pool[at.value] else null
    {
      RecordOf(ref, id);
      var found := FindPreemptionVictim(ref);
      victim, node, at := found, null, None;
      if found.Some? {
        node, at := SendBackAndLook(found.value, running[found.value].ref, req);
      }
    }

    method SendBackAndLook(id: string, ref: JobRef, req: Requirements) returns (node: Node?, ghost at: Option<nat>)
      requires Valid() && id in running && running[id].ref == ref && id in state.jobs && id !in state.queued
               && S.DistinctNames(state.nodes)
      modifies this`state, this`running, pool, ref, table.queue, table.queue.Members()`index
      ensures Valid() && state == S.SentBack(old(state), id)
      ensures at == FindFit(state.nodes, req) && node == if at.Some? then pool[at.value] else null
    {
      SendBack(id, ref);
      node, at := Look(req);
    }

    method Look(req: Requirements) returns (node: Node?, ghost at: Option<nat>)
      requires Valid()
      ensures Valid() && at == FindFit(state.nodes, req) && node == if at.Some? then pool[at.value] else null
    {
      node, at := FindNode(pool, req);
    }

    /** Looks for a node and, where none has room, preempts a victim and looks again. */
    method MakeRoom(ref: JobRef, id: string, req: Requirements)
      returns (node: Node?, ghost at: Option<nat>, ghost victim: Option<string>)
      requires Valid() && S.DistinctNames(state.nodes) && state.running.Keys !! state.queued
      requires Known(ref, id) && id in state.jobs && state.running.Keys <= state.jobs.Keys
      modifies this`state, this`running, pool, table.Refs(), table.queue
      ensures Valid() && S.IsVictim(old(state).jobs, old(state).running.Keys, id, victim)
      ensures state == if FindFit(old(state).nodes, req).None? && victim.Some?
                       then S.SentBack(old(state), victim.value) else old(state)
      ensures at == FindFit(state.nodes, req) && node == if at.Some? then pool[at.value] else null
    {
      node, at := Look(req);
      if node == null {
        node, at, victim := Preempt(ref, id, req);
      } else {
        victim := R.VictimExists(state.jobs, state.running.Keys, id);
      }
    }

    lemma RunningAreApart()
      requires S.Placed(state)
      ensures state.queued !! state.running.Keys && state.running.Keys <= state.jobs.Keys
    {
      R.PlacesAsSets(state);
    }

    /** Starts the job on the node found, or sets it aside. */
    method Settle(ref: JobRef, id: string, node: Node?, ghost at: Option<nat>, jitter: nat) returns (aside: bool)
      requires Valid() && S.DistinctNames(state.nodes) && Known(ref, id) && id in state.jobs && id !in state.queued
      requires at == FindFit(state.nodes, state.jobs[id].resources) && node == if at.Some? then pool[at.value] else null
      modifies this`state, this`running, pool, ref`job
      ensures Valid() && state == S.PlacedOrAside(old(state), id, jitter)
      ensures aside <==> at.None?
    {
      aside := node == null;
      if node == null {
        SetAside(id);
      } else {
        Start(ref, id, node, at.value, jitter);
      }
    }

    ghost method SetAside(id: string)
      requires Valid() && id !in state.queued
      modifies this`state
      ensures Valid() && state == S.SetAside(old(state), id)
    {
      assert state.queued - {id} == state.queued;
      state := S.SetAside(state, id);
    }

    /** One turn of the placement loop. */
    method PlaceNext(draw: string -> nat) returns (ref: JobRef, aside: bool, id: string, ghost victim: Option<string>)
      requires Valid() && S.Inv(state) && state.phase == S.Placing && table.queue.heap != []
      modifies this`state, this`running, pool, table.Refs(), table.queue
      ensures Valid() && S.Enabled(old(state), S.Turning(id, victim, draw(id)))
      ensures state == S.Turn(old(state), id, victim, draw(id))
      ensures Known(ref, id) && aside == (id in state.waiting)
    {
      ghost var start := state;
      RunningAreApart();
      ref := Pop();
      id := ref.job.id;
      aside, victim := PlacePopped(ref, id, draw(id), start);
    }

    method PlacePopped(ref: JobRef, id: string, jitter: nat, ghost start: S.State)
      returns (aside: bool, ghost victim: Option<string>)
      requires Valid() && S.Inv(start) && start.phase == S.Placing && state == start.(queued := start.queued - {id})
      requires Known(ref, id) && start.queued <= start.jobs.Keys && S.IsFirst(start.jobs, start.queued, id)
      requires start.running.Keys <= start.jobs.Keys && start.running.Keys !! start.queued
      modifies this`state, this`running, pool, table.Refs(), table.queue
      ensures Valid() && S.Enabled(start, S.Turning(id, victim, jitter)) && state == S.Turn(start, id, victim, jitter)
      ensures aside == (id in state.waiting)
    {
      RecordOf(ref, id);
      var node, at, sent := MakeRoom(ref, id, ref.job.resources);
      victim := sent;
      RoomedKeeps(start, id, victim);
      TurnInParts(start, id, victim, jitter);
      aside := Settle(ref, id, node, at, jitter);
    }

    /** The placement loop. It ends although preemption refills the queue: each turn lowers what may still be
        popped. `turns` are the turns it made. */
    method PlaceAll(draw: string -> nat)
      returns (requeue: seq<JobRef>, ghost ids: seq<string>, ghost turns: seq<S.Step>)
      requires Valid() && S.Inv(state) && state.phase == S.Placing && state.waiting == {}
      modifies this`state, this`running, pool, table.Refs(), table.queue
      ensures Valid() && state.phase == S.Placing && state.queued == {}
              && AreAside(requeue, ids, state.waiting, table.refs)
      ensures R.OnlyTurns(turns) && S.Exec(old(state), turns) == Some(state)
    {
      requeue, ids, turns := [], [], [];
      while table.queue.heap != []
        invariant Valid() && state.phase == S.Placing && AreAside(requeue, ids, state.waiting, table.refs)
        invariant R.OnlyTurns(turns) && S.Exec(old(state), turns) == Some(state)
        decreases R.Outstanding(state)
      {
        requeue, ids, turns := PlaceMore(draw, requeue, ids, old(state), turns);
      }
      table.IsEmpty();
    }

    method PlaceMore(draw: string -> nat, requeue: seq<JobRef>, ghost ids: seq<string>, ghost start: S.State,
        ghost turns: seq<S.Step>)
      returns (more: seq<JobRef>, ghost moreIds: seq<string>, ghost moreTurns: seq<S.Step>)
      requires Valid() && state.phase == S.Placing && table.queue.heap != []
               && AreAside(requeue, ids, state.waiting, table.refs)
      requires S.Inv(start) && R.OnlyTurns(turns) && S.Exec(start, turns) == Some(state)
      modifies this`state, this`running, pool, table.Refs(), table.queue
      ensures Valid() && state.phase == S.Placing && AreAside(more, moreIds, state.waiting, table.refs)
      ensures R.OnlyTurns(moreTurns) && S.Exec(start, moreTurns) == Some(state)
      ensures R.Outstanding(state) < R.Outstanding(old(state))
    {
      R.StepsKeepInv(start, turns);
      ghost var before := state;
      ghost var step;
      more, moreIds, step := PlaceOne(draw, requeue, ids);
      R.ExecMore(start, turns, before, step);
      moreTurns := turns + [step];
    }

    method PlaceOne(draw: string -> nat, requeue: seq<JobRef>, ghost ids: seq<string>)
      returns (more: seq<JobRef>, ghost moreIds: seq<string>, ghost step: S.Step)
      requires Valid() && S.Inv(state) && state.phase == S.Placing && table.queue.heap != []
               && AreAside(requeue, ids, state.waiting, table.refs)
      modifies this`state, this`running, pool, table.Refs(), table.queue
      ensures Valid() && state.phase == S.Placing && AreAside(more, moreIds, state.waiting, table.refs)
      ensures step.Turning? && S.Enabled(old(state), step) && state == S.Apply(old(state), step)
      ensures R.Outstanding(state) < R.Outstanding(old(state))
    {
      ghost var before := state;
      var ref, aside, id, victim := PlaceNext(draw);
      step := S.Turning(id, victim, draw(id));
      TurnMakesProgress(before, id, victim, draw(id));
      TurnAside(before, id, victim, draw(id));
      more := if aside then requeue + [ref] else requeue;
      moreIds := if aside then ids + [id] else ids;
      OneMoreAside(requeue, ids, before.waiting, table.refs, ref, id, aside, state.waiting);
    }

    /** Completes every running job whose finish tick is now, in any order. */
    method CompleteDue() returns (ghost steps: seq<S.Step>)
      requires Valid() && S.Inv(state) && state.phase == S.Completing
      modifies this`state, this`running, pool, table.Refs()`job
      ensures Valid() && S.Enabled(state, S.AllEnded)
      ensures S.Exec(old(state), steps) == Some(state)
    {
      steps := [];
      var rest := running.Keys;
      while rest != {}
        invariant Valid() && state.phase == S.Completing && NoneDueBut(state, rest)
        invariant rest <= running.Keys && S.Exec(old(state), steps) == Some(state)
        decreases rest
      {
        var id :| id in rest;
        ghost var before := state;
        steps := EndIfDue(id, old(state), steps);
        StillNoneDueBut(before, state, rest, id);
        rest := rest - {id};
      }
    }

    method EndIfDue(id: string, ghost start: S.State, ghost steps: seq<S.Step>) returns (ghost more: seq<S.Step>)
      requires Valid() && state.phase == S.Completing && id in running
      requires S.Inv(start) && S.Exec(start, steps) == Some(state)
      modifies this`state, this`running, pool, table.Refs()`job
      ensures Valid() && S.Exec(start, more) == Some(state) && OneEnded(old(state), state, id)
    {
      more := steps;
      if running[id].finishTick == tick {
        R.StepsKeepInv(start, steps);
        ghost var before := state;
        EndRunning(id);
        R.ExecMore(start, steps, before, S.Ending(id));
        more := steps + [S.Ending(id)];
      }
    }

    method EndRunning(id: string)
      requires Valid() && S.Inv(state) && state.phase == S.Completing && id in running && running[id].finishTick == tick
      modifies this`state, this`running, pool, running[id].ref`job
      ensures Valid() && S.Enabled(old(state), S.Ending(id)) && state == S.Finished(old(state), id)
    {
      RunningAreApart();
      Finish(id, running[id].ref);
    }

    // Queues the jobs set aside.
    method RequeueAll(requeue: seq<JobRef>, ghost ids: seq<string>)
      requires Valid() && state.queued == {} && AreAside(requeue, ids, state.waiting, table.refs)
      modifies this`state, table.Refs(), table.queue
      ensures Valid() && state == old(state).(queued := old(state).waiting)
    {
      for k := 0 to |requeue|
        invariant Valid() && state == old(state).(queued := UpTo(ids, k))
      {
        UpToNext(ids, k);
        Queue(requeue[k], ids[k]);
      }
      assert UpTo(ids, |ids|) == old(state).waiting;
    }

    method MoveClock()
      requires Valid()
      modifies this`state, this`tick
      ensures Valid()
      ensures state == old(state).(waiting := {}, started := {}, tick := old(state).tick + 1, phase := S.Submitting)
    {
      ghost var next := state.(waiting := {}, started := {}, tick := state.tick + 1, phase := S.Submitting);
      tick := tick + 1;
      Advance(next);
    }

    /** Queues the jobs set aside, and moves the clock. */
    method NextTick(requeue: seq<JobRef>, ghost ids: seq<string>)
      requires Valid() && state.queued == {} && AreAside(requeue, ids, state.waiting, table.refs)
               && state.phase == S.Placing
      modifies this`state, this`tick, table.Refs(), table.queue
      ensures Valid() && S.Enabled(old(state), S.NextTick) && state == S.Apply(old(state), S.NextTick)
    {
      RequeueAll(requeue, ids);
      MoveClock();
    }

    /** A job not submitted yet. */
    ghost predicate Unseen(ref: JobRef)
      reads table`refs, ref`job
    {
      ref !in table.Refs() && ref.job.id !in table.refs && Asks(ref.job.resources) && I.Valid(ref.job.batch)
    }

    /** The arrivals from the `k`-th on at tick `now`, and all later ones, are different jobs not submitted yet. */
    ghost predicate ToCome(toSubmit: seq<Arrival>, k: nat, now: nat)
      reads table`refs, set a <- toSubmit :: a.ref`job
    {
      && (forall i | 0 <= i < |toSubmit| && Later(toSubmit[i], i, k, now) :: Unseen(toSubmit[i].ref))
      && (forall i, j | 0 <= i < j < |toSubmit| && Later(toSubmit[i], i, k, now) && Later(toSubmit[j], j, k, now) ::
            toSubmit[i].ref != toSubmit[j].ref && toSubmit[i].ref.job.id != toSubmit[j].ref.job.id)
    }

    lemma ToComeNext(toSubmit: seq<Arrival>)
      requires ToCome(toSubmit, |toSubmit|, tick)
      ensures ToCome(toSubmit, 0, tick + 1)
    {
    }

    /** Submits the jobs that arrive at this tick. */
    method SubmitArrivals(toSubmit: seq<Arrival>) returns (ghost steps: seq<S.Step>)
      requires Valid() && state.phase == S.Submitting && ToCome(toSubmit, 0, tick)
      modifies this`state, table`refs, table.queue, table.Refs()`index, set a <- toSubmit :: a.ref
      ensures Valid() && state.phase == S.Submitting && ToCome(toSubmit, |toSubmit|, tick)
      ensures S.Exec(old(state), steps) == Some(state)
      ensures table.Refs() <= old(table.Refs()) + set a <- toSubmit :: a.ref
    {
      steps := [];
      for k := 0 to |toSubmit|
        invariant Valid() && state.phase == S.Submitting && ToCome(toSubmit, k, tick)
        invariant S.Exec(old(state), steps) == Some(state)
        invariant table.Refs() <= old(table.Refs()) + set a <- toSubmit :: a.ref
      {
        steps := SubmitIfDue(toSubmit, k, old(state), steps);
      }
    }

    method SubmitIfDue(toSubmit: seq<Arrival>, k: nat, ghost start: S.State, ghost steps: seq<S.Step>)
      returns (ghost more: seq<S.Step>)
      requires Valid() && state.phase == S.Submitting && ToCome(toSubmit, k, tick)
      requires k < |toSubmit| && S.Exec(start, steps) == Some(state)
      modifies this`state, table`refs, table.queue, table.Refs()`index, toSubmit[k].ref
      ensures Valid() && state.phase == S.Submitting && ToCome(toSubmit, k + 1, tick)
      ensures S.Exec(start, more) == Some(state) && table.Refs() <= old(table.Refs()) + {toSubmit[k].ref}
    {
      more := steps;
      if toSubmit[k].tick == tick {
        more := SubmitOne(toSubmit, k, start, steps);
      }
    }

    method SubmitOne(toSubmit: seq<Arrival>, k: nat, ghost start: S.State, ghost steps: seq<S.Step>)
      returns (ghost more: seq<S.Step>)
      requires Valid() && state.phase == S.Submitting && ToCome(toSubmit, k, tick)
      requires k < |toSubmit| && toSubmit[k].tick == tick && S.Exec(start, steps) == Some(state)
      modifies this`state, table`refs, table.queue, table.Refs()`index, toSubmit[k].ref
      ensures Valid() && state.phase == S.Submitting && ToCome(toSubmit, k + 1, tick)
      ensures S.Exec(start, more) == Some(state) && table.Refs() == old(table.Refs()) + {toSubmit[k].ref}
    {
      var ref := toSubmit[k].ref;
      ghost var before, job := state, ref.job;
      Arrive(ref);
      R.ExecMore(start, steps, before, S.Arriving(job));
      more := steps + [S.Arriving(job)];
    }

    ghost method EnterPhase(phase: S.Phase)
      requires Valid()
      modifies this`state
      ensures Valid() && state == old(state).(phase := phase)
    {
      state := state.(phase := phase);
    }

    // The first part of a tick: arrivals.
    method Open(toSubmit: seq<Arrival>) returns (ghost steps: seq<S.Step>)
      requires Valid() && state.phase == S.Submitting && ToCome(toSubmit, 0, tick)
      modifies this`state, table`refs, table.queue, table.Refs()`index, set a <- toSubmit :: a.ref
      ensures Valid() && state.phase == S.Completing && ToCome(toSubmit, 0, tick + 1)
      ensures S.Exec(old(state), steps) == Some(state)
      ensures table.Refs() <= old(table.Refs()) + set a <- toSubmit :: a.ref
    {
      steps := SubmitArrivals(toSubmit);
      R.ExecMore(old(state), steps, state, S.AllArrived);
      steps := steps + [S.AllArrived];
      ToComeNext(toSubmit);
      EnterPhase(S.Completing);
    }

    // The second part: completions.
    method Complete() returns (ghost steps: seq<S.Step>)
      requires Valid() && S.Inv(state) && state.phase == S.Completing
      modifies this`state, this`running, pool, table.Refs()`job
      ensures Valid() && state.phase == S.Placing && S.Exec(old(state), steps) == Some(state)
      ensures state.started == {} && state.waiting == {}
    {
      steps := CompleteDue();
      R.StepsKeepInv(old(state), steps);
      R.ExecMore(old(state), steps, state, S.AllEnded);
      steps := steps + [S.AllEnded];
      EnterPhase(S.Placing);
    }

    /** The third part: placement. No job is popped twice, they are popped by priority and then by submission
        time, and there are no more turns than jobs queued or running. */
    method Place(draw: string -> nat) returns (ghost steps: seq<S.Step>, ghost popped: seq<string>)
      requires Valid() && S.Inv(state) && state.phase == S.Placing && state.started == {} && state.waiting == {}
      modifies this`state, this`running, this`tick, pool, table.Refs(), table.queue
      ensures Valid() && state.phase == S.Submitting && tick == old(tick) + 1
              && S.Exec(old(state), steps) == Some(state)
      ensures popped == R.Popped(steps) && |popped| <= |old(state).queued| + |old(state).running.Keys|
      ensures forall i, j | 0 <= i < j < |popped| :: popped[i] != popped[j]
      ensures forall i, j | 0 <= i < j < |popped| && popped[i] in state.jobs && popped[j] in state.jobs ::
                MayFollow(state.jobs[popped[j]], state.jobs[popped[i]])
    {
      var requeue, ids, turns := PlaceAll(draw);
      popped := R.Popped(turns);
      R.PlacementTouchesOnce(old(state), turns);
      R.ExecMore(old(state), turns, state, S.NextTick);
      R.PoppedMore(turns, S.NextTick);
      steps := turns + [S.NextTick];
      NextTick(requeue, ids);
    }

    method CompleteAndPlace(draw: string -> nat) returns (ghost steps: seq<S.Step>)
      requires Valid() && S.Inv(state) && state.phase == S.Completing
      modifies this`state, this`running, this`tick, pool, table.Refs(), table.queue
      ensures Valid() && state.phase == S.Submitting && tick == old(tick) + 1
              && S.Exec(old(state), steps) == Some(state)
    {
      var ended := Complete();
      R.StepsKeepInv(old(state), ended);
      ghost var between := state;
      var placed, _ := Place(draw);
      R.ExecAppend(old(state), ended, between, placed);
      steps := ended + placed;
    }

    // The jobs still to come are out of reach of completions and placements.
    method CloseTick(toSubmit: seq<Arrival>, draw: string -> nat) returns (ghost steps: seq<S.Step>)
      requires Valid() && S.Inv(state) && state.phase == S.Completing && ToCome(toSubmit, 0, tick + 1)
      modifies this`state, this`running, this`tick, pool, table.Refs(), table.queue
      ensures Valid() && state.phase == S.Submitting && tick == old(tick) + 1 && ToCome(toSubmit, 0, tick)
      ensures S.Exec(old(state), steps) == Some(state)
    {
      steps := CompleteAndPlace(draw);
    }

    /** One tick of the simulation is a run of the machine. */
    method Tick(toSubmit: seq<Arrival>, draw: string -> nat) returns (ghost steps: seq<S.Step>)
      requires Valid() && S.Inv(state) && state.phase == S.Submitting && ToCome(toSubmit, 0, tick)
      modifies this`state, this`running, this`tick, pool, table`refs, table.queue, table.Refs(),
               set a <- toSubmit :: a.ref
      ensures Valid() && state.phase == S.Submitting && tick == old(tick) + 1 && ToCome(toSubmit, 0, tick)
      ensures table.Refs() <= old(table.Refs()) + set a <- toSubmit :: a.ref
      ensures S.Exec(old(state), steps) == Some(state)
    {
      var arrived := Open(toSubmit);
      R.StepsKeepInv(old(state), arrived);
      ghost var between := state;
      var rest := CloseTick(toSubmit, draw);
      R.ExecAppend(old(state), arrived, between, rest);
      steps := arrived + rest;
    }

    /** The simulation: `maxTicks` ticks from an empty cluster. It always ends, and in a state of the machine. */
    method Run(toSubmit: seq<Arrival>, maxTicks: nat, draw: (nat, string) -> nat) returns (ghost steps: seq<S.Step>)
      requires Valid() && state == S.Initial(Views(pool), base) && R.EmptyCluster(Views(pool)) && ToCome(toSubmit, 0, 0)
      modifies this`state, this`running, this`tick, pool, table`refs, table.queue, table.Refs(),
               set a <- toSubmit :: a.ref
      ensures Valid() && tick == maxTicks && state.phase == S.Submitting
      ensures S.Exec(old(state), steps) == Some(state) && S.Inv(state)
    {
      steps := [];
      R.InitialInv(Views(pool), base);
      while tick < maxTicks
        invariant Valid() && tick <= maxTicks && state.phase == S.Submitting && ToCome(toSubmit, 0, tick)
        invariant S.Exec(old(state), steps) == Some(state)
        invariant table.Refs() <= old(table.Refs()) + set a <- toSubmit :: a.ref
      {
        R.StepsKeepInv(old(state), steps);
        var now := tick;
        ghost var before := state;
        var more := Tick(toSubmit, id => draw(now, id));
        R.ExecAppend(old(state), steps, before, more);
        steps := steps + more;
      }
      R.StepsKeepInv(old(state), steps);
    }
  }

  predicate Later(a: Arrival, i: nat, k: nat, tick: int) {
    a.tick > tick || (a.tick == tick && i >= k)
  }

  ghost predicate NoneDueBut(s: S.State, rest: set<string>) {
    forall id <- s.running :: id in rest || s.running[id] != s.tick
  }

  /** One running job was looked at, and completed if it was due. */
  ghost predicate OneEnded(s: S.State, t: S.State, id: string) {
    && t.phase == s.phase && t.tick == s.tick
    && t.running == if id in s.running && s.running[id] == s.tick then s.running - {id} else s.running
  }

  lemma StillNoneDueBut(s: S.State, t: S.State, rest: set<string>, id: string)
    requires NoneDueBut(s, rest) && OneEnded(s, t, id) && id in rest && rest <= s.running.Keys
    ensures NoneDueBut(t, rest - {id}) && rest - {id} <= t.running.Keys
  {
  }

  /** What the state is between the parts of a turn: the job popped, then room made for it. */
  ghost function Roomed(s: S.State, id: string, victim: Option<string>): S.State
    requires id in s.jobs && (victim.Some? ==> victim.value in s.jobs)
  {
    var popped := s.(queued := s.queued - {id});
    if FindFit(s.nodes, s.jobs[id].resources).None? && victim.Some? then S.SentBack(popped, victim.value) else popped
  }

  lemma RoomedKeeps(s: S.State, id: string, victim: Option<string>)
    requires S.Inv(s) && S.Enabled(s, S.Turning(id, victim, 0))
    ensures var between := Roomed(s, id, victim);
            && id in between.jobs && between.jobs[id] == s.jobs[id] && id !in between.queued && id !in between.waiting
            && S.DistinctNames(between.nodes)
  {
    assert S.InOnePlace(s, id);
    if victim.Some? {
      R.VictimIsNotStarted(s, id, victim.value);
    }
  }

  lemma TurnInParts(s: S.State, id: string, victim: Option<string>, jitter: nat)
    requires id in s.jobs && (victim.Some? ==> victim.value in s.jobs && victim.value != id)
    ensures S.Turn(s, id, victim, jitter) == S.PlacedOrAside(Roomed(s, id, victim), id, jitter)
  {
    if FindFit(s.nodes, s.jobs[id].resources).None? && victim.Some? {
      assert S.SentBack(s, victim.value).queued - {id} == Roomed(s, id, victim).queued - {id};
    } else {
      assert s.queued - {id} - {id} == s.queued - {id};
    }
  }

  lemma TurnAside(s: S.State, id: string, victim: Option<string>, jitter: nat)
    requires S.Inv(s) && S.Enabled(s, S.Turning(id, victim, jitter))
    ensures var t := S.Turn(s, id, victim, jitter);
            && id !in s.waiting && t.phase == s.phase && t.waiting == s.waiting + if id in t.waiting then {id} else {}
  {
    R.TurnIsFresh(s, id);
  }

  lemma TurnMakesProgress(s: S.State, id: string, victim: Option<string>, jitter: nat)
    requires S.Inv(s) && S.Enabled(s, S.Turning(id, victim, jitter))
    ensures S.Inv(S.Turn(s, id, victim, jitter))
    ensures R.Outstanding(S.Turn(s, id, victim, jitter)) < R.Outstanding(s)
  {
    R.TurnKeepsInv(s, id, victim, jitter);
    R.TurnTouchesOne(s, id, victim, jitter);
  }

  lemma {:induction false} FirstNamed(nodes: seq<Capacity>, name: string, k: nat)
    requires k < |nodes| && nodes[k].name == name && forall j | 0 <= j < k :: nodes[j].name != name
    ensures S.NodeNamed(nodes, name) == Some(k)
  {
    if k > 0 {
      FirstNamed(nodes[1..], name, k - 1);
    }
  }

  lemma {:induction false} NotNamed(nodes: seq<Capacity>, name: string)
    requires forall j | 0 <= j < |nodes| :: nodes[j].name != name
    ensures S.NodeNamed(nodes, name) == None
  {
    if nodes != [] {
      NotNamed(nodes[1..], name);
    }
  }
}
