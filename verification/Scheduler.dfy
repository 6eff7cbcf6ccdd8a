/** The tick scheduler: cmd/scheduler. Within a tick, jobs arrive, due jobs complete, then queued jobs are
    placed highest priority first, preempting lower-priority jobs where nothing fits. */
module Scheduler {
  import opened Wrappers
  import opened Jobs
  import I = Inference
  import opened Resources
  import opened Sums
  import opened PriorityQueue

  datatype Phase = Submitting | Completing | Placing

  // `waiting` are the jobs set aside until the end of the tick; `running` maps a job to its finish tick;
  // `started` are the jobs started in this tick, kept for the proofs. Time stands at `base` in tick 0.
  datatype State = State(nodes: seq<Capacity>, jobs: map<string, Job>, queued: set<string>, waiting: set<string>,
                         running: map<string, int>, completed: set<string>, started: set<string>,
                         base: int, tick: nat, phase: Phase)

  function Initial(nodes: seq<Capacity>, base: int): State {
    State(nodes, map[], {}, {}, map[], {}, {}, base, 0, Submitting)
  }

  function Now(s: State): int {
    s.base + s.tick
  }

  // ---- what the code does ----

  function NodeNamed(nodes: seq<Capacity>, name: string): (k: Option<nat>)
    ensures k.Some? ==> k.value < |nodes| && nodes[k.value].name == name
    ensures k.None? ==> forall j | 0 <= j < |nodes| :: nodes[j].name != name
  {
    if nodes == [] then None
    else if nodes[0].name == name then Some(0)
    else match NodeNamed(nodes[1..], name) case None => None case Some(k) => Some(k + 1)
  }

  /** Gives a job's resources back to the first node of that name. */
  function ReleasedOn(nodes: seq<Capacity>, name: string, req: Requirements): (r: seq<Capacity>)
    ensures |r| == |nodes|
  {
    match NodeNamed(nodes, name)
    case None => nodes
    case Some(k) => nodes[k := nodes[k].(used := Minus(nodes[k].used, req))]
  }

  function ReservedOn(nodes: seq<Capacity>, k: nat, req: Requirements): (r: seq<Capacity>)
    requires k < |nodes|
    ensures |r| == |nodes|
  {
    nodes[k := nodes[k].(used := Plus(nodes[k].used, req))]
  }

  function Arrived(s: State, job: Job): State {
    s.(jobs := s.jobs[job.id := job.(submitTime := Now(s), state := Pending)], queued := s.queued + {job.id})
  }

  function Finished(s: State, id: string): State
    requires id in s.jobs
  {
    s.(nodes := ReleasedOn(s.nodes, s.jobs[id].node, s.jobs[id].resources),
       jobs := s.jobs[id := s.jobs[id].(state := Completed)],
       running := s.running - {id}, completed := s.completed + {id})
  }

  function SentBack(s: State, id: string): State
    requires id in s.jobs
  {
    s.(nodes := ReleasedOn(s.nodes, s.jobs[id].node, s.jobs[id].resources),
       jobs := s.jobs[id := s.jobs[id].(state := Pending, submitTime := Now(s))],
       running := s.running - {id}, queued := s.queued + {id})
  }

  /** The estimated running time, of which the source draws `jitter`. */
  function Duration(job: Job, jitter: nat): int {
    4 + job.batch.batchSize / 4 + jitter
  }

  function StartedOn(s: State, id: string, k: nat, jitter: nat): State
    requires id in s.jobs && k < |s.nodes|
  {
    s.(nodes := ReservedOn(s.nodes, k, s.jobs[id].resources),
       jobs := s.jobs[id := s.jobs[id].(state := Running, node := s.nodes[k].name, startTime := Now(s))],
       running := s.running[id := s.tick + Duration(s.jobs[id], jitter)],
       queued := s.queued - {id}, started := s.started + {id})
  }

  function SetAside(s: State, id: string): State {
    s.(queued := s.queued - {id}, waiting := s.waiting + {id})
  }

  function PlacedOrAside(s: State, id: string, jitter: nat): State
    requires id in s.jobs
  {
    match FindFit(s.nodes, s.jobs[id].resources)
    case Some(k) => StartedOn(s, id, k, jitter)
    case None => SetAside(s, id)
  }

  /** One turn of the placement loop: job `id` was popped, and `victim` is what the search for one found. */
  function Turn(s: State, id: string, victim: Option<string>, jitter: nat): State
    requires id in s.jobs && (victim.Some? ==> victim.value in s.jobs)
  {
    if FindFit(s.nodes, s.jobs[id].resources).None? && victim.Some?
    then PlacedOrAside(SentBack(s, victim.value), id, jitter)
    else PlacedOrAside(s, id, jitter)
  }

  /** The victim search over the running jobs, in any order: a lowest priority strictly below the candidate's. */
  ghost predicate IsVictim(jobs: map<string, Job>, running: set<string>, id: string, victim: Option<string>)
    requires id in jobs && running <= jobs.Keys
  {
    match victim
    case None => forall r <- running :: jobs[r].priority >= jobs[id].priority
    case Some(v) => v in running && jobs[v].priority < jobs[id].priority
                    && forall r <- running :: jobs[v].priority <= jobs[r].priority
  }

  /** A pop may answer with `id`: no queued job goes before it. */
  ghost predicate IsFirst(jobs: map<string, Job>, queued: set<string>, id: string)
    requires queued <= jobs.Keys
  {
    id in queued && forall q <- queued :: MayFollow(jobs[q], jobs[id])
  }

  // ---- the machine ----

  datatype Step =
    | Arriving(job: Job)
    | AllArrived
    | Ending(id: string)
    | AllEnded
    | Turning(id: string, victim: Option<string>, jitter: nat)
    | NextTick

  ghost predicate Enabled(s: State, step: Step) {
    match step
    case Arriving(job) =>
      s.phase == Submitting && job.id !in s.jobs && Asks(job.resources) && I.Valid(job.batch)
    case AllArrived => s.phase == Submitting
    case Ending(id) => s.phase == Completing && id in s.running && s.running[id] == s.tick && id in s.jobs
    case AllEnded => s.phase == Completing && forall id <- s.running :: s.running[id] != s.tick
    case Turning(id, victim, _) =>
      && s.phase == Placing && s.queued <= s.jobs.Keys && s.running.Keys <= s.jobs.Keys
      && IsFirst(s.jobs, s.queued, id) && IsVictim(s.jobs, s.running.Keys, id, victim)
    case NextTick => s.phase == Placing && s.queued == {}
  }

  ghost function Apply(s: State, step: Step): State
    requires Enabled(s, step)
  {
    match step
    case Arriving(job) => Arrived(s, job)
    case AllArrived => s.(phase := Completing)
    case Ending(id) => Finished(s, id)
    case AllEnded => s.(phase := Placing)
    case Turning(id, victim, jitter) => Turn(s, id, victim, jitter)
    case NextTick => s.(queued := s.waiting, waiting := {}, started := {}, tick := s.tick + 1, phase := Submitting)
  }

  ghost function Exec(s: State, steps: seq<Step>): Option<State> {
    if steps == [] then Some(s)
    else
      match Exec(s, steps[..|steps| - 1])
      case None => None
      case Some(prior) =>
        var step := steps[|steps| - 1];
        if Enabled(prior, step) then Some(Apply(prior, step)) else None
  }

  // ---- the invariant ----

  ghost predicate JobsOk(jobs: map<string, Job>) {
    forall id <- jobs :: jobs[id].id == id && Asks(jobs[id].resources) && I.Valid(jobs[id].batch)
  }

  /** Every job that arrived is in exactly one place. */
  ghost predicate InOnePlace(s: State, id: string) {
    var places := (if id in s.queued then 1 else 0) + (if id in s.waiting then 1 else 0)
                + (if id in s.running then 1 else 0) + if id in s.completed then 1 else 0;
    places == if id in s.jobs then 1 else 0
  }

  ghost predicate Placed(s: State) {
    (forall id :: InOnePlace(s, id)) && s.started <= s.running.Keys
  }

  /** No finish tick was passed over, and nothing is set aside or just started between placements. */
  ghost predicate TimesOk(s: State) {
    && (forall id <- s.running :: if s.phase == Placing then s.running[id] > s.tick else s.running[id] >= s.tick)
    && (s.phase != Placing ==> s.waiting == {} && s.started == {})
  }

  ghost predicate DistinctNames(nodes: seq<Capacity>) {
    forall i, j | 0 <= i < j < |nodes| :: nodes[i].name != nodes[j].name
  }

  /** What a job takes of a node, when it is on it. */
  ghost function Load(jobs: map<string, Job>, name: string, r: Resource): string -> int {
    (id: string) => if id in jobs && jobs[id].node == name then Amount(jobs[id].resources, r) else 0
  }

  /** Every node's usage is what the running jobs placed on it take. */
  ghost predicate Accounted(nodes: seq<Capacity>, jobs: map<string, Job>, running: set<string>) {
    forall i, r | 0 <= i < |nodes| :: Amount(nodes[i].used, r) == SetSum(running, Load(jobs, nodes[i].name, r))
  }

  /** Usage stays between nothing and the node's total (a node declared with a negative total holds nothing). */
  ghost predicate WithinTotals(nodes: seq<Capacity>) {
    forall i, r | 0 <= i < |nodes| ::
      0 <= Amount(nodes[i].used, r)
          && (Amount(nodes[i].used, r) <= Amount(nodes[i].total, r) || Amount(nodes[i].used, r) == 0)
  }

  ghost predicate Housed(nodes: seq<Capacity>, jobs: map<string, Job>, running: set<string>) {
    forall id <- running :: id in jobs && NodeNamed(nodes, jobs[id].node).Some?
  }

  ghost predicate Booked(nodes: seq<Capacity>, jobs: map<string, Job>, running: set<string>) {
    DistinctNames(nodes) && Accounted(nodes, jobs, running) && WithinTotals(nodes) && Housed(nodes, jobs, running)
  }

  /** Within a tick, nothing queued has a higher priority than anything started. */
  ghost predicate StartedFirst(s: State) {
    forall a, q | a in s.started && q in s.queued && a in s.jobs && q in s.jobs ::
      s.jobs[q].priority <= s.jobs[a].priority
  }

  ghost predicate Inv(s: State) {
    JobsOk(s.jobs) && Placed(s) && TimesOk(s) && Booked(s.nodes, s.jobs, s.running.Keys) && StartedFirst(s)
  }

  // ---- accounting ----

  lemma SameNames(nodes: seq<Capacity>, after: seq<Capacity>, name: string)
    requires |after| == |nodes| && forall i | 0 <= i < |nodes| :: after[i].name == nodes[i].name
    ensures NodeNamed(after, name) == NodeNamed(nodes, name)
    decreases |nodes|
  {
    if nodes != [] {
      SameNames(nodes[1..], after[1..], name);
    }
  }

  lemma JoinAccounts(nodes: seq<Capacity>, jobs: map<string, Job>, running: set<string>, id: string, job: Job, k: nat)
    requires DistinctNames(nodes) && Accounted(nodes, jobs, running)
    requires id !in running && k < |nodes| && job.node == nodes[k].name
    ensures Accounted(ReservedOn(nodes, k, job.resources), jobs[id := job], running + {id})
  {
    var after := ReservedOn(nodes, k, job.resources);
    forall i, r | 0 <= i < |nodes|
      ensures Amount(after[i].used, r) == SetSum(running + {id}, Load(jobs[id := job], nodes[i].name, r))
    {
      var load, next := Load(jobs, nodes[i].name, r), Load(jobs[id := job], nodes[i].name, r);
      SetSumInsert(running, id, next);
      SetSumAgree(running, load, next);
      assert Amount(nodes[i].used, r) == SetSum(running, load);
      assert i != k ==> nodes[i].name != nodes[k].name;
    }
  }

  lemma LeaveAccounts(nodes: seq<Capacity>, jobs: map<string, Job>, running: set<string>, id: string, job: Job)
    requires DistinctNames(nodes) && Accounted(nodes, jobs, running)
    requires id in running && id in jobs && NodeNamed(nodes, jobs[id].node).Some?
    ensures Accounted(ReleasedOn(nodes, jobs[id].node, jobs[id].resources), jobs[id := job], running - {id})
  {
    var k := NodeNamed(nodes, jobs[id].node).value;
    var after := ReleasedOn(nodes, jobs[id].node, jobs[id].resources);
    forall i, r | 0 <= i < |nodes|
      ensures Amount(after[i].used, r) == SetSum(running - {id}, Load(jobs[id := job], nodes[i].name, r))
    {
      var load, next := Load(jobs, nodes[i].name, r), Load(jobs[id := job], nodes[i].name, r);
      SetSumRemove(running, id, load);
      SetSumAgree(running - {id}, load, next);
      assert Amount(nodes[i].used, r) == SetSum(running, load);
      assert i != k ==> nodes[i].name != nodes[k].name;
    }
  }

  lemma KeepAccounts(nodes: seq<Capacity>, jobs: map<string, Job>, running: set<string>, id: string, job: Job)
    requires Accounted(nodes, jobs, running) && id !in running
    ensures Accounted(nodes, jobs[id := job], running)
  {
    forall i, r | 0 <= i < |nodes|
      ensures Amount(nodes[i].used, r) == SetSum(running, Load(jobs[id := job], nodes[i].name, r))
    {
      assert Amount(nodes[i].used, r) == SetSum(running, Load(jobs, nodes[i].name, r));
      SetSumAgree(running, Load(jobs, nodes[i].name, r), Load(jobs[id := job], nodes[i].name, r));
    }
  }

  lemma {:induction false} SumOfNonNegatives(ids: set<string>, load: string -> int)
    requires forall id <- ids :: load(id) >= 0
    ensures SetSum(ids, load) >= 0
    decreases ids
  {
    if ids != {} {
      var id :| id in ids;
      SetSumRemove(ids, id, load);
      SumOfNonNegatives(ids - {id}, load);
    }
  }

  lemma LeaveKeepsBooked(nodes: seq<Capacity>, jobs: map<string, Job>, running: set<string>, id: string, job: Job)
    requires Booked(nodes, jobs, running) && JobsOk(jobs) && id in running
    ensures Booked(ReleasedOn(nodes, jobs[id].node, jobs[id].resources), jobs[id := job], running - {id})
  {
    LeaveAccounts(nodes, jobs, running, id, job);
    var after := ReleasedOn(nodes, jobs[id].node, jobs[id].resources);
    forall i, r | 0 <= i < |nodes|
      ensures 0 <= Amount(after[i].used, r)
      ensures Amount(after[i].used, r) <= Amount(after[i].total, r) || Amount(after[i].used, r) == 0
    {
      var next := Load(jobs[id := job], nodes[i].name, r);
      SumOfNonNegatives(running - {id}, next);
      assert Amount(after[i].used, r) == SetSum(running - {id}, next);
      assert Amount(after[i].used, r) <= Amount(nodes[i].used, r);
    }
    forall other <- running - {id} ensures NodeNamed(after, jobs[other].node).Some? {
      SameNames(nodes, after, jobs[other].node);
    }
  }

  lemma JoinKeepsBooked(nodes: seq<Capacity>, jobs: map<string, Job>, running: set<string>, id: string, job: Job,
      k: nat)
    requires Booked(nodes, jobs, running) && id !in running && k < |nodes| && job.node == nodes[k].name
    requires Asks(job.resources) && Fits(nodes[k], job.resources)
    ensures Booked(ReservedOn(nodes, k, job.resources), jobs[id := job], running + {id})
  {
    JoinAccounts(nodes, jobs, running, id, job, k);
    var after := ReservedOn(nodes, k, job.resources);
    forall i, r | 0 <= i < |nodes|
      ensures 0 <= Amount(after[i].used, r)
      ensures Amount(after[i].used, r) <= Amount(after[i].total, r) || Amount(after[i].used, r) == 0
    {
      assert 0 <= Amount(nodes[i].used, r);
    }
    forall other <- running + {id} ensures NodeNamed(after, jobs[id := job][other].node).Some? {
      SameNames(nodes, after, jobs[id := job][other].node);
    }
  }

  lemma OtherKeepsBooked(nodes: seq<Capacity>, jobs: map<string, Job>, running: set<string>, id: string, job: Job)
    requires Booked(nodes, jobs, running) && id !in running
    ensures Booked(nodes, jobs[id := job], running)
  {
    KeepAccounts(nodes, jobs, running, id, job);
  }

  // ---- each part of a step keeps the invariant ----

  lemma ArrivedKeepsInv(s: State, job: Job)
    requires Inv(s) && Enabled(s, Arriving(job))
    ensures Inv(Arrived(s, job))
  {
    var t := Arrived(s, job);
    OtherKeepsBooked(s.nodes, s.jobs, s.running.Keys, job.id, t.jobs[job.id]);
    forall id ensures InOnePlace(t, id) {
      assert InOnePlace(s, id);
    }
  }

  lemma FinishedKeepsInv(s: State, id: string)
    requires Inv(s) && id in s.running && s.phase != Placing
    ensures Inv(Finished(s, id))
  {
    assert InOnePlace(s, id);
    var t := Finished(s, id);
    LeaveKeepsBooked(s.nodes, s.jobs, s.running.Keys, id, t.jobs[id]);
    assert t.running.Keys == s.running.Keys - {id};
    forall other ensures InOnePlace(t, other) {
      assert InOnePlace(s, other);
    }
  }

  /** A running job that no started job equals goes back to the queue, below everything started. */
  lemma PreemptedKeepsInv(s: State, id: string)
    requires Inv(s) && id in s.running && id !in s.started
    requires forall a <- s.started :: a in s.jobs && id in s.jobs && s.jobs[id].priority <= s.jobs[a].priority
    ensures Inv(SentBack(s, id))
  {
    assert InOnePlace(s, id);
    var t := SentBack(s, id);
    LeaveKeepsBooked(s.nodes, s.jobs, s.running.Keys, id, t.jobs[id]);
    assert t.running.Keys == s.running.Keys - {id};
    forall other ensures InOnePlace(t, other) {
      assert InOnePlace(s, other);
    }
  }

  lemma StartedKeepsInv(s: State, id: string, k: nat, jitter: nat)
    requires Inv(s) && s.phase == Placing && id in s.queued && id in s.jobs
    requires k < |s.nodes| && Fits(s.nodes[k], s.jobs[id].resources)
    requires forall q <- s.queued :: q in s.jobs && s.jobs[q].priority <= s.jobs[id].priority
    ensures Inv(StartedOn(s, id, k, jitter))
  {
    assert InOnePlace(s, id);
    var t := StartedOn(s, id, k, jitter);
    JoinKeepsBooked(s.nodes, s.jobs, s.running.Keys, id, t.jobs[id], k);
    assert t.running.Keys == s.running.Keys + {id};
    forall other ensures InOnePlace(t, other) {
      assert InOnePlace(s, other);
    }
  }

  lemma SetAsideKeepsInv(s: State, id: string)
    requires Inv(s) && s.phase == Placing && id in s.queued
    ensures Inv(SetAside(s, id))
  {
    var t := SetAside(s, id);
    forall other ensures InOnePlace(t, other) {
      assert InOnePlace(s, other);
    }
  }

  lemma NextTickKeepsInv(s: State)
    requires Inv(s) && Enabled(s, NextTick)
    ensures Inv(Apply(s, NextTick))
  {
    var t := Apply(s, NextTick);
    forall other ensures InOnePlace(t, other) {
      assert InOnePlace(s, other);
    }
  }
}
