/** What the tick scheduler promises over whole runs: exact accounting, one place for every job, no finish
    tick passed over, and a placement loop that ends and touches each job at most once. */
module SchedulerRuns {
  import opened Wrappers
  import opened Jobs
  import I = Inference
  import opened Resources
  import opened Sums
  import opened PriorityQueue
  import opened Scheduler

  // ---- every step keeps the invariant ----

  /** The victim is not a job started in this tick, and what it frees leaves the candidate first. */
  lemma VictimIsNotStarted(s: State, id: string, victim: string)
    requires Inv(s) && Enabled(s, Turning(id, Some(victim), 0))
    ensures victim in s.running && victim !in s.started && victim != id && victim in s.jobs && id in s.jobs
    ensures Inv(SentBack(s, victim))
    ensures forall q <- SentBack(s, victim).queued :: q in s.jobs && s.jobs[q].priority <= s.jobs[id].priority
    ensures NoneAbove(SentBack(s, victim), id)
  {
    assert InOnePlace(s, id) && InOnePlace(s, victim);
    PreemptedKeepsInv(s, victim);
  }

  lemma PlacedOrAsideKeepsInv(s: State, id: string, jitter: nat)
    requires Inv(s) && s.phase == Placing && id in s.queued && id in s.jobs
    requires forall q <- s.queued :: q in s.jobs && s.jobs[q].priority <= s.jobs[id].priority
    ensures Inv(PlacedOrAside(s, id, jitter))
  {
    match FindFit(s.nodes, s.jobs[id].resources)
    case Some(k) => StartedKeepsInv(s, id, k, jitter);
    case None => SetAsideKeepsInv(s, id);
  }

  lemma TurnKeepsInv(s: State, id: string, victim: Option<string>, jitter: nat)
    requires Inv(s) && Enabled(s, Turning(id, victim, jitter))
    ensures Inv(Turn(s, id, victim, jitter))
  {
    if FindFit(s.nodes, s.jobs[id].resources).None? && victim.Some? {
      VictimIsNotStarted(s, id, victim.value);
      PlacedOrAsideKeepsInv(SentBack(s, victim.value), id, jitter);
    } else {
      PlacedOrAsideKeepsInv(s, id, jitter);
    }
  }

  lemma StepKeepsInv(s: State, step: Step)
    requires Inv(s) && Enabled(s, step)
    ensures Inv(Apply(s, step))
  {
    match step
    case Arriving(job) => ArrivedKeepsInv(s, job);
    case AllArrived => PhaseKeepsInv(s, Completing);
    case Ending(id) => FinishedKeepsInv(s, id);
    case AllEnded => PhaseKeepsInv(s, Placing);
    case Turning(id, victim, jitter) => TurnKeepsInv(s, id, victim, jitter);
    case NextTick => NextTickKeepsInv(s);
  }

  lemma PhaseKeepsInv(s: State, phase: Phase)
    requires Inv(s) && s.phase != Placing
    requires phase == Placing ==> forall id <- s.running :: s.running[id] != s.tick
    ensures Inv(s.(phase := phase))
  {
    forall id ensures InOnePlace(s.(phase := phase), id) {
      assert InOnePlace(s, id);
    }
  }

  ghost predicate EmptyCluster(nodes: seq<Capacity>) {
    DistinctNames(nodes) && forall i | 0 <= i < |nodes| :: nodes[i].used == Requirements(0, 0, 0)
  }

  lemma RunKeepsInv(nodes: seq<Capacity>, base: int, steps: seq<Step>)
    requires EmptyCluster(nodes) && Exec(Initial(nodes, base), steps).Some?
    ensures Inv(Exec(Initial(nodes, base), steps).value)
  {
    InitialInv(nodes, base);
    StepsKeepInv(Initial(nodes, base), steps);
  }

  lemma InitialInv(nodes: seq<Capacity>, base: int)
    requires EmptyCluster(nodes)
    ensures Inv(Initial(nodes, base))
  {
    var s := Initial(nodes, base);
    forall i, r | 0 <= i < |nodes| ensures Amount(nodes[i].used, r) == 0 {
    }
  }

  // ---- cluster accounting ----

  /** In every reachable state each node's usage of each resource is exactly what the running jobs on it ask
      for, within its total; an idle cluster uses nothing; and no running job's finish tick has passed. */
  lemma ClusterIsAccounted(nodes: seq<Capacity>, base: int, steps: seq<Step>)
    requires EmptyCluster(nodes) && Exec(Initial(nodes, base), steps).Some?
    ensures var s := Exec(Initial(nodes, base), steps).value;
            && Accounted(s.nodes, s.jobs, s.running.Keys) && WithinTotals(s.nodes)
            && (s.running == map[] ==> EmptyCluster(s.nodes))
            && (forall id <- s.running :: s.running[id] >= s.tick)
  {
    RunKeepsInv(nodes, base, steps);
    var s := Exec(Initial(nodes, base), steps).value;
    if s.running == map[] {
      IdleUsesNothing(s);
    }
  }

  lemma IdleUsesNothing(s: State)
    requires Accounted(s.nodes, s.jobs, {}) && DistinctNames(s.nodes)
    ensures EmptyCluster(s.nodes)
  {
    forall i | 0 <= i < |s.nodes| ensures s.nodes[i].used == Requirements(0, 0, 0) {
      assert Amount(s.nodes[i].used, CPU) == 0 && Amount(s.nodes[i].used, Memory) == 0
             && Amount(s.nodes[i].used, GPU) == 0;
    }
  }

  /** The places are disjoint and together hold exactly the jobs that arrived. */
  lemma PlacesAsSets(s: State)
    requires Placed(s)
    ensures s.queued !! s.waiting && s.queued !! s.running.Keys && s.queued !! s.completed
    ensures s.waiting !! s.running.Keys && s.waiting !! s.completed && s.running.Keys !! s.completed
    ensures s.jobs.Keys == s.queued + s.waiting + s.running.Keys + s.completed
  {
    forall id
      ensures id in s.jobs <==> id in s.queued || id in s.waiting || id in s.running || id in s.completed
      ensures id in s.queued ==> id !in s.waiting && id !in s.running && id !in s.completed
      ensures id in s.waiting ==> id !in s.running && id !in s.completed
      ensures id in s.running ==> id !in s.completed
    {
      assert InOnePlace(s, id);
    }
  }

  lemma FourParts(all: set<string>, a: set<string>, b: set<string>, c: set<string>, d: set<string>)
    requires a !! b && (a + b) !! c && (a + b + c) !! d && all == a + b + c + d
    ensures |all| == |a| + |b| + |c| + |d|
  {
  }

  /** Every job that arrived is in exactly one of queue (or set aside for it), running and completed. */
  lemma JobsAreConserved(nodes: seq<Capacity>, base: int, steps: seq<Step>)
    requires EmptyCluster(nodes) && Exec(Initial(nodes, base), steps).Some?
    ensures var s := Exec(Initial(nodes, base), steps).value;
            && s.jobs.Keys == s.queued + s.waiting + s.running.Keys + s.completed
            && |s.jobs.Keys| == |s.queued| + |s.waiting| + |s.running.Keys| + |s.completed|
            && (s.phase != Placing ==> s.waiting == {})
  {
    RunKeepsInv(nodes, base, steps);
    var s := Exec(Initial(nodes, base), steps).value;
    PlacesAsSets(s);
    FourParts(s.jobs.Keys, s.queued, s.waiting, s.running.Keys, s.completed);
  }

  // ---- the placement loop ----

  /** Jobs the loop may still pop: those queued, and those it may yet preempt. */
  ghost function Outstanding(s: State): nat {
    |s.queued| + |s.running.Keys - s.started|
  }

  lemma PlacedOrAsideTouchesOne(s: State, id: string, jitter: nat)
    requires Inv(s) && id in s.queued && id in s.jobs
    ensures var t := PlacedOrAside(s, id, jitter);
            && t.queued == s.queued - {id} && t.started + t.waiting == s.started + s.waiting + {id}
            && t.running.Keys - t.started == s.running.Keys - s.started
            && s.started <= t.started && t.jobs.Keys == s.jobs.Keys
            && (forall x <- s.jobs ::
                  t.jobs[x].priority == s.jobs[x].priority && t.jobs[x].submitTime == s.jobs[x].submitTime)
  {
    assert InOnePlace(s, id);
  }

  /** Sending a victim back moves it from what may be preempted to what is queued. */
  lemma SentBackKeepsOutstanding(s: State, victim: string)
    requires victim in s.jobs && victim in s.running && victim !in s.started && victim !in s.queued
    ensures Outstanding(SentBack(s, victim)) == Outstanding(s)
    ensures var t := SentBack(s, victim);
            && t.started == s.started && t.waiting == s.waiting && t.jobs.Keys == s.jobs.Keys
            && (forall x <- s.jobs :: t.jobs[x].priority == s.jobs[x].priority)
            && (forall x <- s.jobs :: x != victim ==> t.jobs[x] == s.jobs[x])
  {
    var t := SentBack(s, victim);
    assert t.running.Keys - t.started == (s.running.Keys - s.started) - {victim};
  }

  /** Every queued job may come out behind this one. */
  ghost predicate NoneAbove(s: State, id: string) {
    id in s.jobs && forall q <- s.queued :: q in s.jobs && MayFollow(s.jobs[q], s.jobs[id])
  }

  /** What one turn does to the job it popped and, if it preempted one, to its victim. */
  ghost predicate Touches(s: State, t: State, id: string) {
    && t.started + t.waiting == s.started + s.waiting + {id}
    && s.started <= t.started && t.jobs.Keys == s.jobs.Keys
    && (forall x <- s.jobs :: t.jobs[x].priority == s.jobs[x].priority)
    && (forall x <- s.jobs :: x in s.started + s.waiting + {id} ==> t.jobs[x].submitTime == s.jobs[x].submitTime)
  }

  lemma PlacedOrAsideTouches(s: State, id: string, jitter: nat)
    requires Inv(s) && id in s.queued && NoneAbove(s, id)
    ensures var t := PlacedOrAside(s, id, jitter);
            Touches(s, t, id) && NoneAbove(t, id) && Outstanding(t) == Outstanding(s) - 1
  {
    PlacedOrAsideTouchesOne(s, id, jitter);
  }

  lemma TouchesAfterSentBack(s: State, between: State, t: State, id: string)
    requires Touches(between, t, id) && between.started == s.started && between.waiting == s.waiting
             && between.jobs.Keys == s.jobs.Keys
    requires forall x <- s.jobs :: between.jobs[x].priority == s.jobs[x].priority
    requires forall x <- s.jobs :: x in s.started + s.waiting + {id} ==> between.jobs[x] == s.jobs[x]
    ensures Touches(s, t, id)
  {
  }

  lemma PreemptingTouches(s: State, id: string, victim: string, jitter: nat)
    requires Inv(s) && Enabled(s, Turning(id, Some(victim), jitter)) && victim in s.jobs
    ensures var t := PlacedOrAside(SentBack(s, victim), id, jitter);
            Touches(s, t, id) && NoneAbove(t, id) && Outstanding(t) == Outstanding(s) - 1
  {
    assert InOnePlace(s, id) && InOnePlace(s, victim);
    VictimIsNotStarted(s, id, victim);
    SentBackKeepsOutstanding(s, victim);
    var between := SentBack(s, victim);
    PlacedOrAsideTouches(between, id, jitter);
    TouchedAreNotRunning(s, victim, id);
    TouchesAfterSentBack(s, between, PlacedOrAside(between, id, jitter), id);
  }

  lemma TouchedAreNotRunning(s: State, victim: string, id: string)
    requires Placed(s) && victim in s.running && victim !in s.started && id in s.queued
    ensures victim !in s.started + s.waiting + {id}
  {
    assert InOnePlace(s, victim);
  }

  /** One turn takes its job out of the loop for good, whether or not it put a victim back in. */
  lemma TurnTouchesOne(s: State, id: string, victim: Option<string>, jitter: nat)
    requires Inv(s) && Enabled(s, Turning(id, victim, jitter))
    ensures var t := Turn(s, id, victim, jitter);
            Touches(s, t, id) && NoneAbove(t, id) && Outstanding(t) == Outstanding(s) - 1
  {
    if FindFit(s.nodes, s.jobs[id].resources).None? && victim.Some? {
      PreemptingTouches(s, id, victim.value, jitter);
    } else {
      PlacedOrAsideTouches(s, id, jitter);
    }
  }

  predicate OnlyTurns(steps: seq<Step>) {
    forall i | 0 <= i < |steps| :: steps[i].Turning?
  }

  /** What one placement loop has done so far to the jobs it popped, in order. */
  ghost predicate TouchedOnce(popped: seq<string>, s: State) {
    && (forall i | 0 <= i < |popped| :: popped[i] in s.started + s.waiting && NoneAbove(s, popped[i]))
    && (forall i, j | 0 <= i < j < |popped| :: popped[i] != popped[j])
    && (forall i, j | 0 <= i < j < |popped| && popped[i] in s.jobs && popped[j] in s.jobs ::
          MayFollow(s.jobs[popped[j]], s.jobs[popped[i]]))
  }

  function Popped(steps: seq<Step>): seq<string> {
    if steps == [] then []
    else Popped(steps[..|steps| - 1]) + if steps[|steps| - 1].Turning? then [steps[|steps| - 1].id] else []
  }

  lemma TurnKeepsTouched(popped: seq<string>, id: string, s: State, t: State)
    requires TouchedOnce(popped, s) && id in s.queued && id in s.jobs && id !in s.started + s.waiting
    requires Touches(s, t, id) && NoneAbove(t, id)
    ensures TouchedOnce(popped + [id], t)
  {
    forall i | 0 <= i < |popped|
      ensures popped[i] != id && NoneAbove(t, popped[i]) && MayFollow(t.jobs[id], t.jobs[popped[i]])
    {
      assert NoneAbove(s, popped[i]);
    }
  }

  lemma TurnIsFresh(s: State, id: string)
    requires Inv(s) && id in s.queued
    ensures id in s.jobs && id !in s.started + s.waiting
  {
    assert InOnePlace(s, id);
  }

  lemma TurnKeepsAll(popped: seq<string>, s: State, step: Step)
    requires Inv(s) && step.Turning? && Enabled(s, step) && TouchedOnce(popped, s)
    ensures var t := Apply(s, step);
            Inv(t) && TouchedOnce(popped + [step.id], t) && Outstanding(t) == Outstanding(s) - 1
  {
    TurnKeepsInv(s, step.id, step.victim, step.jitter);
    TurnTouchesOne(s, step.id, step.victim, step.jitter);
    TurnIsFresh(s, step.id);
    TurnKeepsTouched(popped, step.id, s, Turn(s, step.id, step.victim, step.jitter));
  }

  lemma OutstandingAtStart(s: State)
    requires s.started == {}
    ensures Outstanding(s) == |s.queued| + |s.running.Keys|
  {
    assert s.running.Keys - s.started == s.running.Keys;
  }

  lemma ExecMore(start: State, steps: seq<Step>, s: State, step: Step)
    requires Exec(start, steps) == Some(s) && Enabled(s, step)
    ensures Exec(start, steps + [step]) == Some(Apply(s, step))
    ensures OnlyTurns(steps) && step.Turning? ==> OnlyTurns(steps + [step])
  {
    assert (steps + [step])[..|steps|] == steps;
  }

  lemma PoppedMore(steps: seq<Step>, step: Step)
    ensures Popped(steps + [step]) == Popped(steps) + if step.Turning? then [step.id] else []
  {
    assert (steps + [step])[..|steps|] == steps;
  }

  lemma {:induction false} ExecAppend(s: State, first: seq<Step>, t: State, second: seq<Step>)
    requires Exec(s, first) == Some(t)
    ensures Exec(s, first + second) == Exec(t, second)
  {
    if second == [] {
      assert first + second == first;
    } else {
      ExecAppend(s, first, t, second[..|second| - 1]);
      assert (first + second)[..|first + second| - 1] == first + second[..|second| - 1];
    }
  }

  lemma {:induction false} StepsKeepInv(s: State, steps: seq<Step>)
    requires Inv(s) && Exec(s, steps).Some?
    ensures Inv(Exec(s, steps).value)
  {
    if steps != [] {
      StepsKeepInv(s, steps[..|steps| - 1]);
      StepKeepsInv(Exec(s, steps[..|steps| - 1]).value, steps[|steps| - 1]);
    }
  }

  /** Within one tick's placement loop: no job is popped twice, jobs are popped by priority and then by submission
      time, what was started stays running, and the turns made and those still possible are no more than the jobs
      that were queued or running, although preemption refills the queue being drained. */
  lemma {:induction false} PlacementTouchesOnce(s: State, turns: seq<Step>)
    requires Inv(s) && s.started == {} && s.waiting == {} && OnlyTurns(turns) && Exec(s, turns).Some?
    ensures var t := Exec(s, turns).value;
            && TouchedOnce(Popped(turns), t) && t.started <= t.running.Keys
            && |Popped(turns)| + Outstanding(t) == |s.queued| + |s.running.Keys|
  {
    StepsKeepInv(s, turns);
    if turns == [] {
      OutstandingAtStart(s);
    } else {
      var before, step := turns[..|turns| - 1], turns[|turns| - 1];
      PlacementTouchesOnce(s, before);
      StepsKeepInv(s, before);
      TurnKeepsAll(Popped(before), Exec(s, before).value, step);
    }
  }

  lemma {:induction false} FirstExists(jobs: map<string, Job>, queued: set<string>) returns (id: string)
    requires queued != {} && queued <= jobs.Keys
    ensures IsFirst(jobs, queued, id)
    decreases queued
  {
    id :| id in queued;
    if queued != {id} {
      var best := FirstExists(jobs, queued - {id});
      id := if Before(jobs[id], jobs[best]) then id else best;
    }
  }

  lemma {:induction false} VictimExists(jobs: map<string, Job>, running: set<string>, id: string)
    returns (victim: Option<string>)
    requires id in jobs && running <= jobs.Keys
    ensures IsVictim(jobs, running, id, victim)
    decreases running
  {
    if running == {} {
      return None;
    }
    var r :| r in running;
    victim := VictimExists(jobs, running - {r}, id);
    if jobs[r].priority < jobs[id].priority && (victim.None? || jobs[r].priority < jobs[victim.value].priority) {
      victim := Some(r);
    }
  }

  /** The loop never stalls: while a job is queued some turn is possible, and by the bound above it ends. */
  lemma PlacementGoesOn(s: State)
    requires Inv(s) && s.phase == Placing && s.queued != {}
    ensures exists id, victim :: Enabled(s, Turning(id, victim, 0))
  {
    PlacesAsSets(s);
    var id := FirstExists(s.jobs, s.queued);
    var victim := VictimExists(s.jobs, s.running.Keys, id);
    assert Enabled(s, Turning(id, victim, 0));
  }

  // ---- preemption may be in vain ----

  lemma FreedNodeDecides(nodes: seq<Capacity>, name: string, freed: Requirements, req: Requirements)
    requires FindFit(nodes, req).None? && NodeNamed(nodes, name).Some?
    ensures FindFit(ReleasedOn(nodes, name, freed), req).Some? <==>
            HasRoomWithout(nodes[NodeNamed(nodes, name).value], freed, req)
  {
    var k := NodeNamed(nodes, name).value;
    var after := ReleasedOn(nodes, name, freed);
    assert forall j | 0 <= j < |after| && j != k :: after[j] == nodes[j];
    assert Fits(after[k], req) <==> HasRoomWithout(nodes[k], freed, req);
  }

  /** The check a caller could make before preempting: what is free on the node and what the victim holds
      there cover the request, for each resource. */
  predicate HasRoomWithout(node: Capacity, freed: Requirements, req: Requirements) {
    && node.total.cpuCores - node.used.cpuCores + freed.cpuCores >= req.cpuCores
    && node.total.memoryMB - node.used.memoryMB + freed.memoryMB >= req.memoryMB
    && node.total.gpus - node.used.gpus + freed.gpus >= req.gpus
  }

  lemma FitDecides(s: State, id: string, jitter: nat)
    requires id in s.jobs && id !in s.running && id !in s.waiting
    ensures id in PlacedOrAside(s, id, jitter).running <==> FindFit(s.nodes, s.jobs[id].resources).Some?
    ensures id in PlacedOrAside(s, id, jitter).waiting <==> FindFit(s.nodes, s.jobs[id].resources).None?
  {
  }

  /** The victim search looks at priorities only. A preemption lets the candidate start exactly when what is
      free on the victim's own node and what the victim holds there cover the candidate's request. */
  lemma PreemptionHelpsIff(s: State, id: string, victim: string, jitter: nat)
    requires Inv(s) && Enabled(s, Turning(id, Some(victim), jitter))
    requires FindFit(s.nodes, s.jobs[id].resources).None?
    ensures victim in s.jobs && NodeNamed(s.nodes, s.jobs[victim].node).Some?
    ensures var node := s.nodes[NodeNamed(s.nodes, s.jobs[victim].node).value];
            var room := HasRoomWithout(node, s.jobs[victim].resources, s.jobs[id].resources);
            && (id in Turn(s, id, Some(victim), jitter).running <==> room)
            && (id in Turn(s, id, Some(victim), jitter).waiting <==> !room)
  {
    VictimIsNotStarted(s, id, victim);
    assert InOnePlace(s, id);
    FreedNodeDecides(s.nodes, s.jobs[victim].node, s.jobs[victim].resources, s.jobs[id].resources);
    FitDecides(SentBack(s, victim), id, jitter);
  }

  // ---- a run in which preemption is in vain although another victim would have helped ----

  // Three jobs and two nodes, by name.
  datatype Names = Names(low: string, middle: string, high: string, small: string, big: string)

  predicate Differ(n: Names) {
    n.low != n.middle && n.low != n.high && n.middle != n.high && n.small != n.big
  }

  function Small(n: Names): Capacity {
    Capacity(n.small, Requirements(1, 0, 0), Requirements(0, 0, 0))
  }

  function Big(n: Names): Capacity {
    Capacity(n.big, Requirements(4, 0, 0), Requirements(0, 0, 0))
  }

  function Low(n: Names, batch: I.Batch): Job {
    Job(n.low, 1, Requirements(1, 0, 0), batch, 0, 0, "", Pending, 0, 0, "")
  }

  function Middle(n: Names, batch: I.Batch): Job {
    Job(n.middle, 2, Requirements(4, 0, 0), batch, 0, 0, "", Pending, 0, 0, "")
  }

  function High(n: Names, batch: I.Batch): Job {
    Job(n.high, 3, Requirements(4, 0, 0), batch, 0, 0, "", Pending, 0, 0, "")
  }

  // What the run does: the steps before the preemption, and the preemption.
  function Arrivals(n: Names, batch: I.Batch): seq<Step> {
    [Arriving(Low(n, batch)), Arriving(Middle(n, batch)), AllArrived, AllEnded]
  }

  function Placements(n: Names, batch: I.Batch): seq<Step> {
    Arrivals(n, batch) + [Turning(n.middle, None, 0)] + [Turning(n.low, None, 0)]
  }

  function UpToPreemption(n: Names, batch: I.Batch): seq<Step> {
    Placements(n, batch) + [NextTick] + [Arriving(High(n, batch))] + [AllArrived] + [AllEnded]
  }

  // Both jobs wait for their placement.
  function BothQueued(n: Names, batch: I.Batch): State {
    State([Small(n), Big(n)], map[n.low := Low(n, batch), n.middle := Middle(n, batch)], {n.low, n.middle}, {},
          map[], {}, {}, 0, 0, Placing)
  }

  // The middle job has the big node; the low job waits for its placement.
  function MiddleRunning(n: Names, batch: I.Batch): State {
    var s := BothQueued(n, batch);
    s.(nodes := [Small(n), Big(n).(used := Requirements(4, 0, 0))],
       jobs := s.jobs[n.middle := Middle(n, batch).(state := Running, node := n.big)],
       running := s.running[n.middle := Duration(Middle(n, batch), 0)], queued := {n.low}, started := {n.middle})
  }

  // Both nodes are full.
  function BothRunning(n: Names, batch: I.Batch): State {
    var s := MiddleRunning(n, batch);
    s.(nodes := [Small(n).(used := Requirements(1, 0, 0)), Big(n).(used := Requirements(4, 0, 0))],
       jobs := s.jobs[n.low := Low(n, batch).(state := Running, node := n.small)],
       running := s.running[n.low := Duration(Low(n, batch), 0)], queued := {}, started := {n.low, n.middle})
  }

  // One tick later the high job is queued.
  function HighQueued(n: Names, batch: I.Batch): State {
    var s := BothRunning(n, batch);
    s.(jobs := s.jobs[n.high := High(n, batch).(submitTime := 1)], queued := {n.high}, started := {}, tick := 1)
  }

  lemma BothQueuedRuns(n: Names, batch: I.Batch)
    requires Differ(n) && I.Valid(batch)
    ensures Exec(Initial([Small(n), Big(n)], 0), Arrivals(n, batch)) == Some(BothQueued(n, batch))
  {
    var s0 := Initial([Small(n), Big(n)], 0);
    var s1 := Apply(s0, Arriving(Low(n, batch)));
    var s2 := Apply(s1, Arriving(Middle(n, batch)));
    ExecMore(s0, [], s0, Arriving(Low(n, batch)));
    ExecMore(s0, [] + [Arriving(Low(n, batch))], s1, Arriving(Middle(n, batch)));
    ExecMore(s0, [] + [Arriving(Low(n, batch))] + [Arriving(Middle(n, batch))], s2, AllArrived);
    var s3 := Apply(s2, AllArrived);
    ExecMore(s0, [] + [Arriving(Low(n, batch))] + [Arriving(Middle(n, batch))] + [AllArrived], s3, AllEnded);
    assert [] + [Arriving(Low(n, batch))] + [Arriving(Middle(n, batch))] + [AllArrived] + [AllEnded] ==
           Arrivals(n, batch);
    assert s2.queued == {n.low, n.middle};
  }

  lemma BothRunningRuns(n: Names, batch: I.Batch)
    requires Differ(n) && I.Valid(batch)
    ensures Exec(Initial([Small(n), Big(n)], 0), Placements(n, batch)) == Some(BothRunning(n, batch))
  {
    BothQueuedRuns(n, batch);
    MiddleStarts(n, batch);
    LowStarts(n, batch);
    var s0, s1 := Initial([Small(n), Big(n)], 0), BothQueued(n, batch);
    ExecMore(s0, Arrivals(n, batch), s1, Turning(n.middle, None, 0));
    ExecMore(s0, Arrivals(n, batch) + [Turning(n.middle, None, 0)], MiddleRunning(n, batch), Turning(n.low, None, 0));
  }

  lemma OnlyFit(nodes: seq<Capacity>, req: Requirements, k: nat)
    requires k < |nodes| && forall j | 0 <= j < |nodes| :: Fits(nodes[j], req) <==> j == k
    ensures FindFit(nodes, req) == Some(k)
  {
    assert Fits(nodes[k], req);
  }

  lemma MiddleStarts(n: Names, batch: I.Batch)
    requires Differ(n)
    ensures Enabled(BothQueued(n, batch), Turning(n.middle, None, 0))
    ensures Turn(BothQueued(n, batch), n.middle, None, 0) == MiddleRunning(n, batch)
  {
    var s, t := BothQueued(n, batch), MiddleRunning(n, batch);
    OnlyFit(s.nodes, Middle(n, batch).resources, 1);
    assert s.queued - {n.middle} == t.queued && s.started + {n.middle} == t.started;
    assert StartedOn(s, n.middle, 1, 0) == t;
  }

  lemma LowStarts(n: Names, batch: I.Batch)
    requires Differ(n)
    ensures Enabled(MiddleRunning(n, batch), Turning(n.low, None, 0))
    ensures Turn(MiddleRunning(n, batch), n.low, None, 0) == BothRunning(n, batch)
  {
    var s, t := MiddleRunning(n, batch), BothRunning(n, batch);
    OnlyFit(s.nodes, Low(n, batch).resources, 0);
    assert s.queued - {n.low} == t.queued && s.started + {n.low} == t.started;
    assert StartedOn(s, n.low, 0, 0) == t;
  }

  lemma HighQueuedRuns(n: Names, batch: I.Batch)
    requires Differ(n) && I.Valid(batch)
    ensures Exec(Initial([Small(n), Big(n)], 0), UpToPreemption(n, batch)) == Some(HighQueued(n, batch))
  {
    BothRunningRuns(n, batch);
    var s0, s1, steps := Initial([Small(n), Big(n)], 0), BothRunning(n, batch), Placements(n, batch);
    ExecMore(s0, steps, s1, NextTick);
    var s2 := Apply(s1, NextTick);
    ExecMore(s0, steps + [NextTick], s2, Arriving(High(n, batch)));
    var s3 := Apply(s2, Arriving(High(n, batch)));
    ExecMore(s0, steps + [NextTick] + [Arriving(High(n, batch))], s3, AllArrived);
    var s4 := Apply(s3, AllArrived);
    ExecMore(s0, steps + [NextTick] + [Arriving(High(n, batch))] + [AllArrived], s4, AllEnded);
    assert s3.queued == {n.high};
  }

  /** Preemption can be in vain: at the end of this run the low job is preempted for the high one, which still
      does not fit and waits, although the middle job, also of lower priority, held enough for it. */
  lemma PreemptionMayBeInVain(n: Names, batch: I.Batch)
    requires Differ(n) && I.Valid(batch)
    ensures Exec(Initial([Small(n), Big(n)], 0), UpToPreemption(n, batch)) == Some(HighQueued(n, batch))
    ensures var s := HighQueued(n, batch); var t := Turn(s, n.high, Some(n.low), 0);
            && Enabled(s, Turning(n.high, Some(n.low), 0))
            && s.queued == {n.high} && s.running.Keys == {n.low, n.middle}
            && t.queued == {n.low} && t.waiting == {n.high} && t.running.Keys == {n.middle}
            && s.jobs[n.middle].priority < s.jobs[n.high].priority
            && HasRoomWithout(s.nodes[1], s.jobs[n.middle].resources, s.jobs[n.high].resources)
  {
    HighQueuedRuns(n, batch);
    var s := HighQueued(n, batch);
    assert FindFit(s.nodes, s.jobs[n.high].resources).None?;
    var between := SentBack(s, n.low);
    assert between.running.Keys == {n.middle} && between.queued == {n.high, n.low};
    assert FindFit(between.nodes, s.jobs[n.high].resources).None?;
    assert between.queued - {n.high} == {n.low};
  }
}
