/** The coordinator of the SQS backend: internal/dispatch/sqs.go. Every lock section is a function
    on the coordinator's state, and the class below computes exactly these functions in place. */
module SqsCoordinator {
  import opened Inference
  import opened Jobs
  import opened Wrappers
  import opened Triage
  import Sums

  datatype Stats = Stats(submitted: nat, succeeded: nat, escalated: nat, deadLettered: nat,
                         retried: nat, adjusted: nat, redelivered: nat, duplicates: nat)

  const NO_STATS := Stats(0, 0, 0, 0, 0, 0, 0, 0)

  // `final` is the batch written to the telemetry event of a terminal outcome.
  datatype Coord = Coord(jobs: map<string, Job>, terminal: map<string, Outcome>, final: map<string, Batch>,
                         released: set<string>, stats: Stats, closed: bool, done: bool)

  const FRESH := Coord(map[], map[], map[], {}, NO_STATS, false, false)

  function MaybeDone(c: Coord): Coord {
    if c.closed && |c.terminal| >= c.stats.submitted then c.(done := true) else c
  }

  function Counted(st: Stats, o: Outcome): Stats {
    match o
    case Succeeded => st.(succeeded := st.succeeded + 1)
    case Escalated => st.(escalated := st.escalated + 1)
    case Dead => st.(deadLettered := st.deadLettered + 1)
  }

  function Recorded(c: Coord, job: Job, o: Outcome): Coord {
    c.(terminal := c.terminal[job.id := o], final := c.final[job.id := job.batch], stats := Counted(c.stats, o))
  }

  function Duplicate(c: Coord): Coord {
    c.(stats := c.stats.(duplicates := c.stats.duplicates + 1))
  }

  function Submit(c: Coord, job: Job, now: int): Result<Coord, string> {
    if !Valid(job.batch) then Failure("job " + job.id + ": invalid batch")
    else if c.closed then Failure("submissions are closed")
    else Success(c.(jobs := c.jobs[job.id := Normalised(job, now)],
                    stats := c.stats.(submitted := c.stats.submitted + 1)))
  }

  function Close(c: Coord): Coord {
    MaybeDone(c.(closed := true))
  }

  function Started(c: Coord, id: string, receiveCount: nat): (Coord, bool) {
    if id in c.terminal then (Duplicate(c), true)
    else
      var redelivered := if receiveCount > 1 && id !in c.released then 1 else 0;
      (c.(released := c.released - {id}, stats := c.stats.(redelivered := c.stats.redelivered + redelivered)), false)
  }

  /** The first lock section of Report: (new state, duplicate). A failure leaves the job to triage. */
  function ReportOutcome(c: Coord, job: Job, success: bool): (Coord, bool) {
    if job.id in c.terminal then (Duplicate(c), true)
    else if success then (MaybeDone(Recorded(c, job, Succeeded)), false)
    else (c, false)
  }

  /** The second lock section of Report, after triage: (new state, duplicate). */
  function ReportDecision(c: Coord, job: Job, action: Action): (Coord, bool) {
    if job.id in c.terminal then (Duplicate(c), true)
    else if action.Retry? then
      (MaybeDone(c.(released := c.released + {job.id}, stats := c.stats.(retried := c.stats.retried + 1))), false)
    else if action.AutoAdjust? then
      (MaybeDone(c.(stats := c.stats.(adjusted := c.stats.adjusted + 1))), false)
    else if action.Escalate? then
      (MaybeDone(Recorded(c, job, Escalated)), false)
    else (MaybeDone(c), false)
  }

  function BuryAll(c: Coord, dead: seq<Job>): Coord {
    if dead == [] then c
    else
      var prior := BuryAll(c, dead[..|dead| - 1]);
      var job := dead[|dead| - 1];
      if job.id in prior.terminal then prior else Recorded(prior, job, Dead)
  }

  /** One pass of WatchDeadLetters over the peeked dead letters. */
  function Watch(c: Coord, dead: seq<Job>): Coord {
    MaybeDone(BuryAll(c, dead))
  }

  // ---- what every lock section keeps ----

  ghost function Ids(c: Coord, o: Outcome): set<string> {
    set id | id in c.terminal && c.terminal[id] == o
  }

  /** The counters are the sizes of the recorded outcomes. */
  ghost predicate Counts(c: Coord) {
    && c.terminal.Keys <= c.jobs.Keys
    && c.final.Keys == c.terminal.Keys
    && c.stats.submitted == |c.jobs|
    && c.stats.succeeded == |Ids(c, Succeeded)|
    && c.stats.escalated == |Ids(c, Escalated)|
    && c.stats.deadLettered == |Ids(c, Dead)|
  }

  ghost predicate AllTerminal(c: Coord) {
    c.closed && c.terminal.Keys == c.jobs.Keys
  }

  ghost predicate Consistent(c: Coord) {
    Counts(c) && (c.done <==> AllTerminal(c))
  }

  /** Outcomes are only ever added, and no jobs arrive once submissions are closed. */
  ghost predicate Extends(c: Coord, c': Coord) {
    && (forall id <- c.terminal :: id in c'.terminal && c'.terminal[id] == c.terminal[id])
    && (forall id <- c.final :: id in c'.final && c'.final[id] == c.final[id])
    && (forall id <- c.jobs :: id in c'.jobs && c'.jobs[id] == c.jobs[id])
    && (c.closed ==> c'.closed && c'.jobs == c.jobs)
    && (c.done ==> c'.done)
  }

  lemma MaybeDoneIsExact(c: Coord)
    requires Counts(c) && (c.done ==> AllTerminal(c))
    ensures Consistent(MaybeDone(c))
  {
    Sums.SubsetCardinality(c.terminal.Keys, c.jobs.Keys);
    assert |c.terminal| == |c.terminal.Keys| && |c.jobs| == |c.jobs.Keys|;
    SameIds(c, MaybeDone(c));
  }

  lemma SameIds(c: Coord, c': Coord)
    requires c'.terminal == c.terminal
    ensures forall o :: Ids(c', o) == Ids(c, o)
  {
    forall o
      ensures Ids(c', o) == Ids(c, o)
    {
    }
  }

  lemma RecordedIds(c: Coord, job: Job, o: Outcome, p: Outcome)
    requires job.id !in c.terminal
    ensures Ids(Recorded(c, job, o), p) == if p == o then Ids(c, p) + {job.id} else Ids(c, p)
  {
  }

  lemma CountsAddUp(c: Coord)
    requires Counts(c)
    ensures c.stats.succeeded + c.stats.escalated + c.stats.deadLettered == |c.terminal|
  {
    var a, b, d := Ids(c, Succeeded), Ids(c, Escalated), Ids(c, Dead);
    assert a !! b && (a + b) !! d;
    assert c.terminal.Keys == a + b + d;
    assert |c.terminal| == |c.terminal.Keys|;
  }

  lemma RecordedKeepsCounts(c: Coord, job: Job, o: Outcome)
    requires Counts(c) && job.id in c.jobs && job.id !in c.terminal
    ensures Counts(Recorded(c, job, o)) && Extends(c, Recorded(c, job, o))
  {
    RecordedCounts(c, job, o);
    RecordedExtends(c, job, o);
  }

  lemma RecordedExtends(c: Coord, job: Job, o: Outcome)
    requires job.id !in c.terminal && c.final.Keys == c.terminal.Keys
    ensures Extends(c, Recorded(c, job, o))
  {
  }

  lemma RecordedCounts(c: Coord, job: Job, o: Outcome)
    requires Counts(c) && job.id in c.jobs && job.id !in c.terminal
    ensures Counts(Recorded(c, job, o))
  {
    RecordedCount(c, job, o, Succeeded);
    RecordedCount(c, job, o, Escalated);
    RecordedCount(c, job, o, Dead);
  }

  lemma RecordedCount(c: Coord, job: Job, o: Outcome, p: Outcome)
    requires job.id !in c.terminal
    ensures |Ids(Recorded(c, job, o), p)| == |Ids(c, p)| + if p == o then 1 else 0
  {
    RecordedIds(c, job, o, p);
  }

  lemma OneMoreKey(jobs: map<string, Job>, job: Job)
    requires job.id !in jobs
    ensures jobs[job.id := job].Keys == jobs.Keys + {job.id} && |jobs[job.id := job]| == |jobs| + 1
  {
    assert jobs[job.id := job].Keys == jobs.Keys + {job.id};
    assert |jobs| == |jobs.Keys| && |jobs[job.id := job]| == |jobs[job.id := job].Keys|;
  }

  lemma SubmitCounts(c: Coord, job: Job)
    requires Counts(c) && job.id !in c.jobs
    ensures Counts(c.(jobs := c.jobs[job.id := job], stats := c.stats.(submitted := c.stats.submitted + 1)))
  {
    OneMoreKey(c.jobs, job);
    SameIds(c, c.(jobs := c.jobs[job.id := job], stats := c.stats.(submitted := c.stats.submitted + 1)));
  }

  lemma SubmitKeeps(c: Coord, job: Job, now: int)
    requires Consistent(c) && job.id !in c.jobs && Submit(c, job, now).Success?
    ensures Consistent(Submit(c, job, now).value) && Extends(c, Submit(c, job, now).value)
  {
    SubmitCounts(c, Normalised(job, now));
  }

  lemma CloseKeeps(c: Coord)
    requires Consistent(c)
    ensures Consistent(Close(c)) && Extends(c, Close(c))
  {
    SameIds(c, c.(closed := true));
    MaybeDoneIsExact(c.(closed := true));
  }

  lemma StartedKeeps(c: Coord, id: string, receiveCount: nat)
    requires Consistent(c)
    ensures Consistent(Started(c, id, receiveCount).0) && Extends(c, Started(c, id, receiveCount).0)
    ensures Started(c, id, receiveCount).0.terminal == c.terminal
  {
    SameIds(c, Started(c, id, receiveCount).0);
  }

  lemma ReportOutcomeKeeps(c: Coord, job: Job, success: bool)
    requires Consistent(c) && job.id in c.jobs
    ensures Consistent(ReportOutcome(c, job, success).0) && Extends(c, ReportOutcome(c, job, success).0)
    ensures ReportOutcome(c, job, success).0.terminal.Keys <= c.terminal.Keys + {job.id}
  {
    if job.id in c.terminal {
      SameIds(c, Duplicate(c));
    } else if success {
      RecordedKeepsCounts(c, job, Succeeded);
      MaybeDoneIsExact(Recorded(c, job, Succeeded));
    }
  }

  lemma ReportDecisionKeeps(c: Coord, job: Job, action: Action)
    requires Consistent(c) && job.id in c.jobs
    ensures Consistent(ReportDecision(c, job, action).0) && Extends(c, ReportDecision(c, job, action).0)
    ensures ReportDecision(c, job, action).0.terminal.Keys <= c.terminal.Keys + {job.id}
  {
    if job.id in c.terminal {
      SameIds(c, Duplicate(c));
    } else if action.Escalate? {
      RecordedKeepsCounts(c, job, Escalated);
      MaybeDoneIsExact(Recorded(c, job, Escalated));
    } else {
      var c1 :=
        if action.Retry? then
          c.(released := c.released + {job.id}, stats := c.stats.(retried := c.stats.retried + 1))
        else if action.AutoAdjust? then c.(stats := c.stats.(adjusted := c.stats.adjusted + 1))
        else c;
      SameIds(c, c1);
      MaybeDoneIsExact(c1);
    }
  }

  lemma ExtendsTransitive(a: Coord, b: Coord, c: Coord)
    requires Extends(a, b) && Extends(b, c)
    ensures Extends(a, c)
  {
  }

  lemma {:induction false} BuryAllKeeps(c: Coord, dead: seq<Job>)
    requires Counts(c) && forall i | 0 <= i < |dead| :: dead[i].id in c.jobs
    ensures var r := BuryAll(c, dead);
            Counts(r) && Extends(c, r) && r.jobs == c.jobs && r.closed == c.closed && r.done == c.done
  {
    if dead != [] {
      var front := dead[..|dead| - 1];
      BuryAllKeeps(c, front);
      var prior := BuryAll(c, front);
      var job := dead[|dead| - 1];
      if job.id !in prior.terminal {
        RecordedKeepsCounts(prior, job, Dead);
        ExtendsTransitive(c, prior, BuryAll(c, dead));
      }
    }
  }

  lemma {:induction false} BuryAllFrame(c: Coord, dead: seq<Job>)
    ensures var r := BuryAll(c, dead); r.jobs == c.jobs && r.closed == c.closed && r.done == c.done
  {
    if dead != [] {
      BuryAllFrame(c, dead[..|dead| - 1]);
    }
  }

  lemma {:induction false} BuryAllBuries(c: Coord, dead: seq<Job>, id: string)
    ensures id in BuryAll(c, dead).terminal <==> id in c.terminal || exists i | 0 <= i < |dead| :: dead[i].id == id
    ensures id in BuryAll(c, dead).terminal && id !in c.terminal ==> BuryAll(c, dead).terminal[id] == Dead
    ensures id in c.terminal ==> BuryAll(c, dead).terminal[id] == c.terminal[id]
  {
    if dead != [] {
      BuryAllBuries(c, dead[..|dead| - 1], id);
    }
  }

  lemma WatchKeeps(c: Coord, dead: seq<Job>)
    requires Consistent(c) && forall i | 0 <= i < |dead| :: dead[i].id in c.jobs
    ensures Consistent(Watch(c, dead)) && Extends(c, Watch(c, dead))
  {
    BuryAllKeeps(c, dead);
    MaybeDoneIsExact(BuryAll(c, dead));
  }

  // ---- the coordinator itself ----

  class SQSCoordinator {
    var jobs: map<string, Job>
    var terminal: map<string, Outcome>
    var final: map<string, Batch>
    var released: set<string>
    var stats: Stats
    var closed: bool
    var done: bool

    ghost function State(): Coord
      reads this
    {
      Coord(jobs, terminal, final, released, stats, closed, done)
    }

    constructor ()
      ensures State() == FRESH
    {
      jobs, terminal, final, released := map[], map[], map[], {};
      stats, closed, done := NO_STATS, false, false;
    }

    method MaybeDoneLocked()
      modifies this`done
      ensures State() == MaybeDone(old(State()))
    {
      if closed && |terminal| >= stats.submitted {
        done := true;
      }
    }

    method Record(job: Job, o: Outcome)
      modifies this`terminal, this`final, this`stats
      ensures State() == Recorded(old(State()), job, o)
    {
      terminal := terminal[job.id := o];
      final := final[job.id := job.batch];
      match o {
        case Succeeded => stats := stats.(succeeded := stats.succeeded + 1);
        case Escalated => stats := stats.(escalated := stats.escalated + 1);
        case Dead => stats := stats.(deadLettered := stats.deadLettered + 1);
      }
    }

    /** Submit up to the unlock; the caller then sends the returned job to its tier queue. */
    method SubmitLocked(job: Job, now: int) returns (r: Result<Job, string>)
      modifies this
      ensures match Submit(old(State()), job, now)
              case Success(c) => State() == c && r == Success(Normalised(job, now))
              case Failure(e) => State() == old(State()) && r == Failure(e)
      ensures r.Failure? <==> !Valid(job.batch) || old(closed)
      ensures r.Success? ==>
                && AdmittedFrom(r.value, job, now) && jobs == old(jobs)[job.id := r.value]
                && stats == old(stats).(submitted := old(stats).submitted + 1) && terminal == old(terminal)
    {
      if !Valid(job.batch) {
        return Failure("job " + job.id + ": invalid batch");
      }
      if closed {
        return Failure("submissions are closed");
      }
      var admitted := Normalised(job, now);
      jobs := jobs[job.id := admitted];
      stats := stats.(submitted := stats.submitted + 1);
      r := Success(admitted);
    }

    method CloseSubmissions()
      modifies this
      ensures State() == Close(old(State()))
    {
      closed := true;
      MaybeDoneLocked();
    }

    method StartedLocked(id: string, receiveCount: nat) returns (duplicate: bool)
      modifies this
      ensures (State(), duplicate) == Started(old(State()), id, receiveCount)
      ensures terminal == old(terminal) && (duplicate <==> id in terminal)
      ensures stats.duplicates == old(stats).duplicates + if duplicate then 1 else 0
      ensures stats.redelivered ==
              old(stats).redelivered + if !duplicate && receiveCount > 1 && id !in old(released) then 1 else 0
      ensures !duplicate ==> released == old(released) - {id}
    {
      if id in terminal {
        stats := stats.(duplicates := stats.duplicates + 1);
        return true;
      }
      if receiveCount > 1 && id !in released {
        stats := stats.(redelivered := stats.redelivered + 1);
      }
      released := released - {id};
      duplicate := false;
    }

    method ReportOutcomeLocked(job: Job, success: bool) returns (duplicate: bool)
      modifies this
      ensures (State(), duplicate) == ReportOutcome(old(State()), job, success)
      ensures duplicate <==> job.id in old(terminal)
      ensures stats.duplicates == old(stats).duplicates + if duplicate then 1 else 0
      ensures terminal == if !duplicate && success then old(terminal)[job.id := Succeeded] else old(terminal)
    {
      if job.id in terminal {
        stats := stats.(duplicates := stats.duplicates + 1);
        return true;
      }
      if success {
        Record(job, Succeeded);
        MaybeDoneLocked();
      }
      duplicate := false;
    }

    method ReportDecisionLocked(job: Job, action: Action) returns (duplicate: bool)
      modifies this
      ensures (State(), duplicate) == ReportDecision(old(State()), job, action)
      ensures duplicate <==> job.id in old(terminal)
      ensures stats.duplicates == old(stats).duplicates + if duplicate then 1 else 0
      ensures terminal == if !duplicate && action == Escalate then old(terminal)[job.id := Escalated] else old(terminal)
      ensures released == if !duplicate && action == Retry then old(released) + {job.id} else old(released)
    {
      if job.id in terminal {
        stats := stats.(duplicates := stats.duplicates + 1);
        return true;
      }
      Follow(job, action);
      MaybeDoneLocked();
      duplicate := false;
    }

    // What a decision does, but for the done check.
    method Follow(job: Job, action: Action)
      requires job.id !in terminal
      modifies this
      ensures MaybeDone(State()) == ReportDecision(old(State()), job, action).0
      ensures terminal == if action == Escalate then old(terminal)[job.id := Escalated] else old(terminal)
      ensures released == if action == Retry then old(released) + {job.id} else old(released)
      ensures stats.duplicates == old(stats).duplicates
    {
      if action.Retry? {
        released := released + {job.id};
        stats := stats.(retried := stats.retried + 1);
      } else if action.AutoAdjust? {
        stats := stats.(adjusted := stats.adjusted + 1);
      } else if action.Escalate? {
        Record(job, Escalated);
      }
    }

    method WatchLocked(dead: seq<Job>)
      modifies this
      ensures State() == Watch(old(State()), dead)
    {
      for k := 0 to |dead|
        invariant State() == BuryAll(old(State()), dead[..k])
      {
        assert dead[..k + 1][..k] == dead[..k];
        if dead[k].id !in terminal {
          Record(dead[k], Dead);
        }
      }
      assert dead[..|dead|] == dead;
      MaybeDoneLocked();
    }
  }
}
