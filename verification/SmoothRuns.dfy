/** A run of the SQS backend in which no worker crashes and no message expires is, step by step, a run of the
    broker. */
module SmoothRuns {
  import opened Inference
  import opened Jobs
  import opened Wrappers
  import opened Triage
  import opened SqsQueue
  import C = SqsCoordinator
  import P = SqsProtocol
  import B = Broker
  import R = BrokerRuns

  // ---- runs without crashes or expiry ----

  /** The receive limit leaves room for every try of every job. */
  predicate Roomy(limit: nat, step: P.Step) {
    step.Submitting? ==> Normalised(step.job, step.now).maxAttempts <= limit
  }

  predicate Smooth(limit: nat, step: P.Step) {
    !step.Crashing? && !step.Expiring? && !step.EnqueueFailing? && Roomy(limit, step)
  }

  function FailureOf(p: P.Phase): FailureInfo
    requires p.Triaging?
  {
    FailureInfo(p.d.job.id, P.Attempt(p.d), p.d.job.maxAttempts, p.error, p.d.job.batch)
  }

  ghost predicate Faithful(limit: nat, w: R.World, s: P.Sys, step: P.Step)
    requires P.Enabled(limit, s, step)
  {
    match step
    case Reporting(v, error) =>
      error == w.run(s.workers[v].d.job.id, P.Attempt(s.workers[v].d), s.workers[v].d.job.batch)
    case Deciding(v, answer) => answer == w.agent(FailureOf(s.workers[v]))
    case _ => true
  }

  ghost predicate SmoothRun(limit: nat, workers: nat, w: R.World, steps: seq<P.Step>, s: P.Sys)
    decreases |steps|
  {
    if steps == [] then s == P.Initial(workers)
    else exists prior :: SmoothStep(limit, workers, w, steps, prior, s)
  }

  ghost predicate SmoothStep(limit: nat, workers: nat, w: R.World, steps: seq<P.Step>, prior: P.Sys, s: P.Sys)
    requires steps != []
    decreases |steps|, 0
  {
    var step := steps[|steps| - 1];
    SmoothRun(limit, workers, w, steps[..|steps| - 1], prior) && P.Enabled(limit, prior, step)
    && Smooth(limit, step) && Faithful(limit, w, prior, step) && s == P.Apply(limit, prior, step)
  }

  // ---- where a job is carried ----

  datatype Carrier = Unsent(id: string) | InStore(msg: nat) | AtWorker(w: nat)

  datatype View = InQueue(attempt: int, batch: Batch)
                | AtWork(attempt: int, batch: Batch)
                | InTriage(attempt: int, batch: Batch, error: string)

  predicate Carries(s: P.Sys, c: Carrier) {
    match c
    case Unsent(id) => id in s.unsent && id in s.coord.jobs
    case InStore(i) => i < |s.msgs| && s.msgs[i].place == Visible
    case AtWorker(w) => w < |s.workers| && !s.workers[w].Idle? && !s.workers[w].Acking?
  }

  function IdOf(s: P.Sys, c: Carrier): string
    requires Carries(s, c)
  {
    match c
    case Unsent(id) => id
    case InStore(i) => s.msgs[i].job.id
    case AtWorker(w) => s.workers[w].d.job.id
  }

  /** The broker's view of a carried job. A job whose triage is decided counts as queued again. */
  function ViewOf(s: P.Sys, c: Carrier): View
    requires Carries(s, c)
  {
    match c
    case Unsent(id) => InQueue(0, s.coord.jobs[id].batch)
    case InStore(i) => InQueue(s.msgs[i].job.attempt + s.msgs[i].receives, s.msgs[i].job.batch)
    case AtWorker(w) =>
      var p := s.workers[w];
      if p.Triaging? then InTriage(P.Attempt(p.d), p.d.job.batch, p.error)
      else if p.Told? then
        InQueue(P.Attempt(p.d),
                if p.decision.action.AutoAdjust? then Adjusted(p.d.job.batch, p.decision) else p.d.job.batch)
      else AtWork(P.Attempt(p.d), p.d.job.batch)
  }

  ghost predicate Shows(b: B.State, id: string, v: View) {
    && id in b.jobs && b.jobs[id].attempt == v.attempt && b.jobs[id].batch == v.batch
    && match v
       case InQueue(_, _) => id in b.queued
       case AtWork(_, _) => id in b.running
       case InTriage(_, _, error) => id in b.triaging && b.triaging[id] == error
  }

  // ---- the simulation relation ----

  ghost predicate Linked(limit: nat, s: P.Sys, b: B.State) {
    && SameRecord(s.coord, b)
    && (forall id <- s.coord.jobs :: s.coord.jobs[id].maxAttempts <= limit)
    && s.rejected == {}
  }

  /** The coordinator and the broker have recorded the same. */
  ghost predicate SameRecord(c: C.Coord, b: B.State) {
    && b.original == c.jobs && b.finished == c.terminal && b.closed == c.closed
    && b.stats == B.Stats(c.stats.submitted, c.stats.succeeded, c.stats.escalated, c.stats.retried, c.stats.adjusted)
    && c.stats.duplicates == 0
  }

  ghost predicate FinalBatches(s: P.Sys, b: B.State) {
    forall id <- s.coord.final :: id in b.jobs && b.jobs[id].batch == s.coord.final[id]
  }

  /** Every worker in its loop body holds the current receipt of its own message. */
  ghost predicate Held(s: P.Sys) {
    && (forall w | 0 <= w < |s.workers| && !s.workers[w].Idle? ::
          Current(s.msgs, s.workers[w].d) && (s.workers[w].Triaging? ==> !s.workers[w].orphan))
    && (forall v, w | 0 <= v < w < |s.workers| && !s.workers[v].Idle? && !s.workers[w].Idle? ::
          s.workers[v].d.msg != s.workers[w].d.msg)
    && (forall i | 0 <= i < |s.msgs| :: s.msgs[i].place != DeadLettered)
  }

  ghost predicate CarriedRight(s: P.Sys, b: B.State, c: Carrier) {
    Carries(s, c) ==> IdOf(s, c) !in s.coord.terminal && Shows(b, IdOf(s, c), ViewOf(s, c))
  }

  ghost predicate Carried(s: P.Sys, b: B.State) {
    && (forall c :: CarriedRight(s, b, c))
    && (forall c, d :: Carries(s, c) && Carries(s, d) && IdOf(s, c) == IdOf(s, d) ==> c == d)
  }

  ghost predicate Simulates(limit: nat, s: P.Sys, b: B.State) {
    P.Inv(limit, s) && B.Inv(b) && Linked(limit, s, b) && FinalBatches(s, b) && Held(s) && Carried(s, b)
  }

  /** The broker step an SQS step amounts to, if any: a receive is a claim, the rest keep their names. */
  function BrokerStep(s: P.Sys, step: P.Step): Option<B.Step> {
    match step
    case Submitting(job, now) => Some(B.Submitting(job, now))
    case Closing => Some(B.Closing)
    case Receiving(_, m) => if m < |s.msgs| then Some(B.Claiming(s.msgs[m].job.id, "", 0)) else None
    case Reporting(v, error) =>
      if v < |s.workers| && !s.workers[v].Idle? then Some(B.Reporting(s.workers[v].d.job.id, error)) else None
    case Deciding(v, answer) =>
      if v < |s.workers| && !s.workers[v].Idle? then Some(B.Deciding(s.workers[v].d.job.id, answer)) else None
    case _ => None
  }

  /** The carrier a step empties, and the one it fills. */
  function From(s: P.Sys, step: P.Step): Option<Carrier> {
    match step
    case Enqueuing(id) => Some(Unsent(id))
    case Receiving(_, m) => Some(InStore(m))
    case Starting(v) => Some(AtWorker(v))
    case Reporting(v, _) => Some(AtWorker(v))
    case Deciding(v, _) => Some(AtWorker(v))
    case Releasing(v, _) => Some(AtWorker(v))
    case Resending(v) => Some(AtWorker(v))
    case _ => None
  }

  function To(limit: nat, s: P.Sys, step: P.Step): Option<Carrier>
    requires P.Enabled(limit, s, step)
  {
    match step
    case Submitting(job, _) => Some(Unsent(job.id))
    case Enqueuing(_) => Some(InStore(|s.msgs|))
    case Receiving(v, _) => Some(AtWorker(v))
    case Starting(v) => Some(AtWorker(v))
    case Reporting(v, error) => if error.None? then None else Some(AtWorker(v))
    case Deciding(v, answer) =>
      if P.DecisionFor(s.workers[v], answer).action.Escalate? then None else Some(AtWorker(v))
    case Releasing(v, _) => Some(InStore(s.workers[v].d.msg))
    case Resending(_) => Some(InStore(|s.msgs|))
    case _ => None
  }

  ghost predicate SameCarrier(s: P.Sys, s': P.Sys, c: Carrier) {
    && (Carries(s, c) <==> Carries(s', c))
    && (Carries(s, c) ==> IdOf(s, c) == IdOf(s', c) && ViewOf(s, c) == ViewOf(s', c))
  }

  // ---- each step is a broker step or changes nothing the broker can see ----

  lemma NothingIsExhausted(limit: nat, s: P.Sys, b: B.State, i: nat)
    requires Simulates(limit, s, b) && i < |s.msgs| && s.msgs[i].place == Visible
    ensures s.msgs[i].receives < limit
  {
    var id := s.msgs[i].job.id;
    assert CarriedRight(s, b, InStore(i));
    assert P.MessageOk(limit, s, s.msgs[i]);
    assert B.JobOk(b, id);
  }

  lemma OthersStay(limit: nat, s: P.Sys, step: P.Step, c: Carrier)
    requires P.Enabled(limit, s, step) && Smooth(limit, step) && Held(s) && !step.Redriving?
    requires Some(c) != From(s, step) && Some(c) != To(limit, s, step)
    ensures SameCarrier(s, P.Apply(limit, s, step), c)
  {
    match c
    case Unsent(id) => UnsentStays(limit, s, step, id);
    case InStore(i) => StoredStays(limit, s, step, i);
    case AtWorker(v) => WorkerStays(limit, s, step, v);
  }

  lemma UnsentStays(limit: nat, s: P.Sys, step: P.Step, id: string)
    requires P.Enabled(limit, s, step) && Smooth(limit, step)
    requires Some(Unsent(id)) != From(s, step) && Some(Unsent(id)) != To(limit, s, step)
    ensures SameCarrier(s, P.Apply(limit, s, step), Unsent(id))
  {
    P.JobsFrame(limit, s, step);
  }

  lemma StoredStays(limit: nat, s: P.Sys, step: P.Step, i: nat)
    requires P.Enabled(limit, s, step) && Smooth(limit, step) && Held(s) && !step.Redriving?
    requires Some(InStore(i)) != From(s, step) && Some(InStore(i)) != To(limit, s, step)
    ensures SameCarrier(s, P.Apply(limit, s, step), InStore(i))
  {
    if step.Acknowledging? || step.Releasing? {
      assert Current(s.msgs, s.workers[step.w].d);
    }
  }

  lemma WorkerStays(limit: nat, s: P.Sys, step: P.Step, v: nat)
    requires P.Enabled(limit, s, step) && Smooth(limit, step)
    requires Some(AtWorker(v)) != From(s, step) && Some(AtWorker(v)) != To(limit, s, step)
    ensures SameCarrier(s, P.Apply(limit, s, step), AtWorker(v))
  {
  }

  // The job a step is about.
  function Subject(s: P.Sys, step: P.Step): string {
    match step
    case Submitting(job, _) => job.id
    case Enqueuing(id) => id
    case Receiving(_, m) => if m < |s.msgs| then s.msgs[m].job.id else ""
    case Starting(v) => HeldBy(s, v)
    case Reporting(v, _) => HeldBy(s, v)
    case Deciding(v, _) => HeldBy(s, v)
    case Releasing(v, _) => HeldBy(s, v)
    case Resending(v) => HeldBy(s, v)
    case _ => ""
  }

  function HeldBy(s: P.Sys, w: nat): string {
    if w < |s.workers| && !s.workers[w].Idle? then s.workers[w].d.job.id else ""
  }

  lemma FromIsCarried(limit: nat, s: P.Sys, step: P.Step)
    requires P.Enabled(limit, s, step) && From(s, step).Some?
    ensures Carries(s, From(s, step).value) && IdOf(s, From(s, step).value) == Subject(s, step)
  {
  }

  // What the relation says about the job a step is about.
  ghost predicate SubjectOk(s: P.Sys, b: B.State, step: P.Step) {
    From(s, step).Some? ==>
      var id, c := Subject(s, step), From(s, step).value;
      && Carries(s, c) && IdOf(s, c) == id && Shows(b, id, ViewOf(s, c))
      && id in s.coord.jobs && id !in s.coord.terminal
      && b.jobs[id].maxAttempts == s.coord.jobs[id].maxAttempts
  }

  lemma SubjectShown(limit: nat, s: P.Sys, b: B.State, step: P.Step)
    requires Simulates(limit, s, b) && P.Enabled(limit, s, step)
    ensures SubjectOk(s, b, step)
  {
    if From(s, step).Some? {
      FromIsCarried(limit, s, step);
      assert CarriedRight(s, b, From(s, step).value);
      assert B.JobOk(b, Subject(s, step));
    }
  }

  // A busy worker's delivery is a copy of its message, for a submitted job.
  ghost predicate WorkerOk(s: P.Sys, step: P.Step) {
    P.MovesWorker(step) && step.w < |s.workers| && !s.workers[step.w].Idle? ==>
      var d := s.workers[step.w].d;
      && Current(s.msgs, d) && d.job == s.msgs[d.msg].job && d.job.id in s.coord.jobs
      && d.job.maxAttempts == s.coord.jobs[d.job.id].maxAttempts
      && (s.workers[step.w].Triaging? ==> !s.workers[step.w].orphan)
  }

  lemma WorkerJob(limit: nat, s: P.Sys, step: P.Step)
    requires P.Inv(limit, s) && Held(s)
    ensures WorkerOk(s, step)
  {
    if P.MovesWorker(step) && step.w < |s.workers| && !s.workers[step.w].Idle? {
      assert P.PhaseOk(s, s.workers[step.w]);
      assert P.MessageOk(limit, s, s.msgs[s.workers[step.w].d.msg]);
    }
  }

  ghost predicate Mirrored(w: R.World, s: P.Sys, b: B.State, step: P.Step) {
    BrokerStep(s, step).Some? ==>
      var x := BrokerStep(s, step).value;
      B.Enabled(b, x) && R.Faithful(w, b, x) && B.Subject(x) == if step.Closing? then "" else Subject(s, step)
  }

  lemma SubmitIsMirrored(limit: nat, w: R.World, s: P.Sys, b: B.State, step: P.Step)
    requires b.original == s.coord.jobs && b.closed == s.coord.closed && P.Enabled(limit, s, step) && step.Submitting?
    requires B.InOnePlace(b, step.job.id)
    ensures Mirrored(w, s, b, step)
  {
  }

  lemma DecisionIsMirrored(limit: nat, w: R.World, s: P.Sys, b: B.State, step: P.Step)
    requires SubjectOk(s, b, step) && WorkerOk(s, step)
    requires P.Enabled(limit, s, step) && Faithful(limit, w, s, step) && step.Deciding?
    ensures Mirrored(w, s, b, step)
    ensures B.DecisionFor(b, Subject(s, step), step.answer) == P.DecisionFor(s.workers[step.w], step.answer)
  {
  }

  lemma StepIsMirrored(limit: nat, w: R.World, s: P.Sys, b: B.State, step: P.Step)
    requires SubjectOk(s, b, step) && WorkerOk(s, step)
    requires P.Enabled(limit, s, step) && Faithful(limit, w, s, step) && !step.Submitting?
    ensures Mirrored(w, s, b, step)
  {
    if step.Deciding? {
      DecisionIsMirrored(limit, w, s, b, step);
    }
  }

  ghost function Mirror(s: P.Sys, b: B.State, step: P.Step): B.State
    requires BrokerStep(s, step).Some? ==> B.Enabled(b, BrokerStep(s, step).value)
  {
    match BrokerStep(s, step)
    case None => b
    case Some(x) => B.Apply(b, x)
  }

  lemma WorkerHolds(limit: nat, s: P.Sys, step: P.Step, v: nat)
    requires Held(s) && P.Enabled(limit, s, step) && Smooth(limit, step) && v < |s.workers|
    requires !P.Apply(limit, s, step).workers[v].Idle? && !step.Redriving?
    ensures var s' := P.Apply(limit, s, step);
            Current(s'.msgs, s'.workers[v].d) && (s'.workers[v].Triaging? ==> !s'.workers[v].orphan)
  {
    P.OneWorkerMoves(limit, s, step, v);
    assert !s.workers[v].Idle? ==> Current(s.msgs, s.workers[v].d);
    if P.MovesWorker(step) && !s.workers[step.w].Idle? {
      assert Current(s.msgs, s.workers[step.w].d);
      assert v != step.w && !s.workers[v].Idle? ==> s.workers[v].d.msg != s.workers[step.w].d.msg;
    }
  }

  lemma NoDeadLetters(limit: nat, s: P.Sys, step: P.Step)
    requires Held(s) && P.Enabled(limit, s, step) && !step.Redriving?
    ensures forall i | 0 <= i < |P.Apply(limit, s, step).msgs| :: P.Apply(limit, s, step).msgs[i].place != DeadLettered
  {
  }

  lemma HeldStep(limit: nat, s: P.Sys, step: P.Step)
    requires Held(s) && P.Enabled(limit, s, step) && Smooth(limit, step) && !step.Redriving?
    ensures Held(P.Apply(limit, s, step))
  {
    var s' := P.Apply(limit, s, step);
    NoDeadLetters(limit, s, step);
    P.OneWorkerMovesAll(limit, s, step);
    forall v | 0 <= v < |s'.workers| && !s'.workers[v].Idle?
      ensures Current(s'.msgs, s'.workers[v].d) && (s'.workers[v].Triaging? ==> !s'.workers[v].orphan)
    {
      WorkerHolds(limit, s, step, v);
    }
    forall v, u | 0 <= v < u < |s'.workers| && !s'.workers[v].Idle? && !s'.workers[u].Idle?
      ensures s'.workers[v].d.msg != s'.workers[u].d.msg
    {
      MessagesDiffer(limit, s, step, v, u);
    }
  }

  lemma MessagesDiffer(limit: nat, s: P.Sys, step: P.Step, v: nat, u: nat)
    requires Held(s) && P.Enabled(limit, s, step) && Smooth(limit, step) && v < u < |s.workers|
    requires var s' := P.Apply(limit, s, step); !s'.workers[v].Idle? && !s'.workers[u].Idle?
    ensures var s' := P.Apply(limit, s, step); s'.workers[v].d.msg != s'.workers[u].d.msg
  {
    P.OneWorkerMoves(limit, s, step, v);
    P.OneWorkerMoves(limit, s, step, u);
    assert !s.workers[v].Idle? ==> Current(s.msgs, s.workers[v].d);
    assert !s.workers[u].Idle? ==> Current(s.msgs, s.workers[u].d);
  }

  // The job a step fills a carrier with shows in the broker as it should.
  ghost predicate FilledRight(limit: nat, s: P.Sys, b: B.State, step: P.Step)
    requires P.Enabled(limit, s, step) && (BrokerStep(s, step).Some? ==> B.Enabled(b, BrokerStep(s, step).value))
  {
    To(limit, s, step).Some? ==>
      var s', c, id := P.Apply(limit, s, step), To(limit, s, step).value, Subject(s, step);
      && Carries(s', c) && IdOf(s', c) == id && id !in s'.coord.terminal
      && Shows(Mirror(s, b, step), id, ViewOf(s', c))
  }

  lemma SubmitFills(limit: nat, w: R.World, s: P.Sys, b: B.State, step: P.Step)
    requires P.Enabled(limit, s, step) && step.Submitting? && Mirrored(w, s, b, step)
    requires s.coord.terminal.Keys <= s.coord.jobs.Keys
    ensures FilledRight(limit, s, b, step)
  {
  }

  // Moves between a queue and a worker that the broker has already counted.
  lemma QueueMoveFills(limit: nat, s: P.Sys, b: B.State, step: P.Step)
    requires SubjectOk(s, b, step) && WorkerOk(s, step) && P.Enabled(limit, s, step)
    requires step.Enqueuing? || step.Releasing? || step.Resending?
    requires step.Enqueuing? ==> s.coord.jobs[step.id].attempt == 0 && s.coord.jobs[step.id].id == step.id
    ensures FilledRight(limit, s, b, step)
  {
  }

  lemma ReceiveFills(limit: nat, w: R.World, s: P.Sys, b: B.State, step: P.Step)
    requires SubjectOk(s, b, step) && P.Enabled(limit, s, step) && step.Receiving? && Mirrored(w, s, b, step)
    ensures FilledRight(limit, s, b, step)
  {
  }

  lemma StartFills(limit: nat, s: P.Sys, b: B.State, step: P.Step)
    requires SubjectOk(s, b, step) && P.Enabled(limit, s, step) && step.Starting?
    ensures FilledRight(limit, s, b, step)
  {
  }

  lemma ReportFills(limit: nat, w: R.World, s: P.Sys, b: B.State, step: P.Step)
    requires SubjectOk(s, b, step) && P.Enabled(limit, s, step) && step.Reporting? && Mirrored(w, s, b, step)
    ensures FilledRight(limit, s, b, step)
  {
  }

  lemma DecisionFills(limit: nat, w: R.World, s: P.Sys, b: B.State, step: P.Step)
    requires SubjectOk(s, b, step) && WorkerOk(s, step)
    requires P.Enabled(limit, s, step) && step.Deciding? && Faithful(limit, w, s, step) && Mirrored(w, s, b, step)
    ensures FilledRight(limit, s, b, step)
  {
    DecisionIsMirrored(limit, w, s, b, step);
  }

  // ---- the relation is kept ----

  lemma SubmitStaysLinked(limit: nat, w: R.World, s: P.Sys, b: B.State, step: P.Step)
    requires Linked(limit, s, b) && P.Enabled(limit, s, step) && Smooth(limit, step)
    requires step.Submitting? && Mirrored(w, s, b, step)
    ensures Linked(limit, P.Apply(limit, s, step), Mirror(s, b, step))
  {
  }

  lemma ReportStaysLinked(limit: nat, w: R.World, s: P.Sys, b: B.State, step: P.Step)
    requires Linked(limit, s, b) && SubjectOk(s, b, step) && P.Enabled(limit, s, step)
    requires step.Reporting? && Mirrored(w, s, b, step)
    ensures Linked(limit, P.Apply(limit, s, step), Mirror(s, b, step))
  {
    SameReportRecorded(s.coord, b, s.workers[step.w].d.job, step.error);
  }

  lemma SameReportRecorded(c: C.Coord, b: B.State, job: Job, error: Option<string>)
    requires SameRecord(c, b) && job.id !in c.terminal && job.id in b.jobs
    ensures SameRecord(C.ReportOutcome(c, job, error.None?).0, B.ReportOutcome(b, job.id, error))
    ensures C.ReportOutcome(c, job, error.None?).0.jobs == c.jobs
  {
  }

  lemma SameRetryRecorded(c: C.Coord, b: B.State, job: Job, d: Decision)
    requires SameRecord(c, b) && job.id !in c.terminal && job.id in b.jobs && (d.action.Retry? || d.action.AutoAdjust?)
    ensures SameRecord(C.ReportDecision(c, job, d.action).0, B.ReportDecision(b, job.id, d))
    ensures C.ReportDecision(c, job, d.action).0.jobs == c.jobs
  {
  }

  lemma SameEscalationRecorded(c: C.Coord, b: B.State, job: Job, d: Decision)
    requires SameRecord(c, b) && job.id !in c.terminal && job.id in b.jobs && d.action.Escalate?
    ensures SameRecord(C.ReportDecision(c, job, d.action).0, B.ReportDecision(b, job.id, d))
    ensures C.ReportDecision(c, job, d.action).0.jobs == c.jobs
  {
  }

  lemma DecisionStaysLinked(limit: nat, w: R.World, s: P.Sys, b: B.State, step: P.Step)
    requires Linked(limit, s, b) && SubjectOk(s, b, step) && WorkerOk(s, step) && P.Enabled(limit, s, step)
    requires step.Deciding? && Faithful(limit, w, s, step) && Mirrored(w, s, b, step)
    ensures Linked(limit, P.Apply(limit, s, step), Mirror(s, b, step))
  {
    DecisionIsMirrored(limit, w, s, b, step);
    var d := P.DecisionFor(s.workers[step.w], step.answer);
    if d.action.Escalate? {
      SameEscalationRecorded(s.coord, b, s.workers[step.w].d.job, d);
    } else {
      SameRetryRecorded(s.coord, b, s.workers[step.w].d.job, d);
    }
    assert Mirror(s, b, step) == B.MaybeDone(B.ReportDecision(b, Subject(s, step), d));
  }

  lemma QuietStaysLinked(limit: nat, w: R.World, s: P.Sys, b: B.State, step: P.Step)
    requires Linked(limit, s, b) && SubjectOk(s, b, step) && P.Enabled(limit, s, step) && Smooth(limit, step)
    requires !step.Submitting? && !step.Reporting? && !step.Deciding? && Mirrored(w, s, b, step)
    requires step.Watching? ==> P.Apply(limit, s, step).coord == s.coord
    ensures Linked(limit, P.Apply(limit, s, step), Mirror(s, b, step))
  {
  }

  lemma NothingToBury(limit: nat, s: P.Sys, step: P.Step)
    requires Held(s) && C.Consistent(s.coord) && step.Watching? && P.Enabled(limit, s, step)
    ensures P.Apply(limit, s, step).coord == s.coord
  {
    C.MaybeDoneIsExact(s.coord);
  }

  lemma LinkedStep(limit: nat, w: R.World, s: P.Sys, b: B.State, step: P.Step)
    requires Linked(limit, s, b) && SubjectOk(s, b, step) && WorkerOk(s, step) && P.Enabled(limit, s, step)
    requires Smooth(limit, step) && Faithful(limit, w, s, step) && Mirrored(w, s, b, step)
    requires Held(s) && C.Consistent(s.coord)
    ensures Linked(limit, P.Apply(limit, s, step), Mirror(s, b, step))
  {
    if step.Submitting? {
      SubmitStaysLinked(limit, w, s, b, step);
    } else if step.Reporting? {
      ReportStaysLinked(limit, w, s, b, step);
    } else if step.Deciding? {
      DecisionStaysLinked(limit, w, s, b, step);
    } else {
      if step.Watching? {
        NothingToBury(limit, s, step);
      }
      QuietStaysLinked(limit, w, s, b, step);
    }
  }

  // The batch of a final record is the batch the broker has for the job.
  lemma FinalStep(limit: nat, w: R.World, s: P.Sys, b: B.State, step: P.Step)
    requires FinalBatches(s, b) && SubjectOk(s, b, step) && WorkerOk(s, step) && P.Enabled(limit, s, step)
    requires Faithful(limit, w, s, step) && Mirrored(w, s, b, step) && s.coord.final.Keys == s.coord.terminal.Keys
    requires C.Extends(s.coord, P.Apply(limit, s, step).coord)
    requires step.Watching? ==> P.Apply(limit, s, step).coord == s.coord
    ensures FinalBatches(P.Apply(limit, s, step), Mirror(s, b, step))
  {
    var s', b' := P.Apply(limit, s, step), Mirror(s, b, step);
    forall id <- s'.coord.final
      ensures id in b'.jobs && b'.jobs[id].batch == s'.coord.final[id]
    {
      if id in s.coord.final {
        assert id in s.coord.terminal.Keys;
        OldFinal(w, s, b, step, id);
      } else {
        NewFinal(limit, w, s, b, step, id);
      }
    }
  }

  lemma OldFinal(w: R.World, s: P.Sys, b: B.State, step: P.Step, id: string)
    requires id in b.jobs && id in s.coord.terminal && SubjectOk(s, b, step) && Mirrored(w, s, b, step)
    ensures id in Mirror(s, b, step).jobs && Mirror(s, b, step).jobs[id].batch == b.jobs[id].batch
  {
    if BrokerStep(s, step).Some? && !step.Closing? {
      assert id != Subject(s, step);
      B.OtherJob(b, BrokerStep(s, step).value, id);
    }
  }

  lemma FinalGain(limit: nat, s: P.Sys, step: P.Step, id: string)
    requires P.Enabled(limit, s, step)
    requires id !in s.coord.final && id in P.Apply(limit, s, step).coord.final
    requires step.Watching? ==> P.Apply(limit, s, step).coord == s.coord
    ensures step.Reporting? || step.Deciding?
    ensures id == s.workers[step.w].d.job.id && P.Apply(limit, s, step).coord.final[id] == s.workers[step.w].d.job.batch
    ensures step.Reporting? ==> step.error.None?
    ensures step.Deciding? ==> P.DecisionFor(s.workers[step.w], step.answer).action.Escalate?
  {
    if step.Reporting? {
      ReportGain(limit, s, step, id);
    } else if step.Deciding? {
      DecisionGain(limit, s, step, id);
    } else {
      OnlyReportsFinish(limit, s, step);
    }
  }

  lemma ReportGain(limit: nat, s: P.Sys, step: P.Step, id: string)
    requires P.Enabled(limit, s, step) && step.Reporting?
    requires id !in s.coord.final && id in P.Apply(limit, s, step).coord.final
    ensures id == s.workers[step.w].d.job.id && P.Apply(limit, s, step).coord.final[id] == s.workers[step.w].d.job.batch
    ensures step.error.None?
  {
  }

  lemma DecisionGain(limit: nat, s: P.Sys, step: P.Step, id: string)
    requires P.Enabled(limit, s, step) && step.Deciding?
    requires id !in s.coord.final && id in P.Apply(limit, s, step).coord.final
    ensures id == s.workers[step.w].d.job.id && P.Apply(limit, s, step).coord.final[id] == s.workers[step.w].d.job.batch
    ensures P.DecisionFor(s.workers[step.w], step.answer).action.Escalate?
  {
  }

  lemma OnlyReportsFinish(limit: nat, s: P.Sys, step: P.Step)
    requires P.Enabled(limit, s, step) && !step.Reporting? && !step.Deciding?
    requires step.Watching? ==> P.Apply(limit, s, step).coord == s.coord
    ensures P.Apply(limit, s, step).coord.final == s.coord.final
  {
  }

  lemma NewFinal(limit: nat, w: R.World, s: P.Sys, b: B.State, step: P.Step, id: string)
    requires P.Enabled(limit, s, step) && SubjectOk(s, b, step) && WorkerOk(s, step)
    requires Faithful(limit, w, s, step) && Mirrored(w, s, b, step)
    requires id !in s.coord.final && id in P.Apply(limit, s, step).coord.final
    requires step.Watching? ==> P.Apply(limit, s, step).coord == s.coord
    ensures id in Mirror(s, b, step).jobs
            && Mirror(s, b, step).jobs[id].batch == P.Apply(limit, s, step).coord.final[id]
  {
    FinalGain(limit, s, step, id);
    var batch := s.workers[step.w].d.job.batch;
    assert b.jobs[id].batch == batch;
    if step.Deciding? {
      DecisionIsMirrored(limit, w, s, b, step);
      assert B.ReportDecision(b, id, B.DecisionFor(b, id, step.answer)).jobs[id].batch == batch;
    } else {
      assert B.ReportOutcome(b, id, None).jobs[id].batch == batch;
    }
  }

  lemma FromIsEmptied(limit: nat, s: P.Sys, step: P.Step)
    requires P.Enabled(limit, s, step) && WorkerOk(s, step) && SubjectNotTerminal(s, step)
    requires From(s, step).Some? && From(s, step) != To(limit, s, step)
    ensures !Carries(P.Apply(limit, s, step), From(s, step).value)
  {
  }

  ghost predicate SubjectNotTerminal(s: P.Sys, step: P.Step) {
    Subject(s, step) !in s.coord.terminal
  }

  // A job other than the step's own shows in the broker as before.
  lemma OtherShows(limit: nat, w: R.World, s: P.Sys, b: B.State, step: P.Step, id: string, v: View)
    requires Mirrored(w, s, b, step) && Shows(b, id, v)
    requires BrokerStep(s, step).Some? && !step.Closing? ==> id != Subject(s, step)
    ensures Shows(Mirror(s, b, step), id, v)
    ensures id in b.finished <==> id in Mirror(s, b, step).finished
  {
    if BrokerStep(s, step).Some? && !step.Closing? {
      B.OtherJob(b, BrokerStep(s, step).value, id);
    }
  }

  // A carrier the step does not touch carries another job, unless the step concerns no job at all.
  lemma OtherCarrier(limit: nat, s: P.Sys, b: B.State, step: P.Step, c: Carrier)
    requires Carried(s, b) && B.Placed(b) && b.original == s.coord.jobs && P.Enabled(limit, s, step)
    requires Carries(s, c) && Some(c) != From(s, step) && BrokerStep(s, step).Some? && !step.Closing?
    ensures IdOf(s, c) != Subject(s, step)
  {
    assert CarriedRight(s, b, c);
    assert B.InOnePlace(b, IdOf(s, c));
    if From(s, step).Some? {
      FromIsCarried(limit, s, step);
    }
  }

  lemma CarrierStays(limit: nat, w: R.World, s: P.Sys, b: B.State, step: P.Step, c: Carrier)
    requires Carried(s, b) && B.Placed(b) && Linked(limit, s, b) && P.Enabled(limit, s, step) && Smooth(limit, step)
    requires Held(s) && WorkerOk(s, step) && SubjectOk(s, b, step) && !step.Redriving?
    requires Mirrored(w, s, b, step) && FilledRight(limit, s, b, step)
    requires Linked(limit, P.Apply(limit, s, step), Mirror(s, b, step))
    ensures CarriedRight(P.Apply(limit, s, step), Mirror(s, b, step), c)
  {
    if Some(c) == To(limit, s, step) || !Carries(P.Apply(limit, s, step), c) {
    } else if Some(c) == From(s, step) {
      FromIsEmptied(limit, s, step);
    } else {
      OtherCarrierStays(limit, w, s, b, step, c);
    }
  }

  lemma OtherCarrierStays(limit: nat, w: R.World, s: P.Sys, b: B.State, step: P.Step, c: Carrier)
    requires Carried(s, b) && B.Placed(b) && Linked(limit, s, b) && P.Enabled(limit, s, step) && Smooth(limit, step)
    requires Held(s) && !step.Redriving? && Mirrored(w, s, b, step)
    requires Mirror(s, b, step).finished == P.Apply(limit, s, step).coord.terminal
    requires Carries(P.Apply(limit, s, step), c) && Some(c) != To(limit, s, step) && Some(c) != From(s, step)
    ensures CarriedRight(P.Apply(limit, s, step), Mirror(s, b, step), c)
  {
    OthersStay(limit, s, step, c);
    assert CarriedRight(s, b, c);
    if BrokerStep(s, step).Some? && !step.Closing? {
      OtherCarrier(limit, s, b, step, c);
    }
    OtherShows(limit, w, s, b, step, IdOf(s, c), ViewOf(s, c));
  }

  lemma CarriersStayApart(limit: nat, s: P.Sys, b: B.State, step: P.Step, c: Carrier, d: Carrier)
    requires Carried(s, b) && B.Placed(b) && b.original == s.coord.jobs && P.Enabled(limit, s, step)
             && Smooth(limit, step)
    requires Held(s) && WorkerOk(s, step) && SubjectOk(s, b, step) && !step.Redriving?
    requires BrokerStep(s, step).Some? ==> B.Enabled(b, BrokerStep(s, step).value)
    requires FilledRight(limit, s, b, step)
    requires var s' := P.Apply(limit, s, step); Carries(s', c) && Carries(s', d) && IdOf(s', c) == IdOf(s', d)
    ensures c == d
  {
    if Some(c) == To(limit, s, step) {
      ApartFromFilled(limit, s, b, step, d);
    } else if Some(d) == To(limit, s, step) {
      ApartFromFilled(limit, s, b, step, c);
    } else {
      Untouched(limit, s, b, step, c);
      Untouched(limit, s, b, step, d);
    }
  }

  lemma ApartFromFilled(limit: nat, s: P.Sys, b: B.State, step: P.Step, c: Carrier)
    requires Carried(s, b) && B.Placed(b) && b.original == s.coord.jobs && P.Enabled(limit, s, step)
             && Smooth(limit, step)
    requires Held(s) && WorkerOk(s, step) && SubjectOk(s, b, step) && !step.Redriving?
    requires BrokerStep(s, step).Some? ==> B.Enabled(b, BrokerStep(s, step).value)
    requires FilledRight(limit, s, b, step) && To(limit, s, step).Some?
    requires Carries(P.Apply(limit, s, step), c)
    ensures Some(c) != To(limit, s, step) ==>
              IdOf(P.Apply(limit, s, step), c) != IdOf(P.Apply(limit, s, step), To(limit, s, step).value)
  {
    if Some(c) != To(limit, s, step) {
      FilledApart(limit, s, b, step, c);
    }
  }

  // What a step does not fill carries another job than what it fills.
  lemma FilledApart(limit: nat, s: P.Sys, b: B.State, step: P.Step, c: Carrier)
    requires Carried(s, b) && B.Placed(b) && b.original == s.coord.jobs && P.Enabled(limit, s, step)
             && Smooth(limit, step)
    requires Held(s) && WorkerOk(s, step) && SubjectOk(s, b, step) && !step.Redriving?
    requires BrokerStep(s, step).Some? ==> B.Enabled(b, BrokerStep(s, step).value)
    requires FilledRight(limit, s, b, step) && To(limit, s, step).Some?
    requires Carries(P.Apply(limit, s, step), c) && Some(c) != To(limit, s, step)
    ensures IdOf(P.Apply(limit, s, step), c) != IdOf(P.Apply(limit, s, step), To(limit, s, step).value)
  {
    Untouched(limit, s, b, step, c);
    FilledMeansOther(limit, s, b, step, c);
  }

  lemma Untouched(limit: nat, s: P.Sys, b: B.State, step: P.Step, c: Carrier)
    requires P.Enabled(limit, s, step) && Smooth(limit, step)
    requires Held(s) && WorkerOk(s, step) && SubjectOk(s, b, step) && !step.Redriving?
    requires Carries(P.Apply(limit, s, step), c) && Some(c) != To(limit, s, step)
    ensures Carries(s, c) && Some(c) != From(s, step) && IdOf(P.Apply(limit, s, step), c) == IdOf(s, c)
  {
    if Some(c) == From(s, step) {
      FromIsEmptied(limit, s, step);
    } else {
      OthersStay(limit, s, step, c);
    }
  }

  // What a step fills holds the step's own job, which no untouched carrier holds.
  lemma FilledMeansOther(limit: nat, s: P.Sys, b: B.State, step: P.Step, c: Carrier)
    requires Carried(s, b) && B.Placed(b) && b.original == s.coord.jobs && P.Enabled(limit, s, step)
    requires Carries(s, c) && Some(c) != From(s, step) && To(limit, s, step).Some?
    ensures IdOf(s, c) != Subject(s, step)
  {
    if From(s, step).Some? {
      FromIsCarried(limit, s, step);
    } else {
      assert CarriedRight(s, b, c);
      assert B.InOnePlace(b, IdOf(s, c));
    }
  }

  lemma CarriedStep(limit: nat, w: R.World, s: P.Sys, b: B.State, step: P.Step)
    requires Carried(s, b) && B.Placed(b) && Linked(limit, s, b) && P.Enabled(limit, s, step) && Smooth(limit, step)
    requires Held(s) && WorkerOk(s, step) && SubjectOk(s, b, step) && !step.Redriving?
    requires Mirrored(w, s, b, step) && FilledRight(limit, s, b, step)
    requires Linked(limit, P.Apply(limit, s, step), Mirror(s, b, step))
    ensures Carried(P.Apply(limit, s, step), Mirror(s, b, step))
  {
    var s', b' := P.Apply(limit, s, step), Mirror(s, b, step);
    forall c
      ensures CarriedRight(s', b', c)
    {
      CarrierStays(limit, w, s, b, step, c);
    }
    forall c, d | Carries(s', c) && Carries(s', d) && IdOf(s', c) == IdOf(s', d)
      ensures c == d
    {
      CarriersStayApart(limit, s, b, step, c, d);
    }
  }

  lemma StepFills(limit: nat, w: R.World, s: P.Sys, b: B.State, step: P.Step)
    requires SubjectOk(s, b, step) && WorkerOk(s, step) && P.Enabled(limit, s, step) && Faithful(limit, w, s, step)
    requires Mirrored(w, s, b, step) && P.JobsOk(s) && s.coord.terminal.Keys <= s.coord.jobs.Keys
    ensures FilledRight(limit, s, b, step)
  {
    match step
    case Submitting(_, _) => SubmitFills(limit, w, s, b, step);
    case Receiving(_, _) => ReceiveFills(limit, w, s, b, step);
    case Starting(_) => StartFills(limit, s, b, step);
    case Reporting(_, _) => ReportFills(limit, w, s, b, step);
    case Deciding(_, _) => DecisionFills(limit, w, s, b, step);
    case Enqueuing(_) => QueueMoveFills(limit, s, b, step);
    case Releasing(_, _) => QueueMoveFills(limit, s, b, step);
    case Resending(_) => QueueMoveFills(limit, s, b, step);
    case _ =>
  }

  /** A crash-free, expiry-free SQS step is a broker step or invisible to the broker. */
  lemma StepIsSimulated(limit: nat, w: R.World, s: P.Sys, b: B.State, step: P.Step)
    requires Simulates(limit, s, b) && P.Enabled(limit, s, step) && Smooth(limit, step) && Faithful(limit, w, s, step)
    ensures Mirrored(w, s, b, step)
    ensures Simulates(limit, P.Apply(limit, s, step), Mirror(s, b, step))
  {
    if step.Redriving? {
      NothingIsExhausted(limit, s, b, step.msg);
    } else {
      SubjectShown(limit, s, b, step);
      WorkerJob(limit, s, step);
      if step.Submitting? {
        assert B.InOnePlace(b, step.job.id);
        SubmitIsMirrored(limit, w, s, b, step);
      } else {
        StepIsMirrored(limit, w, s, b, step);
      }
      StepFills(limit, w, s, b, step);
      LinkedStep(limit, w, s, b, step);
      HeldStep(limit, s, step);
      CarriedStep(limit, w, s, b, step);
      if step.Watching? {
        NothingToBury(limit, s, step);
      }
      P.StepKeepsInv(limit, s, step);
      FinalStep(limit, w, s, b, step);
      if BrokerStep(s, step).Some? {
        B.StepKeepsInv(b, BrokerStep(s, step).value);
      }
    }
  }

  /** Every smooth SQS run has a broker run in the same world that it simulates. */
  lemma {:induction false} RunIsSimulated(limit: nat, workers: nat, w: R.World, steps: seq<P.Step>, s: P.Sys)
    returns (trace: seq<B.Step>, b: B.State)
    requires SmoothRun(limit, workers, w, steps, s)
    ensures R.FaithfulRun(w, trace, b) && Simulates(limit, s, b) && P.Reached(limit, workers, steps, s)
  {
    if steps == [] {
      trace, b := [], B.INITIAL;
      InitiallySimulated(limit, workers);
    } else {
      var front, step := steps[..|steps| - 1], steps[|steps| - 1];
      var prior :| SmoothStep(limit, workers, w, steps, prior, s);
      var t, a := RunIsSimulated(limit, workers, w, front, prior);
      StepIsSimulated(limit, w, prior, a, step);
      b := Mirror(prior, a, step);
      match BrokerStep(prior, step) {
        case None => trace := t;
        case Some(x) =>
          trace := t + [x];
          assert trace[..|trace| - 1] == t;
          assert R.FaithfulStep(w, trace, a, b);
      }
    }
  }

  lemma InitiallySimulated(limit: nat, workers: nat)
    ensures Simulates(limit, P.Initial(workers), B.INITIAL)
  {
    P.InitialInv(limit, workers);
    assert B.Ids(B.INITIAL, Succeeded) == {} && B.Ids(B.INITIAL, Escalated) == {} && B.Ids(B.INITIAL, Dead) == {};
  }
}
