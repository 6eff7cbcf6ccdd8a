/** cmd/tracer: the device table rebuilt from the event log, and its agreement with the registry. */
module Tracer {
  import opened Wrappers
  import opened Devices
  import opened DeviceRegistry

  /** A log line. `kind` is None for the event types that do not concern device tables. */
  datatype Event = Event(timestamp: int, jobId: string, kind: Option<Kind>, version: nat, attempt: nat)

  datatype Row = Row(desired: nat, acked: nat, attempts: nat, failedAt: nat, timeouts: nat, dupIgnored: nat,
      staleAcks: nat)

  const EMPTY_ROW := Row(0, 0, 0, 0, 0, 0, 0)

  function State(r: Row): Status {
    if r.desired == 0 then Idle
    else if r.acked >= r.desired then Acked
    else if r.failedAt == r.desired then Failed
    else Pending
  }

  /** One event's effect on its device's row. */
  function Replayed(r: Row, n: Note): Row {
    match n.kind
    case ConfigSet => r.(desired := n.version, attempts := 0)
    case PushMade => if n.version == r.desired then r.(attempts := n.attempt) else r
    case AckReceived => if n.version > r.acked then r.(acked := n.version) else r
    case PushFailed => r.(failedAt := n.version)
    case AckTimeout => r.(timeouts := r.timeouts + 1)
    case DuplicateIgnored => r.(dupIgnored := r.dupIgnored + 1)
    case StaleAckIgnored => r.(staleAcks := r.staleAcks + 1)
  }

  function Replay(notes: seq<Note>): Row {
    if notes == [] then EMPTY_ROW
    else Replayed(Replay(notes[..|notes| - 1]), notes[|notes| - 1])
  }

  /** The same from a given row, for the at most two events of one lock section. */
  function Further(r: Row, notes: seq<Note>): Row {
    if |notes| == 0 then r
    else if |notes| == 1 then Replayed(r, notes[0])
    else Replayed(Replayed(r, notes[0]), notes[1])
  }

  lemma ReplayAppend(notes: seq<Note>, more: seq<Note>)
    requires |more| <= 2
    ensures Replay(notes + more) == Further(Replay(notes), more)
  {
    if |more| == 0 {
      assert notes + more == notes;
    } else {
      assert (notes + more)[..|notes + more| - 1] == notes + more[..|more| - 1];
      if |more| == 2 {
        assert (notes + more[..1])[..|notes|] == notes;
      } else {
        assert notes + more[..0] == notes;
      }
    }
  }

  // ---- what a row says of any log ----

  predicate IsLast(notes: seq<Note>, kind: Kind, k: nat) {
    k < |notes| && notes[k].kind == kind && forall j | k < j < |notes| :: notes[j].kind != kind
  }

  /** A push of `version` with no config set behind it. */
  predicate IsAttempt(notes: seq<Note>, version: nat, k: nat) {
    k < |notes| && notes[k].kind == PushMade && notes[k].version == version
    && forall j | k < j < |notes| :: notes[j].kind != ConfigSet
  }

  ghost predicate NewestIs(notes: seq<Note>, kind: Kind, version: nat) {
    && (forall k: nat :: IsLast(notes, kind, k) ==> version == notes[k].version)
    && ((forall k | 0 <= k < |notes| :: notes[k].kind != kind) ==> version == 0)
  }

  ghost predicate HighestIs(notes: seq<Note>, kind: Kind, version: nat) {
    && (forall k | 0 <= k < |notes| && notes[k].kind == kind :: notes[k].version <= version)
    && (version > 0 ==> exists k :: 0 <= k < |notes| && notes[k].kind == kind && notes[k].version == version)
  }

  ghost predicate AttemptIs(notes: seq<Note>, version: nat, attempt: nat) {
    && (forall k: nat :: IsAttempt(notes, version, k) && (forall j: nat :: j > k ==> !IsAttempt(notes, version, j)) ==>
          attempt == notes[k].attempt)
    && ((forall k: nat :: !IsAttempt(notes, version, k)) ==> attempt == 0)
  }

  lemma {:induction false} DesiredIsNewest(notes: seq<Note>)
    ensures NewestIs(notes, ConfigSet, Replay(notes).desired)
  {
    if notes != [] {
      var front, last := notes[..|notes| - 1], notes[|notes| - 1];
      DesiredIsNewest(front);
      NewestNext(front, last, ConfigSet, Replay(front).desired);
      assert notes == front + [last];
    }
  }

  lemma {:induction false} FailedIsNewest(notes: seq<Note>)
    ensures NewestIs(notes, PushFailed, Replay(notes).failedAt)
  {
    if notes != [] {
      var front, last := notes[..|notes| - 1], notes[|notes| - 1];
      FailedIsNewest(front);
      NewestNext(front, last, PushFailed, Replay(front).failedAt);
      assert notes == front + [last];
    }
  }

  lemma {:induction false} AckedIsHighest(notes: seq<Note>)
    ensures HighestIs(notes, AckReceived, Replay(notes).acked)
  {
    if notes != [] {
      var front, last := notes[..|notes| - 1], notes[|notes| - 1];
      AckedIsHighest(front);
      HighestNext(front, last, Replay(front).acked);
      assert notes == front + [last];
    }
  }

  lemma {:induction false} AttemptsAreLatest(notes: seq<Note>)
    ensures AttemptIs(notes, Replay(notes).desired, Replay(notes).attempts)
  {
    if notes != [] {
      var front, last := notes[..|notes| - 1], notes[|notes| - 1];
      AttemptsAreLatest(front);
      AttemptNext(front, last, Replay(front).desired, Replay(front).attempts);
      assert notes == front + [last];
    }
  }

  /** Of any sequence of events: the desired version is that of the last config set, the acked version the highest
      acknowledged, the failed version the last given up on, and the attempts those of the last push of the desired
      version since it was set. */
  lemma ReplayMeans(notes: seq<Note>)
    ensures var r := Replay(notes);
            && NewestIs(notes, ConfigSet, r.desired) && HighestIs(notes, AckReceived, r.acked)
            && NewestIs(notes, PushFailed, r.failedAt) && AttemptIs(notes, r.desired, r.attempts)
  {
    DesiredIsNewest(notes);
    AckedIsHighest(notes);
    FailedIsNewest(notes);
    AttemptsAreLatest(notes);
  }

  lemma NewestNext(notes: seq<Note>, n: Note, kind: Kind, version: nat)
    requires NewestIs(notes, kind, version)
    ensures NewestIs(notes + [n], kind, if n.kind == kind then n.version else version)
  {
    var more := notes + [n];
    assert more[|notes|] == n;
    if n.kind != kind {
      forall k: nat | IsLast(more, kind, k) ensures version == more[k].version {
        assert forall j | k < j < |notes| :: more[j] == notes[j];
        assert IsLast(notes, kind, k);
      }
      if forall k | 0 <= k < |more| :: more[k].kind != kind {
        assert forall k | 0 <= k < |notes| :: notes[k] == more[k];
      }
    } else {
      assert forall k: nat :: IsLast(more, kind, k) ==> k == |notes|;
    }
  }

  lemma HighestNext(notes: seq<Note>, n: Note, version: nat)
    requires HighestIs(notes, AckReceived, version)
    ensures HighestIs(notes + [n], AckReceived, if n.kind == AckReceived && n.version > version then n.version
                                                else version)
  {
    var more := notes + [n];
    assert more[|notes|] == n;
    if version > 0 {
      var k :| 0 <= k < |notes| && notes[k].kind == AckReceived && notes[k].version == version;
      assert more[k] == notes[k];
    }
  }

  lemma AttemptNext(notes: seq<Note>, n: Note, desired: nat, attempt: nat)
    requires AttemptIs(notes, desired, attempt)
    ensures AttemptIs(notes + [n], if n.kind == ConfigSet then n.version else desired,
                      if n.kind == ConfigSet then 0
                      else if n.kind == PushMade && n.version == desired then n.attempt else attempt)
  {
    var more := notes + [n];
    assert more[|notes|] == n;
    if n.kind == ConfigSet {
      assert forall k: nat :: !IsAttempt(more, n.version, k);
    } else if n.kind == PushMade && n.version == desired {
      assert IsAttempt(more, desired, |notes|);
    } else {
      forall k: nat ensures IsAttempt(more, desired, k) <==> IsAttempt(notes, desired, k) {
        assert forall j | k < j < |notes| :: more[j] == notes[j];
      }
    }
  }

  // ---- one device: the row against the registry entry ----

  /** What the replay knows of the entry. The log has no event for Retry. */
  ghost predicate Matches(r: Row, e: Entry, retried: seq<nat>) {
    && r.desired == e.desired && r.acked == e.acked
    && (e.pushedFor == e.desired ==> r.attempts == e.attempts)
    && r.failedAt <= e.desired
    && (forall v | v in retried :: v <= e.desired)
    && (e.desired > 0 ==> (r.failedAt == e.desired <==> e.status == Failed || e.desired in retried))
  }

  ghost predicate RowOk(s: Sys) {
    Matches(Replay(s.log), s.entry, s.retried)
  }

  lemma SetMatches(r: Row, e: Entry, retried: seq<nat>, config: Config)
    requires Matches(r, e, retried) && e.pushedFor <= e.desired
    ensures var (after, notes) := SetConfig(e, config);
            |notes| <= 2 && Matches(Further(r, notes), after, retried)
  {
  }

  lemma RetryMatches(r: Row, e: Entry, retried: seq<nat>)
    requires Matches(r, e, retried) && (e.status == Failed ==> e.desired > 0)
    ensures Matches(r, Retry(e), if e.status == Failed then retried + [e.desired] else retried)
  {
  }

  lemma TopMatches(r: Row, e: Entry, retried: seq<nat>, closed: bool, maxAttempts: nat)
    requires Matches(r, e, retried) && maxAttempts >= 1
    ensures match LoopTop(e, closed, maxAttempts)
            case Leave(after, notes) => |notes| <= 2 && Matches(Further(r, notes), after, retried)
            case Send(after, notes, _) => |notes| <= 2 && Matches(Further(r, notes), after, retried)
  {
  }

  lemma ReplyMatches(r: Row, e: Entry, retried: seq<nat>, version: nat, attempt: nat, reply: Result<Ack, string>)
    requires Matches(r, e, retried) && e.status != Failed
    ensures var (after, notes) := LoopReply(e, version, attempt, reply);
            |notes| <= 2 && Matches(Further(r, notes), after, retried)
  {
  }

  // The part of the registry's invariant the replay depends on.
  ghost predicate EntryOk(maxAttempts: nat, s: Sys) {
    LoopsOk(s) && OrderOk(s) && StatusOk(maxAttempts, s) && BudgetOk(maxAttempts, s)
  }

  lemma TopKeepsRow(maxAttempts: nat, s: Sys, step: Step)
    requires EntryOk(maxAttempts, s) && RowOk(s) && Enabled(s, step) && step.Topping?
    ensures RowOk(Apply(maxAttempts, s, step))
  {
    TopMatches(Replay(s.log), s.entry, s.retried, s.closed, maxAttempts);
    match LoopTop(s.entry, s.closed, maxAttempts)
    case Leave(_, notes) => ReplayAppend(s.log, notes);
    case Send(_, notes, _) => ReplayAppend(s.log, notes);
  }

  lemma TimeoutKeepsRow(maxAttempts: nat, s: Sys, step: Step)
    requires EntryOk(maxAttempts, s) && RowOk(s) && Enabled(s, step) && step.TimingOut?
    ensures RowOk(Apply(maxAttempts, s, step))
  {
    var pc := s.loops[step.loop];
    ReplyMatches(Replay(s.log), s.entry, s.retried, pc.version, pc.attempt, Failure(step.error));
    ReplayAppend(s.log, LoopReply(s.entry, pc.version, pc.attempt, Failure(step.error)).1);
  }

  lemma AnswerKeepsRow(maxAttempts: nat, s: Sys, step: Step)
    requires EntryOk(maxAttempts, s) && RowOk(s) && Enabled(s, step) && step.Answering?
    ensures RowOk(Apply(maxAttempts, s, step))
  {
    var pc := s.loops[step.loop];
    ReplyMatches(Replay(s.log), s.entry, s.retried, pc.version, pc.attempt, Success(s.acks[step.ack]));
    ReplayAppend(s.log, LoopReply(s.entry, pc.version, pc.attempt, Success(s.acks[step.ack])).1);
  }

  lemma SectionKeepsRow(maxAttempts: nat, s: Sys, step: Step)
    requires EntryOk(maxAttempts, s) && RowOk(s) && Enabled(s, step)
    requires !step.Topping? && !step.TimingOut? && !step.Answering?
    ensures RowOk(Apply(maxAttempts, s, step))
  {
    if step.Setting? {
      SetMatches(Replay(s.log), s.entry, s.retried, step.config);
      ReplayAppend(s.log, SetConfig(s.entry, step.config).1);
    } else if step.Retrying? {
      RetryMatches(Replay(s.log), s.entry, s.retried);
    } else {
      assert Apply(maxAttempts, s, step).log == s.log;
    }
  }

  lemma RowStep(maxAttempts: nat, s: Sys, step: Step)
    requires Inv(maxAttempts, s) && RowOk(s) && Enabled(s, step)
    ensures RowOk(Apply(maxAttempts, s, step))
  {
    if step.Topping? {
      TopKeepsRow(maxAttempts, s, step);
    } else if step.TimingOut? {
      TimeoutKeepsRow(maxAttempts, s, step);
    } else if step.Answering? {
      AnswerKeepsRow(maxAttempts, s, step);
    } else {
      SectionKeepsRow(maxAttempts, s, step);
    }
  }

  lemma {:induction false} RowIsTracked(maxAttempts: nat, steps: seq<Step>)
    requires maxAttempts >= 1 && Exec(maxAttempts, INITIAL, steps).Some?
    ensures Inv(maxAttempts, Exec(maxAttempts, INITIAL, steps).value) && RowOk(Exec(maxAttempts, INITIAL, steps).value)
  {
    RunKeepsInv(maxAttempts, steps);
    if steps != [] {
      RowIsTracked(maxAttempts, steps[..|steps| - 1]);
      RowStep(maxAttempts, Exec(maxAttempts, INITIAL, steps[..|steps| - 1]).value, steps[|steps| - 1]);
    }
  }

  /** The replayed row of a device has the registry's versions in every reachable state, its attempts once
      the device is settled, and its state except where the registry is pending on a retried version: the
      log has no event for Retry, and there the tracer says failed. */
  lemma ReplayAgreesWithRegistry(maxAttempts: nat, steps: seq<Step>)
    requires maxAttempts >= 1 && Exec(maxAttempts, INITIAL, steps).Some?
    ensures var s := Exec(maxAttempts, INITIAL, steps).value; var r := Replay(s.log);
            && r.desired == s.entry.desired && r.acked == s.entry.acked
            && (s.loops == [] && !s.closed ==> r.attempts == s.entry.attempts)
            && (State(r) != s.entry.status <==> s.entry.status == Pending && s.entry.desired in s.retried)
            && (State(r) != s.entry.status ==> State(r) == Failed)
            && (s.retried == [] ==> State(r) == s.entry.status)
  {
    RowIsTracked(maxAttempts, steps);
    RowMeansAgreement(maxAttempts, Exec(maxAttempts, INITIAL, steps).value);
  }

  lemma RowMeansAgreement(maxAttempts: nat, s: Sys)
    requires Inv(maxAttempts, s) && RowOk(s)
    ensures var r := Replay(s.log);
            && (s.loops == [] && !s.closed ==> r.attempts == s.entry.attempts)
            && (State(r) != s.entry.status <==> s.entry.status == Pending && s.entry.desired in s.retried)
            && (State(r) != s.entry.status ==> State(r) == Failed)
            && (s.retried == [] ==> State(r) == s.entry.status)
  {
  }

  // ---- the counters ----

  datatype Counter = Timeouts | Duplicates | Stales

  function CounterOf(r: Row, c: Counter): nat {
    match c
    case Timeouts => r.timeouts
    case Duplicates => r.dupIgnored
    case Stales => r.staleAcks
  }

  /** The steps a counter counts: a send without an answer, an answer of a device that already ran the desired
      version, and an answer of another version than the desired one. */
  predicate Counts(s: Sys, step: Step, c: Counter)
    requires Enabled(s, step)
  {
    match c
    case Timeouts => step.TimingOut?
    case Duplicates => step.Answering? && s.acks[step.ack].version == s.entry.desired && !s.acks[step.ack].applied
    case Stales => step.Answering? && s.acks[step.ack].version != s.entry.desired
  }

  ghost function Happened(maxAttempts: nat, steps: seq<Step>, c: Counter): nat
    requires Exec(maxAttempts, INITIAL, steps).Some?
  {
    if steps == [] then 0
    else
      var front := steps[..|steps| - 1];
      var prior := Exec(maxAttempts, INITIAL, front).value;
      Happened(maxAttempts, front, c) + if Counts(prior, steps[|steps| - 1], c) then 1 else 0
  }

  // What one lock section adds to the log.
  ghost function Added(maxAttempts: nat, s: Sys, step: Step): seq<Note>
    requires Enabled(s, step)
  {
    match step
    case Setting(config) => SetConfig(s.entry, config).1
    case Topping(_) => LoopTop(s.entry, s.closed, maxAttempts).notes
    case TimingOut(l, error) => LoopReply(s.entry, s.loops[l].version, s.loops[l].attempt, Failure(error)).1
    case Answering(l, k) => LoopReply(s.entry, s.loops[l].version, s.loops[l].attempt, Success(s.acks[k])).1
    case _ => []
  }

  lemma LogGrows(maxAttempts: nat, s: Sys, step: Step)
    requires Enabled(s, step)
    ensures Apply(maxAttempts, s, step).log == s.log + Added(maxAttempts, s, step)
    ensures |Added(maxAttempts, s, step)| <= 2
  {
  }

  lemma CounterStep(maxAttempts: nat, s: Sys, step: Step, c: Counter)
    requires Enabled(s, step)
    ensures CounterOf(Replay(Apply(maxAttempts, s, step).log), c) ==
            CounterOf(Replay(s.log), c) + if Counts(s, step, c) then 1 else 0
  {
    LogGrows(maxAttempts, s, step);
    ReplayAppend(s.log, Added(maxAttempts, s, step));
    AddedCounts(maxAttempts, s, step, Replay(s.log), c);
  }

  lemma AddedCounts(maxAttempts: nat, s: Sys, step: Step, r: Row, c: Counter)
    requires Enabled(s, step)
    ensures CounterOf(Further(r, Added(maxAttempts, s, step)), c) ==
            CounterOf(r, c) + if Counts(s, step, c) then 1 else 0
  {
  }

  /** The counters of a replayed row are exact: timeouts are the sends that went unanswered, ignored duplicates the
      answers of a device that already ran the desired version, and stale acks the answers of any other version. */
  lemma {:induction false} CountersAreExact(maxAttempts: nat, steps: seq<Step>, c: Counter)
    requires Exec(maxAttempts, INITIAL, steps).Some?
    ensures CounterOf(Replay(Exec(maxAttempts, INITIAL, steps).value.log), c) == Happened(maxAttempts, steps, c)
  {
    if steps != [] {
      var front := steps[..|steps| - 1];
      CountersAreExact(maxAttempts, front, c);
      CounterStep(maxAttempts, Exec(maxAttempts, INITIAL, front).value, steps[|steps| - 1], c);
    }
  }

  const GIVING_UP := [Setting(map[]), Topping(0), TimingOut(0, ""), Waking(0), Topping(0)]

  const PUSHED := INITIAL.(entry := Entry(1, 0, Pending, 1, "", map[], true, 1), loops := [Waiting(1, 1)],
                           sent := [Push(1, map[], 1)], configs := [map[]],
                           log := [Note(ConfigSet, 1, 0), Note(PushMade, 1, 1)])
  const GAVE_UP := PUSHED.(entry := Entry(1, 0, Failed, 1, "", map[], false, 1), loops := [],
                           log := PUSHED.log + [Note(AckTimeout, 1, 1), Note(PushFailed, 1, 1)])

  lemma PushedRuns()
    ensures Exec(1, INITIAL, GIVING_UP[..2]) == Some(PUSHED)
  {
    assert GIVING_UP[..2][..1] == GIVING_UP[..1] && GIVING_UP[..1][..0] == [];
    var configured := INITIAL.(entry := Entry(1, 0, Pending, 0, "", map[], true, 0), loops := [AtTop],
        configs := [map[]],
                               log := [Note(ConfigSet, 1, 0)]);
    assert Apply(1, INITIAL, GIVING_UP[0]) == configured;
    assert Exec(1, INITIAL, GIVING_UP[..1]) == Some(configured);
    assert Apply(1, configured, GIVING_UP[1]) == PUSHED;
  }

  lemma GivingUpRuns()
    ensures Exec(1, INITIAL, GIVING_UP) == Some(GAVE_UP)
  {
    PushedRuns();
    assert GIVING_UP[..3][..2] == GIVING_UP[..2] && GIVING_UP[..4][..3] == GIVING_UP[..3]
           && GIVING_UP[..4] == GIVING_UP[..|GIVING_UP| - 1];
    var timedOut := PUSHED.(loops := [Sleeping], log := PUSHED.log + [Note(AckTimeout, 1, 1)]);
    assert Apply(1, PUSHED, GIVING_UP[2]) == timedOut;
    assert Exec(1, INITIAL, GIVING_UP[..3]) == Some(timedOut);
    var awake := timedOut.(loops := [AtTop]);
    assert Apply(1, timedOut, GIVING_UP[3]) == awake;
    assert Exec(1, INITIAL, GIVING_UP[..4]) == Some(awake);
    assert Apply(1, awake, GIVING_UP[4]) == GAVE_UP;
  }

  /** The disagreement is real: one failed budget, then Retry. */
  lemma RetryLeavesNoTrace()
    ensures var run := Exec(1, INITIAL, GIVING_UP + [Retrying]);
            run.Some? && run.value.entry.status == Pending && State(Replay(run.value.log)) == Failed
  {
    GivingUpRuns();
    GivenUpReplays();
    assert (GIVING_UP + [Retrying])[..|GIVING_UP|] == GIVING_UP;
    assert Apply(1, GAVE_UP, Retrying).log == GAVE_UP.log;
  }

  lemma GivenUpReplays()
    ensures State(Replay(GAVE_UP.log)) == Failed
  {
    var setting, gaveUp := [Note(ConfigSet, 1, 0), Note(PushMade, 1, 1)],
        [Note(AckTimeout, 1, 1), Note(PushFailed, 1, 1)];
    assert GAVE_UP.log == [] + setting + gaveUp;
    ReplayAppend([], setting);
    ReplayAppend([] + setting, gaveUp);
  }

  // ---- the whole log ----

  const PREFIX := "device:"

  function DeviceJob(id: string): string {
    PREFIX + id
  }

  /** The device an event belongs to. */
  function DeviceOf(e: Event): Option<string> {
    if PREFIX <= e.jobId then Some(e.jobId[|PREFIX|..]) else None
  }

  lemma DeviceOfJob(e: Event, id: string)
    ensures DeviceOf(e) == Some(id) <==> e.jobId == DeviceJob(id) == "device:" + id
  {
    if PREFIX <= e.jobId {
      assert e.jobId == PREFIX + e.jobId[|PREFIX|..];
    }
    if e.jobId == DeviceJob(id) {
      assert e.jobId[|PREFIX|..] == id;
    }
  }

  /** The notes of one device in a log, in order. */
  function NotesOf(events: seq<Event>, id: string): seq<Note> {
    if events == [] then []
    else
      var e := events[|events| - 1];
      NotesOf(events[..|events| - 1], id)
      + if DeviceOf(e) == Some(id) && e.kind.Some? then [Note(e.kind.value, e.version, e.attempt)] else []
  }

  ghost predicate Mentions(events: seq<Event>, id: string) {
    exists i :: 0 <= i < |events| && DeviceOf(events[i]) == Some(id)
  }

  ghost predicate Ordered(events: seq<Event>) {
    forall i, k | 0 <= i < k < |events| :: events[i].timestamp <= events[k].timestamp
  }

  /** Where a stable sort by timestamp puts one more event: after everything that is not later. */
  function Placed(sorted: seq<Event>, e: Event): (r: seq<Event>)
    ensures |r| == |sorted| + 1
  {
    if sorted == [] || sorted[|sorted| - 1].timestamp <= e.timestamp then sorted + [e]
    else Placed(sorted[..|sorted| - 1], e) + [sorted[|sorted| - 1]]
  }

  function StableSorted(events: seq<Event>): (r: seq<Event>)
    ensures |r| == |events|
  {
    if events == [] then []
    else Placed(StableSorted(events[..|events| - 1]), events[|events| - 1])
  }

  /** The events of one instant, in order. */
  function At(events: seq<Event>, timestamp: int): seq<Event> {
    if events == [] then []
    else
      var e := events[|events| - 1];
      At(events[..|events| - 1], timestamp) + if e.timestamp == timestamp then [e] else []
  }

  lemma {:induction false} PlacedKeepsOrder(sorted: seq<Event>, e: Event)
    requires Ordered(sorted)
    ensures Ordered(Placed(sorted, e))
    ensures forall x | x in Placed(sorted, e) :: x in sorted || x == e
  {
    if sorted != [] && sorted[|sorted| - 1].timestamp > e.timestamp {
      var before := sorted[..|sorted| - 1];
      PlacedKeepsOrder(before, e);
      forall x | x in Placed(before, e) ensures x.timestamp <= sorted[|sorted| - 1].timestamp
          && (x in sorted || x == e) {
        assert x in before || x == e;
      }
      var r := Placed(sorted, e);
      forall i | 0 <= i < |r| - 1 ensures r[i] in Placed(before, e) {
      }
    }
  }

  lemma {:induction false} PlacedIsStable(sorted: seq<Event>, e: Event, timestamp: int)
    requires Ordered(sorted)
    ensures At(Placed(sorted, e), timestamp) == At(sorted, timestamp) + if e.timestamp == timestamp then [e] else []
  {
    var r := Placed(sorted, e);
    if sorted == [] || sorted[|sorted| - 1].timestamp <= e.timestamp {
      assert r[..|sorted|] == sorted;
    } else {
      PlacedIsStable(sorted[..|sorted| - 1], e, timestamp);
      assert r[..|sorted|] == Placed(sorted[..|sorted| - 1], e);
    }
  }

  /** Sorted by time, and the events of each instant in the order of the log: this fixes the result. */
  lemma {:induction false} SortIsStable(events: seq<Event>, timestamp: int)
    ensures Ordered(StableSorted(events)) && At(StableSorted(events), timestamp) == At(events, timestamp)
  {
    if events != [] {
      SortIsStable(events[..|events| - 1], timestamp);
      PlacedKeepsOrder(StableSorted(events[..|events| - 1]), events[|events| - 1]);
      PlacedIsStable(StableSorted(events[..|events| - 1]), events[|events| - 1], timestamp);
    }
  }

  lemma {:induction false} SortKeepsOrdered(events: seq<Event>)
    requires Ordered(events)
    ensures StableSorted(events) == events
  {
    if events != [] {
      SortKeepsOrdered(events[..|events| - 1]);
      assert events == events[..|events| - 1] + [events[|events| - 1]];
    }
  }

  function RowIn(rows: map<string, Row>, id: string): Row {
    if id in rows then rows[id] else EMPTY_ROW
  }

  /** One event's effect on the table. */
  function Entered(rows: map<string, Row>, e: Event): map<string, Row> {
    match DeviceOf(e)
    case None => rows
    case Some(id) =>
      rows[id := if e.kind.None? then RowIn(rows, id)
          else Replayed(RowIn(rows, id), Note(e.kind.value, e.version, e.attempt))]
  }

  /** A device has a row exactly when some event mentions it, and the row replays its own events. */
  ghost predicate RowIsReplay(rows: map<string, Row>, events: seq<Event>, id: string) {
    (id in rows <==> Mentions(events, id)) && RowIn(rows, id) == Replay(NotesOf(events, id))
  }

  lemma MentionsNext(events: seq<Event>, e: Event, id: string)
    ensures Mentions(events + [e], id) <==> Mentions(events, id) || DeviceOf(e) == Some(id)
  {
    var more := events + [e];
    assert more[|events|] == e;
    assert forall i | 0 <= i < |events| :: more[i] == events[i];
  }

  lemma ReplayNext(events: seq<Event>, e: Event, id: string)
    ensures Replay(NotesOf(events + [e], id)) ==
            if DeviceOf(e) == Some(id) && e.kind.Some?
            then Replayed(Replay(NotesOf(events, id)), Note(e.kind.value, e.version, e.attempt))
            else Replay(NotesOf(events, id))
  {
    var notes := NotesOf(events, id);
    assert (events + [e])[..|events|] == events;
    if DeviceOf(e) == Some(id) && e.kind.Some? {
      assert NotesOf(events + [e], id)[..|notes|] == notes;
    } else {
      assert NotesOf(events + [e], id) == notes;
    }
  }

  lemma EnteredKeepsReplay(rows: map<string, Row>, events: seq<Event>, e: Event, id: string)
    requires RowIsReplay(rows, events, id)
    ensures RowIsReplay(Entered(rows, e), events + [e], id)
  {
    MentionsNext(events, e, id);
    ReplayNext(events, e, id);
  }

  /** The loop over the sorted log: a row for each device mentioned, and the devices in the order they appear. */
  method RowsOf(sorted: seq<Event>) returns (rows: map<string, Row>, order: seq<string>)
    ensures forall id :: RowIsReplay(rows, sorted, id)
    ensures ListsOnce(order, rows.Keys)
  {
    rows, order := map[], [];
    for k := 0 to |sorted|
      invariant forall id :: RowIsReplay(rows, sorted[..k], id)
      invariant ListsOnce(order, rows.Keys)
    {
      var e := sorted[k];
      ghost var next := Entered(rows, e);
      forall id
        ensures RowIsReplay(Entered(rows, e), sorted[..k] + [e], id)
      {
        EnteredKeepsReplay(rows, sorted[..k], e, id);
      }
      assert sorted[..k + 1] == sorted[..k] + [e];
      if PREFIX <= e.jobId {
        var id := e.jobId[|PREFIX|..];
        ghost var before := rows.Keys;
        if id !in rows {
          order := order + [id];
        }
        var row := if id in rows then rows[id] else EMPTY_ROW;
        if e.kind.Some? {
          row := Replayed(row, Note(e.kind.value, e.version, e.attempt));
        }
        rows := rows[id := row];
        assert rows.Keys == before + {id};
      }
      assert rows == next;
    }
    assert sorted[..|sorted|] == sorted;
  }

  /** Each of the ids once, and nothing else. */
  ghost predicate ListsOnce(order: seq<string>, ids: set<string>) {
    && (forall id :: id in order <==> id in ids)
    && (forall i, j | 0 <= i < j < |order| :: order[i] != order[j])
  }

  /** Lexicographic order, by characters. */
  predicate Precedes(a: string, b: string) {
    a == "" || (b != "" && (a[0] < b[0] || (a[0] == b[0] && Precedes(a[1..], b[1..]))))
  }

  lemma {:induction false} PrecedesIsTotal(a: string, b: string)
    ensures Precedes(a, b) || Precedes(b, a)
  {
    if a != "" && b != "" && a[0] == b[0] {
      PrecedesIsTotal(a[1..], b[1..]);
    }
  }

  lemma {:induction false} PrecedesIsTransitive(a: string, b: string, c: string)
    requires Precedes(a, b) && Precedes(b, c)
    ensures Precedes(a, c)
  {
    if a != "" && a[0] == b[0] && b[0] == c[0] {
      PrecedesIsTransitive(a[1..], b[1..], c[1..]);
    }
  }

  /** Up to `k` the strings agree, and there the first ends or has the smaller character. */
  ghost predicate DiffersAt(a: string, b: string, k: nat) {
    k <= |a| && k <= |b| && a[..k] == b[..k] && (k == |a| || (k < |b| && a[k] < b[k]))
  }

  lemma {:induction false} PrecedesAt(a: string, b: string, k: nat)
    requires DiffersAt(a, b, k)
    ensures Precedes(a, b)
  {
    if a != "" && k > 0 {
      assert a[0] == a[..k][0] && b[0] == b[..k][0];
      assert a[1..][..k - 1] == a[..k][1..] && b[1..][..k - 1] == b[..k][1..];
      PrecedesAt(a[1..], b[1..], k - 1);
    }
  }

  /** The order of the ids is lexicographic: one is a prefix of the other, or has the smaller character where they
      first differ. */
  lemma {:induction false} PrecedesIsLexicographic(a: string, b: string)
    ensures Precedes(a, b) <==> exists k: nat :: DiffersAt(a, b, k)
  {
    if k: nat :| DiffersAt(a, b, k) {
      PrecedesAt(a, b, k);
    }
    if Precedes(a, b) {
      if a == "" || a[0] < b[0] {
        assert DiffersAt(a, b, 0);
      } else {
        PrecedesIsLexicographic(a[1..], b[1..]);
        var k: nat :| DiffersAt(a[1..], b[1..], k);
        assert a == [a[0]] + a[1..] && b == [b[0]] + b[1..];
        assert a[..k + 1] == [a[0]] + a[1..][..k] && b[..k + 1] == [b[0]] + b[1..][..k];
        assert DiffersAt(a, b, k + 1);
      }
    }
  }

  ghost predicate InOrder(ids: seq<string>) {
    forall i, j | 0 <= i < j < |ids| :: Precedes(ids[i], ids[j])
  }

  function InsertedId(ids: seq<string>, id: string): (r: seq<string>)
    ensures |r| == |ids| + 1
  {
    if ids == [] || Precedes(ids[|ids| - 1], id) then ids + [id]
    else InsertedId(ids[..|ids| - 1], id) + [ids[|ids| - 1]]
  }

  function SortedIds(ids: seq<string>): (r: seq<string>)
    ensures |r| == |ids|
  {
    if ids == [] then [] else InsertedId(SortedIds(ids[..|ids| - 1]), ids[|ids| - 1])
  }

  lemma {:induction false} InsertedIdKeeps(ids: seq<string>, id: string)
    requires InOrder(ids) && id !in ids && forall i, j | 0 <= i < j < |ids| :: ids[i] != ids[j]
    ensures var r := InsertedId(ids, id);
            && InOrder(r) && (forall x :: x in r <==> x in ids || x == id)
            && (forall i, j | 0 <= i < j < |r| :: r[i] != r[j])
  {
    if ids != [] {
      var front, last := ids[..|ids| - 1], ids[|ids| - 1];
      assert ids == front + [last];
      if Precedes(last, id) {
        forall x | x in front ensures Precedes(x, id) {
          PrecedesIsTransitive(x, last, id);
        }
      } else {
        PrecedesIsTotal(last, id);
        InsertedIdKeeps(front, id);
        forall x | x in InsertedId(front, id) ensures Precedes(x, last) && x != last {
          if x != id {
            assert x in front;
          }
        }
      }
    }
  }

  lemma {:induction false} SortedIdsKeep(ids: seq<string>)
    requires forall i, j | 0 <= i < j < |ids| :: ids[i] != ids[j]
    ensures InOrder(SortedIds(ids)) && (forall x :: x in SortedIds(ids) <==> x in ids)
    ensures forall i, j | 0 <= i < j < |ids| :: SortedIds(ids)[i] != SortedIds(ids)[j]
  {
    if ids != [] {
      var front, last := ids[..|ids| - 1], ids[|ids| - 1];
      SortedIdsKeep(front);
      assert ids == front + [last];
      InsertedIdKeeps(SortedIds(front), last);
    }
  }

  /** The table: one row per device mentioned, by device id, each the replay of that device's own events. */
  method DeviceStatus(events: seq<Event>) returns (table: seq<(string, Row)>)
    ensures forall i, j | 0 <= i < j < |table| :: Precedes(table[i].0, table[j].0) && table[i].0 != table[j].0
    ensures forall id :: Mentions(StableSorted(events), id) <==> exists i :: 0 <= i < |table| && table[i].0 == id
    ensures forall i | 0 <= i < |table| :: table[i].1 == Replay(NotesOf(StableSorted(events), table[i].0))
  {
    var rows, order := RowsOf(StableSorted(events));
    SortedIdsKeep(order);
    var ids := SortedIds(order);
    table := seq(|ids|, i requires 0 <= i < |ids| => (ids[i], RowIn(rows, ids[i])));
    forall i | 0 <= i < |table|
      ensures table[i].1 == Replay(NotesOf(StableSorted(events), table[i].0))
    {
      assert RowIsReplay(rows, StableSorted(events), table[i].0);
    }
    forall id
      ensures Mentions(StableSorted(events), id) <==> exists i :: 0 <= i < |table| && table[i].0 == id
    {
      assert RowIsReplay(rows, StableSorted(events), id);
      assert id in rows <==> id in ids;
      if id in ids {
        var i :| 0 <= i < |ids| && ids[i] == id;
        assert table[i].0 == id;
      }
    }
  }

  // ---- the log of a registry ----

  /** What the registry's telemetry writes for its records, stamped with the times of writing. */
  function Logged(records: seq<Record>, times: seq<int>): (events: seq<Event>)
    requires |times| == |records|
    ensures |events| == |records|
  {
    if records == [] then []
    else
      var n := |records| - 1;
      var r := records[n];
      Logged(records[..n], times[..n])
          + [Event(times[n], DeviceJob(r.id), Some(r.note.kind), r.note.version, r.note.attempt)]
  }

  /** The notes a registry recorded for one device. */
  function RecordedFor(records: seq<Record>, id: string): seq<Note> {
    if records == [] then []
    else
      var r := records[|records| - 1];
      RecordedFor(records[..|records| - 1], id) + if r.id == id then [r.note] else []
  }

  /** Read back from the log by its "device:" prefix, a device's events are what the registry recorded for it
      and no other device's. */
  lemma {:induction false} LogReadsBack(records: seq<Record>, times: seq<int>, id: string)
    requires |times| == |records|
    ensures NotesOf(Logged(records, times), id) == RecordedFor(records, id)
  {
    if records != [] {
      var n := |records| - 1;
      var events := Logged(records, times);
      LogReadsBack(records[..n], times[..n], id);
      assert events[..n] == Logged(records[..n], times[..n]);
      DeviceOfJob(events[n], id);
      SameJobSameDevice(records[n].id, id);
    }
  }

  lemma SameJobSameDevice(a: string, b: string)
    ensures DeviceJob(a) == DeviceJob(b) <==> a == b
  {
    assert DeviceJob(a)[|PREFIX|..] == a && DeviceJob(b)[|PREFIX|..] == b;
  }

  /** A log a registry with these devices may leave: time does not run backwards, and each device's events
      are those of its own run, however the devices interleave among other jobs' events. */
  ghost predicate LogOf(maxAttempts: nat, events: seq<Event>, runs: map<string, seq<Step>>) {
    && Ordered(events)
    && (forall id | id in runs ::
          Exec(maxAttempts, INITIAL, runs[id]).Some?
          && NotesOf(events, id) == Exec(maxAttempts, INITIAL, runs[id]).value.log)
  }

  /** For every device of the registry, the row computed from the whole interleaved log agrees with the
      registry's entry, and a device that was ever configured has one. */
  lemma TableAgreesWithRegistry(maxAttempts: nat, events: seq<Event>, runs: map<string, seq<Step>>, id: string)
    requires maxAttempts >= 1 && LogOf(maxAttempts, events, runs) && id in runs
    ensures var s := Exec(maxAttempts, INITIAL, runs[id]).value; var r := Replay(NotesOf(StableSorted(events), id));
            && (s.entry.desired > 0 ==> Mentions(StableSorted(events), id))
            && r.desired == s.entry.desired && r.acked == s.entry.acked
            && (s.loops == [] && !s.closed ==> r.attempts == s.entry.attempts)
            && (State(r) != s.entry.status <==> s.entry.status == Pending && s.entry.desired in s.retried)
            && (State(r) != s.entry.status ==> State(r) == Failed)
            && forall c :: CounterOf(r, c) == Happened(maxAttempts, runs[id], c)
  {
    SortKeepsOrdered(events);
    ReplayAgreesWithRegistry(maxAttempts, runs[id]);
    forall c ensures CounterOf(Replay(NotesOf(events, id)), c) == Happened(maxAttempts, runs[id], c) {
      CountersAreExact(maxAttempts, runs[id], c);
    }
    if !Mentions(events, id) {
      UnmentionedHasNoNotes(events, id);
    }
  }

  lemma {:induction false} UnmentionedHasNoNotes(events: seq<Event>, id: string)
    requires !Mentions(events, id)
    ensures NotesOf(events, id) == []
  {
    if events != [] {
      var before := events[..|events| - 1];
      assert forall i | 0 <= i < |before| :: before[i] == events[i];
      UnmentionedHasNoNotes(before, id);
    }
  }
}
