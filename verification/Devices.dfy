/** Versioned config push: internal/devices. Every lock section of SetConfig, Retry and pushLoop is a
    function on a device's registry entry. The machine below runs them for one device against a network
    that drops, delays, repeats and reorders pushes and acknowledgements as it likes. */
module Devices {
  import opened Wrappers

  type Config = map<string, string>

  // The registry's view of delivery: Idle until a config is set, Pending while desired > acked.
  datatype Status = Idle | Pending | Acked | Failed

  datatype Entry = Entry(desired: nat, acked: nat, status: Status, attempts: nat, lastError: string, config: Config,
                         loopRunning: bool, pushedFor: nat)

  const REGISTERED := Entry(0, 0, Idle, 0, "", map[], false, 0)

  datatype Push = Push(version: nat, config: Config, attempt: nat)
  datatype Ack = Ack(version: nat, applied: bool)

  datatype Kind = ConfigSet | PushMade | AckTimeout | StaleAckIgnored | DuplicateIgnored | AckReceived | PushFailed

  // The telemetry event of one lock section.
  datatype Note = Note(kind: Kind, version: nat, attempt: nat)

  // ---- the lock sections ----

  function SetConfig(e: Entry, config: Config): (Entry, seq<Note>) {
    (e.(desired := e.desired + 1, config := config, status := Pending, lastError := "", loopRunning := true),
     [Note(ConfigSet, e.desired + 1, 0)])
  }

  function Retry(e: Entry): Entry {
    if e.status != Failed then e
    else e.(status := Pending, pushedFor := 0, lastError := "", loopRunning := true)
  }

  // The head of the push loop: leave, give up, or push once more.
  datatype Turn = Leave(entry: Entry, notes: seq<Note>) | Send(entry: Entry, notes: seq<Note>, push: Push)

  function LoopTop(e: Entry, closed: bool, maxAttempts: nat): Turn {
    if closed || e.acked >= e.desired then Leave(e.(loopRunning := false), [])
    else
      var renewed := if e.pushedFor != e.desired then e.(pushedFor := e.desired, attempts := 0) else e;
      if renewed.attempts >= maxAttempts then
        Leave(renewed.(status := Failed, loopRunning := false), [Note(PushFailed, e.desired, renewed.attempts)])
      else
        Send(renewed.(attempts := renewed.attempts + 1), [Note(PushMade, e.desired, renewed.attempts + 1)],
             Push(e.desired, e.config, renewed.attempts + 1))
  }

  /** What the loop does with the outcome of a send of `version`, its `attempt`-th. */
  function LoopReply(e: Entry, version: nat, attempt: nat, reply: Result<Ack, string>): (Entry, seq<Note>) {
    match reply
    case Failure(error) => (e.(lastError := error), [Note(AckTimeout, version, attempt)])
    case Success(ack) =>
      if ack.version != e.desired then (e, [Note(StaleAckIgnored, ack.version, attempt)])
      else
        var duplicate := if ack.applied then [] else [Note(DuplicateIgnored, version, attempt)];
        if ack.version > e.acked then
          (e.(acked := ack.version, status := Acked, lastError := ""),
              duplicate + [Note(AckReceived, ack.version, attempt)])
        else (e, duplicate)
  }

  function Finish(e: Entry): Entry {
    e.(loopRunning := false)
  }

  // ---- the simulated device ----

  // `applied` lists the versions actually applied, in order.
  datatype Device = Device(version: nat, config: Config, applied: seq<nat>, received: nat)

  const NEW_DEVICE := Device(0, map[], [], 0)

  function Receive(d: Device, p: Push): (Device, Ack) {
    var seen := d.(received := d.received + 1);
    if p.version <= d.version then (seen, Ack(d.version, false))
    else (seen.(version := p.version, config := p.config, applied := d.applied + [p.version]), Ack(p.version, true))
  }

  // ---- the machine ----

  // Where a push loop stands.
  datatype Pc = AtTop | Waiting(version: nat, attempt: nat) | Sleeping | Finishing

  // `configs` lists the configs set so far, `retried` the version of every Retry that had an effect.
  datatype Sys = Sys(entry: Entry, loops: seq<Pc>, device: Device, sent: seq<Push>, acks: seq<Ack>, log: seq<Note>,
                     configs: seq<Config>, retried: seq<nat>, closed: bool)

  const INITIAL := Sys(REGISTERED, [], NEW_DEVICE, [], [], [], [], [], false)

  datatype Step =
    | Setting(config: Config)
    | Retrying
    | Closing
    | Topping(loop: nat)
    | TimingOut(loop: nat, error: string)
    | Answering(loop: nat, ack: nat)
    | Waking(loop: nat)
    | Cancelling(loop: nat)
    | Ending(loop: nat)
    | Arriving(push: nat)

  predicate Enabled(s: Sys, step: Step) {
    match step
    case Setting(_) => true
    case Retrying => true
    case Closing => true
    case Topping(l) => l < |s.loops| && s.loops[l].AtTop?
    case TimingOut(l, _) => l < |s.loops| && s.loops[l].Waiting?
    case Answering(l, k) => l < |s.loops| && s.loops[l].Waiting? && k < |s.acks|
    case Waking(l) => l < |s.loops| && s.loops[l].Sleeping?
    case Cancelling(l) => l < |s.loops| && s.loops[l].Sleeping? && s.closed
    case Ending(l) => l < |s.loops| && s.loops[l].Finishing?
    case Arriving(k) => k < |s.sent|
  }

  // A section that may start a loop starts one exactly when none was marked as running.
  function Started(s: Sys, e: Entry): seq<Pc> {
    if e.loopRunning && !s.entry.loopRunning then s.loops + [AtTop] else s.loops
  }

  function Gone(loops: seq<Pc>, l: nat): seq<Pc>
    requires l < |loops|
  {
    loops[..l] + loops[l + 1..]
  }

  function Apply(maxAttempts: nat, s: Sys, step: Step): Sys
    requires Enabled(s, step)
  {
    match step
    case Setting(config) =>
      var (e, notes) := SetConfig(s.entry, config);
      s.(entry := e, loops := Started(s, e), log := s.log + notes, configs := s.configs + [config])
    case Retrying =>
      var e := Retry(s.entry);
      s.(entry := e, loops := Started(s, e),
         retried := if s.entry.status == Failed then s.retried + [s.entry.desired] else s.retried)
    case Closing => s.(closed := true)
    case Topping(l) =>
      (match LoopTop(s.entry, s.closed, maxAttempts)
       case Leave(e, notes) => s.(entry := e, loops := Gone(s.loops, l), log := s.log + notes)
       case Send(e, notes, push) =>
         s.(entry := e, loops := s.loops[l := Waiting(push.version, push.attempt)],
            sent := s.sent + [push], log := s.log + notes))
    case TimingOut(l, error) =>
      var (e, notes) := LoopReply(s.entry, s.loops[l].version, s.loops[l].attempt, Failure(error));
      s.(entry := e, loops := s.loops[l := Sleeping], log := s.log + notes)
    case Answering(l, k) =>
      var (e, notes) := LoopReply(s.entry, s.loops[l].version, s.loops[l].attempt, Success(s.acks[k]));
      s.(entry := e, loops := s.loops[l := AtTop], log := s.log + notes)
    case Waking(l) => s.(loops := s.loops[l := AtTop])
    case Cancelling(l) => s.(loops := s.loops[l := Finishing])
    case Ending(l) => s.(entry := Finish(s.entry), loops := Gone(s.loops, l))
    case Arriving(k) =>
      var (d, ack) := Receive(s.device, s.sent[k]);
      s.(device := d, acks := s.acks + [ack])
  }

  function Exec(maxAttempts: nat, s: Sys, steps: seq<Step>): Option<Sys> {
    if steps == [] then Some(s)
    else
      match Exec(maxAttempts, s, steps[..|steps| - 1])
      case None => None
      case Some(prior) =>
        var step := steps[|steps| - 1];
        if Enabled(prior, step) then Some(Apply(maxAttempts, prior, step)) else None
  }

  // ---- the invariant ----

  function LastPushed(s: Sys): nat {
    if s.sent == [] then 0 else s.sent[|s.sent| - 1].version
  }

  /** One loop when marked as running, none otherwise. */
  ghost predicate LoopsOk(s: Sys) {
    |s.loops| == if s.entry.loopRunning then 1 else 0
  }

  /** AckedVersion <= the device's version <= the last pushed version <= DesiredVersion. */
  ghost predicate OrderOk(s: Sys) {
    && s.entry.acked <= s.device.version <= LastPushed(s) <= s.entry.desired == |s.configs|
    && (forall k | 0 <= k < |s.acks| :: s.acks[k].version <= s.device.version)
  }

  /** The entry and the device carry the config that was set with their version. */
  ghost predicate ConfigsOk(s: Sys) {
    && |s.configs| == s.entry.desired && s.device.version <= s.entry.desired
    && (s.entry.desired > 0 ==> s.entry.config == s.configs[s.entry.desired - 1])
    && (s.device.version > 0 ==> s.device.config == s.configs[s.device.version - 1])
  }

  /** So does every push ever sent; versions are sent in order. */
  ghost predicate SentOk(s: Sys) {
    && |s.configs| == s.entry.desired
    && (forall k | 0 <= k < |s.sent| ::
          1 <= s.sent[k].version <= s.entry.desired && s.sent[k].config == s.configs[s.sent[k].version - 1])
    && (forall i, k | 0 <= i < k < |s.sent| :: s.sent[i].version <= s.sent[k].version)
  }

  ghost predicate VersionsOk(s: Sys) {
    OrderOk(s) && ConfigsOk(s) && SentOk(s)
  }

  /** Versions are applied at most once, in increasing order. */
  ghost predicate AppliedOk(d: Device) {
    && (forall i, k | 0 <= i < k < |d.applied| :: d.applied[i] < d.applied[k])
    && d.version == (if d.applied == [] then 0 else d.applied[|d.applied| - 1])
    && (forall i | 0 <= i < |d.applied| :: d.applied[i] <= d.version)
  }

  ghost predicate StatusOk(maxAttempts: nat, s: Sys) {
    var e := s.entry;
    && (e.status == Idle <==> e.desired == 0)
    && (e.status == Acked <==> e.acked == e.desired >= 1)
    && (e.status == Pending && !s.closed ==> e.loopRunning)
    && (e.loopRunning && e.acked < e.desired ==> e.status == Pending)
    && (!s.closed ==> forall l | 0 <= l < |s.loops| :: !s.loops[l].Finishing?)
    && (e.status == Failed ==> !e.loopRunning && e.pushedFor == e.desired && e.attempts == maxAttempts)
  }

  ghost predicate BudgetOk(maxAttempts: nat, s: Sys) {
    var e := s.entry;
    && e.attempts <= maxAttempts && maxAttempts >= 1
    && (e.pushedFor == 0 || e.pushedFor == LastPushed(s))
    && (e.status == Acked ==> e.pushedFor == e.desired)
    && (forall l | 0 <= l < |s.loops| && s.loops[l].Waiting? ::
          s.loops[l] == Waiting(e.pushedFor, e.attempts) && e.pushedFor >= 1 && e.attempts >= 1)
    && (s.entry.desired == 0 ==> s.loops == [])
  }

  ghost predicate Inv(maxAttempts: nat, s: Sys) {
    && LoopsOk(s) && VersionsOk(s) && AppliedOk(s.device) && StatusOk(maxAttempts, s) && BudgetOk(maxAttempts, s)
  }

  lemma LoopsStep(maxAttempts: nat, s: Sys, step: Step)
    requires LoopsOk(s) && Enabled(s, step)
    ensures LoopsOk(Apply(maxAttempts, s, step))
  {
  }

  lemma OrderStep(maxAttempts: nat, s: Sys, step: Step)
    requires VersionsOk(s) && Enabled(s, step)
    ensures OrderOk(Apply(maxAttempts, s, step))
  {
    if step.Arriving? {
      assert s.sent[step.push].version <= LastPushed(s);
    }
  }

  lemma ConfigsStep(maxAttempts: nat, s: Sys, step: Step)
    requires VersionsOk(s) && Enabled(s, step)
    ensures ConfigsOk(Apply(maxAttempts, s, step))
  {
    if step.Arriving? {
      assert 1 <= s.sent[step.push].version <= s.entry.desired;
    }
  }

  lemma SentStep(maxAttempts: nat, s: Sys, step: Step)
    requires VersionsOk(s) && Enabled(s, step)
    ensures SentOk(Apply(maxAttempts, s, step))
  {
    if step.Topping? {
      TopKeepsSent(maxAttempts, s, step);
    }
  }

  lemma TopKeepsSent(maxAttempts: nat, s: Sys, step: Step)
    requires VersionsOk(s) && Enabled(s, step) && step.Topping?
    ensures SentOk(Apply(maxAttempts, s, step))
  {
    var t := Apply(maxAttempts, s, step);
    if t.sent != s.sent {
      var last := t.sent[|s.sent|];
      assert t.sent == s.sent + [last];
      assert last.version == s.entry.desired && last.config == s.entry.config;
    }
  }

  lemma VersionsStep(maxAttempts: nat, s: Sys, step: Step)
    requires VersionsOk(s) && Enabled(s, step)
    ensures VersionsOk(Apply(maxAttempts, s, step))
  {
    OrderStep(maxAttempts, s, step);
    ConfigsStep(maxAttempts, s, step);
    SentStep(maxAttempts, s, step);
  }

  lemma AppliedStep(maxAttempts: nat, s: Sys, step: Step)
    requires AppliedOk(s.device) && Enabled(s, step)
    ensures AppliedOk(Apply(maxAttempts, s, step).device)
  {
  }

  lemma StatusStep(maxAttempts: nat, s: Sys, step: Step)
    requires LoopsOk(s) && OrderOk(s) && StatusOk(maxAttempts, s) && BudgetOk(maxAttempts, s) && Enabled(s, step)
    ensures StatusOk(maxAttempts, Apply(maxAttempts, s, step))
  {
  }

  lemma BudgetStep(maxAttempts: nat, s: Sys, step: Step)
    requires LoopsOk(s) && OrderOk(s) && StatusOk(maxAttempts, s) && BudgetOk(maxAttempts, s) && Enabled(s, step)
    ensures BudgetOk(maxAttempts, Apply(maxAttempts, s, step))
  {
    if step.Topping? {
      TopKeepsBudget(maxAttempts, s, step);
    }
  }

  lemma TopKeepsBudget(maxAttempts: nat, s: Sys, step: Step)
    requires LoopsOk(s) && OrderOk(s) && StatusOk(maxAttempts, s) && BudgetOk(maxAttempts, s) && Enabled(s, step)
             && step.Topping?
    ensures BudgetOk(maxAttempts, Apply(maxAttempts, s, step))
  {
  }

  lemma StepKeepsInv(maxAttempts: nat, s: Sys, step: Step)
    requires Inv(maxAttempts, s) && Enabled(s, step)
    ensures Inv(maxAttempts, Apply(maxAttempts, s, step))
  {
    LoopsStep(maxAttempts, s, step);
    VersionsStep(maxAttempts, s, step);
    AppliedStep(maxAttempts, s, step);
    StatusStep(maxAttempts, s, step);
    BudgetStep(maxAttempts, s, step);
  }

  lemma {:induction false} RunKeepsInv(maxAttempts: nat, steps: seq<Step>)
    requires maxAttempts >= 1 && Exec(maxAttempts, INITIAL, steps).Some?
    ensures Inv(maxAttempts, Exec(maxAttempts, INITIAL, steps).value)
  {
    if steps != [] {
      RunKeepsInv(maxAttempts, steps[..|steps| - 1]);
      StepKeepsInv(maxAttempts, Exec(maxAttempts, INITIAL, steps[..|steps| - 1]).value, steps[|steps| - 1]);
    }
  }
}
