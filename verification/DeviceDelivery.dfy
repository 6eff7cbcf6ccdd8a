/** What config push promises over whole runs: safety end to end, no lost wakeup, exact push budgets,
    settling, and convergence exactly when the device's answer to the latest version comes back. */
module DeviceDelivery {
  import opened Wrappers
  import opened Devices

  // ---- safety end to end ----

  /** Whatever the network loses, delays, repeats or reorders: the registry never believes more than the
      device runs, the device runs exactly what was set at its version, no version is applied twice, and an
      acked device runs the latest config. */
  lemma DeliveryIsSafe(maxAttempts: nat, steps: seq<Step>, s: Sys)
    requires maxAttempts >= 1 && Exec(maxAttempts, INITIAL, steps) == Some(s)
    ensures s.entry.acked <= s.device.version <= s.entry.desired == |s.configs|
    ensures s.device.version > 0 ==> s.device.config == s.configs[s.device.version - 1]
    ensures forall i, k | 0 <= i < k < |s.device.applied| :: s.device.applied[i] != s.device.applied[k]
    ensures s.entry.status == Acked ==> |s.configs| > 0 && s.device.config == s.configs[|s.configs| - 1]
    ensures forall i, k | 0 <= i < k < |s.sent| :: s.sent[i].version <= s.sent[k].version
  {
    RunKeepsInv(maxAttempts, steps);
    InvIsSafe(maxAttempts, s);
  }

  lemma InvIsSafe(maxAttempts: nat, s: Sys)
    requires VersionsOk(s) && AppliedOk(s.device) && StatusOk(maxAttempts, s)
    ensures s.entry.acked <= s.device.version <= s.entry.desired == |s.configs|
    ensures s.device.version > 0 ==> s.device.config == s.configs[s.device.version - 1]
    ensures forall i, k | 0 <= i < k < |s.device.applied| :: s.device.applied[i] != s.device.applied[k]
    ensures s.entry.status == Acked ==> |s.configs| > 0 && s.device.config == s.configs[|s.configs| - 1]
    ensures forall i, k | 0 <= i < k < |s.sent| :: s.sent[i].version <= s.sent[k].version
  {
  }

  /** Until Close: a loop runs exactly when marked, pending means it runs with work to do, failed means the
      desired version used up its budget, and acked means the desired version was acknowledged. */
  lemma NoWakeupIsLost(maxAttempts: nat, steps: seq<Step>, s: Sys)
    requires maxAttempts >= 1 && Exec(maxAttempts, INITIAL, steps) == Some(s) && !s.closed
    ensures var e := s.entry;
            && |s.loops| == (if e.loopRunning then 1 else 0)
            && (e.status == Pending <==> e.loopRunning && e.acked < e.desired)
            && (e.status == Failed <==> !e.loopRunning && e.acked < e.desired)
            && (e.status == Failed ==> e.pushedFor == e.desired && e.attempts == maxAttempts)
            && (e.status == Acked <==> e.acked == e.desired >= 1)
            && (e.status == Idle <==> e.desired == 0)
  {
    RunKeepsInv(maxAttempts, steps);
  }

  /** The network and the callers are free: at any time any push ever sent may arrive once more, any answer ever
      given may reach a waiting loop, every wait may time out instead, and anyone may set, retry or close. */
  lemma AnythingMayHappen(s: Sys)
    ensures forall k: nat :: k < |s.sent| ==> Enabled(s, Arriving(k))
    ensures forall l: nat, k: nat ::
              l < |s.loops| && s.loops[l].Waiting? && k < |s.acks| ==> Enabled(s, Answering(l, k))
    ensures forall l: nat, error :: l < |s.loops| && s.loops[l].Waiting? ==> Enabled(s, TimingOut(l, error))
    ensures forall config :: Enabled(s, Setting(config))
    ensures Enabled(s, Retrying) && Enabled(s, Closing)
  {
  }

  // ---- what the device answers ----

  /** The versions of the acknowledgements that say they applied a push, in order. */
  ghost function AppliedBy(acks: seq<Ack>): seq<nat> {
    if acks == [] then []
    else AppliedBy(acks[..|acks| - 1]) + if acks[|acks| - 1].applied then [acks[|acks| - 1].version] else []
  }

  ghost predicate AnswersOk(s: Sys) {
    && AppliedBy(s.acks) == s.device.applied && |s.acks| == s.device.received
    && (s.acks != [] ==> s.acks[|s.acks| - 1].version == s.device.version)
  }

  lemma AnswersStep(maxAttempts: nat, s: Sys, step: Step)
    requires AnswersOk(s) && Enabled(s, step)
    ensures AnswersOk(Apply(maxAttempts, s, step))
  {
    var t := Apply(maxAttempts, s, step);
    if step.Arriving? {
      assert t.acks[..|s.acks|] == s.acks;
    }
  }

  /** Every push that arrives is answered, the last one with the version the device runs; and the answers that say
      "applied" are exactly, and in this order, the versions the device applied, each once. */
  lemma {:induction false} AnswersTellWhatWasApplied(maxAttempts: nat, steps: seq<Step>, s: Sys)
    requires Exec(maxAttempts, INITIAL, steps) == Some(s)
    ensures AppliedBy(s.acks) == s.device.applied && |s.acks| == s.device.received
    ensures s.acks != [] ==> s.acks[|s.acks| - 1].version == s.device.version
  {
    if steps != [] {
      var front := steps[..|steps| - 1];
      AnswersTellWhatWasApplied(maxAttempts, front, Exec(maxAttempts, INITIAL, front).value);
      AnswersStep(maxAttempts, Exec(maxAttempts, INITIAL, front).value, steps[|steps| - 1]);
    }
  }

  // ---- exact push budgets ----

  /** How many pushes carried `version`. */
  ghost function Pushes(sent: seq<Push>, version: nat): nat {
    if sent == [] then 0
    else Pushes(sent[..|sent| - 1], version) + if sent[|sent| - 1].version == version then 1 else 0
  }

  /** How many effective retries were asked for `version`. */
  ghost function Retries(retried: seq<nat>, version: nat): nat {
    if retried == [] then 0
    else Retries(retried[..|retried| - 1], version) + if retried[|retried| - 1] == version then 1 else 0
  }

  /** `budgets` whole budgets of pushes. */
  ghost function Quota(maxAttempts: nat, budgets: nat): nat {
    if budgets == 0 then 0 else Quota(maxAttempts, budgets - 1) + maxAttempts
  }

  lemma {:induction false} QuotaIsProduct(maxAttempts: nat, budgets: nat)
    ensures Quota(maxAttempts, budgets) == maxAttempts * budgets
  {
    if budgets > 0 {
      QuotaIsProduct(maxAttempts, budgets - 1);
      assert maxAttempts * (budgets - 1) == maxAttempts * budgets - maxAttempts;
    }
  }

  /** The version being pushed has used whole budgets for its retries, plus the attempts of the current one. */
  ghost predicate BudgetSpent(maxAttempts: nat, s: Sys, version: nat) {
    var e := s.entry;
    if version > LastPushed(s) then Pushes(s.sent, version) == 0 && Retries(s.retried, version) == 0
    else if version == LastPushed(s) && version > 0 then
      Pushes(s.sent, version) ==
      Quota(maxAttempts, Retries(s.retried, version)) + if e.pushedFor == version then e.attempts else 0
    else Pushes(s.sent, version) <= Quota(maxAttempts, 1 + Retries(s.retried, version))
  }

  lemma PushSpendsBudget(maxAttempts: nat, s: Sys, step: Step, version: nat)
    requires OrderOk(s) && BudgetOk(maxAttempts, s) && StatusOk(maxAttempts, s)
    requires Enabled(s, step) && BudgetSpent(maxAttempts, s, version) && step.Topping?
    ensures BudgetSpent(maxAttempts, Apply(maxAttempts, s, step), version)
  {
    var t := Apply(maxAttempts, s, step);
    if t.sent != s.sent {
      assert t.sent[..|s.sent|] == s.sent;
      assert LastPushed(t) == s.entry.desired;
    }
  }

  lemma RetryGrantsBudget(maxAttempts: nat, s: Sys, version: nat)
    requires OrderOk(s) && BudgetOk(maxAttempts, s) && StatusOk(maxAttempts, s) && BudgetSpent(maxAttempts, s, version)
    ensures BudgetSpent(maxAttempts, Apply(maxAttempts, s, Retrying), version)
  {
    var t := Apply(maxAttempts, s, Retrying);
    if t.retried != s.retried {
      assert t.retried[..|s.retried|] == s.retried;
      var more := if s.entry.desired == version then 1 else 0;
      assert Retries(t.retried, version) == Retries(s.retried, version) + more;
    }
  }

  lemma BudgetSpentStep(maxAttempts: nat, s: Sys, step: Step, version: nat)
    requires OrderOk(s) && BudgetOk(maxAttempts, s) && StatusOk(maxAttempts, s)
    requires Enabled(s, step) && BudgetSpent(maxAttempts, s, version)
    ensures BudgetSpent(maxAttempts, Apply(maxAttempts, s, step), version)
  {
    if step.Topping? {
      PushSpendsBudget(maxAttempts, s, step, version);
    } else if step.Retrying? {
      RetryGrantsBudget(maxAttempts, s, version);
    } else {
      var t := Apply(maxAttempts, s, step);
      assert t.sent == s.sent && t.retried == s.retried;
      assert t.entry.pushedFor == s.entry.pushedFor && t.entry.attempts == s.entry.attempts;
    }
  }

  lemma {:induction false} BudgetIsTracked(maxAttempts: nat, steps: seq<Step>, version: nat)
    requires maxAttempts >= 1 && Exec(maxAttempts, INITIAL, steps).Some?
    ensures BudgetSpent(maxAttempts, Exec(maxAttempts, INITIAL, steps).value, version)
  {
    if steps != [] {
      var before := steps[..|steps| - 1];
      BudgetIsTracked(maxAttempts, before, version);
      RunKeepsInv(maxAttempts, before);
      BudgetSpentStep(maxAttempts, Exec(maxAttempts, INITIAL, before).value, steps[|steps| - 1], version);
    }
  }

  /** A version is pushed at most MaxAttempts times per budget granted to it, one for the version and one
      for each of its retries; the registry gives up on it only with every budget spent to the last push. */
  lemma PushesAreBudgeted(maxAttempts: nat, steps: seq<Step>, s: Sys, version: nat)
    requires maxAttempts >= 1 && Exec(maxAttempts, INITIAL, steps) == Some(s)
    ensures Pushes(s.sent, version) <= maxAttempts * (1 + Retries(s.retried, version))
    ensures s.entry.status == Failed && version == s.entry.desired ==>
              Pushes(s.sent, version) == maxAttempts * (1 + Retries(s.retried, version))
  {
    RunKeepsInv(maxAttempts, steps);
    BudgetIsTracked(maxAttempts, steps, version);
    BudgetMeansBound(maxAttempts, s, version);
  }

  lemma BudgetMeansBound(maxAttempts: nat, s: Sys, version: nat)
    requires Inv(maxAttempts, s) && BudgetSpent(maxAttempts, s, version)
    ensures Pushes(s.sent, version) <= maxAttempts * (1 + Retries(s.retried, version))
    ensures s.entry.status == Failed && version == s.entry.desired ==>
              Pushes(s.sent, version) == maxAttempts * (1 + Retries(s.retried, version))
  {
    QuotaIsProduct(maxAttempts, 1 + Retries(s.retried, version));
  }

  // ---- settling ----

  /** Pushes the loop may still make without another SetConfig or Retry. */
  ghost function Remaining(maxAttempts: nat, e: Entry): nat {
    if e.acked >= e.desired then 0
    else if e.pushedFor != e.desired then maxAttempts
    else if e.attempts >= maxAttempts then 0
    else maxAttempts - e.attempts
  }

  ghost function Stage(pc: Pc): nat {
    match pc
    case AtTop => 1
    case Waiting(_, _) => 3
    case Sleeping => 2
    case Finishing => 1
  }

  ghost function Rank(maxAttempts: nat, s: Sys): nat {
    if s.loops == [] then 0 else 3 * Remaining(maxAttempts, s.entry) + Stage(s.loops[0])
  }

  /** A step of the push loop itself. */
  predicate OfLoop(step: Step) {
    step.Topping? || step.TimingOut? || step.Answering? || step.Waking? || step.Cancelling? || step.Ending?
  }

  lemma LoopStepLowersRank(maxAttempts: nat, s: Sys, step: Step)
    requires Inv(maxAttempts, s) && Enabled(s, step) && OfLoop(step)
    ensures Rank(maxAttempts, Apply(maxAttempts, s, step)) < Rank(maxAttempts, s)
  {
  }

  /** A run from `s` in which nobody sets, retries or closes. */
  predicate Undisturbed(steps: seq<Step>) {
    forall i | 0 <= i < |steps| :: OfLoop(steps[i]) || steps[i].Arriving?
  }

  ghost function LoopSteps(steps: seq<Step>): nat {
    if steps == [] then 0
    else LoopSteps(steps[..|steps| - 1]) + if OfLoop(steps[|steps| - 1]) then 1 else 0
  }

  lemma {:induction false} StepsKeepInv(maxAttempts: nat, s: Sys, steps: seq<Step>)
    requires Inv(maxAttempts, s) && Exec(maxAttempts, s, steps).Some?
    ensures Inv(maxAttempts, Exec(maxAttempts, s, steps).value)
  {
    if steps != [] {
      StepsKeepInv(maxAttempts, s, steps[..|steps| - 1]);
      StepKeepsInv(maxAttempts, Exec(maxAttempts, s, steps[..|steps| - 1]).value, steps[|steps| - 1]);
    }
  }

  lemma {:induction false} LoopStepsAreBounded(maxAttempts: nat, s: Sys, steps: seq<Step>)
    requires Inv(maxAttempts, s) && Undisturbed(steps) && Exec(maxAttempts, s, steps).Some?
    ensures LoopSteps(steps) + Rank(maxAttempts, Exec(maxAttempts, s, steps).value) <= Rank(maxAttempts, s)
  {
    if steps != [] {
      var before, step := steps[..|steps| - 1], steps[|steps| - 1];
      LoopStepsAreBounded(maxAttempts, s, before);
      var prior := Exec(maxAttempts, s, before).value;
      StepsKeepInv(maxAttempts, s, before);
      if OfLoop(step) {
        LoopStepLowersRank(maxAttempts, prior, step);
      }
    }
  }

  /** After the last SetConfig or Retry the loop takes at most 3 * MaxAttempts + 3 more steps; until it has
      ended it can always take one; and once it has ended the device is idle, acked or failed. */
  lemma DeliverySettles(maxAttempts: nat, first: seq<Step>, rest: seq<Step>)
    requires maxAttempts >= 1 && Exec(maxAttempts, INITIAL, first).Some? && Undisturbed(rest)
    requires Exec(maxAttempts, Exec(maxAttempts, INITIAL, first).value, rest).Some?
    ensures var t := Exec(maxAttempts, Exec(maxAttempts, INITIAL, first).value, rest).value;
            && LoopSteps(rest) <= 3 * maxAttempts + 3
            && (t.loops != [] ==> exists step :: OfLoop(step) && Enabled(t, step))
            && (t.loops == [] && !t.closed ==> t.entry.status != Pending)
  {
    RunKeepsInv(maxAttempts, first);
    var s := Exec(maxAttempts, INITIAL, first).value;
    LoopStepsAreBounded(maxAttempts, s, rest);
    StepsKeepInv(maxAttempts, s, rest);
    var t := Exec(maxAttempts, s, rest).value;
    if t.loops != [] {
      var step := match t.loops[0]
                  case AtTop => Topping(0)
                  case Waiting(_, _) => TimingOut(0, "")
                  case Sleeping => Waking(0)
                  case Finishing => Ending(0);
      assert OfLoop(step) && Enabled(t, step);
    }
  }

  // ---- convergence ----

  /** Some step handed the loop an acknowledgement of `version`. */
  ghost predicate Answered(steps: seq<Step>, acks: seq<Ack>, version: nat) {
    exists i :: 0 <= i < |steps| && AnswersWith(steps[i], acks, version)
  }

  ghost predicate AnswersWith(step: Step, acks: seq<Ack>, version: nat) {
    step.Answering? && step.ack < |acks| && acks[step.ack].version == version
  }

  lemma AckedByAnswerStep(maxAttempts: nat, s: Sys, step: Step)
    requires Inv(maxAttempts, s) && Enabled(s, step) && (OfLoop(step) || step.Arriving?)
    ensures var t := Apply(maxAttempts, s, step);
            && t.closed == s.closed && t.entry.desired == s.entry.desired
            && (t.entry.acked == t.entry.desired <==>
                  s.entry.acked == s.entry.desired || AnswersWith(step, s.acks, s.entry.desired))
  {
  }

  /** Answers name acknowledgements that already exist, so later ones do not change what they were. */
  lemma AnsweredNext(before: seq<Step>, step: Step, acks: seq<Ack>, later: seq<Ack>, version: nat)
    requires AnswersKnown(before, acks)
    requires step.Answering? ==> step.ack < |acks|
    requires acks <= later
    ensures Answered(before + [step], later, version) <==>
            Answered(before, acks, version) || AnswersWith(step, acks, version)
  {
    var steps := before + [step];
    assert steps[|before|] == step;
    assert forall i | 0 <= i < |before| ::
      steps[i] == before[i] && AnswersWith(before[i], acks, version) == AnswersWith(before[i], later, version);
  }

  lemma FrontAndLast(steps: seq<Step>)
    requires steps != []
    ensures steps == steps[..|steps| - 1] + [steps[|steps| - 1]]
  {
  }

  ghost predicate AckedIffAnswered(steps: seq<Step>, s: Sys) {
    s.entry.acked == s.entry.desired <==> Answered(steps, s.acks, s.entry.desired)
  }

  lemma AckedByAnswerNext(maxAttempts: nat, before: seq<Step>, s: Sys, step: Step)
    requires Inv(maxAttempts, s) && Enabled(s, step) && (OfLoop(step) || step.Arriving?)
    requires AckedIffAnswered(before, s) && AnswersKnown(before, s.acks)
    ensures AckedIffAnswered(before + [step], Apply(maxAttempts, s, step))
  {
    AckedByAnswerStep(maxAttempts, s, step);
    AcksStep(maxAttempts, s, step);
    AnsweredNext(before, step, s.acks, Apply(maxAttempts, s, step).acks, s.entry.desired);
  }

  lemma {:induction false} AckedByAnswer(maxAttempts: nat, s: Sys, steps: seq<Step>)
    requires Inv(maxAttempts, s) && Undisturbed(steps) && Exec(maxAttempts, s, steps).Some?
    requires s.entry.acked < s.entry.desired
    ensures AckedIffAnswered(steps, Exec(maxAttempts, s, steps).value)
  {
    if steps != [] {
      var before, step := steps[..|steps| - 1], steps[|steps| - 1];
      AckedByAnswer(maxAttempts, s, before);
      StepsKeepInv(maxAttempts, s, before);
      AcksOnlyGrow(maxAttempts, s, before);
      AckedByAnswerNext(maxAttempts, before, Exec(maxAttempts, s, before).value, step);
      FrontAndLast(steps);
    }
  }

  lemma UndisturbedStep(maxAttempts: nat, s: Sys, step: Step)
    requires Enabled(s, step) && (OfLoop(step) || step.Arriving?)
    ensures var t := Apply(maxAttempts, s, step); t.closed == s.closed && t.entry.desired == s.entry.desired
  {
  }

  lemma {:induction false} UndisturbedKeeps(maxAttempts: nat, s: Sys, steps: seq<Step>)
    requires Undisturbed(steps) && Exec(maxAttempts, s, steps).Some?
    ensures var t := Exec(maxAttempts, s, steps).value; t.closed == s.closed && t.entry.desired == s.entry.desired
  {
    if steps != [] {
      UndisturbedKeeps(maxAttempts, s, steps[..|steps| - 1]);
      UndisturbedStep(maxAttempts, Exec(maxAttempts, s, steps[..|steps| - 1]).value, steps[|steps| - 1]);
    }
  }

  /** Every answer used so far names an acknowledgement that exists. */
  ghost predicate AnswersKnown(steps: seq<Step>, acks: seq<Ack>) {
    forall i | 0 <= i < |steps| && steps[i].Answering? :: steps[i].ack < |acks|
  }

  lemma AcksStep(maxAttempts: nat, s: Sys, step: Step)
    requires Enabled(s, step)
    ensures s.acks <= Apply(maxAttempts, s, step).acks && (step.Answering? ==> step.ack < |s.acks|)
  {
  }

  lemma AnswersKnownNext(before: seq<Step>, step: Step, acks: seq<Ack>, later: seq<Ack>)
    requires AnswersKnown(before, acks) && acks <= later && (step.Answering? ==> step.ack < |acks|)
    ensures AnswersKnown(before + [step], later)
  {
  }

  lemma {:induction false} AcksOnlyGrow(maxAttempts: nat, s: Sys, steps: seq<Step>)
    requires Exec(maxAttempts, s, steps).Some?
    ensures AnswersKnown(steps, Exec(maxAttempts, s, steps).value.acks)
  {
    if steps != [] {
      var before, step := steps[..|steps| - 1], steps[|steps| - 1];
      AcksOnlyGrow(maxAttempts, s, before);
      var prior := Exec(maxAttempts, s, before).value;
      AcksStep(maxAttempts, prior, step);
      AnswersKnownNext(before, step, prior.acks, Apply(maxAttempts, prior, step).acks);
      FrontAndLast(steps);
    }
  }

  /** After the last SetConfig or Retry, a settled device is acked exactly when some acknowledgement of the
      desired version came back to the loop, and failed otherwise. */
  lemma DeliveryConverges(maxAttempts: nat, first: seq<Step>, rest: seq<Step>)
    requires maxAttempts >= 1 && Exec(maxAttempts, INITIAL, first).Some? && Undisturbed(rest)
    requires var s := Exec(maxAttempts, INITIAL, first).value;
             && s.entry.status == Pending && !s.closed
             && Exec(maxAttempts, s, rest).Some? && Exec(maxAttempts, s, rest).value.loops == []
    ensures var t := Exec(maxAttempts, Exec(maxAttempts, INITIAL, first).value, rest).value;
            var answered := Answered(rest, t.acks, t.entry.desired);
            && (t.entry.status == Acked <==> answered)
            && (t.entry.status == Failed <==> !answered)
            && (answered ==> t.device.version == t.entry.desired && t.device.config == t.entry.config)
  {
    RunKeepsInv(maxAttempts, first);
    var s := Exec(maxAttempts, INITIAL, first).value;
    PendingIsBehind(maxAttempts, s);
    AckedByAnswer(maxAttempts, s, rest);
    UndisturbedKeeps(maxAttempts, s, rest);
    StepsKeepInv(maxAttempts, s, rest);
    SettledStatus(maxAttempts, Exec(maxAttempts, s, rest).value);
  }

  lemma PendingIsBehind(maxAttempts: nat, s: Sys)
    requires Inv(maxAttempts, s) && s.entry.status == Pending
    ensures s.entry.acked < s.entry.desired
  {
  }

  lemma SettledStatus(maxAttempts: nat, s: Sys)
    requires Inv(maxAttempts, s) && s.loops == [] && !s.closed && s.entry.desired > 0
    ensures s.entry.status == Acked <==> s.entry.acked == s.entry.desired
    ensures s.entry.status == Failed <==> s.entry.acked != s.entry.desired
    ensures s.entry.status == Acked ==> s.device.version == s.entry.desired && s.device.config == s.entry.config
  {
  }
}
