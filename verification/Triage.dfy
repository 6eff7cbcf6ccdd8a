/** Failure triage: internal/triage, and the guard both coordinators put around an agent's answer. */
module Triage {
  import opened Inference
  import opened Jobs
  import opened Wrappers

  // The three actions by name, and any other string an agent may answer.
  datatype Action = Retry | AutoAdjust | Escalate | UnknownAction(name: string)

  datatype FailureInfo = FailureInfo(jobID: string, attempt: int, maxAttempts: int, error: string, batch: Batch)

  datatype Decision = Decision(action: Action, reason: string, batchSize: int, precision: Precision, source: string)

  type Answer = Result<Decision, string>
  type Agent = FailureInfo -> Answer

  function Validate(d: Decision): (error: Option<string>) {
    match d.action
    case Retry => None
    case Escalate => None
    case AutoAdjust =>
      if d.batchSize < 1 then Some("auto_adjust requires a positive batch_size")
      else if d.precision.UnknownPrecision? then Some("auto_adjust precision must be fp32 or fp16")
      else None
    case UnknownAction(name) => Some("unknown triage action " + name)
  }

  /** A decision a coordinator may act on: a retry, an escalation, or an adjustment to at least one image in a
      precision that exists. */
  predicate Acceptable(d: Decision) {
    d.action == Retry || d.action == Escalate
    || (d.action == AutoAdjust && d.batchSize >= 1 && (d.precision == FP32 || d.precision == FP16))
  }

  function Escalation(reason: string, source: string): Decision {
    Decision(Escalate, reason, 0, UnknownPrecision(""), source)
  }

  /** What a coordinator makes of an agent's answer: errors and invalid decisions escalate, and so
      does anything but an escalation once the retry budget is spent. */
  function Resolve(answer: Answer, attempt: int, maxAttempts: int): (d: Decision)
    ensures !d.action.UnknownAction?
    ensures d.action.AutoAdjust? ==> d.batchSize >= 1 && !d.precision.UnknownPrecision?
    ensures attempt >= maxAttempts ==> d.action.Escalate?
    ensures !d.action.Escalate? ==> answer == Success(d)
    ensures answer.Success? && Acceptable(answer.value) && (attempt < maxAttempts || answer.value.action.Escalate?) ==>
              d == answer.value
    ensures answer.Failure? || !Acceptable(answer.value) ==> d.source == "safety_fallback"
    ensures answer.Success? && Acceptable(answer.value) && d != answer.value ==> d.source == "coordinator_guardrail"
  {
    var raw := match answer
      case Success(d) => d
      case Failure(e) => Escalation("triage agent failed: " + e, "safety_fallback");
    var valid := match Validate(raw)
      case None => raw
      case Some(e) => Escalation("invalid triage decision: " + e, "safety_fallback");
    if attempt >= maxAttempts && !valid.action.Escalate? then
      Escalation("retry budget exhausted", "coordinator_guardrail")
    else valid
  }

  function Adjusted(b: Batch, d: Decision): Batch {
    b.(batchSize := d.batchSize, precision := d.precision)
  }

  // ---- the offline policy ----

  function LowerChar(c: char): char {
    if 'A' <= c <= 'Z' then (c as int - 'A' as int + 'a' as int) as char else c
  }

  function ToLower(s: string): string {
    seq(|s|, i requires 0 <= i < |s| => LowerChar(s[i]))
  }

  predicate OccursAt(s: string, sub: string, i: int) {
    0 <= i <= |s| - |sub| && s[i..i + |sub|] == sub
  }

  predicate Contains(s: string, sub: string) {
    exists i | 0 <= i <= |s| - |sub| :: OccursAt(s, sub, i)
  }

  /** PolicyAgent.Decide. */
  function Policy(f: FailureInfo): (answer: Answer) {
    var text := ToLower(f.error);
    if f.attempt >= f.maxAttempts then
      Success(Escalation("retry budget exhausted", "policy"))
    else if Contains(text, "out of memory") || Contains(text, "oom") then
      var half := Quotient(f.batch.batchSize, 2);
      Success(Decision(AutoAdjust, "reduce memory pressure", if half < 1 then 1 else half, FP16, "policy"))
    else if Contains(text, "corrupt") || Contains(text, "invalid input") then
      Success(Escalation("input needs human investigation", "policy"))
    else
      Success(Decision(Retry, "failure appears transient", 0, UnknownPrecision(""), "policy"))
  }

  // Go's integer division truncates toward zero.
  function Quotient(a: int, b: int): int
    requires b > 0
  {
    if a >= 0 then a / b else -((-a) / b)
  }

  // ---- what the policy promises ----

  /** A lower-case letter of a word matches itself in either case, any other character only itself. */
  predicate SameLetter(c: char, w: char) {
    c == w || ('a' <= w <= 'z' && c as int + 32 == w as int)
  }

  ghost predicate MentionsAt(text: string, word: string, i: nat) {
    i + |word| <= |text| && forall k | 0 <= k < |word| :: SameLetter(text[i + k], word[k])
  }

  /** The text holds the word somewhere, in upper or lower case. */
  ghost predicate Mentions(text: string, word: string) {
    exists i: nat :: MentionsAt(text, word, i)
  }

  predicate IsLower(word: string) {
    forall k | 0 <= k < |word| :: !('A' <= word[k] <= 'Z')
  }

  lemma OccursIffMentioned(text: string, word: string, i: nat)
    requires IsLower(word)
    ensures OccursAt(ToLower(text), word, i) <==> MentionsAt(text, word, i)
  {
    if i + |word| <= |text| {
      var part := ToLower(text)[i..i + |word|];
      assert forall k | 0 <= k < |word| :: part[k] == LowerChar(text[i + k]);
    }
  }

  lemma ContainsIffMentioned(text: string, word: string)
    requires IsLower(word)
    ensures Contains(ToLower(text), word) <==> Mentions(text, word)
  {
    forall i: nat ensures OccursAt(ToLower(text), word, i) <==> MentionsAt(text, word, i) {
      OccursIffMentioned(text, word, i);
    }
    if Mentions(text, word) {
      var i: nat :| MentionsAt(text, word, i);
      assert OccursAt(ToLower(text), word, i);
    }
  }

  ghost predicate OutOfMemory(error: string) {
    Mentions(error, "out of memory") || Mentions(error, "oom")
  }

  ghost predicate BadInput(error: string) {
    Mentions(error, "corrupt") || Mentions(error, "invalid input")
  }

  /** A batch size halved, but never below 1. */
  predicate Halves(half: int, size: int) {
    half >= 1 && if size < 2 then half == 1 else 2 * half <= size < 2 * half + 2
  }

  /** With tries left the policy adjusts exactly the failures that mention memory, in any case, to half the batch
      in half precision; of the others it escalates exactly those that mention bad input, and retries the rest. */
  lemma PolicyDecides(f: FailureInfo)
    requires f.attempt < f.maxAttempts
    ensures Policy(f).Success? && Policy(f).value.source == "policy"
    ensures Policy(f).value.reason == if OutOfMemory(f.error) then "reduce memory pressure"
                                      else if BadInput(f.error) then "input needs human investigation"
                                      else "failure appears transient"
    ensures var d := Policy(f).value;
            && (d.action == AutoAdjust <==> OutOfMemory(f.error))
            && (d.action == Escalate <==> !OutOfMemory(f.error) && BadInput(f.error))
            && (d.action == Retry <==> !OutOfMemory(f.error) && !BadInput(f.error))
            && (d.action == AutoAdjust ==> d.precision == FP16 && Halves(d.batchSize, f.batch.batchSize))
  {
    ContainsIffMentioned(f.error, "out of memory");
    ContainsIffMentioned(f.error, "oom");
    ContainsIffMentioned(f.error, "corrupt");
    ContainsIffMentioned(f.error, "invalid input");
  }

  /** Without tries left it escalates whatever the failure. */
  lemma PolicyGivesUp(f: FailureInfo)
    requires f.attempt >= f.maxAttempts
    ensures Policy(f).Success? && Policy(f).value.action == Escalate
  {
  }

  /** FallbackAgent.Decide. */
  function WithFallback(primary: Agent, fallback: Agent): Agent {
    (f: FailureInfo) =>
      match primary(f)
      case Success(d) => Success(d)
      case Failure(e) =>
        match fallback(f)
        case Failure(e2) => Failure(e + "\n" + e2)
        case Success(d) =>
          Success(d.(source := "policy_fallback", reason := "LLM unavailable (" + e + "); " + d.reason))
  }

  /** A policy answer is never overruled by the guard, and an adjustment of a valid batch is valid. */
  lemma PolicyStands(f: FailureInfo)
    ensures Policy(f).Success?
    ensures Resolve(Policy(f), f.attempt, f.maxAttempts) == Policy(f).value
    ensures Valid(f.batch) && Policy(f).value.action.AutoAdjust? ==> Valid(Adjusted(f.batch, Policy(f).value))
  {
  }

  /** Behind the policy, any primary agent always yields a decision the guard accepts or escalates, never an error. */
  lemma FallbackNeverFails(primary: Agent, f: FailureInfo)
    ensures WithFallback(primary, Policy)(f).Success?
    ensures primary(f).Success? ==> WithFallback(primary, Policy)(f) == primary(f)
    ensures primary(f).Failure? ==>
              var d, own := WithFallback(primary, Policy)(f).value, Policy(f).value;
              && (d.action, d.batchSize, d.precision) == (own.action, own.batchSize, own.precision)
              && d.source == "policy_fallback"
  {
    assert Policy(f).Success?;
  }

  /** An adjustment that passes Validate keeps a valid batch valid exactly when its size is at most 256:
      Validate itself sets no upper limit. */
  lemma AdjustmentStaysValid(b: Batch, d: Decision)
    requires Valid(b) && d.action.AutoAdjust? && Validate(d).None?
    ensures Valid(Adjusted(b, d)) <==> d.batchSize <= 256
    ensures Adjusted(b, d) == Batch(b.model, d.batchSize, d.precision, b.channels, b.height, b.width, b.seed)
  {
  }

  lemma OversizedAdjustmentPasses()
    ensures var d := Decision(AutoAdjust, "", 257, FP16, "llm");
            Validate(d).None? && Resolve(Success(d), 1, 3) == d &&
            !Valid(Adjusted(Batch(ResNet50, 8, FP32, 3, 224, 224, 0), d))
  {
  }
}
