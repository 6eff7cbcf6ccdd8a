# Verified model of the inference scheduler

This project models the parts of the repository that are hard to get right, and proves what they promise over
all inputs, all interleavings and all runs. Nothing here runs the original program.

Five connected cores are modelled.

* **SQS backend** (`SqsQueue`, `SqsCoordinator`, `SqsProtocol`, `SqsBounds`, `SqsProgress`, `SqsRecords`,
  `SqsWorker`). The tiered queue with receive counts, redrive and a dead-letter queue, the coordinator, and any
  number of workers part-way through their loop. A run is an arbitrary interleaving of lock sections and queue
  calls, with a worker crash, a visibility expiry, a stale receipt or the triage of a failure at any point.
  `SqsWorker` is the worker loop as it is written, over the queue and coordinator objects.
* **Broker and priority heap** (`Triage`, `Jobs`, `Broker`, `BrokerRuns`, `BrokerRecords`, `PolicyRuns`,
  `BrokerObject`, `PriorityQueue`, `JobTable`). The in-process broker as a state machine and as an object over
  the binary heap, with a job that is out for triage in no data structure of the broker. `SmoothRuns` and
  `Agreement` prove that the two backends give the same results.
* **Versioned config push** (`Devices`, `DeviceDelivery`, `DeviceRegistry`, `Tracer`). The lock sections of the
  registry and its push loop against a network that drops, delays, repeats and reorders pushes and
  acknowledgements; the registry, device and lossy network as objects; and the tracer's replay of the event log.
* **Free-list allocator** (`Allocator`, `AllocatorLaws`, `AllocatorHeap`, `AllocatorWorkload`). The linked block
  list split and merged in place, against layouts as sequences of blocks.
* **Tick scheduler** (`Resources`, `Scheduler`, `SchedulerRuns`, `SchedulerRecords`, `SchedulerObject`). Nodes,
  best-fit placement, preemption and completion, as a machine and as the simulation's loop over objects.

How a module is built: what a lock section, a call or a loop body does to the state is a function; a machine
puts the functions together into steps, `Exec` runs a sequence of steps from a state (None when a step could not
happen), an invariant is kept by every step, and the theorems follow for every run. Where the source updates
objects in place, a class does the same and each method's contract equates its effect with the function and says
in terms of the fields what that is. The broker, the SQS worker and the simulation also carry the run of the
machine that their calls amount to, so the theorems about the machine are theorems about any sequence of their
calls; the registry's methods equal the lock sections of the machine in `Devices` one by one. `Sums` and
`Wrappers` are general helpers, `JobTable` is the heap together with the job objects it is about.

What the source relies on without checking is a precondition here: submitted ids are distinct and jobs are
submitted with attempt 0; node names are distinct and resource requests are not negative; allocation sizes and
the heap size are positive; telemetry timestamps of one registry do not decrease.

Where code and comment or intent disagree, the model follows the code and a lemma says exactly when they meet:

* Submit of the SQS coordinator counts a job before it is enqueued, so one failed enqueue leaves a job without
  outcome for ever and a done signal that never rises (`SqsProtocol.QuiescentMeansFinished`,
  `SqsProtocol.FailedEnqueueBlocksDone`, `SqsProtocol.FailedEnqueueRun`).
* `findPreemptionVictim` says the victim frees enough room, but looks only at priorities
  (`SchedulerRuns.PreemptionHelpsIff`, `SchedulerRuns.PreemptionMayBeInVain`).
* `Broker.Claim` may tell a worker to shut down while a failed job is about to be requeued
  (`Broker.ShutdownMeansOnlyTriage`, `Broker.ShutdownCanComeEarly`); only `done` is exact.
* `Decision.Validate` sets no upper limit on an adjusted batch (`Triage.AdjustmentStaysValid`,
  `Triage.OversizedAdjustmentPasses`); with the offline policy every batch stays valid.
* `Registry.Retry` logs no event, so the tracer says "failed" until the retried version is acknowledged or replaced
  (`Tracer.ReplayAgreesWithRegistry`, `Tracer.RetryLeavesNoTrace`).

## Model

| member | source | states |
|---|---|---|
| `SqsProtocol.NoJobIsLost` | internal/dispatch/sqs.go:341-393 | In every reachable state, with crashes, expiry, stale acks and triage anywhere, an enqueued job has an outcome or its newest message is not deleted: Ack follows only a recorded outcome or a newer adjusted Send |
| `SqsProtocol.OutcomesAreExactlyOnce` | internal/dispatch/sqs.go:143-228 | The three outcome counters are the numbers of recorded outcomes, they add up to the recorded jobs, and no continuation of the run changes or removes an outcome |
| `SqsProtocol.DoneIsExact` | internal/dispatch/sqs.go:279-283 | done is up if and only if submissions are closed and exactly the submitted jobs have outcomes, although the code compares only counts |
| `SqsProtocol.NoRunAfterOutcome` | internal/dispatch/sqs.go:143-168 | Once a job has an outcome, no continuation of the run lets a worker start its batch: whoever holds it granted later held it already when the outcome was recorded |
| `SqsProtocol.QuiescentMeansFinished` | internal/dispatch/sqs.go:241-269 | When no message is receivable, no submission is half done, no worker is busy and every dead letter was seen, exactly the jobs whose enqueue did not fail have outcomes; and once submissions are closed, done is up if and only if no enqueue failed |
| `SqsProtocol.FailedEnqueueBlocksDone` | internal/dispatch/sqs.go:122-132 | A job whose enqueue failed has no outcome in any continuation, and done never rises |
| `SqsProtocol.FailedEnqueueRun` | internal/dispatch/sqs.go:122-132 | The shortest such run: recorded, not sent, closed, with nothing left to do and done down |
| `SqsProtocol.OnlySentJobsFinish` | internal/dispatch/sqs.go:109-134 | In every run no outcome is recorded for a job that never reached a queue |
| `SqsRecords.MessagesAreSubmissions` | internal/dispatch/sqs.go:109-134 | In every reachable state a message is about a job that some step submitted: admitted with three tries unless the caller allows some number, with the submission time the caller set or else now, otherwise as given; its first message is exactly that record in the tier of the submitted priority, and every other one a copy that differs at most in tries, batch size, precision and injected failure, in the same tier |
| `SqsRecords.OnlyFirstMessagesStall` | internal/dispatch/sqs.go:354-359 | A granted batch stalls its worker if and only if its message is the first of the job and it was submitted to: "poison" on every delivery, "hang" on the very first; no adjusted copy ever stalls |
| `SqsRecords.AckIsForGood` | internal/sqsqueue/sqsqueue.go:235-240 | An ack with a current receipt deletes its message and touches no other, and in no continuation is the message received again or anything but deleted |
| `SqsRecords.CrashLosesTheDelivery` | internal/dispatch/sqs.go:311-315 | A crash changes neither messages nor coordinator and frees the worker, and once its message has expired it can be received again; a report under triage is still decided but nobody is told |
| `SqsRecords.FaultsComeAtAnyTime` | internal/dispatch/sqs.go:311-315 | Every worker may crash, every delivery expire, and every enqueue still owed fail, at any time |
| `SqsProgress.WorkGoesDown` | internal/dispatch/sqs.go:316-395 | Every enqueue, receive, redrive and worker or coordinator step of any worker uses up some of the work left, and no crash, expiry, closing or watching adds any |
| `SqsProgress.WorkOfSubmission` | internal/dispatch/sqs.go:109-134 | A submission brings exactly seven steps for each delivery its job may have, its enqueue and one redrive |
| `SqsProgress.WorkIsBounded` | internal/dispatch/sqs.go:316-395 | Once nothing more is submitted, at most the work left can follow, for any workers, agent and interleaving, with crashes and expiries between as often as they like |
| `SqsProgress.NoJobIsStuck` | internal/dispatch/sqs.go:316-395 | In every reachable state with a worker, while an enqueued job has no outcome something that helps can happen: work, the expiry of its delivery, a look at its dead letter that ends it, or the crash of a stalled worker |
| `SqsProgress.BusyWorkersCanGoOn` | internal/dispatch/sqs.go:341-393 | A worker that is busy and not stalled can always take its next step |
| `SqsProtocol.StepKeepsInv` | internal/dispatch/sqs.go:316-395 | Every step of any worker, the coordinator, the queue or the watcher keeps the protocol invariant and only adds outcomes and messages |
| `SqsProtocol.RunKeepsInv` | internal/dispatch/sqs.go:316-395 | The invariant holds after every run, and everything recorded before it is still there |
| `SqsBounds.DeliveryLowersPotential` | internal/dispatch/sqs.go:341-390 | Every receive of a job uses up at least one unit of its remaining deliveries, and no step but its submission adds any |
| `SqsBounds.DeliveriesAreBounded` | internal/sqsqueue/sqsqueue.go:43-45 | For any agent and any crashes, a job is received at most Budget(0) times over all its adjusted copies, where Budget(b) sums 1 + Budget(b + i) over i = 1 to the receive limit R and is 0 from MaxAttempts M on; that is at most R * 2^(M - 1) |
| `SqsBounds.BudgetDoubles` | internal/sqsqueue/sqsqueue.go:43-45 | In closed form the bound is at most the receive limit R times 2^(M - 1) for M tries, and exactly that when R is at least M |
| `SqsBounds.WithinAllowance` | internal/dispatch/sqs.go:200-202 | Deliveries made plus deliveries still possible never exceed the allowance fixed at Submit |
| `SqsCoordinator.SubmitKeeps` | internal/dispatch/sqs.go:109-134 | An accepted submission keeps counters equal to recorded outcomes and the done flag exact |
| `SqsCoordinator.CloseKeeps` | internal/dispatch/sqs.go:136-141 | Closing keeps counters and an exact done flag, and raises it when everything is already finished |
| `SqsCoordinator.StartedKeeps` | internal/dispatch/sqs.go:143-168 | Started changes no outcome and keeps counters and done exact |
| `SqsCoordinator.ReportOutcomeKeeps` | internal/dispatch/sqs.go:170-190 | The first lock section of Report records at most an outcome of its own job, overwrites none and keeps counters and done exact |
| `SqsCoordinator.ReportDecisionKeeps` | internal/dispatch/sqs.go:204-228 | The second lock section does too, whatever was decided while the lock was free |
| `SqsCoordinator.WatchKeeps` | internal/dispatch/sqs.go:241-269 | A pass over any dead letters of submitted jobs keeps counters and done exact and never overwrites an outcome |
| `SqsCoordinator.BuryAllBuries` | internal/dispatch/sqs.go:257-265 | After a pass a job has an outcome if and only if it had one before or is among the dead letters; old outcomes stay and new ones are "dead-lettered" |
| `SqsCoordinator.SQSCoordinator.SubmitLocked` | internal/dispatch/sqs.go:109-129 | Refuses exactly invalid batches and closed submissions, changing nothing; otherwise records and returns the job with defaults filled in and all else as given, and counts it |
| `SqsCoordinator.SQSCoordinator.StartedLocked` | internal/dispatch/sqs.go:143-163 | Duplicate exactly for a job with an outcome, which is counted; otherwise a redelivery is counted when the receive count is above 1 and no retry was planned, and the plan is forgotten |
| `SqsCoordinator.SQSCoordinator.ReportOutcomeLocked` | internal/dispatch/sqs.go:171-189 | The object's first lock section equals the state function: a duplicate is counted, a success recorded, and nothing else changes an outcome |
| `SqsCoordinator.SQSCoordinator.ReportDecisionLocked` | internal/dispatch/sqs.go:204-227 | The object's second lock section equals the state function for every action, unknown ones included: an escalation is recorded, a retry is remembered as planned, a duplicate counted |
| `SqsCoordinator.SQSCoordinator.WatchLocked` | internal/dispatch/sqs.go:256-267 | The loop over dead letters equals the fold of the state function over them |
| `SqsQueue.Tier` | internal/sqsqueue/sqsqueue.go:110-119 | The tier is in range and equals the priority when that is in range |
| `SqsQueue.TierKeepsOrder` | internal/sqsqueue/sqsqueue.go:110-119 | A higher priority never gets a lower tier |
| `SqsQueue.Queues.Receive` | internal/sqsqueue/sqsqueue.go:205-233 | A delivery comes from the highest tier that holds a receivable message, carries its job and tier and one receive more, and leaves it in flight; nothing is delivered only when no tier holds one; the messages swept over move to the dead-letter queue exactly when visible with no receive left, and no other message changes |
| `SqsQueue.Queues.ReceiveMessage` | internal/sqsqueue/sqsqueue.go:210-217 | One poll of one tier: redrive what is exhausted in that tier, then deliver some visible message of it or report that none is left |
| `SqsQueue.Queues.Send` | internal/sqsqueue/sqsqueue.go:193-203 | Adds one visible message, never received, in the tier of the job's priority, and changes no other |
| `SqsQueue.Queues.Ack` | internal/sqsqueue/sqsqueue.go:235-240 | With a current receipt, that is while the message is in flight and not received since, the message is deleted; with a stale one it is deleted or left; no other message changes |
| `SqsQueue.Queues.Release` | internal/sqsqueue/sqsqueue.go:242-249 | With a current receipt the message becomes visible again; with a stale one perhaps; a message that is not in flight and every other message stay as they are |
| `SqsWorker.Worker.Serve` | internal/dispatch/sqs.go:341-393 | One delivery handled start to end extends the run by exactly the steps of its course: Started and an ack when the job has an outcome, Started alone for a "poison" batch or a "hang" batch on its first try, and otherwise a run whose result is reported; a message still held is deleted at the end, or visible again after a retry |
| `SqsWorker.Worker.Finish` | internal/dispatch/sqs.go:361-393 | Report and what follows it, step by step: an ack on success or duplicate; after triage by the agent's answer, a release only on retry, a send of the adjusted copy and then the ack only on adjustment, an ack otherwise; a message still held is deleted, but for a retry |
| `SqsWorker.Worker.SendAdjusted` | internal/dispatch/sqs.go:379-387 | The copy is the same job with the decided batch size and precision, the tries so far counted and no injected failure |
| `SqsWorker.Worker.Receive` | internal/dispatch/sqs.go:321-340 | A sweep extends the run by its redrives and at most one receive, and lowers the receives still possible when it delivers |
| `SqsWorker.Worker.RunUntilIdle` | internal/dispatch/sqs.go:316-395 | The worker loop ends for any runner and any agent, returns only when no message is receivable or it stalls, and what it did extends the run of the protocol at entry |
| `SqsProgress.StepLowersTotal` | internal/dispatch/sqs.go:316-345 | No step but a submission raises the receives still possible over all jobs, and every receive lowers them |
| `SqsWorker.RedriveRun` | internal/sqsqueue/sqsqueue.go:43-45 | Moving all exhausted messages of some tiers at once is a run of single redrives |
| `Broker.StepKeepsInv` | internal/dispatch/broker.go:69-210 | Every submit, claim, poll, report and triage decision keeps each job in exactly one place, the counters, the attempt bounds and the done flag |
| `Broker.RunKeepsInv` | internal/dispatch/broker.go:69-210 | The same for every run from a new broker |
| `Broker.NothingLeaksAndDoneIsExact` | internal/dispatch/broker.go:226-230 | Submitted is queued plus running plus in triage plus succeeded plus escalated, and done is up if and only if submissions are closed and every job is finished |
| `Broker.ShutdownMeansOnlyTriage` | internal/dispatch/broker.go:109-117 | On an empty queue a claim answers Shutdown if and only if submissions are closed and every unfinished job is out for triage, so always once done is up; and then done is up if and only if none is in triage, which is when succeeded and escalated add up to submitted |
| `Broker.ShutdownCanComeEarly` | internal/dispatch/broker.go:109-112 | A concrete run in which a worker is told to shut down before done, with a failed job out for triage |
| `Broker.OrderKeysStay` | internal/dispatch/broker.go:118-207 | No step changes a job's priority or submission time, and a job that stays queued keeps its whole record, so the heap order is never broken from outside |
| `BrokerRecords.JobsAreSubmissions` | internal/dispatch/broker.go:69-84 | In every reachable state a job was submitted by some step of the run, admitted as Submit promises, and still has that priority, those resources, that submission time and limit of tries; until its first claim nothing of it changed; its state tells queued, running and finished jobs apart; queued again it carries no injected failure |
| `BrokerRecords.FirstComeFirstServed` | internal/dispatch/broker.go:104-131 | Of two queued jobs the one of higher priority, or of the same priority and earlier submission, is claimed first in every run whose claims are those of the heap, as all runs of the broker object are |
| `Broker.JobsAreConserved` | internal/dispatch/broker.go:69-95 | In any state of the invariant the places add up to the submitted count |
| `BrokerRuns.WorkDescends` | internal/dispatch/broker.go:118-207 | Every claim, report and decision uses up work of its own job, exactly one unit unless it finishes the job, and no other job's |
| `BrokerRuns.WorkOfSubmission` | internal/dispatch/broker.go:69-84 | A new job brings three units of work for every try it is allowed |
| `BrokerRuns.WorkIsBounded` | internal/dispatch/broker.go:174-176 | Against any agent, at most TotalWork claims, reports and decisions can follow once nothing more is submitted |
| `BrokerRuns.UnfinishedJobsCanMove` | internal/dispatch/broker.go:106-210 | While a job is unfinished, some step for it is possible |
| `BrokerRuns.ClaimsAreBounded` | internal/dispatch/broker.go:174-176 | All claims of a run are at most the sum of MaxAttempts over the submitted jobs |
| `BrokerRuns.ClaimsAreTries` | internal/dispatch/broker.go:118-123 | The claims of a run are exactly the attempts counted on the jobs |
| `BrokerRuns.CompleteRunsMeetDestiny` | internal/dispatch/broker.go:106-210 | For an agent that is a function of its failure and any outcome oracle, every complete run gives each job the outcome and final batch that trying it alone would give, and the retry and adjustment totals of that |
| `BrokerRuns.RunsAreConfluent` | internal/dispatch/broker.go:106-210 | Two complete runs over the same jobs, in any worker interleaving, agree on outcomes, final batches and all counters |
| `BrokerRuns.PolicyKeepsBatchesValid` | internal/inference/inference.go:29-43 | With the offline policy answering, every step keeps all batches valid |
| `BrokerRuns.PolicyRunsKeepBatchesValid` | internal/inference/inference.go:29-43 | The same for every run |
| `PolicyRuns.DecisionHalves` | internal/triage/triage.go:67-83 | With the policy answering, a failure that mentions memory with tries left queues the job again with half the batch in half precision, any other leaves the batch alone, and one without tries left escalates |
| `PolicyRuns.BatchesNeverGrow` | internal/triage/triage.go:72-78 | In every run with the policy every batch stays between one image and the submitted size, in the submitted or half precision |
| `PolicyRuns.OutOfMemoryHalves` | internal/triage/triage.go:72-78 | In every run with the policy, a job that always runs out of memory has its submitted batch halved once for every failure decided so far, never below one image, and ends escalated with all tries spent |
| `PolicyRuns.HalvedShrinks` | internal/triage/triage.go:73-76 | Each halving of more than one image leaves strictly fewer, and k of them at most a 2^k-th part or one image |
| `SmoothRuns.StepIsSimulated` | internal/dispatch/sqs.go:316-395 | Every step of an SQS run without crash or expiry is one step of the broker or invisible to it |
| `SmoothRuns.RunIsSimulated` | internal/dispatch/sqs.go:316-395 | Every such run has a broker run in the same world that it simulates |
| `Agreement.RestIsClean` | internal/dispatch/sqs.go:316-395 | When a run without crash or expiry has nothing left to receive, no submission half done and no worker busy, every message ever sent is deleted, and the Redelivered counter is 0: every further delivery was a planned retry |
| `Agreement.BackendsAgree` | internal/dispatch/sqs.go:170-228 | A crash-free, expiry-free SQS run that has come to rest, with a receive limit of at least MaxAttempts, and a complete broker run over the same jobs agree on every job's outcome and final batch and on all totals; nothing is dead-lettered, duplicated or redelivered after a death, and every message is deleted |
| `BrokerObject.Broker.Submit` | internal/dispatch/broker.go:69-95 | Refuses exactly invalid batches and closed submissions, with no change; otherwise, as a step of the machine, queues and counts the job with defaults filled in and all else as given |
| `BrokerObject.Broker.CloseSubmissions` | internal/dispatch/broker.go:97-102 | Closing is a step of the machine, done check included |
| `BrokerObject.Broker.Claim` | internal/dispatch/broker.go:104-131 | A claim takes the first job of the heap, one that every queued job may follow by priority and submission time, hands it out with one try more, running, at this time and worker, and is a step of the machine; on an empty queue it answers Shutdown if and only if submissions are closed and nothing runs |
| `BrokerObject.Broker.ReportOutcome` | internal/dispatch/broker.go:135-161 | The first lock section of Report is a step of the machine, or the error for a job that is not assigned; the job leaves the running ones, completed on success and otherwise untouched |
| `BrokerObject.Broker.ReportDecision` | internal/dispatch/broker.go:167-210 | The rest of Report is a step of the machine: guarded decision, then the job pending with the failure cleared, and on an adjustment with the decided size and precision, or completed on escalation, and nothing else of it changed |
| `PriorityQueue.Queue.Push` | internal/queue/queue.go:107-109 | Adds exactly the job to the heap's contents and keeps heap order and every index equal to its position |
| `PriorityQueue.Queue.Pop` | internal/queue/queue.go:111-118 | Removes exactly one job, such that every job left has a lower priority, or the same and no earlier submission; its index becomes -1; an empty queue answers null |
| `PriorityQueue.Queue.Drain` | internal/queue/queue.go:65-118 | Popping to the end yields all the jobs, by falling priority and within one priority by rising submission time |
| `PriorityQueue.Queue.Peek` | internal/queue/queue.go:122-128 | Shows a job of the queue that every queued job may follow by priority and submission time |
| `PriorityQueue.Queue.Swap` | internal/queue/queue.go:77-80 | Exchanges two positions and both indices, and nothing else |
| `PriorityQueue.RootIsFirst` | internal/queue/queue.go:71-76 | In heap order nothing goes before the root |
| `PriorityQueue.LiftKeepsOrder` | internal/queue/queue.go:107-109 | Sifting up moves the one misplaced edge up |
| `PriorityQueue.SinkKeepsOrder` | internal/queue/queue.go:113-118 | Sifting down to the smaller child moves the misplaced edges down |
| `Triage.PolicyStands` | internal/triage/triage.go:67-83 | The policy always answers, the guard never overrules it, and its adjustment of a valid batch is valid |
| `Triage.PolicyDecides` | internal/triage/triage.go:67-83 | With tries left the policy adjusts exactly the failures that mention "out of memory" or "oom" in any case, to half the batch but at least 1 in fp16; of the others it escalates exactly those that mention "corrupt" or "invalid input", and retries the rest |
| `Triage.PolicyGivesUp` | internal/triage/triage.go:69-71 | Without tries left it escalates whatever the failure |
| `Triage.ContainsIffMentioned` | internal/triage/triage.go:68 | Searching the lower-cased text for a lower-case word finds it exactly where the text has it in any mix of cases |
| `Triage.Resolve` | internal/dispatch/broker.go:167-176 | An acceptable answer is followed, unless it is no escalation and no tries are left; what is not acceptable or not an answer escalates, and the decision's source tells these cases apart |
| `Triage.FallbackNeverFails` | internal/triage/triage.go:183-195 | Behind the policy any primary agent yields a decision: its own when it succeeds, and otherwise the action, size and precision of the policy, marked as a fallback |
| `Triage.AdjustmentStaysValid` | internal/triage/triage.go:41-56 | An adjustment that passes Validate keeps a valid batch valid if and only if its size is at most 256, and changes only size and precision |
| `Triage.OversizedAdjustmentPasses` | internal/triage/triage.go:45-52 | A concrete adjustment to 257 passes Validate and the guard and is invalid |
| `Inference.ValidBatches` | internal/inference/inference.go:29-43 | The valid batches are exactly 1 to 256 ResNet-50 images of 3 x 224 x 224 in fp32 or fp16, of any seed |
| `Devices.StepKeepsInv` | internal/devices/devices.go:128-230 | Every lock section, network event and device step keeps versions ordered, one loop exactly when marked, status and budget consistent |
| `Devices.RunKeepsInv` | internal/devices/devices.go:128-230 | The same for every run from registration |
| `DeviceDelivery.DeliveryIsSafe` | internal/devices/devices.go:168-224 | Acked version <= device version <= desired version; the device runs exactly the config set at its version; no version is applied twice; acked means the device runs the latest config; pushed versions never decrease; all though pushes and acks are lost, delayed, repeated and reordered |
| `DeviceDelivery.AnswersTellWhatWasApplied` | internal/devices/sim.go:23-33 | In every run each push that arrives is answered, the last with the version the device runs, and the answers that say "applied" are exactly the versions applied, in order |
| `DeviceDelivery.AnythingMayHappen` | internal/devices/sim.go:78-107 | The network of the machine is free: any push ever sent may arrive once more, any answer ever given may reach a waiting loop, and any wait may time out, at any time |
| `DeviceDelivery.NoWakeupIsLost` | internal/devices/devices.go:135-166 | Until Close there is one push loop if and only if it is marked; pending if and only if it runs with work to do; failed if and only if it stopped short, with the budget of the desired version spent; acked if and only if the desired version was acknowledged |
| `DeviceDelivery.PushesAreBudgeted` | internal/devices/devices.go:178-189 | Version v is pushed at most MaxAttempts * (1 + effective retries of v) times, and exactly that often when the registry has given up on it |
| `DeviceDelivery.LoopStepLowersRank` | internal/devices/devices.go:168-224 | Every step of the push loop lowers a lexicographic rank of pushes left and stage |
| `DeviceDelivery.DeliverySettles` | internal/devices/devices.go:168-224 | After the last SetConfig or Retry the loop takes at most 3 * MaxAttempts + 3 steps, can always take one until it ends, and then the device is not pending |
| `DeviceDelivery.DeliveryConverges` | internal/devices/devices.go:197-221 | After the last SetConfig or Retry a settled device is acked if and only if an acknowledgement of the desired version came back to the loop, and failed otherwise |
| `DeviceRegistry.Registry.Register` | internal/devices/devices.go:114-122 | Adds an idle entry, or refuses an id that is taken and changes nothing |
| `DeviceRegistry.Registry.SetConfig` | internal/devices/devices.go:128-146 | Changes only the named device: the next version of the config, pending and without error; logs that version, and launches a loop exactly when none was running; an unknown device is refused |
| `DeviceRegistry.Registry.Retry` | internal/devices/devices.go:149-166 | Changes only the named device and only when it has failed: pending with a fresh budget and without error; logs nothing, and launches a loop exactly then |
| `DeviceRegistry.Registry.Top` | internal/devices/devices.go:171-191 | The head of the push loop: leave when closed or acknowledged, give up when the budget of the desired version is spent, or push the desired config once more with the next attempt number |
| `DeviceRegistry.Registry.Reply` | internal/devices/devices.go:197-222 | The handling of a send's outcome: a timeout only records the error, an answer of the desired version not yet acknowledged acknowledges it, any other answer changes nothing but the log |
| `DeviceRegistry.Registry.PushLoop` | internal/devices/devices.go:168-224 | One undisturbed loop over the lossy network ends acked if and only if one of the sends its budget allows goes through both ways, stops at the first such send, otherwise fails with the whole budget sent, and the device applies the version at most once |
| `DeviceRegistry.SimDevice.Receive` | internal/devices/sim.go:23-33 | Counts the push, applies it exactly when strictly newer, says so, and answers with the version it then runs |
| `DeviceRegistry.SimNetwork.Deliver` | internal/devices/sim.go:78-107 | Counts the send first; an unknown device fails; a dropped push leaves the device alone; a dropped ack comes after the device applied it |
| `Tracer.ReplayAgreesWithRegistry` | cmd/tracer/main.go:146-197 | In every reachable state the replay has the registry's desired and acked versions, its attempts once settled, and its state unless the registry is pending on a retried version, where the tracer says failed |
| `Tracer.CountersAreExact` | cmd/tracer/main.go:187-193 | In every run the replayed counters are the sends that went unanswered, the answers of a device that already ran the desired version, and the answers of any other version |
| `Tracer.RetryLeavesNoTrace` | internal/devices/devices.go:149-166 | A concrete run after which the registry is pending and the replay says failed |
| `Tracer.ReplayMeans` | cmd/tracer/main.go:174-193 | Of any sequence of events the replayed row has the version of the last config set, the highest version acknowledged, the last version given up on, and the attempt number of the last push of the desired version since it was set |
| `Tracer.DeviceStatus` | cmd/tracer/main.go:160-204 | The table has one row for exactly the devices mentioned in a mixed log, in order of their ids, each the replay of that device's own events |
| `Tracer.RowsOf` | cmd/tracer/main.go:165-197 | The loop keeps each device's row the replay of its events so far and lists each device once |
| `Tracer.SortedIdsKeep` | cmd/tracer/main.go:198 | Sorting the ids orders them and loses and repeats none |
| `Tracer.PrecedesIsLexicographic` | cmd/tracer/main.go:198 | The order of the ids is lexicographic: the prefix, or the one with the smaller character where they first differ, comes first |
| `Tracer.TableAgreesWithRegistry` | cmd/tracer/main.go:160-197 | For any interleaving of the runs of many devices among other events, each row agrees with that device's entry in the same sense, counters included |
| `Tracer.LogReadsBack` | internal/devices/devices.go:287-295 | Writing the registry's records under "device:" ids and reading one device back gives exactly what was recorded for it |
| `Tracer.DeviceOfJob` | cmd/tracer/main.go:166-169 | Prefix test and trim undo the prefixing, for exactly that id |
| `Tracer.SortIsStable` | cmd/tracer/main.go:163-164 | The sort orders events by time and keeps the order within each instant |
| `Tracer.SortKeepsOrdered` | cmd/tracer/main.go:163-164 | A log already in time order is not changed |
| `Allocator.FitIffHeld` | mem/allocator.c:46-62 | Something is placed if and only if some free block is large enough, under either strategy, and it goes to the first such block or to the first of the smallest such |
| `Allocator.AllocationIsSound` | mem/allocator.c:67-84 | A success adds one live block of exactly the size asked at the front of the chosen block, with a new id, moves nothing else and keeps the layout well formed; a refusal changes nothing |
| `Allocator.FreeingIsSound` | mem/allocator.c:90-112 | Freeing removes exactly the owned block, moves nothing else, leaves no two free neighbours, and does nothing for an id nobody owns |
| `AllocatorLaws.LayoutIsCanonical` | mem/allocator.c:67-112 | Two well-formed heaps of one size with the same live blocks have the same block list |
| `AllocatorLaws.AllocThenFree` | mem/allocator.c:67-112 | A successful allocation followed by freeing its id restores the same blocks |
| `AllocatorLaws.RunKeepsWellFormed` | mem/allocator.c:67-112 | After any requests the blocks tile the heap, no two neighbours are free, live ids are distinct, and no block that stays live has moved |
| `AllocatorLaws.HistoryLeavesNoTrace` | mem/allocator.c:67-112 | Any two histories, under any strategies, that end with the same live blocks end with the same block list |
| `AllocatorLaws.FreesCommute` | mem/allocator.c:90-112 | Freeing the same ids in any order, with repeats, gives the same heap |
| `AllocatorLaws.FreeingAllRestores` | mem/allocator.c:90-112 | Freeing all live ids in any order restores one free block of the heap's size |
| `AllocatorLaws.FreeBlocksAreBounded` | mem/allocator.c:114-133 | Free blocks are at most the live allocations plus one, so the largest times that is at least the total free memory |
| `AllocatorLaws.FragmentationIsShare` | mem/allocator.c:117-127 | With free memory, 100 minus the metric is to 100 as the largest free block is to the sum of the free blocks; and the metric is 0 if and only if no two blocks are free |
| `AllocatorLaws.FragmentationIsBounded` | mem/allocator.c:117-127 | The fragmentation metric is between 0 and 100 * (1 - 1 / (live + 1)) |
| `AllocatorLaws.FairShareSucceeds` | mem/allocator.c:48-84 | A request of at most its share of the free memory succeeds under either strategy |
| `AllocatorLaws.RefusedIffTooLarge` | mem/allocator.c:48-69 | A request is refused if and only if every free block is smaller |
| `AllocatorHeap.Heap.FindFit` | mem/allocator.c:48-62 | The walk over the linked list finds the block the layout function names, or null |
| `AllocatorHeap.Heap.Alloc` | mem/allocator.c:67-84 | Splitting in place equals the layout function, id included |
| `AllocatorHeap.Heap.Free` | mem/allocator.c:90-112 | Freeing and two-sided merging in place equals the layout function |
| `AllocatorHeap.Heap.ExternalFragmentationPct` | mem/allocator.c:117-127 | The walk computes the metric |
| `AllocatorHeap.Heap.CountFreeBlocks` | mem/allocator.c:129-133 | The walk counts the free blocks |
| `AllocatorWorkload.WorkKeepsTable` | mem/allocator.c:148-171 | Whatever is drawn, the table holds exactly the heap's live ids, each once, and never more than 4096 |
| `AllocatorWorkload.WorkIsCounted` | mem/allocator.c:148-171 | Refusals plus twice the ids handed out are the operations plus the live ids: every operation is a success, a refusal or a free |
| `AllocatorWorkload.OperationDecides` | mem/allocator.c:148-171 | An operation allocates exactly when nothing is live, or when so drawn with room among the 4096 entries; otherwise it takes exactly the drawn id out of the table |
| `AllocatorWorkload.RequestsInRange` | mem/allocator.c:156 | Every size from 64 to 4159 may be asked for and no other |
| `AllocatorWorkload.WorkloadIsBounded` | mem/allocator.c:143-180 | Free blocks and fragmentation stay within what the table's count allows after any draws |
| `AllocatorWorkload.RunWorkload` | mem/allocator.c:143-180 | The loop over the linked heap and the fixed array, with swap-remove, reports what the function over layouts and ids says |
| `Resources.FindNode` | internal/resource/resource.go:84-98 | The loop finds a node with room that leaves the fewest CPU cores free, the first of these, or nothing exactly when no node has room |
| `Resources.BestFitIsUnique` | internal/resource/resource.go:84-98 | That description names one node |
| `Resources.Node.Reserve` | internal/resource/resource.go:42-46 | Adds the request to the node's usage and changes nothing else |
| `Resources.Node.Release` | internal/resource/resource.go:50-54 | Subtracts it |
| `SchedulerRuns.ClusterIsAccounted` | cmd/scheduler/main.go:148-231 | In every reachable state each node's usage of each resource is the sum over the running jobs on it, within its total; an idle cluster uses nothing; no finish tick has been passed over |
| `SchedulerRuns.JobsAreConserved` | cmd/scheduler/main.go:148-231 | Every arrived job is in exactly one of queue (or set aside for it), running and completed |
| `SchedulerRuns.PlacementTouchesOnce` | cmd/scheduler/main.go:181-230 | Within a tick no job is popped twice, jobs are popped by priority and then by submission time, started jobs stay running, and turns made plus turns possible are the jobs queued or running, although preemption refills the queue |
| `SchedulerRuns.PlacementGoesOn` | cmd/scheduler/main.go:183-227 | While a job is queued some turn is possible |
| `SchedulerRuns.VictimIsNotStarted` | cmd/scheduler/main.go:246-257 | A victim is never a job started in the same tick, and its return leaves the candidate first |
| `SchedulerRecords.TurnDecides` | cmd/scheduler/main.go:183-227 | A turn starts its job on a node of the pool, now, to finish after 4 ticks plus one for every 4 images plus the jitter drawn, or sets it aside untouched; a job that stops running in it is the victim, queued again as if submitted now |
| `SchedulerRecords.JobsRunToTheirEnd` | cmd/scheduler/main.go:165-215 | A running job goes on until its finish tick, when it is completed, unless a turn sends it back as its victim |
| `SchedulerRecords.JobsAreArrivals` | cmd/scheduler/main.go:148-231 | In every reachable state a job is the request that arrived in some step of the run, its state tells where it is, and a running job finishes once the time its batch takes has passed since its start |
| `SchedulerRuns.PreemptionHelpsIff` | cmd/scheduler/main.go:242-257 | A preemption lets the candidate start if and only if, for each resource, what is free on the victim's node plus what the victim holds covers the request; otherwise it waits |
| `SchedulerRuns.PreemptionMayBeInVain` | cmd/scheduler/main.go:191-215 | A run from an empty two-node cluster after which the search picks a victim that does not help, so the victim loses its place and the candidate waits, although another running job of lower priority held enough |
| `SchedulerRuns.StepKeepsInv` | cmd/scheduler/main.go:148-231 | Every arrival, completion, turn and tick end keeps accounting, places, finish ticks and the order of the tick |
| `Scheduler.JoinKeepsBooked` | internal/resource/resource.go:39-46 | Placing a job where it fits keeps every node's usage exact and within its total |
| `Scheduler.LeaveKeepsBooked` | internal/resource/resource.go:48-54 | Taking a job off the node it names does too |
| `SchedulerObject.Simulation.FindPreemptionVictim` | cmd/scheduler/main.go:246-257 | In whatever order the map is visited: a running job of lowest priority, strictly below the candidate's, or none when there is no such job |
| `SchedulerObject.Simulation.ReleaseNode` | cmd/scheduler/main.go:168-173 | Gives the resources back to the first node of that name only |
| `SchedulerObject.Simulation.CompleteDue` | cmd/scheduler/main.go:165-179 | Completes jobs by steps of the machine until none that is due is left |
| `SchedulerObject.Simulation.PlaceNext` | cmd/scheduler/main.go:184-226 | One turn of the loop, with its preemption and second search, is a turn of the machine |
| `SchedulerObject.Simulation.PlaceAll` | cmd/scheduler/main.go:181-227 | The placement loop ends, empties the queue, and made exactly the turns it returns |
| `SchedulerObject.Simulation.Place` | cmd/scheduler/main.go:181-230 | With the requeueing, a run of the machine whose popped jobs are distinct, come by priority and then by submission time, and are no more than the jobs queued or running |
| `SchedulerObject.Simulation.Tick` | cmd/scheduler/main.go:148-231 | One tick is a run of the machine |
| `SchedulerObject.Simulation.Run` | cmd/scheduler/main.go:148-231 | The simulation ends after its ticks in a state that a run of the machine reaches, so all of the above holds of it |

## Left out

- AWS SDK calls, queue creation and attributes: the queue is its receive, delete, release and redrive behaviour; a poll that misses a message is a Receive that is not taken, and Watch may see any of the dead letters.
- SqsQueue.Queues.PeekDeadLetters: finds every dead letter when there are fewer than ten; the protocol assumes only that what is peeked is dead-lettered.
- Failed Ack, Release, Send and RPC calls: RunSQSWorker returns an error there, which is a crash of the worker in the protocol; a failed enqueue at Submit leaves the job rejected.
- SqsWorker.Worker.RunUntilIdle: stops where the loop would poll, sleep and look at Status again; the runner and the agent are functions of what they are shown, and other workers appear only in the protocol.
- The exact meaning of the Redelivered counter with crashes or expiry: planned retries are remembered per job and not per message, so there it is only kept as the code computes it; without them it stays 0.
- LLMAgent's HTTP and JSON: an arbitrary answer or error of the agent covers it.
- RPC transport, process spawning, supervision, SIGKILL hooks and workload generation in cmd/dispatcher: a crash may happen at any step.
- Injected failures: the outcome of a try is an arbitrary function of job id, attempt and batch where the backends are compared, and arbitrary everywhere else.
- Text functions of the policy agent: lower-casing is of ASCII letters only.
- Model and precision strings: the known names are told apart from all others.
- Integer widths: versions, ids, counters and sizes are unbounded.
- Wall-clock time, timeouts, backoff and sleeps: a timeout may happen at any moment, and times are parameters.
- DeviceRegistry.Registry.PushLoop: one loop without SetConfig, Retry or Close beside it; every interleaving with them is in the machine of Devices.
- Latency of SimNetwork and cancellation of a send by Close: covered by the network of Devices, which may delay or lose anything.
- The telemetry file, SQL, JSON lines and malformed lines: the log is the sequence of decoded events.
- The tracer's per-job timeline and wait summary: listings of the same events; device ids are compared by characters, not by encoded bytes.
- Registry.List and WaitSettled: reads of the modelled entries.
- AllocatorWorkload.RunWorkload: the progress report, which divides by a fifth of the operations, the random generator and heap_destroy are left out; draws are parameters.
- Allocations of size 0 and an empty heap: excluded by the well-formedness the theorems assume, though the methods of AllocatorHeap accept them.
- Starvation freedom of the tick scheduler: not claimed; equal-priority victims can be preempted in turns for ever.
- Node-spec parsing, flags, printing, utilisation percentages and the random workload of cmd/scheduler: arrivals, their batches and run-time jitter are parameters.
- cmd/devices, internal/devices/http.go, serverless and ml/inference_runner.py: plumbing, validation or floating-point work around the cores.
