/** The ML payload of a job: internal/inference. */
module Inference {
  // The source's strings, with the ones it knows by name told apart from all others.
  datatype Model = ResNet50 | UnknownModel(name: string)
  datatype Precision = FP32 | FP16 | UnknownPrecision(name: string)

  datatype Batch = Batch(model: Model, batchSize: int, precision: Precision, channels: int, height: int, width: int,
                         seed: int)

  predicate Valid(b: Batch) {
    && b.model.ResNet50?
    && 1 <= b.batchSize <= 256
    && !b.precision.UnknownPrecision?
    && b.channels == 3 && b.height == 224 && b.width == 224
  }

  /** The valid batches: those of 1 to 256 ResNet-50 images of 3 x 224 x 224, in either precision, of any seed. */
  lemma ValidBatches(b: Batch)
    ensures Valid(b) <==>
            exists n, p, seed :: b == Batch(ResNet50, n, p, 3, 224, 224, seed) && 1 <= n <= 256 && p in {FP32, FP16}
  {
    if Valid(b) {
      assert b == Batch(ResNet50, b.batchSize, b.precision, 3, 224, 224, b.seed);
    }
  }
}

/** The job record shared by the queues, the coordinators and the simulation: internal/queue. */
module Jobs {
  import opened Inference

  datatype Requirements = Requirements(cpuCores: int, memoryMB: int, gpus: int)

  datatype JobState = Pending | Running | Preempted | Completed

  // A zero time means "not set".
  datatype Job = Job(id: string, priority: int, resources: Requirements, batch: Batch,
                     attempt: int, maxAttempts: int, injectFailure: string, state: JobState,
                     submitTime: int, startTime: int, node: string)

  // How a job ends: completed, escalated to a human, or dead-lettered by the queue.
  datatype Outcome = Succeeded | Escalated | Dead

  // How Submit normalises a job, in both coordinators.
  function Normalised(job: Job, now: int): Job {
    job.(maxAttempts := if job.maxAttempts < 1 then 3 else job.maxAttempts,
         state := Pending,
         submitTime := if job.submitTime == 0 then now else job.submitTime)
  }

  /** What Submit promises of the job it admits: three tries unless the caller allows some number, the caller's
      submission time if it set one, and otherwise the job as it was given. */
  predicate AdmittedFrom(admitted: Job, given: Job, now: int) {
    && admitted.id == given.id && admitted.priority == given.priority && admitted.resources == given.resources
    && admitted.batch == given.batch && admitted.attempt == given.attempt
    && admitted.injectFailure == given.injectFailure
    && admitted.startTime == given.startTime && admitted.node == given.node
    && (given.maxAttempts >= 1 ==> admitted.maxAttempts == given.maxAttempts)
    && (given.maxAttempts < 1 ==> admitted.maxAttempts == 3)
    && (given.submitTime != 0 ==> admitted.submitTime == given.submitTime)
    && (given.submitTime == 0 ==> admitted.submitTime == now)
    && admitted.state == Pending
  }

  /** A later version of a job admitted earlier: only how often and where it was tried, the size and precision of
      its batch and the injected failure may have changed since. */
  predicate CopyOf(job: Job, admitted: Job) {
    && job.id == admitted.id && job.priority == admitted.priority && job.resources == admitted.resources
    && job.maxAttempts == admitted.maxAttempts && job.submitTime == admitted.submitTime
    && job.batch == admitted.batch.(batchSize := job.batch.batchSize, precision := job.batch.precision)
  }
}
