/** The queue together with the job objects it is about: every known id has one object, and some of these
    objects are queued. Both the broker and the tick scheduler keep their jobs this way. */
module JobTable {
  import opened Jobs
  import opened PriorityQueue

  class Table {
    const queue: Queue
    // The object behind every id submitted so far.
    ghost var refs: map<string, JobRef>

    ghost function Refs(): set<JobRef>
      reads this`refs
    {
      set id | id in refs :: refs[id]
    }

    ghost function Records(): map<string, Job>
      reads this`refs, Refs()`job
    {
      map id | id in refs :: refs[id].job
    }

    ghost function Queued(): set<string>
      reads this`refs, queue
    {
      set id | id in refs && refs[id] in queue.Members()
    }

    /** Ids are keys, and the heap holds known jobs only. */
    ghost predicate Valid()
      reads this`refs, queue, queue.Members(), Refs()`job
    {
      queue.Valid() && queue.Members() <= Refs() && forall id <- refs :: refs[id].job.id == id
    }

    constructor ()
      ensures Valid() && fresh(queue) && refs == map[] && Queued() == {}
    {
      queue := new Queue();
      refs := map[];
    }

    lemma IsEmpty()
      requires Valid()
      ensures queue.heap == [] <==> Queued() == {}
    {
      if queue.heap != [] {
        var ref := queue.heap[0];
        assert ref in queue.Members() && ref.job.id in Queued();
      }
      if Queued() != {} {
        var id :| id in Queued();
        assert refs[id] in queue.Members();
      }
    }

    /** Changes the record of a job that is not queued. */
    method Rewrite(ref: JobRef, job: Job)
      requires Valid() && ref in Refs() && job.id == ref.job.id && ref !in queue.Members()
      modifies ref`job
      ensures Valid() && Records() == old(Records())[job.id := job] && Queued() == old(Queued())
      ensures ref.job == job
    {
      assert refs[ref.job.id] == ref;
      ref.job := job;
    }

    method Enqueue(ref: JobRef)
      requires Valid() && ref in Refs() && ref !in queue.Members()
      modifies queue, ref`index, queue.Members()`index
      ensures Valid() && Records() == old(Records()) && Queued() == old(Queued()) + {ref.job.id}
    {
      assert refs[ref.job.id] == ref;
      queue.Push(ref);
    }

    /** Changes the record of a job and queues it. */
    method PutBack(ref: JobRef, job: Job)
      requires Valid() && ref in Refs() && job.id == ref.job.id && ref !in queue.Members()
      modifies queue, ref, queue.Members()`index
      ensures Valid() && Records() == old(Records())[job.id := job] && Queued() == old(Queued()) + {job.id}
      ensures ref.job == job
    {
      Rewrite(ref, job);
      Enqueue(ref);
    }

    /** Removes a job that no queued job goes before. */
    method Dequeue() returns (ref: JobRef)
      requires Valid() && queue.heap != []
      modifies queue, queue.Members()`index
      ensures Valid() && ref in old(queue.Members()) && old(NoneBefore(queue.Members(), ref.job))
      ensures ref.job.id in refs && refs[ref.job.id] == ref && ref !in queue.Members()
      ensures Records() == old(Records()) && Queued() == old(Queued()) - {ref.job.id}
      ensures ref.job.id in old(Queued())
    {
      ref := queue.Pop();
      assert refs[ref.job.id] == ref;
    }

    /** Makes a new job object known. */
    ghost method Register(ref: JobRef)
      requires Valid() && ref.job.id !in refs && ref !in Refs()
      modifies this`refs
      ensures Valid() && refs == old(refs)[ref.job.id := ref] && Refs() == old(Refs()) + {ref}
      ensures Records() == old(Records())[ref.job.id := ref.job] && Queued() == old(Queued()) && ref !in queue.Members()
    {
      refs := refs[ref.job.id := ref];
      assert refs[ref.job.id] == ref;
      assert forall id <- old(refs) :: id in refs && refs[id] == old(refs)[id];
      assert Queued() == old(Queued());
    }
  }
}
