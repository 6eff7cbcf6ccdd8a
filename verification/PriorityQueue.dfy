/** The priority queue of jobs: internal/queue, with the sift loops of Go's container/heap that it runs on. */
module PriorityQueue {
  import opened Jobs

  /** A queued job: the record, and its position in the heap (-1 when in no heap). */
  class JobRef {
    var job: Job
    var index: int

    constructor (job: Job)
      ensures this.job == job && index == -1
    {
      this.job := job;
      index := -1;
    }
  }

  /** Higher priority first, then the earlier submission. */
  predicate Before(a: Job, b: Job) {
    if a.priority != b.priority then a.priority > b.priority else a.submitTime < b.submitTime
  }

  /** What the order promises: `a` may come out behind `b`, which has a higher priority, or the same and was not
      submitted later. */
  predicate MayFollow(a: Job, b: Job) {
    a.priority < b.priority || (a.priority == b.priority && b.submitTime <= a.submitTime)
  }

  function Parent(i: int): int
    requires i > 0
  {
    (i - 1) / 2
  }

  lemma NotBeforeIsTransitive(a: Job, b: Job, c: Job)
    requires !Before(b, a) && !Before(c, b)
    ensures !Before(c, a)
  {
  }

  /** The records of a heap, which no change of a position touches. */
  ghost function Records(h: seq<JobRef>): (r: seq<Job>)
    reads h`job
    ensures |r| == |h| && forall i {:trigger r[i]} | 0 <= i < |h| :: r[i] == h[i].job
  {
    if h == [] then [] else Records(h[..|h| - 1]) + [h[|h| - 1].job]
  }

  /** The first `n` records are in heap order. */
  ghost predicate Ordered(h: seq<Job>, n: int) {
    n <= |h| && forall i | 0 < i < n :: !Before(h[i], h[Parent(i)])
  }

  /** Ordered but for the edge from `j` up to its parent; below `j` everything fits under that parent. */
  ghost predicate OrderedExceptUp(h: seq<Job>, j: int) {
    && 0 <= j < |h|
    && (forall i | 0 < i < |h| && i != j :: !Before(h[i], h[Parent(i)]))
    && (forall i | 0 < i < |h| && Parent(i) == j && j > 0 :: !Before(h[i], h[Parent(j)]))
  }

  /** Among the first `n` records, ordered but for the edges from `j` down to its children; these fit under
      the parent of `j`. */
  ghost predicate OrderedExceptDown(h: seq<Job>, j: int, n: int) {
    && 0 <= j < n <= |h|
    && (forall i | 0 < i < n && Parent(i) != j :: !Before(h[i], h[Parent(i)]))
    && (forall i | 0 < i < n && Parent(i) == j && j > 0 :: !Before(h[i], h[Parent(j)]))
  }

  ghost predicate NoneBefore(members: set<JobRef>, job: Job)
    reads members`job
  {
    forall x <- members :: MayFollow(x.job, job)
  }

  ghost predicate Sorted(h: seq<Job>) {
    forall i, j | 0 <= i < j < |h| :: MayFollow(h[j], h[i])
  }

  ghost predicate Indexed(h: seq<JobRef>)
    reads h`index
  {
    && (forall i | 0 <= i < |h| :: h[i].index == i)
    && (forall i, j | 0 <= i < j < |h| :: h[i] != h[j])
  }

  lemma {:induction false} RootIsFirst(h: seq<Job>, i: nat)
    requires i < |h| && Ordered(h, |h|)
    ensures !Before(h[i], h[0])
  {
    if i > 0 {
      RootIsFirst(h, Parent(i));
      NotBeforeIsTransitive(h[0], h[Parent(i)], h[i]);
    }
  }

  // Sifting a job up one level moves the only misplaced edge up with it.
  lemma LiftKeepsOrder(h: seq<Job>, j: nat)
    requires 0 < j < |h| && OrderedExceptUp(h, j) && Before(h[j], h[Parent(j)])
    ensures OrderedExceptUp(Swapped(h, Parent(j), j), Parent(j))
  {
  }

  // Sifting a job down to its smaller child moves the misplaced edges down with it.
  lemma SinkKeepsOrder(h: seq<Job>, i: nat, j: nat, n: nat)
    requires i < j < n && Parent(j) == i && OrderedExceptDown(h, i, n) && Before(h[j], h[i])
    requires forall k | 0 < k < n && Parent(k) == i :: !Before(h[k], h[j])
    ensures OrderedExceptDown(Swapped(h, i, j), j, n)
  {
  }

  lemma SinkDone(h: seq<Job>, i: nat, n: nat)
    requires OrderedExceptDown(h, i, n)
    requires forall k | 0 < k < n && Parent(k) == i :: !Before(h[k], h[i])
    ensures Ordered(h, n)
  {
  }

  // Moving the last leaf to the root leaves only the root's edges to repair.
  lemma LastLeafRaised(h: seq<Job>, n: nat)
    requires |h| == n + 1 && Ordered(h, |h|)
    ensures n > 0 ==> OrderedExceptDown(Swapped(h, 0, n), 0, n)
  {
  }

  function Swapped<T>(s: seq<T>, i: nat, j: nat): (r: seq<T>)
    requires i < |s| && j < |s|
    ensures |r| == |s| && r[i] == s[j] && r[j] == s[i]
    ensures forall k | 0 <= k < |s| && k != i && k != j :: r[k] == s[k]
  {
    s[i := s[j]][j := s[i]]
  }

  lemma SwappedContents<T>(s: seq<T>, i: nat, j: nat)
    requires i < |s| && j < |s|
    ensures multiset(Swapped(s, i, j)) == multiset(s)
    ensures (set x | x in Swapped(s, i, j)) == (set x | x in s)
  {
    forall x
      ensures x in Swapped(s, i, j) <==> x in s
    {
      assert x in multiset(Swapped(s, i, j)) <==> x in Swapped(s, i, j);
    }
  }

  class Queue {
    var heap: seq<JobRef>

    ghost predicate Valid()
      reads this, heap
    {
      Indexed(heap) && Ordered(Records(heap), |heap|)
    }

    ghost function Members(): set<JobRef>
      reads this
    {
      set x | x in heap
    }

    /** The same jobs, in some order. */
    twostate predicate SameJobs()
      reads this
    {
      multiset(heap) == multiset(old(heap)) && |heap| == |old(heap)| && Members() == old(Members())
    }

    constructor ()
      ensures Valid() && heap == []
    {
      heap := [];
    }

    method Swap(i: nat, j: nat)
      requires i < |heap| && j < |heap| && Indexed(heap)
      modifies this, Members()`index
      ensures heap == Swapped(old(heap), i, j) && Indexed(heap) && SameJobs()
      ensures Records(heap) == Swapped(old(Records(heap)), i, j)
    {
      SwappedContents(heap, i, j);
      heap := Swapped(heap, i, j);
      heap[i].index := i;
      heap[j].index := j;
    }

    method Up(start: nat)
      requires Indexed(heap) && OrderedExceptUp(Records(heap), start)
      modifies this, Members()`index
      ensures Valid() && SameJobs()
    {
      var j := start;
      while j > 0 && Before(heap[j].job, heap[Parent(j)].job)
        invariant 0 <= j < |heap| && Indexed(heap) && OrderedExceptUp(Records(heap), j) && SameJobs()
        decreases j
      {
        LiftKeepsOrder(Records(heap), j);
        Swap(Parent(j), j);
        j := Parent(j);
      }
    }

    /** Sifts the root down among the first `n` jobs. */
    method Down(n: nat)
      requires 0 < n < |heap| && Indexed(heap) && OrderedExceptDown(Records(heap), 0, n)
      modifies this, Members()`index
      ensures Indexed(heap) && SameJobs() && Ordered(Records(heap), n) && heap[n] == old(heap)[n]
    {
      var i := 0;
      while 2 * i + 1 < n
        invariant 0 <= i < n < |heap| && Indexed(heap) && OrderedExceptDown(Records(heap), i, n)
        invariant SameJobs() && heap[n] == old(heap)[n]
        decreases n - i
      {
        var j := SmallerChild(i, n);
        if !Before(heap[j].job, heap[i].job) {
          SinkDone(Records(heap), i, n);
          return;
        }
        SinkKeepsOrder(Records(heap), i, j, n);
        Swap(i, j);
        i := j;
      }
      SinkDone(Records(heap), i, n);
    }

    method SmallerChild(i: nat, n: nat) returns (j: nat)
      requires 2 * i + 1 < n <= |heap|
      ensures i < j < n && Parent(j) == i
      ensures forall k | 0 < k < n && Parent(k) == i :: !Before(heap[k].job, heap[j].job)
    {
      j := 2 * i + 1;
      if j + 1 < n && Before(heap[j + 1].job, heap[j].job) {
        j := j + 1;
      }
    }

    method Push(j: JobRef)
      requires Valid() && j !in heap
      modifies this, Members()`index, j`index
      ensures Valid() && multiset(heap) == multiset(old(heap)) + multiset{j}
      ensures Members() == old(Members()) + {j}
    {
      Append(j);
      Up(|heap| - 1);
    }

    // Puts a job behind all others; only its own edge may be out of order.
    method Append(j: JobRef)
      requires Valid() && j !in heap
      modifies this, j`index
      ensures heap == old(heap) + [j] && Indexed(heap) && OrderedExceptUp(Records(heap), |heap| - 1)
      ensures multiset(heap) == multiset(old(heap)) + multiset{j} && Members() == old(Members()) + {j}
    {
      ghost var before := Records(heap);
      j.index := |heap|;
      heap := heap + [j];
      assert Records(heap) == before + [j.job];
    }

    /** Removes the job that nothing left behind goes before. */
    method Pop() returns (r: JobRef?)
      requires Valid()
      modifies this, Members()`index
      ensures Valid()
      ensures old(heap) == [] ==> r == null && heap == []
      ensures old(heap) != [] ==>
                && r != null && r in old(Members()) && r.index == -1
                && multiset(heap) == multiset(old(heap)) - multiset{r} && |heap| == |old(heap)| - 1
                && Members() == old(Members()) - {r}
                && NoneBefore(Members(), r.job)
    {
      if heap == [] {
        return null;
      }
      FirstIsFirst();
      RootToEnd();
      r := RemoveLast();
    }

    // Exchanges the root with the last leaf and repairs the order among the others.
    method RootToEnd()
      requires heap != [] && Valid()
      modifies this, Members()`index
      ensures Indexed(heap) && SameJobs() && Ordered(Records(heap), |heap| - 1)
      ensures heap[|heap| - 1] == old(heap)[0]
    {
      var n := |heap| - 1;
      LastLeafRaised(Records(heap), n);
      Swap(0, n);
      if n > 0 {
        Down(n);
      }
    }

    lemma FirstIsFirst()
      requires heap != [] && Valid()
      ensures NoneBefore(Members(), heap[0].job)
    {
      forall i | 0 <= i < |heap|
        ensures MayFollow(heap[i].job, heap[0].job)
      {
        RootIsFirst(Records(heap), i);
      }
    }

    method RemoveLast() returns (r: JobRef)
      requires heap != [] && Indexed(heap) && Ordered(Records(heap), |heap| - 1)
      modifies this, Members()`index
      ensures Valid() && r == old(heap)[|old(heap)| - 1] && r.index == -1
      ensures multiset(heap) == multiset(old(heap)) - multiset{r} && |heap| == |old(heap)| - 1
      ensures Members() == old(Members()) - {r}
    {
      var n := |heap| - 1;
      r := heap[n];
      DropLast(heap, n);
      heap := heap[..n];
      r.index := -1;
    }

    method Len() returns (n: nat)
      ensures n == |heap|
    {
      n := |heap|;
    }

    method Peek() returns (r: JobRef?)
      requires Valid()
      ensures heap == [] ==> r == null
      ensures heap != [] ==> r != null && r in Members() && NoneBefore(Members(), r.job)
    {
      if heap == [] {
        return null;
      }
      FirstIsFirst();
      r := heap[0];
    }

    /** Popping until the queue is empty yields its jobs in priority order, oldest first within a priority. */
    method Drain() returns (out: seq<JobRef>)
      requires Valid()
      modifies this, Members()`index
      ensures heap == [] && multiset(out) == multiset(old(heap))
      ensures Sorted(Records(out))
    {
      out := [];
      while heap != []
        invariant Drained(out, old(multiset(heap))) && Members() <= old(Members())
        decreases |heap|
      {
        out := DrainOne(out, old(multiset(heap)));
      }
    }

    ghost predicate Drained(out: seq<JobRef>, all: multiset<JobRef>)
      reads this, heap, out`job
    {
      && Valid() && multiset(out) + multiset(heap) == all
      && Sorted(Records(out)) && forall i | 0 <= i < |out| :: NoneBefore(Members(), Records(out)[i])
    }

    method DrainOne(out: seq<JobRef>, ghost all: multiset<JobRef>) returns (longer: seq<JobRef>)
      requires heap != [] && Drained(out, all)
      modifies this, Members()`index
      ensures Drained(longer, all) && Members() <= old(Members()) && |heap| == |old(heap)| - 1
    {
      var r := Pop();
      longer := Appended(out, r, Members());
    }
  }

  method Appended(out: seq<JobRef>, r: JobRef, ghost rest: set<JobRef>) returns (longer: seq<JobRef>)
    requires Sorted(Records(out)) && NoneBefore(rest, r.job)
    requires forall i | 0 <= i < |out| :: NoneBefore(rest, Records(out)[i]) && MayFollow(r.job, Records(out)[i])
    ensures longer == out + [r] && multiset(longer) == multiset(out) + multiset{r} && Sorted(Records(longer))
    ensures forall i | 0 <= i < |longer| :: NoneBefore(rest, Records(longer)[i])
  {
    longer := out + [r];
  }

  lemma DropLast(h: seq<JobRef>, n: nat)
    requires |h| == n + 1 && forall i, j | 0 <= i < j < |h| :: h[i] != h[j]
    ensures multiset(h[..n]) == multiset(h) - multiset{h[n]}
    ensures (set x | x in h[..n]) == (set x | x in h) - {h[n]}
  {
    assert h == h[..n] + [h[n]];
  }
}
