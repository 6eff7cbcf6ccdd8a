/** The synthetic workload: random allocations and frees, with the live ids kept in a fixed table from which
    a freed id is removed by moving the last one into its place. */
module AllocatorWorkload {
  import opened Wrappers
  import opened Allocator
  import opened AllocatorLaws
  import opened AllocatorHeap

  const TABLE := 4096

  // The random numbers one operation may draw: allocate or free, how much, and which.
  datatype Draw = Draw(grow: bool, size: nat, pick: nat)

  datatype Work = Work(heap: Layout, live: seq<int>, failed: nat)

  function Started(size: nat, strategy: Strategy): Work {
    Work(Created(size, strategy), [], 0)
  }

  function Request(d: Draw): nat {
    64 + d.size % 4096
  }

  function SwapRemoved(live: seq<int>, k: nat): seq<int>
    requires k < |live|
  {
    live[k := live[|live| - 1]][..|live| - 1]
  }

  function Grown(w: Work, size: nat): Work {
    var (heap, id) := Allocated(w.heap, size);
    if id < 0 then Work(heap, w.live, w.failed + 1) else Work(heap, w.live + [id], w.failed)
  }

  function Shrunk(w: Work, k: nat): Work
    requires k < |w.live|
  {
    Work(Freed(w.heap, w.live[k]), SwapRemoved(w.live, k), w.failed)
  }

  function Worked(w: Work, d: Draw): Work {
    if |w.live| == 0 || (d.grow && |w.live| < TABLE) then Grown(w, Request(d)) else Shrunk(w, d.pick % |w.live|)
  }

  function WorkedAll(w: Work, draws: seq<Draw>): Work {
    if draws == [] then w else Worked(WorkedAll(w, draws[..|draws| - 1]), draws[|draws| - 1])
  }

  /** The table holds each live id of the heap once, and nothing else. */
  ghost predicate TableOk(w: Work) {
    && WellFormed(w.heap) && |w.live| <= TABLE
    && (forall i, j | 0 <= i < j < |w.live| :: w.live[i] != w.live[j])
    && (forall id :: id in w.live <==> id in LiveIds(w.heap.cells))
  }

  lemma SwapRemovedIds(live: seq<int>, k: nat)
    requires k < |live| && forall i, j | 0 <= i < j < |live| :: live[i] != live[j]
    ensures var after := SwapRemoved(live, k);
            && (forall i, j | 0 <= i < j < |after| :: after[i] != after[j])
            && (forall id :: id in after <==> id in live && id != live[k])
  {
    var after := SwapRemoved(live, k);
    forall id | id in live && id != live[k] ensures id in after {
      var i :| 0 <= i < |live| && live[i] == id;
      assert id == after[if i == |live| - 1 then k else i];
    }
  }

  lemma AllocatedTable(w: Work, size: nat)
    requires TableOk(w) && |w.live| < TABLE && size > 0
    ensures TableOk(Grown(w, size))
  {
    AllocationIsSound(w.heap, size);
    var (heap, id) := Allocated(w.heap, size);
    if id >= 0 {
      var block := Cell(w.heap.cells[Fit(w.heap, size).value].offset, size, false, id);
      AddedId(w.heap.cells, heap.cells, block);
    }
  }

  lemma AddedId(before: seq<Cell>, after: seq<Cell>, block: Cell)
    requires Live(after) == Live(before) + {block}
    ensures LiveIds(after) == LiveIds(before) + {block.id}
  {
    forall id ensures id in LiveIds(after) <==> id in LiveIds(before) || id == block.id {
      if id in LiveIds(after) {
        var c :| c in Live(after) && c.id == id;
      }
      if id in LiveIds(before) {
        var c :| c in Live(before) && c.id == id;
        assert c in Live(after);
      }
      assert block in Live(after);
    }
  }

  lemma RemovedId(before: seq<Cell>, after: seq<Cell>, id: int)
    requires Live(after) == Live(before) - Owned(Live(before), id)
    ensures LiveIds(after) == LiveIds(before) - {id}
  {
    forall x ensures x in LiveIds(after) <==> x in LiveIds(before) && x != id {
      if x in LiveIds(after) {
        var c :| c in Live(after) && c.id == x;
        assert c in Live(before);
      }
      if x in LiveIds(before) && x != id {
        var c :| c in Live(before) && c.id == x;
        assert c in Live(after);
      }
    }
  }

  lemma FreedTable(w: Work, k: nat)
    requires TableOk(w) && k < |w.live|
    ensures TableOk(Shrunk(w, k))
  {
    FreeingIsSound(w.heap, w.live[k]);
    RemovedId(w.heap.cells, Freed(w.heap, w.live[k]).cells, w.live[k]);
    SwapRemovedIds(w.live, k);
  }

  lemma {:induction false} WorkKeepsTable(w: Work, draws: seq<Draw>)
    requires TableOk(w)
    ensures TableOk(WorkedAll(w, draws))
  {
    if draws != [] {
      WorkKeepsTable(w, draws[..|draws| - 1]);
      var before, d := WorkedAll(w, draws[..|draws| - 1]), draws[|draws| - 1];
      if |before.live| == 0 || (d.grow && |before.live| < TABLE) {
        AllocatedTable(before, Request(d));
      } else {
        FreedTable(before, d.pick % |before.live|);
      }
    }
  }

  /** Every size from 64 to 4159 bytes may be asked for, and no other. */
  lemma RequestsInRange(n: nat)
    ensures (exists d :: Request(d) == n) <==> 64 <= n <= 4159
  {
    if 64 <= n <= 4159 {
      assert Request(Draw(true, n - 64, 0)) == n;
    }
  }

  /** An operation asks for memory exactly when nothing is live, or when so drawn with room in the table for 4096;
      otherwise it takes the drawn id out of the table. */
  lemma OperationDecides(w: Work, d: Draw)
    requires TableOk(w)
    ensures var t := Worked(w, d);
            if |w.live| == 0 || (d.grow && |w.live| < 4096)
            then t.failed + t.heap.nextId == w.failed + w.heap.nextId + 1 && w.live <= t.live
            else t.failed == w.failed && t.heap.nextId == w.heap.nextId
                 && forall id :: id in t.live <==> id in w.live && id != w.live[d.pick % |w.live|]
  {
    if |w.live| == 0 || (d.grow && |w.live| < 4096) {
    } else {
      SwapRemovedIds(w.live, d.pick % |w.live|);
    }
  }

  /** Every operation is accounted for: a success raises the next id and the table's count, a free lowers the count,
      and everything else was a refusal. */
  lemma {:induction false} WorkIsCounted(size: nat, strategy: Strategy, draws: seq<Draw>)
    requires size > 0
    ensures var w := WorkedAll(Started(size, strategy), draws);
            w.failed + 2 * w.heap.nextId == |draws| + |w.live|
  {
    if draws != [] {
      WorkIsCounted(size, strategy, draws[..|draws| - 1]);
    }
  }

  lemma {:induction false} DistinctCount(ids: seq<int>, all: set<int>)
    requires forall i, j | 0 <= i < j < |ids| :: ids[i] != ids[j]
    requires forall id :: id in ids <==> id in all
    ensures |all| == |ids|
  {
    if ids == [] {
      assert forall id | id in all :: id in ids && id in [];
      assert |all| == 0;
    } else {
      var last := ids[|ids| - 1];
      assert ids == ids[..|ids| - 1] + [last];
      DistinctCount(ids[..|ids| - 1], all - {last});
    }
  }

  /** Whatever is drawn: the table never overflows, it holds exactly the live ids, and the free blocks and
      the fragmentation stay within what that many allocations allow. */
  lemma WorkloadIsBounded(size: nat, strategy: Strategy, draws: seq<Draw>)
    requires size > 0
    ensures var w := WorkedAll(Started(size, strategy), draws);
            && TableOk(w) && |w.live| <= TABLE
            && FreeBlocks(w.heap.cells) <= |w.live| + 1
            && FragmentationPct(w.heap.cells) <= 100.0 * (1.0 - 1.0 / (|w.live| + 1) as real)
  {
    CreatedIsWellFormed(size, strategy);
    assert LiveIds(Started(size, strategy).heap.cells) == {};
    WorkKeepsTable(Started(size, strategy), draws);
    var w := WorkedAll(Started(size, strategy), draws);
    DistinctCount(w.live, LiveIds(w.heap.cells));
    FreeBlocksAreBounded(w.heap);
    FragmentationIsBounded(w.heap);
  }

  method Grow(heap: Heap, liveIds: array<int>, liveCount: nat, size: nat, ghost w: Work)
    returns (count: nat, refused: bool)
    requires heap.Valid() && liveIds.Length == TABLE && liveCount < TABLE
    requires liveIds[..liveCount] == w.live && heap.View() == w.heap
    modifies heap`nextAllocId, heap`nodes, heap`blocks, heap.blocks, liveIds
    ensures heap.Valid() && fresh(heap.blocks - old(heap.blocks))
    ensures count <= TABLE && heap.View() == Grown(w, size).heap && liveIds[..count] == Grown(w, size).live
    ensures Grown(w, size).failed == w.failed + if refused then 1 else 0
  {
    var id := heap.Alloc(size);
    count, refused := liveCount, id < 0;
    if id >= 0 {
      liveIds[liveCount] := id;
      count := liveCount + 1;
      assert liveIds[..count] == w.live + [id];
    }
  }

  method Shrink(heap: Heap, liveIds: array<int>, liveCount: nat, k: nat, ghost w: Work) returns (count: nat)
    requires heap.Valid() && liveIds.Length == TABLE && k < liveCount <= TABLE
    requires liveIds[..liveCount] == w.live && heap.View() == w.heap
    modifies heap`nodes, heap.blocks, liveIds
    ensures heap.Valid() && heap.blocks == old(heap.blocks)
    ensures count <= TABLE && heap.View() == Shrunk(w, k).heap && liveIds[..count] == Shrunk(w, k).live
  {
    heap.Free(liveIds[k]);
    count := liveCount - 1;
    liveIds[k] := liveIds[count];
    assert liveIds[..count] == SwapRemoved(w.live, k);
  }

  /** One operation, on the heap and the table in place. */
  method Operate(heap: Heap, liveIds: array<int>, liveCount: nat, d: Draw, ghost w: Work)
    returns (count: nat, refused: bool)
    requires heap.Valid() && liveIds.Length == TABLE && liveCount <= TABLE
    requires liveIds[..liveCount] == w.live && heap.View() == w.heap
    modifies heap`nextAllocId, heap`nodes, heap`blocks, heap.blocks, liveIds
    ensures heap.Valid() && fresh(heap.blocks - old(heap.blocks))
    ensures count <= TABLE && heap.View() == Worked(w, d).heap && liveIds[..count] == Worked(w, d).live
    ensures Worked(w, d).failed == w.failed + if refused then 1 else 0
  {
    refused := false;
    if liveCount == 0 || (d.grow && liveCount < TABLE) {
      count, refused := Grow(heap, liveIds, liveCount, Request(d), w);
    } else {
      count := Shrink(heap, liveIds, liveCount, d.pick % liveCount, w);
    }
  }

  /** All operations, on a heap and a table that the caller holds. */
  method OperateAll(heap: Heap, liveIds: array<int>, draws: seq<Draw>, ghost start: Work) returns (failed: nat)
    requires heap.Valid() && liveIds.Length == TABLE && heap.View() == start.heap && start.live == []
             && start.failed == 0
    modifies heap`nextAllocId, heap`nodes, heap`blocks, heap.blocks, liveIds
    ensures heap.Valid() && heap.View() == WorkedAll(start, draws).heap && failed == WorkedAll(start, draws).failed
  {
    var liveCount: nat := 0;
    ghost var w := start;
    failed := 0;
    for i := 0 to |draws|
      invariant heap.Valid() && fresh(heap.blocks - old(heap.blocks))
      invariant w == WorkedAll(start, draws[..i])
      invariant liveCount <= TABLE && liveIds[..liveCount] == w.live
      invariant heap.View() == w.heap && failed == w.failed
    {
      assert draws[..i + 1][..i] == draws[..i];
      var refused;
      liveCount, refused := Operate(heap, liveIds, liveCount, draws[i], w);
      failed := if refused then failed + 1 else failed;
      w := Worked(w, draws[i]);
    }
    assert draws[..|draws|] == draws;
  }

  method RunWorkload(strategy: Strategy, heapSize: nat, draws: seq<Draw>)
    returns (freeBlocks: nat, fragmentation: real, failed: nat)
    requires heapSize > 0
    ensures var w := WorkedAll(Started(heapSize, strategy), draws);
            && freeBlocks == FreeBlocks(w.heap.cells) && fragmentation == FragmentationPct(w.heap.cells)
            && failed == w.failed
  {
    var heap := new Heap(heapSize, strategy);
    var liveIds := new int[TABLE];
    failed := OperateAll(heap, liveIds, draws, Started(heapSize, strategy));
    freeBlocks := heap.CountFreeBlocks();
    fragmentation := heap.ExternalFragmentationPct();
  }
}
