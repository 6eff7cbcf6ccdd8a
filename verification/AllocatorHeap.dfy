/** The free list as it is: linked blocks split and merged in place, each operation equal to its function on
    the layout, and the workload loop with its table of live ids. */
module AllocatorHeap {
  import opened Wrappers
  import opened Allocator
  import opened AllocatorLaws

  class Block {
    var offset: nat
    var size: nat
    var free: bool
    var allocId: int
    var next: Block?

    ghost function View(): Cell
      reads this
    {
      Cell(offset, size, free, allocId)
    }

    constructor (offset: nat, size: nat, next: Block?)
      ensures View() == Cell(offset, size, true, -1) && this.next == next
    {
      this.offset, this.size, free, allocId, this.next := offset, size, true, -1, next;
    }
  }

  function At(nodes: seq<Block>, k: int): Block? {
    if 0 <= k < |nodes| then nodes[k] else null
  }

  /** The blocks `nodes`, whose links are `nexts`, are chained in this order from `head`. */
  ghost predicate Chain(head: Block?, nodes: seq<Block>, nexts: seq<Block?>) {
    && |nexts| == |nodes| && head == At(nodes, 0)
    && (forall i, j | 0 <= i < j < |nodes| :: nodes[i] != nodes[j])
    && (forall i {:trigger nexts[i]} | 0 <= i < |nodes| :: nexts[i] == At(nodes, i + 1))
  }

  ghost function Nexts(nodes: seq<Block>): (nexts: seq<Block?>)
    reads nodes
    ensures |nexts| == |nodes|
    ensures forall i {:trigger nexts[i]} | 0 <= i < |nodes| :: nexts[i] == nodes[i].next
  {
    seq(|nodes|, i requires 0 <= i < |nodes| reads nodes => nodes[i].next)
  }

  ghost predicate Linked(head: Block?, nodes: seq<Block>)
    reads nodes
  {
    Chain(head, nodes, Nexts(nodes))
  }

  ghost function Cells(nodes: seq<Block>): (cells: seq<Cell>)
    reads nodes
    ensures |cells| == |nodes|
    ensures forall i {:trigger cells[i]} | 0 <= i < |nodes| :: cells[i] == nodes[i].View()
  {
    seq(|nodes|, i requires 0 <= i < |nodes| reads nodes => nodes[i].View())
  }

  function Without<T>(s: seq<T>, k: nat): (r: seq<T>)
    requires k < |s|
    ensures |r| == |s| - 1 && forall i | 0 <= i < |r| :: r[i] == if i < k then s[i] else s[i + 1]
  {
    seq(|s| - 1, i requires 0 <= i < |s| - 1 => if i < k then s[i] else s[i + 1])
  }

  function With<T>(s: seq<T>, k: nat, x: T): (r: seq<T>)
    requires k <= |s|
    ensures |r| == |s| + 1 && forall i | 0 <= i < |r| :: r[i] == if i < k then s[i] else if i == k then x else s[i - 1]
  {
    seq(|s| + 1, i requires 0 <= i < |s| + 1 => if i < k then s[i] else if i == k then x else s[i - 1])
  }

  lemma ChainWithout(head: Block?, nodes: seq<Block>, nexts: seq<Block?>, k: nat)
    requires Chain(head, nodes, nexts) && k + 1 < |nodes|
    ensures Chain(head, Without(nodes, k + 1), Without(nexts[k := nexts[k + 1]], k + 1))
  {
  }

  lemma ChainWith(head: Block?, nodes: seq<Block>, nexts: seq<Block?>, k: nat, b: Block)
    requires Chain(head, nodes, nexts) && k < |nodes| && forall i | 0 <= i < |nodes| :: nodes[i] != b
    ensures Chain(head, With(nodes, k + 1, b), With(nexts[k := b], k + 1, nexts[k]))
  {
  }

  lemma NodesWithout(nodes: seq<Block>, k: nat)
    requires k < |nodes|
    ensures Cells(Without(nodes, k)) == Without(Cells(nodes), k) && Nexts(Without(nodes, k)) == Without(Nexts(nodes), k)
  {
  }

  lemma NodesWith(nodes: seq<Block>, k: nat, b: Block)
    requires k <= |nodes|
    ensures Cells(With(nodes, k, b)) == With(Cells(nodes), k, b.View())
            && Nexts(With(nodes, k, b)) == With(Nexts(nodes), k, b.next)
  {
  }

  // Changes the size and the link of one block among `nodes`.
  method Resize(b: Block, size: nat, next: Block?, ghost nodes: seq<Block>, ghost k: nat)
    requires k < |nodes| && b == nodes[k] && forall i | 0 <= i < |nodes| && i != k :: nodes[i] != b
    modifies b`size, b`next
    ensures Cells(nodes) == old(Cells(nodes))[k := old(b.View()).(size := size)]
    ensures Nexts(nodes) == old(Nexts(nodes))[k := next]
  {
    b.size, b.next := size, next;
  }

  lemma MergedAt(cells: seq<Cell>, k: nat)
    requires k + 1 < |cells|
    ensures Merged(cells, k) == Without(cells[k := cells[k].(size := cells[k].size + cells[k + 1].size)], k + 1)
  {
  }

  lemma CarvedAt(cells: seq<Cell>, k: nat, size: nat, id: nat)
    requires k < |cells| && size <= cells[k].size
    ensures cells[..k] + Carved(cells[k], size, id) + cells[k + 1..]
         == CutAt(cells, k, size)[k := Cell(cells[k].offset, size, false, id)]
  {
  }

  lemma AllocatedIs(h: Layout, size: nat, at: Option<nat>)
    requires at == Fit(h, size)
    ensures at.None? ==> Allocated(h, size).0 == h && Allocated(h, size).1 == -1
    ensures at.Some? ==>
      && Allocated(h, size).0.cells == h.cells[..at.value] + Carved(h.cells[at.value], size, h.nextId)
         + h.cells[at.value + 1..]
      && Allocated(h, size).0 == h.(cells := Allocated(h, size).0.cells, nextId := h.nextId + 1)
      && Allocated(h, size).1 == h.nextId
  {
  }

  /** The `size` bytes at the front of block `k`, and the rest of it, if any, as a free block behind. */
  function CutAt(cells: seq<Cell>, k: nat, size: nat): seq<Cell>
    requires k < |cells| && cells[k].size >= size
  {
    var c := cells[k];
    if c.size == size then cells
    else With(cells[k := c.(size := size)], k + 1, Cell(c.offset + size, c.size - size, true, -1))
  }

  // After one block was shrunk and linked to a new one behind it.
  lemma LinkedWith(head: Block?, all: seq<Block>, nexts: seq<Block?>, cells: seq<Cell>, k: nat, b: Block, size: nat)
    requires Chain(head, all, nexts) && k < |all| == |cells| && size < cells[k].size
    requires forall i | 0 <= i < |all| :: all[i] != b
    requires Cells(all) == cells[k := cells[k].(size := size)] && Nexts(all) == nexts[k := b]
    requires b.next == nexts[k] && b.View() == Cell(cells[k].offset + size, cells[k].size - size, true, -1)
    ensures Linked(head, With(all, k + 1, b)) && Cells(With(all, k + 1, b)) == CutAt(cells, k, size)
  {
    NodesWith(all, k + 1, b);
    ChainWith(head, all, nexts, k, b);
  }

  // After one block was grown over the next one and linked past it.
  lemma LinkedWithout(head: Block?, all: seq<Block>, nexts: seq<Block?>, cells: seq<Cell>, k: nat)
    requires Chain(head, all, nexts) && k + 1 < |all| == |cells|
    requires Cells(all) == cells[k := cells[k].(size := cells[k].size + cells[k + 1].size)]
             && Nexts(all) == nexts[k := nexts[k + 1]]
    ensures Linked(head, Without(all, k + 1)) && Cells(Without(all, k + 1)) == Merged(cells, k)
  {
    NodesWithout(all, k + 1);
    ChainWithout(head, all, nexts, k);
    MergedAt(cells, k);
  }

  class Heap {
    var head: Block?
    const heapSize: nat
    const strategy: Strategy
    var nextAllocId: nat
    ghost var nodes: seq<Block>
    ghost var blocks: set<Block>

    ghost predicate Valid()
      reads this, blocks
    {
      (forall i | 0 <= i < |nodes| :: nodes[i] in blocks) && Linked(head, nodes)
    }

    ghost function View(): Layout
      reads this, nodes
    {
      Layout(Cells(nodes), heapSize, strategy, nextAllocId)
    }

    constructor (size: nat, strategy: Strategy)
      ensures Valid() && fresh(blocks) && View() == Created(size, strategy)
    {
      var block := new Block(0, size, null);
      head, heapSize, this.strategy, nextAllocId, nodes, blocks := block, size, strategy, 0, [block], {block};
    }

    // What block `k` says of itself, its cell and its successor.
    lemma BlockAt(k: nat)
      requires Valid() && k < |nodes|
      ensures nodes[k].next == At(nodes, k + 1) && Cells(nodes)[k] == nodes[k].View()
      ensures k + 1 < |nodes| ==> Cells(nodes)[k + 1] == nodes[k + 1].View()
    {
      assert Nexts(nodes)[k] == At(nodes, k + 1);
    }

    /** `at` is the position of the block found. */
    method FindFit(size: nat) returns (best: Block?, ghost at: Option<nat>)
      requires Valid()
      ensures at == Fit(View(), size)
      ensures best == if at.Some? then nodes[at.value] else null
    {
      ghost var cells := Cells(nodes);
      ghost var k := 0;
      var b := head;
      best, at := null, None;
      while b != null
        invariant k <= |nodes| && b == At(nodes, k)
        invariant at == FitAmong(cells, size, strategy, k) && (strategy == FirstFit ==> at == None)
        invariant best == if at.Some? then nodes[at.value] else null
        decreases |nodes| - k
      {
        BlockAt(k);
        if b.free && b.size >= size {
          if strategy == FirstFit {
            FirstFitStays(cells, size, k, |cells|);
            return b, Some(k);
          }
          if best == null || b.size < best.size {
            best, at := b, Some(k);
          }
        }
        b, k := b.next, k + 1;
      }
    }

    /** Returns the new allocation's id, or -1 when no block fits. */
    method Alloc(size: nat) returns (id: int)
      requires Valid()
      modifies this`nextAllocId, this`nodes, this`blocks, blocks
      ensures Valid() && fresh(blocks - old(blocks))
      ensures View() == Allocated(old(View()), size).0 && id == Allocated(old(View()), size).1
    {
      ghost var h := View();
      var b, at := FindFit(size);
      AllocatedIs(h, size, at);
      if b == null {
        return -1;
      }
      id := nextAllocId;
      Place(b, size, at.value);
    }

    method Place(b: Block, size: nat, ghost k: nat)
      requires Valid() && k < |nodes| && b == nodes[k] && size <= b.size
      modifies this`nextAllocId, this`nodes, this`blocks, b
      ensures Valid() && fresh(blocks - old(blocks))
      ensures Cells(nodes) == old(Cells(nodes))[..k] + Carved(old(b.View()), size, old(nextAllocId))
              + old(Cells(nodes))[k + 1..]
      ensures nextAllocId == old(nextAllocId) + 1
    {
      BlockAt(k);
      CarvedAt(Cells(nodes), k, size, nextAllocId);
      Cut(b, size, k);
      BlockAt(k);
      SetOwner(b, false, nextAllocId, k);
      nextAllocId := nextAllocId + 1;
    }

    /** Cuts the block to `size` bytes and links what is left of it, if anything, behind. */
    method Cut(b: Block, size: nat, ghost k: nat)
      requires Valid() && k < |nodes| && b == nodes[k] && size <= b.size
      modifies this`nodes, this`blocks, b
      ensures Valid() && fresh(blocks - old(blocks)) && k < |nodes| && b == nodes[k]
      ensures Cells(nodes) == CutAt(old(Cells(nodes)), k, size)
    {
      if b.size > size {
        CutTail(b, size, k);
      }
    }

    method CutTail(b: Block, size: nat, ghost k: nat)
      requires Valid() && k < |nodes| && b == nodes[k] && size < b.size
      modifies this`nodes, this`blocks, b
      ensures Valid() && fresh(blocks - old(blocks)) && k < |nodes| && b == nodes[k]
      ensures Cells(nodes) == CutAt(old(Cells(nodes)), k, size)
    {
      BlockAt(k);
      ghost var all, nexts, cells := nodes, Nexts(nodes), Cells(nodes);
      var remainder := new Block(b.offset + size, b.size - size, b.next);
      nodes, blocks := With(all, k + 1, remainder), blocks + {remainder};
      Resize(b, size, remainder, all, k);
      LinkedWith(head, all, nexts, cells, k, remainder, size);
    }

    method SetOwner(b: Block, free: bool, id: int, ghost k: nat)
      requires Valid() && k < |nodes| && b == nodes[k]
      modifies b`free, b`allocId
      ensures Valid() && Cells(nodes) == old(Cells(nodes))[k := old(b.View()).(free := free, id := id)]
    {
      ghost var nexts := Nexts(nodes);
      b.free, b.allocId := free, id;
      assert Nexts(nodes) == nexts;
    }

    /** Frees the first block owned by `id`, if any, and merges it with its free neighbours. */
    method Free(id: int)
      requires Valid()
      modifies this`nodes, blocks
      ensures Valid()
      ensures View() == Freed(old(View()), id)
    {
      var prev, b, k := FindOwner(id);
      if b != null {
        FreeBlock(prev, b, k.value);
      }
    }

    /** The first block owned by `id` and the one before it; `at` is its position. */
    method FindOwner(id: int) returns (prev: Block?, b: Block?, ghost at: Option<nat>)
      requires Valid()
      ensures at == Owner(Cells(nodes), id)
      ensures match at
              case None => b == null
              case Some(k) => k < |nodes| && b == nodes[k] && prev == At(nodes, k - 1)
    {
      ghost var cells := Cells(nodes);
      ghost var k := 0;
      prev, b := null, head;
      while b != null && b.allocId != id
        invariant k <= |nodes| && b == At(nodes, k) && prev == At(nodes, k - 1)
        invariant forall j | 0 <= j < k :: cells[j].id != id
        decreases |nodes| - k
      {
        BlockAt(k);
        prev, b, k := b, b.next, k + 1;
      }
      if b == null {
        at := None;
      } else {
        BlockAt(k);
        OwnerIs(cells, id, k);
        at := Some(k);
      }
    }

    method FreeBlock(prev: Block?, b: Block, ghost k: nat)
      requires Valid() && k < |nodes| && b == nodes[k] && prev == At(nodes, k - 1)
      modifies this`nodes, blocks
      ensures Valid()
      ensures Cells(nodes) == FreedAt(old(Cells(nodes)), k)
    {
      ghost var cells := Cells(nodes);
      FreedInSteps(cells, k);
      BlockAt(k);
      if k > 0 {
        BlockAt(k - 1);
      }
      SetOwner(b, true, -1, k);
      if b.next != null && b.next.free {
        MergeNext(b, k);
      }
      ghost var two := if k + 1 < |cells| && cells[k + 1].free then Merged(Unowned(cells, k), k) else Unowned(cells, k);
      assert Cells(nodes) == two;
      if prev != null && prev.free {
        MergeNext(prev, k - 1);
      }
    }

    /** Grows the block over the next one and unlinks that. */
    method MergeNext(b: Block, ghost k: nat)
      requires Valid() && k + 1 < |nodes| && b == nodes[k]
      modifies this`nodes, b
      ensures Valid() && nodes == Without(old(nodes), k + 1)
      ensures Cells(nodes) == Merged(old(Cells(nodes)), k)
    {
      ghost var all, nexts, cells := nodes, Nexts(nodes), Cells(nodes);
      BlockAt(k);
      BlockAt(k + 1);
      var dead := b.next;
      nodes := Without(all, k + 1);
      Resize(b, b.size + dead.size, dead.next, all, k);
      LinkedWithout(head, all, nexts, cells, k);
    }

    method ExternalFragmentationPct() returns (pct: real)
      requires Valid()
      ensures pct == FragmentationPct(View().cells)
    {
      ghost var cells := Cells(nodes);
      ghost var k := 0;
      var total, largest := 0, 0;
      var b := head;
      while b != null
        invariant k <= |nodes| && b == At(nodes, k)
        invariant total == TotalFree(cells[..k]) && largest == Largest(cells[..k])
        decreases |nodes| - k
      {
        BlockAt(k);
        assert cells[..k + 1][..k] == cells[..k];
        if b.free {
          total := total + b.size;
          if b.size > largest {
            largest := b.size;
          }
        }
        b, k := b.next, k + 1;
      }
      assert cells[..k] == cells;
      if total == 0 {
        return 0.0;
      }
      return 100.0 * (1.0 - largest as real / total as real);
    }

    method CountFreeBlocks() returns (n: nat)
      requires Valid()
      ensures n == FreeBlocks(View().cells)
    {
      ghost var cells := Cells(nodes);
      ghost var k := 0;
      n := 0;
      var b := head;
      while b != null
        invariant k <= |nodes| && b == At(nodes, k)
        invariant n == FreeBlocks(cells[..k])
        decreases |nodes| - k
      {
        BlockAt(k);
        assert cells[..k + 1][..k] == cells[..k];
        n := if b.free then n + 1 else n;
        b, k := b.next, k + 1;
      }
      assert cells[..k] == cells;
    }
  }

  lemma {:induction false} FirstFitStays(cells: seq<Cell>, size: nat, k: nat, n: nat)
    requires k < n <= |cells| && Holds(cells[k], size) && FitAmong(cells, size, FirstFit, k) == None
    ensures FitAmong(cells, size, FirstFit, n) == Some(k)
  {
    if n > k + 1 {
      FirstFitStays(cells, size, k, n - 1);
    }
  }

  lemma {:induction false} OwnerIs(cells: seq<Cell>, id: int, k: nat)
    requires k < |cells| && cells[k].id == id && forall j | 0 <= j < k :: cells[j].id != id
    ensures Owner(cells, id) == Some(k)
  {
  }
}
