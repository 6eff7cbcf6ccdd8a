/** What the canonical layout gives: round trips, independence of the order of frees, and real bounds on
    fragmentation, over every well-formed heap and every run of requests. */
module AllocatorLaws {
  import opened Wrappers
  import opened Allocator
  import opened Sums

  // ---- the layout is a function of the live blocks ----

  /** A free head block ends where the next live block, or the range, begins. */
  lemma FreeHeadEnds(cells: seq<Cell>, from: nat, to: nat)
    requires Tiles(cells, from, to) && Coalesced(cells) && cells != [] && cells[0].free
    ensures |cells| == 1 ==> from + cells[0].size == to && Live(cells) == {}
    ensures |cells| > 1 ==> cells[1] in Live(cells) && cells[1].offset == from + cells[0].size < to
    ensures forall c | c in Live(cells) :: c.offset >= from + cells[0].size
  {
    TilesFrom(cells[1..], from + cells[0].size, to);
    assert cells == [cells[0]] + cells[1..];
    if |cells| > 1 {
      assert cells[1] == cells[1..][0];
    }
  }

  /** A live head block is the only block at its offset. */
  lemma LiveHeadIsAlone(cells: seq<Cell>, from: nat, to: nat)
    requires Tiles(cells, from, to) && cells != []
    ensures cells[0].offset == from && cells[0].size > 0
    ensures forall c | c in cells[1..] :: c.offset > from
    ensures Live(cells) == Live(cells[1..]) + if cells[0].free then {} else {cells[0]}
  {
    TilesFrom(cells[1..], from + cells[0].size, to);
    assert cells == [cells[0]] + cells[1..];
  }

  lemma SameHead(a: seq<Cell>, b: seq<Cell>, from: nat, to: nat, nextA: nat, nextB: nat)
    requires Tiles(a, from, to) && Coalesced(a) && Labelled(a, nextA)
    requires Tiles(b, from, to) && Coalesced(b) && Labelled(b, nextB)
    requires Live(a) == Live(b) && a != [] && b != []
    ensures a[0] == b[0]
  {
    LiveHeadIsAlone(a, from, to);
    LiveHeadIsAlone(b, from, to);
    if a[0].free && b[0].free {
      FreeHeadEnds(a, from, to);
      FreeHeadEnds(b, from, to);
    } else if !a[0].free {
      assert a[0] in Live(b);
    } else {
      assert b[0] in Live(a);
    }
  }

  lemma {:induction false} SameLiveSameCells(a: seq<Cell>, b: seq<Cell>, from: nat, to: nat, nextA: nat, nextB: nat)
    requires Tiles(a, from, to) && Coalesced(a) && Labelled(a, nextA)
    requires Tiles(b, from, to) && Coalesced(b) && Labelled(b, nextB)
    requires Live(a) == Live(b)
    ensures a == b
    decreases |a|
  {
    TilesFrom(a, from, to);
    TilesFrom(b, from, to);
    if a != [] && b != [] {
      SameHead(a, b, from, to, nextA, nextB);
      LiveHeadIsAlone(a, from, to);
      LiveHeadIsAlone(b, from, to);
      SameTail(a, b);
      SameLiveSameCells(a[1..], b[1..], from + a[0].size, to, nextA, nextB);
      assert a == [a[0]] + a[1..] && b == [b[0]] + b[1..];
    }
  }

  lemma SameTail(a: seq<Cell>, b: seq<Cell>)
    requires a != [] && b != [] && a[0] == b[0] && Live(a) == Live(b)
    requires forall c | c in a[1..] :: c.offset > a[0].offset
    requires forall c | c in b[1..] :: c.offset > b[0].offset
    requires Live(a) == Live(a[1..]) + if a[0].free then {} else {a[0]}
    requires Live(b) == Live(b[1..]) + if b[0].free then {} else {b[0]}
    ensures Live(a[1..]) == Live(b[1..])
  {
    forall c ensures c in Live(a[1..]) <==> c in Live(b[1..]) {
    }
  }

  /** Two heaps of one size with the same live blocks at the same places have the same block list. */
  lemma LayoutIsCanonical(g: Layout, h: Layout)
    requires WellFormed(g) && WellFormed(h) && g.size == h.size && Live(g.cells) == Live(h.cells)
    ensures g.cells == h.cells
  {
    SameLiveSameCells(g.cells, h.cells, 0, g.size, g.nextId, h.nextId);
  }

  /** Allocating and freeing the new id at once restores the block list, whatever was split for it. */
  lemma AllocThenFree(h: Layout, size: nat)
    requires WellFormed(h) && size > 0
    ensures var (after, id) := Allocated(h, size); Freed(after, id).cells == h.cells
  {
    AllocationIsSound(h, size);
    var (after, id) := Allocated(h, size);
    if id == -1 {
      FreeingIsSound(h, -1);
      assert Owned(Live(h.cells), -1) == {};
    } else {
      FreeingIsSound(after, id);
      var block := Cell(h.cells[Fit(h, size).value].offset, size, false, id);
      forall c ensures c in Live(after.cells) - Owned(Live(after.cells), id) <==> c in Live(h.cells) {
      }
      LayoutIsCanonical(Freed(after, id), h);
    }
  }

  // ---- runs ----

  datatype Request = Alloc(size: nat) | Free(id: int)

  function Served(h: Layout, r: Request): Layout {
    match r
    case Alloc(size) => Allocated(h, size).0
    case Free(id) => Freed(h, id)
  }

  function Run(h: Layout, requests: seq<Request>): Layout {
    if requests == [] then h else Served(Run(h, requests[..|requests| - 1]), requests[|requests| - 1])
  }

  predicate Positive(requests: seq<Request>) {
    forall i | 0 <= i < |requests| :: requests[i].Alloc? ==> requests[i].size > 0
  }

  /** Every run keeps the heap well formed and moves no block that stays live. */
  lemma {:induction false} RunKeepsWellFormed(h: Layout, requests: seq<Request>)
    requires WellFormed(h) && Positive(requests)
    ensures WellFormed(Run(h, requests)) && Run(h, requests).size == h.size && h.nextId <= Run(h, requests).nextId
    ensures forall c | c in Live(Run(h, requests).cells) :: c in Live(h.cells) || c.id >= h.nextId
  {
    if requests != [] {
      var before, request := requests[..|requests| - 1], requests[|requests| - 1];
      RunKeepsWellFormed(h, before);
      match request {
        case Alloc(size) => AllocationIsSound(Run(h, before), size);
        case Free(id) => FreeingIsSound(Run(h, before), id);
      }
    }
  }

  /** The history leaves no trace beyond the live blocks. */
  lemma HistoryLeavesNoTrace(size: nat, s: Strategy, t: Strategy, first: seq<Request>, second: seq<Request>)
    requires size > 0 && Positive(first) && Positive(second)
    requires Live(Run(Created(size, s), first).cells) == Live(Run(Created(size, t), second).cells)
    ensures Run(Created(size, s), first).cells == Run(Created(size, t), second).cells
  {
    CreatedIsWellFormed(size, s);
    CreatedIsWellFormed(size, t);
    RunKeepsWellFormed(Created(size, s), first);
    RunKeepsWellFormed(Created(size, t), second);
    LayoutIsCanonical(Run(Created(size, s), first), Run(Created(size, t), second));
  }

  function Frees(ids: seq<int>): (requests: seq<Request>)
    ensures |requests| == |ids|
  {
    seq(|ids|, i requires 0 <= i < |ids| => Free(ids[i]))
  }

  ghost function OwnedByAny(live: set<Cell>, ids: seq<int>): set<Cell> {
    set c | c in live && c.id in ids
  }

  lemma {:induction false} FreesRemove(h: Layout, ids: seq<int>)
    requires WellFormed(h)
    ensures var after := Run(h, Frees(ids));
            && WellFormed(after) && after.size == h.size && after.nextId == h.nextId && after.strategy == h.strategy
            && Live(after.cells) == Live(h.cells) - OwnedByAny(Live(h.cells), ids)
  {
    if ids != [] {
      var before := ids[..|ids| - 1];
      var last := ids[|ids| - 1];
      assert Frees(ids)[..|ids| - 1] == Frees(before);
      FreesRemove(h, before);
      FreeingIsSound(Run(h, Frees(before)), last);
      assert ids == before + [last];
    }
  }

  /** Freeing the same ids in any order, with repeats or not, gives the same heap. */
  lemma FreesCommute(h: Layout, ids: seq<int>, others: seq<int>)
    requires WellFormed(h) && forall id :: id in ids <==> id in others
    ensures Run(h, Frees(ids)) == Run(h, Frees(others))
  {
    FreesRemove(h, ids);
    FreesRemove(h, others);
    assert OwnedByAny(Live(h.cells), ids) == OwnedByAny(Live(h.cells), others);
    LayoutIsCanonical(Run(h, Frees(ids)), Run(h, Frees(others)));
  }

  /** Freeing every live id, in any order, restores one free block of the whole heap. */
  lemma FreeingAllRestores(h: Layout, ids: seq<int>)
    requires WellFormed(h) && forall c | c in Live(h.cells) :: c.id in ids
    ensures Run(h, Frees(ids)).cells == [Cell(0, h.size, true, -1)]
  {
    FreesRemove(h, ids);
    CreatedIsWellFormed(h.size, h.strategy);
    assert Live(Run(h, Frees(ids)).cells) == {};
    LayoutIsCanonical(Run(h, Frees(ids)), Created(h.size, h.strategy));
  }

  // ---- fragmentation ----

  function FreeBlocks(cells: seq<Cell>): nat {
    if cells == [] then 0 else FreeBlocks(cells[..|cells| - 1]) + if cells[|cells| - 1].free then 1 else 0
  }

  function TotalFree(cells: seq<Cell>): nat {
    if cells == [] then 0
    else TotalFree(cells[..|cells| - 1]) + if cells[|cells| - 1].free then cells[|cells| - 1].size else 0
  }

  function Largest(cells: seq<Cell>): nat {
    if cells == [] then 0
    else
      var c := cells[|cells| - 1];
      if c.free && c.size > Largest(cells[..|cells| - 1]) then c.size else Largest(cells[..|cells| - 1])
  }

  /** 100 * (1 - largest / total), in percent; 0 with no free memory. */
  function FragmentationPct(cells: seq<Cell>): real {
    if TotalFree(cells) == 0 then 0.0
    else 100.0 * (1.0 - Largest(cells) as real / TotalFree(cells) as real)
  }

  lemma {:induction false} FreeBlocksAreSeparated(cells: seq<Cell>)
    requires Coalesced(cells)
    ensures 2 * FreeBlocks(cells) <= |cells| + if cells != [] && cells[|cells| - 1].free then 1 else 0
  {
    if cells != [] {
      FreeBlocksAreSeparated(cells[..|cells| - 1]);
    }
  }

  lemma {:induction false} LargestIsMax(cells: seq<Cell>)
    ensures forall c | c in cells && c.free :: c.size <= Largest(cells)
    ensures Largest(cells) > 0 ==> exists c :: c in cells && c.free && c.size == Largest(cells)
  {
    if cells != [] {
      var before, c := cells[..|cells| - 1], cells[|cells| - 1];
      LargestIsMax(before);
      assert cells == before + [c];
      if Largest(cells) == c.size && c.free {
        assert c in cells;
      } else if Largest(cells) > 0 {
        var x :| x in before && x.free && x.size == Largest(before);
        assert x in cells;
      }
    }
  }

  // ---- what the metric means ----

  ghost function FreeBytes(): Cell -> int {
    (c: Cell) => if c.free then c.size else 0
  }

  lemma {:induction false} TotalFreeIsSum(cells: seq<Cell>)
    ensures TotalFree(cells) == Sum(cells, FreeBytes())
  {
    if cells != [] {
      TotalFreeIsSum(cells[..|cells| - 1]);
    }
  }

  /** At most one block is free. */
  ghost predicate OneFree(cells: seq<Cell>) {
    forall i, j | 0 <= i < j < |cells| :: !(cells[i].free && cells[j].free)
  }

  lemma {:induction false} NothingFree(cells: seq<Cell>)
    requires forall c | c in cells :: c.size > 0
    ensures TotalFree(cells) == 0 <==> forall c | c in cells :: !c.free
  {
    if cells != [] {
      var front, last := cells[..|cells| - 1], cells[|cells| - 1];
      assert cells == front + [last];
      NothingFree(front);
    }
  }

  lemma {:induction false} LargestIsAll(cells: seq<Cell>)
    requires forall c | c in cells :: c.size > 0
    ensures Largest(cells) == TotalFree(cells) <==> OneFree(cells)
  {
    if cells != [] {
      var front, last := cells[..|cells| - 1], cells[|cells| - 1];
      assert cells == front + [last];
      LargestIsAll(front);
      NothingFree(front);
      LargestIsPart(front);
      LastFree(front, last);
    }
  }

  lemma LastFree(front: seq<Cell>, last: Cell)
    ensures OneFree(front + [last]) <==> OneFree(front) && (last.free ==> forall c | c in front :: !c.free)
  {
    var cells := front + [last];
    if OneFree(cells) {
      forall i, j | 0 <= i < j < |front| ensures !(front[i].free && front[j].free) {
        assert cells[i] == front[i] && cells[j] == front[j];
      }
      forall c | c in front && last.free ensures !c.free {
        var i :| 0 <= i < |front| && front[i] == c;
        assert cells[i] == c && cells[|front|] == last;
      }
    }
  }

  ghost predicate IsLargestFree(cells: seq<Cell>, c: Cell) {
    c in cells && c.free && forall x | x in cells && x.free :: x.size <= c.size
  }

  /** What is outside `part` is `pct` percent of the whole. */
  ghost predicate Outside(pct: real, part: int, whole: int) {
    (100.0 - pct) * whole as real == 100.0 * part as real
  }

  /** The metric is the part of the free memory outside the largest free block, in percent: 100 minus it is to 100
      as that block is to all free memory; and it is 0 if and only if no two blocks are free. */
  lemma FragmentationIsShare(h: Layout)
    requires WellFormed(h)
    ensures Sum(h.cells, FreeBytes()) > 0 ==>
              exists c :: IsLargestFree(h.cells, c)
                          && Outside(FragmentationPct(h.cells), c.size, Sum(h.cells, FreeBytes()))
    ensures FragmentationPct(h.cells) == 0.0 <==> OneFree(h.cells)
  {
    TilesFrom(h.cells, 0, h.size);
    TotalFreeIsSum(h.cells);
    LargestIsAll(h.cells);
    ShareOfLargest(h.cells);
    if TotalFree(h.cells) > 0 {
      var c := LargestFree(h.cells);
      assert Outside(FragmentationPct(h.cells), c.size, Sum(h.cells, FreeBytes()));
    }
  }

  lemma LargestFree(cells: seq<Cell>) returns (c: Cell)
    requires Largest(cells) > 0
    ensures IsLargestFree(cells, c) && c.size == Largest(cells)
  {
    LargestIsMax(cells);
    c :| c in cells && c.free && c.size == Largest(cells);
  }

  lemma ShareOfLargest(cells: seq<Cell>)
    ensures TotalFree(cells) > 0 ==>
              Largest(cells) > 0 && Outside(FragmentationPct(cells), Largest(cells), TotalFree(cells))
    ensures FragmentationPct(cells) == 0.0 <==> Largest(cells) == TotalFree(cells)
  {
    LargestIsPart(cells);
    LargestTimesBlocks(cells);
    if TotalFree(cells) > 0 {
      ShareOf(Largest(cells), TotalFree(cells));
    }
  }

  lemma ShareOf(part: nat, whole: nat)
    requires whole > 0
    ensures var pct := 100.0 * (1.0 - part as real / whole as real);
            Outside(pct, part, whole) && (pct == 0.0 <==> part == whole)
  {
    var share := part as real / whole as real;
    Percent(share, part as real, whole as real);
  }

  lemma Percent(share: real, part: real, whole: real)
    requires whole > 0.0 && share == part / whole
    ensures (100.0 - 100.0 * (1.0 - share)) * whole == 100.0 * part
    ensures 100.0 * (1.0 - share) == 0.0 <==> part == whole
  {
    assert share * whole == part;
    assert 100.0 - 100.0 * (1.0 - share) == 100.0 * share;
    assert 100.0 * share * whole == 100.0 * (share * whole);
  }

  lemma {:induction false} LargestTimesBlocks(cells: seq<Cell>)
    ensures TotalFree(cells) <= FreeBlocks(cells) * Largest(cells)
  {
    if cells != [] {
      var before := cells[..|cells| - 1];
      LargestTimesBlocks(before);
      ProductGrows(FreeBlocks(before), Largest(before), Largest(cells));
      assert (FreeBlocks(before) + 1) * Largest(cells) == FreeBlocks(before) * Largest(cells) + Largest(cells);
    }
  }

  lemma ProductGrows(n: nat, small: nat, big: nat)
    requires small <= big
    ensures n * small <= n * big && small * n <= big * n
  {
  }

  ghost function LiveIds(cells: seq<Cell>): set<int> {
    set c | c in cells && !c.free :: c.id
  }

  lemma LastIsNew(cells: seq<Cell>, k: nat)
    requires Distinct(cells) && k < |cells| && !cells[k].free
    ensures cells[k].id !in LiveIds(cells[..k])
  {
    forall c | c in cells[..k] && !c.free ensures c.id != cells[k].id {
    }
  }

  /** Distinct ids make the live blocks as many as the live ids. */
  lemma {:induction false} LiveIdsCount(cells: seq<Cell>)
    requires Distinct(cells)
    ensures |LiveIds(cells)| == |cells| - FreeBlocks(cells)
  {
    if cells != [] {
      var before, c := cells[..|cells| - 1], cells[|cells| - 1];
      LiveIdsCount(before);
      assert cells == before + [c];
      assert LiveIds(cells) == LiveIds(before) + if c.free then {} else {c.id};
      if !c.free {
        LastIsNew(cells, |cells| - 1);
      }
    }
  }

  /** n live allocations leave at most n + 1 free blocks, so the largest holds at least 1 / (n + 1) of the
      free memory. */
  lemma FreeBlocksAreBounded(h: Layout)
    requires WellFormed(h)
    ensures FreeBlocks(h.cells) <= |LiveIds(h.cells)| + 1
    ensures TotalFree(h.cells) <= Largest(h.cells) * (|LiveIds(h.cells)| + 1)
  {
    LiveIdsCount(h.cells);
    FreeBlocksAreSeparated(h.cells);
    LargestTimesBlocks(h.cells);
    ProductGrows(Largest(h.cells), FreeBlocks(h.cells), |LiveIds(h.cells)| + 1);
  }

  /** The fragmentation metric never reaches 100: n live allocations keep it at 100 * (1 - 1 / (n + 1)) or less. */
  lemma FragmentationIsBounded(h: Layout)
    requires WellFormed(h)
    ensures 0.0 <= FragmentationPct(h.cells) <= 100.0 * (1.0 - 1.0 / (|LiveIds(h.cells)| + 1) as real)
  {
    FreeBlocksAreBounded(h);
    LargestIsPart(h.cells);
    if TotalFree(h.cells) > 0 {
      ShareBounds(Largest(h.cells), TotalFree(h.cells), |LiveIds(h.cells)|);
    } else {
      assert (|LiveIds(h.cells)| + 1) as real >= 1.0;
    }
  }

  /** A request for at most its share of the free memory succeeds, under either strategy. */
  lemma FairShareSucceeds(h: Layout, size: nat)
    requires WellFormed(h) && size > 0 && size * (|LiveIds(h.cells)| + 1) <= TotalFree(h.cells)
    ensures Allocated(h, size).1 != -1
  {
    FreeBlocksAreBounded(h);
    RefusedIffTooLarge(h, size);
    var n := |LiveIds(h.cells)| + 1;
    assert (size - 1) * n == size * n - n;
    if Largest(h.cells) < size {
      ProductGrows(n, Largest(h.cells), size - 1);
    }
  }

  lemma {:induction false} LargestIsPart(cells: seq<Cell>)
    ensures Largest(cells) <= TotalFree(cells)
  {
    if cells != [] {
      LargestIsPart(cells[..|cells| - 1]);
    }
  }

  lemma ShareBounds(largest: nat, total: nat, live: nat)
    requires 0 < total <= largest * (live + 1) && largest <= total
    ensures 0.0 <= 100.0 * (1.0 - largest as real / total as real) <= 100.0 * (1.0 - 1.0 / (live + 1) as real)
  {
    assert (largest * (live + 1)) as real == largest as real * (live + 1) as real;
    QuotientBounds(largest as real, total as real, (live + 1) as real);
  }

  lemma QuotientBounds(l: real, t: real, n: real)
    requires 0.0 < t <= l * n && 0.0 <= l <= t && n >= 1.0
    ensures 1.0 / n <= l / t <= 1.0
  {
    var q, r := l / t, 1.0 / n;
    assert q * t == l && r * n == 1.0 && q * n * t == q * t * n;
    if q > 1.0 {
      TimesIsStrict(1.0, q, t);
    }
    if q < r {
      TimesIsStrict(q, r, n);
      TimesIsStrict(q * n, 1.0, t);
    }
  }

  lemma TimesIsStrict(a: real, b: real, c: real)
    requires a < b && c > 0.0
    ensures a * c < b * c
  {
    assert (b - a) * c > 0.0;
  }

  /** A request is refused exactly when every free block is smaller than it. */
  lemma RefusedIffTooLarge(h: Layout, size: nat)
    requires WellFormed(h) && size > 0
    ensures Allocated(h, size).1 == -1 <==> Largest(h.cells) < size
  {
    FitIffHeld(h, size);
    LargestIsMax(h.cells);
    if Largest(h.cells) >= size {
      var c :| c in h.cells && c.free && c.size == Largest(h.cells);
      assert Holds(c, size);
    }
  }
}
