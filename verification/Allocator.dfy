/** mem/allocator.c on values: the block list as a sequence of cells, placement, freeing with two-sided
    coalescing, and what makes the layout canonical. */
module Allocator {
  import opened Wrappers

  datatype Strategy = FirstFit | BestFit

  // `id` is -1 for a free block.
  datatype Cell = Cell(offset: nat, size: nat, free: bool, id: int)

  datatype Layout = Layout(cells: seq<Cell>, size: nat, strategy: Strategy, nextId: nat)

  function Created(size: nat, strategy: Strategy): Layout {
    Layout([Cell(0, size, true, -1)], size, strategy, 0)
  }

  // ---- placement ----

  predicate Holds(c: Cell, size: nat) {
    c.free && c.size >= size
  }

  /** The block to place `size` bytes into: the first that holds them, or the first of the smallest. */
  ghost predicate IsFit(cells: seq<Cell>, size: nat, strategy: Strategy, k: nat) {
    && k < |cells| && Holds(cells[k], size)
    && match strategy
       case FirstFit => forall j | 0 <= j < k :: !Holds(cells[j], size)
       case BestFit => forall j | 0 <= j < |cells| && Holds(cells[j], size) ::
           cells[k].size < cells[j].size || (cells[k].size == cells[j].size && k <= j)
  }

  function Better(cells: seq<Cell>, strategy: Strategy, best: Option<nat>, k: nat): bool
    requires k < |cells| && (best.Some? ==> best.value < |cells|)
  {
    best.None? || (strategy == BestFit && cells[k].size < cells[best.value].size)
  }

  /** The block chosen among the first `n`. */
  function FitAmong(cells: seq<Cell>, size: nat, strategy: Strategy, n: nat): (best: Option<nat>)
    requires n <= |cells|
    ensures best.Some? ==> best.value < n && Holds(cells[best.value], size)
  {
    if n == 0 then None
    else
      var best := FitAmong(cells, size, strategy, n - 1);
      if Holds(cells[n - 1], size) && Better(cells, strategy, best, n - 1) then Some(n - 1) else best
  }

  function Fit(h: Layout, size: nat): Option<nat> {
    FitAmong(h.cells, size, h.strategy, |h.cells|)
  }

  lemma {:induction false} FitAmongIsFit(cells: seq<Cell>, size: nat, strategy: Strategy, n: nat)
    requires n <= |cells|
    ensures var best := FitAmong(cells, size, strategy, n);
            && (best.Some? ==> IsFit(cells[..n], size, strategy, best.value))
            && (best.None? ==> forall j | 0 <= j < n :: !Holds(cells[j], size))
  {
    if n > 0 {
      FitAmongIsFit(cells, size, strategy, n - 1);
    }
  }

  /** A request is placed exactly when some free block is large enough, under either strategy. */
  lemma FitIffHeld(h: Layout, size: nat)
    ensures Fit(h, size).Some? <==> exists c :: c in h.cells && Holds(c, size)
    ensures Fit(h, size).Some? ==> IsFit(h.cells, size, h.strategy, Fit(h, size).value)
    ensures Fit(h, size).Some? ==>
              var k := Fit(h, size).value;
              && k < |h.cells| && h.cells[k].free && h.cells[k].size >= size
              && forall j | 0 <= j < |h.cells| && h.cells[j].free && h.cells[j].size >= size ::
                   if h.strategy == FirstFit then k <= j
                   else h.cells[k].size <= h.cells[j].size && (h.cells[k].size == h.cells[j].size ==> k <= j)
  {
    assert h.cells[..|h.cells|] == h.cells;
    FitAmongIsFit(h.cells, size, h.strategy, |h.cells|);
  }

  // ---- allocation and freeing ----

  /** The chosen block cut to `size` bytes, with what is left of it behind. */
  function Carved(c: Cell, size: nat, id: nat): seq<Cell>
    requires size <= c.size
  {
    [Cell(c.offset, size, false, id)] + if c.size > size then [Cell(c.offset + size, c.size - size, true, -1)] else []
  }

  function Allocated(h: Layout, size: nat): (Layout, int) {
    match Fit(h, size)
    case None =>
      var none: int := -1;
      (h, none)
    case Some(k) =>
      (h.(cells := h.cells[..k] + Carved(h.cells[k], size, h.nextId) + h.cells[k + 1..], nextId := h.nextId + 1),
          h.nextId)
  }

  function Owner(cells: seq<Cell>, id: int): (k: Option<nat>)
    ensures k.Some? ==> k.value < |cells| && cells[k.value].id == id && forall j | 0 <= j < k.value :: cells[j].id != id
    ensures k.None? ==> forall j | 0 <= j < |cells| :: cells[j].id != id
  {
    if cells == [] then None
    else if cells[0].id == id then Some(0)
    else match Owner(cells[1..], id) case None => None case Some(k) => Some(k + 1)
  }

  /** Block `k` freed and merged with the next and then the previous block where those are free. */
  function FreedAt(cells: seq<Cell>, k: nat): seq<Cell>
    requires k < |cells|
  {
    var c := cells[k].(free := true, id := -1);
    var (merged, rest) := if k + 1 < |cells| && cells[k + 1].free
                          then (c.(size := c.size + cells[k + 1].size), cells[k + 2..])
                          else (c, cells[k + 1..]);
    if k > 0 && cells[k - 1].free
    then cells[..k - 1] + [cells[k - 1].(size := cells[k - 1].size + merged.size)] + rest
    else cells[..k] + [merged] + rest
  }

  function Freed(h: Layout, id: int): Layout {
    match Owner(h.cells, id)
    case None => h
    case Some(k) => h.(cells := FreedAt(h.cells, k))
  }

  // ---- well-formed layouts ----

  function Bytes(cells: seq<Cell>): nat {
    if cells == [] then 0 else cells[0].size + Bytes(cells[1..])
  }

  /** The blocks cover [from, to) in order, without gap or overlap, none of them empty. */
  ghost predicate Tiles(cells: seq<Cell>, from: nat, to: nat) {
    if cells == [] then from == to
    else cells[0].offset == from && cells[0].size > 0 && Tiles(cells[1..], from + cells[0].size, to)
  }

  /** No two neighbours are both free. */
  ghost predicate Coalesced(cells: seq<Cell>) {
    forall i | 0 <= i < |cells| - 1 :: !(cells[i].free && cells[i + 1].free)
  }

  ghost predicate Labelled(cells: seq<Cell>, nextId: nat) {
    forall i | 0 <= i < |cells| :: if cells[i].free then cells[i].id == -1 else 0 <= cells[i].id < nextId
  }

  ghost predicate Distinct(cells: seq<Cell>) {
    forall i, j | 0 <= i < j < |cells| && !cells[i].free :: cells[i].id != cells[j].id
  }

  ghost predicate WellFormed(h: Layout) {
    && h.size > 0 && Tiles(h.cells, 0, h.size) && Coalesced(h.cells)
    && Labelled(h.cells, h.nextId) && Distinct(h.cells)
  }

  /** The allocated blocks, with their places. */
  ghost function Live(cells: seq<Cell>): set<Cell> {
    set c | c in cells && !c.free
  }

  // ---- tiling ----

  lemma {:induction false} TilesAppend(a: seq<Cell>, b: seq<Cell>, from: nat, to: nat)
    ensures Tiles(a + b, from, to) <==> Tiles(a, from, from + Bytes(a)) && Tiles(b, from + Bytes(a), to)
    ensures Bytes(a + b) == Bytes(a) + Bytes(b)
  {
    if a == [] {
      assert a + b == b;
    } else {
      assert (a + b)[1..] == a[1..] + b;
      TilesAppend(a[1..], b, from + a[0].size, to);
    }
  }

  lemma {:induction false} TilesFrom(cells: seq<Cell>, from: nat, to: nat)
    requires Tiles(cells, from, to)
    ensures to == from + Bytes(cells)
    ensures forall c | c in cells :: from <= c.offset < c.offset + c.size <= to
  {
    if cells != [] {
      TilesFrom(cells[1..], from + cells[0].size, to);
    }
  }

  lemma TilesThree(a: seq<Cell>, b: seq<Cell>, c: seq<Cell>, from: nat, to: nat)
    ensures Tiles(a + b + c, from, to) <==>
            && Tiles(a, from, from + Bytes(a)) && Tiles(b, from + Bytes(a), from + Bytes(a) + Bytes(b))
            && Tiles(c, from + Bytes(a) + Bytes(b), to)
  {
    TilesAppend(a + b, c, from, to);
    TilesAppend(a, b, from, from + Bytes(a + b));
  }

  /** Replacing some blocks by others that tile the same range keeps the tiling. */
  lemma TilesReplace(a: seq<Cell>, b: seq<Cell>, c: seq<Cell>, d: seq<Cell>, from: nat, to: nat)
    requires Tiles(a + b + c, from, to) && Bytes(d) == Bytes(b)
    requires Tiles(b, from + Bytes(a), from + Bytes(a) + Bytes(b)) ==>
             Tiles(d, from + Bytes(a), from + Bytes(a) + Bytes(b))
    ensures Tiles(a + d + c, from, to)
  {
    TilesThree(a, b, c, from, to);
    TilesThree(a, d, c, from, to);
  }

  // ---- what allocation and freeing keep ----

  lemma CreatedIsWellFormed(size: nat, strategy: Strategy)
    requires size > 0
    ensures WellFormed(Created(size, strategy)) && Live(Created(size, strategy).cells) == {}
  {
    assert Created(size, strategy).cells[1..] == [];
  }

  lemma AllocatedTiles(h: Layout, size: nat, k: nat)
    requires WellFormed(h) && size > 0 && k < |h.cells| && Holds(h.cells[k], size)
    ensures Tiles(h.cells[..k] + Carved(h.cells[k], size, h.nextId) + h.cells[k + 1..], 0, h.size)
  {
    var c := h.cells[k];
    var carved := Carved(c, size, h.nextId);
    assert h.cells == h.cells[..k] + [c] + h.cells[k + 1..];
    assert Bytes([c]) == c.size;
    assert carved[1..] == if c.size > size then [Cell(c.offset + size, c.size - size, true, -1)] else [];
    assert c.size > size ==> carved[1..][1..] == [];
    TilesReplace(h.cells[..k], [c], h.cells[k + 1..], carved, 0, h.size);
  }

  /** A successful allocation adds one live block of exactly the size asked, cut from the front of the chosen
      free block, and moves nothing else. */
  lemma AllocationIsSound(h: Layout, size: nat)
    requires WellFormed(h) && size > 0
    ensures var (after, id) := Allocated(h, size);
            && WellFormed(after)
            && (id == -1 <==> Fit(h, size).None?)
            && (id == -1 ==> after == h)
            && (id != -1 ==>
                  && id == h.nextId && (forall c | c in h.cells :: c.id != id)
                  && Live(after.cells) == Live(h.cells) + {Cell(h.cells[Fit(h, size).value].offset, size, false, id)})
  {
    FitIffHeld(h, size);
    if Fit(h, size).Some? {
      var k := Fit(h, size).value;
      AllocatedTiles(h, size, k);
      AllocatedShape(h, size, k);
    }
  }

  lemma AllocatedShape(h: Layout, size: nat, k: nat)
    requires k < |h.cells| && Holds(h.cells[k], size)
    requires Coalesced(h.cells) && Labelled(h.cells, h.nextId) && Distinct(h.cells)
    ensures var cells := h.cells[..k] + Carved(h.cells[k], size, h.nextId) + h.cells[k + 1..];
            && Coalesced(cells) && Labelled(cells, h.nextId + 1) && Distinct(cells)
            && Live(cells) == Live(h.cells) + {Cell(h.cells[k].offset, size, false, h.nextId)}
  {
    var c := h.cells[k];
    var carved := Carved(c, size, h.nextId);
    var cells := h.cells[..k] + carved + h.cells[k + 1..];
    assert h.cells == h.cells[..k] + [c] + h.cells[k + 1..];
    assert carved[0] == Cell(c.offset, size, false, h.nextId);
    forall x ensures x in Live(cells) <==> x in Live(h.cells) || x == carved[0] {
    }
  }

  /** Block `k` marked free, not yet merged. */
  function Unowned(cells: seq<Cell>, k: nat): seq<Cell>
    requires k < |cells|
  {
    cells[k := cells[k].(free := true, id := -1)]
  }

  /** Block `k` grown over the next one, which disappears. */
  function Merged(cells: seq<Cell>, k: nat): seq<Cell>
    requires k + 1 < |cells|
  {
    cells[..k] + [cells[k].(size := cells[k].size + cells[k + 1].size)] + cells[k + 2..]
  }

  /** Freeing is one relabelling and at most two merges. */
  lemma FreedInSteps(cells: seq<Cell>, k: nat)
    requires k < |cells|
    ensures var one := Unowned(cells, k);
            var two := if k + 1 < |cells| && cells[k + 1].free then Merged(one, k) else one;
            FreedAt(cells, k) == if k > 0 && cells[k - 1].free then Merged(two, k - 1) else two
  {
    var c := cells[k].(free := true, id := -1);
    if k + 1 < |cells| && cells[k + 1].free {
      NextMerged(cells, k);
      if k > 0 {
        FreedAround(cells, k, c.(size := c.size + cells[k + 1].size), cells[k + 2..]);
      }
    } else {
      assert Unowned(cells, k) == cells[..k] + [c] + cells[k + 1..];
      if k > 0 {
        FreedAround(cells, k, c, cells[k + 1..]);
      }
    }
  }

  lemma FreedAround(cells: seq<Cell>, k: nat, merged: Cell, rest: seq<Cell>)
    requires 0 < k <= |cells|
    ensures Merged(cells[..k] + [merged] + rest, k - 1)
         == cells[..k - 1] + [cells[k - 1].(size := cells[k - 1].size + merged.size)] + rest
  {
    PrevMerged(cells[..k], merged, rest);
    assert cells[..k][..k - 1] == cells[..k - 1];
  }

  lemma NextMerged(cells: seq<Cell>, k: nat)
    requires k + 1 < |cells|
    ensures var c := cells[k].(free := true, id := -1);
            Merged(Unowned(cells, k), k) == cells[..k] + [c.(size := c.size + cells[k + 1].size)] + cells[k + 2..]
  {
    var s := Unowned(cells, k);
    assert s[..k] == cells[..k] && s[k + 2..] == cells[k + 2..];
  }

  lemma PrevMerged(before: seq<Cell>, c: Cell, rest: seq<Cell>)
    requires before != []
    ensures var k := |before| - 1;
            Merged(before + [c] + rest, k) == before[..k] + [before[k].(size := before[k].size + c.size)] + rest
  {
    var s, k := before + [c] + rest, |before| - 1;
    assert s[..k] == before[..k] && s[k] == before[k] && s[k + 1] == c && s[k + 2..] == rest;
  }

  lemma UnownedKeeps(cells: seq<Cell>, k: nat, to: nat, nextId: nat)
    requires Tiles(cells, 0, to) && Labelled(cells, nextId) && Distinct(cells) && k < |cells| && !cells[k].free
    ensures var after := Unowned(cells, k);
            && Tiles(after, 0, to) && Labelled(after, nextId) && Distinct(after)
            && Live(after) == Live(cells) - {cells[k]}
  {
    var after := Unowned(cells, k);
    assert cells == cells[..k] + [cells[k]] + cells[k + 1..];
    assert after == cells[..k] + [after[k]] + cells[k + 1..];
    TilesReplace(cells[..k], [cells[k]], cells[k + 1..], [after[k]], 0, to);
    forall x ensures x in Live(after) <==> x in Live(cells) && x != cells[k] {
      if x in Live(cells) && x != cells[k] {
        var i :| 0 <= i < |cells| && cells[i] == x;
        assert after[i] == x;
      }
    }
  }

  lemma MergedKeeps(cells: seq<Cell>, k: nat, to: nat, nextId: nat)
    requires Tiles(cells, 0, to) && Labelled(cells, nextId) && Distinct(cells)
    requires k + 1 < |cells| && cells[k].free && cells[k + 1].free
    ensures var after := Merged(cells, k);
            Tiles(after, 0, to) && Labelled(after, nextId) && Distinct(after) && Live(after) == Live(cells)
  {
    MergedTiles(cells, k, to);
    MergedLabels(cells, k, nextId);
  }

  lemma MergedTiles(cells: seq<Cell>, k: nat, to: nat)
    requires Tiles(cells, 0, to) && k + 1 < |cells|
    ensures Tiles(Merged(cells, k), 0, to)
  {
    var pair := [cells[k], cells[k + 1]];
    var one := [cells[k].(size := cells[k].size + cells[k + 1].size)];
    assert cells == cells[..k] + pair + cells[k + 2..];
    assert pair[1..] == [cells[k + 1]] && pair[1..][1..] == [] && one[1..] == [];
    TilesReplace(cells[..k], pair, cells[k + 2..], one, 0, to);
  }

  lemma MergedLabels(cells: seq<Cell>, k: nat, nextId: nat)
    requires Labelled(cells, nextId) && Distinct(cells)
    requires k + 1 < |cells| && cells[k].free && cells[k + 1].free
    ensures var after := Merged(cells, k); Labelled(after, nextId) && Distinct(after) && Live(after) == Live(cells)
  {
    assert cells == cells[..k] + [cells[k], cells[k + 1]] + cells[k + 2..];
  }

  lemma FreedIsCoalesced(cells: seq<Cell>, k: nat)
    requires k < |cells| && !cells[k].free && Coalesced(cells)
    ensures Coalesced(FreedAt(cells, k))
  {
  }

  lemma FreedKeeps(cells: seq<Cell>, k: nat, to: nat, nextId: nat)
    requires Tiles(cells, 0, to) && Labelled(cells, nextId) && Distinct(cells) && k < |cells| && !cells[k].free
    ensures var after := FreedAt(cells, k);
            && Tiles(after, 0, to) && Labelled(after, nextId) && Distinct(after)
            && Live(after) == Live(cells) - {cells[k]}
  {
    FreedInSteps(cells, k);
    var one := Unowned(cells, k);
    UnownedKeeps(cells, k, to, nextId);
    if k + 1 < |cells| && cells[k + 1].free {
      MergedKeeps(one, k, to, nextId);
    }
    var two := if k + 1 < |cells| && cells[k + 1].free then Merged(one, k) else one;
    if k > 0 && cells[k - 1].free {
      MergedKeeps(two, k - 1, to, nextId);
    }
  }

  lemma FreedFreeIsSame(cells: seq<Cell>, k: nat)
    requires k < |cells| && cells[k].free && cells[k].id == -1 && Coalesced(cells)
    ensures FreedAt(cells, k) == cells
  {
    assert !(k + 1 < |cells| && cells[k + 1].free) && !(k > 0 && cells[k - 1].free);
    assert cells == cells[..k] + [cells[k]] + cells[k + 1..];
  }

  ghost function Owned(live: set<Cell>, id: int): set<Cell> {
    set c | c in live && c.id == id
  }

  /** Freeing removes exactly the block owned by `id`, if there is one, and moves nothing else. */
  lemma FreeingIsSound(h: Layout, id: int)
    requires WellFormed(h)
    ensures WellFormed(Freed(h, id))
    ensures Live(Freed(h, id).cells) == Live(h.cells) - Owned(Live(h.cells), id)
    ensures Owned(Live(h.cells), id) == {} ==> Freed(h, id) == h
  {
    match Owner(h.cells, id) {
      case None =>
      case Some(k) =>
        if h.cells[k].free {
          FreedFreeIsSame(h.cells, k);
        } else {
          FreedIsCoalesced(h.cells, k);
          FreedKeeps(h.cells, k, h.size, h.nextId);
          forall c ensures c in Owned(Live(h.cells), id) <==> c == h.cells[k] {
          }
        }
    }
  }
}
