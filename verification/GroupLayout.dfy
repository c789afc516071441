/** One memory group of the JIT allocator: free blocks, pending blocks, the links between
    them, and the page permissions. */
module GroupLayout {
  import opened Numbers
  import opened PageMath

  const SENTINEL: nat := 0xffff_ffff

  datatype Perm = RW | RX | R

  datatype Block = Block(base: nat, size: nat)
  {
    function End(): nat {
      base + size
    }

    /** Does the block have a byte in the page at address `pg`? */
    predicate Touches(pg: nat, page: nat) {
      page > 0 && pg % page == 0 && size > 0 && pg < End() && base < pg + page
    }

    /** Does the block hold all of the page? */
    predicate Fills(pg: nat, page: nat) {
      page > 0 && pg % page == 0 && base <= pg && pg + page <= End()
    }

    ghost predicate Within(own: set<nat>, page: nat) {
      forall pg :: Touches(pg, page) ==> pg in own
    }

    predicate Inside(b: Block) {
      b.base <= base && End() <= b.End()
    }
  }

  predicate Disjoint(a: Block, b: Block) {
    a.size == 0 || b.size == 0 || a.End() <= b.base || b.End() <= a.base
  }

  /** A free block, and the index of the pending block that ends where it begins. */
  datatype FreeBlock = FreeBlock(free: Block, prefix: nat)

  datatype Group = Group(pending: seq<Block>, free: seq<FreeBlock>)

  /** An allocation handed out: `slot` is the pending block that holds it, or -1 once its
      permissions have been applied. */
  datatype Alloc = Alloc(block: Block, alignment: nat, slot: int)
  {
    predicate Pending() {
      slot >= 0
    }
  }

  // ----- the invariant

  ghost predicate FreeOk(g: Group, own: set<nat>, page: nat)
    requires page > 0
  {
    && (forall i :: 0 <= i < |g.free| ==> g.free[i].free.Within(own, page) && g.free[i].free.End() % page == 0)
    && (forall i, j :: 0 <= i < j < |g.free| ==> Disjoint(g.free[i].free, g.free[j].free))
  }

  ghost predicate PendingOk(g: Group, own: set<nat>, page: nat) {
    && (forall k :: 0 <= k < |g.pending| ==> g.pending[k].Within(own, page))
    && (forall k, l :: 0 <= k < l < |g.pending| ==> Disjoint(g.pending[k], g.pending[l]))
    && (forall i, k :: 0 <= i < |g.free| && 0 <= k < |g.pending| ==> Disjoint(g.free[i].free, g.pending[k]))
  }

  /** Every link names the pending block that ends at the free block, and no two links name
      the same. */
  ghost predicate LinksOk(g: Group) {
    && (forall i :: 0 <= i < |g.free| && g.free[i].prefix != SENTINEL ==>
          g.free[i].prefix < |g.pending| && g.pending[g.free[i].prefix].End() == g.free[i].free.base)
    && (forall i, j :: 0 <= i < j < |g.free| && g.free[i].prefix != SENTINEL ==> g.free[i].prefix != g.free[j].prefix)
  }

  ghost predicate AllocOk(a: Alloc, g: Group, own: set<nat>, page: nat) {
    && a.alignment > 0 && a.block.base % a.alignment == 0 && a.block.Within(own, page)
    && (a.Pending() ==> a.slot < |g.pending| && a.block.Inside(g.pending[a.slot]))
    && forall i :: 0 <= i < |g.free| ==> Disjoint(a.block, g.free[i].free)
  }

  ghost predicate AllocsOk(g: Group, allocs: seq<Alloc>, own: set<nat>, page: nat) {
    && (forall n :: 0 <= n < |allocs| ==> AllocOk(allocs[n], g, own, page))
    && (forall n, m :: 0 <= n < m < |allocs| ==> Disjoint(allocs[n].block, allocs[m].block))
  }

  ghost predicate GroupOk(g: Group, allocs: seq<Alloc>, own: set<nat>, page: nat)
    requires page > 0
  {
    FreeOk(g, own, page) && PendingOk(g, own, page) && LinksOk(g) && AllocsOk(g, allocs, own, page)
  }

  // ----- carving an allocation out of a free block

  predicate Carvable(g: Group, i: nat, size: nat, alignment: nat) {
    i < |g.free| && alignment > 0 && g.free[i].free.size >= RequiredSize(size, alignment) && |g.pending| < SENTINEL
  }

  function CarvedAddr(g: Group, i: nat, alignment: nat): nat
    requires i < |g.free| && alignment > 0
  {
    AlignTo(g.free[i].free.base, alignment)
  }

  /** The rest of the free block after the allocation. */
  function RestOf(b: Block, addr: nat, size: nat): Block
    requires addr + size <= b.End()
  {
    Block(addr + size, b.End() - addr - size)
  }

  lemma CarveFits(g: Group, i: nat, size: nat, alignment: nat)
    requires Carvable(g, i, size, alignment)
    ensures
      var b := g.free[i].free;
      var addr := CarvedAddr(g, i, alignment);
      b.base <= addr && addr + size <= b.End() && addr % alignment == 0
      && b.End() - (addr + size) >= b.size - RequiredSize(size, alignment)
  {
    SizeFormulasAgree(size, alignment);
  }

  /** The group after `size` bytes have been taken from free block `i`. */
  function Carve(g: Group, i: nat, size: nat, alignment: nat): Group
    requires Carvable(g, i, size, alignment) && (g.free[i].prefix == SENTINEL || g.free[i].prefix < |g.pending|)
    requires LinksOk(g)
  {
    CarveFits(g, i, size, alignment);
    var b, link := g.free[i].free, g.free[i].prefix;
    var addr := CarvedAddr(g, i, alignment);
    if link == SENTINEL then
      Group(g.pending + [Block(addr, size)], g.free[i := FreeBlock(RestOf(b, addr, size), |g.pending|)])
    else
      var p := g.pending[link];
      Group(g.pending[link := Block(p.base, addr + size - p.base)], g.free[i := FreeBlock(RestOf(b, addr, size), link)])
  }

  /** The pending block that the allocation went to. */
  function CarvedSlot(g: Group, i: nat): nat
    requires i < |g.free|
  {
    if g.free[i].prefix == SENTINEL then |g.pending| else g.free[i].prefix
  }

  function Carved(g: Group, i: nat, size: nat, alignment: nat): Alloc
    requires i < |g.free| && alignment > 0
  {
    Alloc(Block(CarvedAddr(g, i, alignment), size), alignment, CarvedSlot(g, i))
  }

  lemma InsideWithin(a: Block, b: Block, own: set<nat>, page: nat)
    requires a.Inside(b) && b.Within(own, page)
    ensures a.Within(own, page)
  {
    forall pg | a.Touches(pg, page) ensures pg in own {
      assert b.Touches(pg, page);
    }
  }

  /** What a block grown into its neighbour touches, one of the two touched. */
  lemma GrownTouches(p: Block, b: Block, q: Block, pg: nat, page: nat)
    requires p.End() == b.base && q.base == p.base && q.End() <= b.End()
    requires q.Touches(pg, page)
    ensures p.Touches(pg, page) || b.Touches(pg, page)
  {
  }

  lemma GrownWithin(p: Block, b: Block, q: Block, own: set<nat>, page: nat)
    requires p.End() == b.base && q.base == p.base && q.End() <= b.End()
    requires p.Within(own, page) && b.Within(own, page)
    ensures q.Within(own, page)
  {
    forall pg | q.Touches(pg, page) ensures pg in own {
      GrownTouches(p, b, q, pg, page);
    }
  }

  /** What the carving does to one block of each kind. */
  lemma CarvePieces(g: Group, i: nat, size: nat, alignment: nat)
    requires Carvable(g, i, size, alignment) && LinksOk(g)
    ensures
      var h := Carve(g, i, size, alignment);
      var b := g.free[i].free;
      var s := CarvedSlot(g, i);
      var a := Carved(g, i, size, alignment).block;
      && h.free[i].free.Inside(b) && h.free[i].free.End() == b.End() && h.free[i].prefix == s
      && |h.free| == |g.free| && (forall j :: 0 <= j < |g.free| && j != i ==> h.free[j] == g.free[j])
      && |g.pending| <= |h.pending| && s < |h.pending| <= |g.pending| + 1 && (s == |g.pending| ==> |h.pending| == s + 1)
      && (forall k :: 0 <= k < |g.pending| && k != s ==> h.pending[k] == g.pending[k])
      && h.pending[s].End() == h.free[i].free.base
      && a.Inside(b) && a.Inside(h.pending[s]) && a.base % alignment == 0
      && (if s == |g.pending| then h.pending[s] == a
          else h.pending[s].base == g.pending[s].base && g.pending[s].End() == b.base && h.pending[s].End() <= b.End()
               && g.pending[s].Inside(h.pending[s]))
  {
    CarveFits(g, i, size, alignment);
  }

  lemma CarveFreeOk(g: Group, i: nat, size: nat, alignment: nat, own: set<nat>, page: nat)
    requires page > 0 && Carvable(g, i, size, alignment) && LinksOk(g) && FreeOk(g, own, page)
    ensures FreeOk(Carve(g, i, size, alignment), own, page)
  {
    CarvePieces(g, i, size, alignment);
    InsideWithin(Carve(g, i, size, alignment).free[i].free, g.free[i].free, own, page);
  }

  lemma DisjointInside(a: Block, b: Block, c: Block)
    requires a.Inside(b) && Disjoint(b, c)
    ensures Disjoint(a, c) && Disjoint(c, a)
  {
  }

  /** A block apart from a pending block and from the free block after it is apart from the
      pending block grown into the free one. */
  lemma DisjointGrown(p: Block, b: Block, q: Block, c: Block)
    requires p.End() == b.base && q.base == p.base && q.End() <= b.End()
    requires Disjoint(p, c) && Disjoint(b, c)
    ensures Disjoint(q, c) && Disjoint(c, q)
  {
  }

  lemma CarvePendingApart(g: Group, i: nat, size: nat, alignment: nat, c: Block)
    requires Carvable(g, i, size, alignment) && LinksOk(g)
    requires Disjoint(g.free[i].free, c)
    requires CarvedSlot(g, i) < |g.pending| ==> Disjoint(g.pending[CarvedSlot(g, i)], c)
    ensures
      var h := Carve(g, i, size, alignment);
      CarvedSlot(g, i) < |h.pending| && Disjoint(h.pending[CarvedSlot(g, i)], c) && Disjoint(c, h.pending[CarvedSlot(g, i)])
  {
    CarvePieces(g, i, size, alignment);
    var h, s := Carve(g, i, size, alignment), CarvedSlot(g, i);
    if s < |g.pending| {
      DisjointGrown(g.pending[s], g.free[i].free, h.pending[s], c);
    } else {
      DisjointInside(h.pending[s], g.free[i].free, c);
    }
  }

  lemma CarvePendingOk(g: Group, i: nat, size: nat, alignment: nat, own: set<nat>, page: nat)
    requires page > 0 && Carvable(g, i, size, alignment) && LinksOk(g) && FreeOk(g, own, page) && PendingOk(g, own, page)
    ensures PendingOk(Carve(g, i, size, alignment), own, page)
  {
    CarvePieces(g, i, size, alignment);
    var h, s, b := Carve(g, i, size, alignment), CarvedSlot(g, i), g.free[i].free;
    if s < |g.pending| {
      GrownWithin(g.pending[s], b, h.pending[s], own, page);
    } else {
      InsideWithin(h.pending[s], b, own, page);
    }
    forall k | 0 <= k < |h.pending| && k != s ensures Disjoint(h.pending[s], h.pending[k]) && Disjoint(h.pending[k], h.pending[s]) {
      CarvePendingApart(g, i, size, alignment, g.pending[k]);
    }
    forall j, k | 0 <= j < |h.free| && 0 <= k < |h.pending| ensures Disjoint(h.free[j].free, h.pending[k]) {
      if k != s {
        assert Disjoint(g.free[j].free, g.pending[k]);
        if j == i {
          DisjointInside(h.free[i].free, b, g.pending[k]);
        }
      } else if j != i {
        CarvePendingApart(g, i, size, alignment, g.free[j].free);
      }
    }
  }

  lemma CarveLinksOk(g: Group, i: nat, size: nat, alignment: nat)
    requires Carvable(g, i, size, alignment) && LinksOk(g)
    ensures LinksOk(Carve(g, i, size, alignment))
  {
    CarvePieces(g, i, size, alignment);
  }

  lemma CarveAllocsOk(g: Group, allocs: seq<Alloc>, i: nat, size: nat, alignment: nat, own: set<nat>, page: nat)
    requires page > 0 && Carvable(g, i, size, alignment) && GroupOk(g, allocs, own, page)
    ensures AllocsOk(Carve(g, i, size, alignment), allocs + [Carved(g, i, size, alignment)], own, page)
  {
    CarvePieces(g, i, size, alignment);
    var h, a, b := Carve(g, i, size, alignment), Carved(g, i, size, alignment), g.free[i].free;
    InsideWithin(a.block, b, own, page);
    forall n | 0 <= n < |allocs| ensures AllocOk(allocs[n], h, own, page) && Disjoint(allocs[n].block, a.block) {
      assert AllocOk(allocs[n], g, own, page);
      DisjointInside(a.block, b, allocs[n].block);
      DisjointInside(h.free[i].free, b, allocs[n].block);
    }
    forall j | 0 <= j < |h.free| ensures Disjoint(a.block, h.free[j].free) {
      if j != i {
        assert g.free[j] == h.free[j];
        assert Disjoint(g.free[i].free, g.free[j].free);
        DisjointInside(a.block, b, g.free[j].free);
      }
    }
    assert AllocOk(a, h, own, page);
  }

  /** Carving keeps the layout and adds an aligned allocation apart from all others, inside
      its pending block. */
  lemma CarveKeepsOk(g: Group, allocs: seq<Alloc>, i: nat, size: nat, alignment: nat, own: set<nat>, page: nat)
    requires page > 0 && Carvable(g, i, size, alignment) && GroupOk(g, allocs, own, page)
    ensures GroupOk(Carve(g, i, size, alignment), allocs + [Carved(g, i, size, alignment)], own, page)
  {
    CarveFreeOk(g, i, size, alignment, own, page);
    CarvePendingOk(g, i, size, alignment, own, page);
    CarveLinksOk(g, i, size, alignment);
    CarveAllocsOk(g, allocs, i, size, alignment, own, page);
  }

  // ----- applying permissions

  /** `trimBlockToPageSize`: the whole pages of a block, in unsigned arithmetic. */
  function Trim(b: Block, page: nat): Block
    requires 0 < page < U64 && b.End() < U64
  {
    var overlap := StartOverlap(b.base, page);
    var size := Minus(b.size, overlap);
    Block(b.base + overlap, Minus(size, size % page))
  }

  /** A block that ends on a page boundary loses just its first, partial page: the unsigned
      subtraction does not wrap around. */
  lemma TrimExact(b: Block, page: nat)
    requires 0 < page < U64 && b.End() < U64 && b.End() % page == 0
    ensures StartOverlap(b.base, page) <= b.size
    ensures Trim(b, page).base == AlignTo(b.base, page) && Trim(b, page).End() == b.End()
    ensures Trim(b, page).Inside(b) && Trim(b, page).size % page == 0
  {
    AlignToLeast(b.base, b.End(), page);
    SumOfMultiples(AlignTo(b.base, page), b.End(), page);
  }

  /** A trimmed block touches only pages that it fills. */
  lemma TrimFills(b: Block, page: nat, pg: nat)
    requires 0 < page < U64 && b.End() < U64 && b.End() % page == 0 && Trim(b, page).Touches(pg, page)
    ensures b.Fills(pg, page)
  {
    TrimExact(b, page);
    var t := Trim(b, page);
    if pg < t.base {
      MultiplesApart(pg, t.base, page);
    }
    MultiplesApart(pg, b.End(), page);
  }

  function TrimAll(free: seq<FreeBlock>, page: nat): (r: seq<FreeBlock>)
    requires 0 < page < U64 && forall i :: 0 <= i < |free| ==> free[i].free.End() < U64
    ensures |r| == |free|
    ensures forall i :: 0 <= i < |r| ==> r[i] == FreeBlock(Trim(free[i].free, page), SENTINEL)
  {
    seq(|free|, i requires 0 <= i < |free| => FreeBlock(Trim(free[i].free, page), SENTINEL))
  }

  /** `erase_if`: drops the blocks that are empty. */
  function NonEmpty(free: seq<FreeBlock>): seq<FreeBlock> {
    if free == [] then []
    else
      var last := free[|free| - 1];
      NonEmpty(free[..|free| - 1]) + if last.free.size == 0 then [] else [last]
  }

  lemma {:induction false} NonEmptyOrigin(free: seq<FreeBlock>, i: nat) returns (k: nat)
    requires i < |NonEmpty(free)|
    ensures k < |free| && free[k] == NonEmpty(free)[i] && free[k].free.size > 0
  {
    var n := |free| - 1;
    if i < |NonEmpty(free[..n])| {
      k := NonEmptyOrigin(free[..n], i);
    } else {
      k := n;
    }
  }

  lemma {:induction false} NonEmptyOrder(free: seq<FreeBlock>, i: nat, j: nat) returns (k: nat, l: nat)
    requires i < j < |NonEmpty(free)|
    ensures k < l < |free| && free[k] == NonEmpty(free)[i] && free[l] == NonEmpty(free)[j]
  {
    var n := |free| - 1;
    if j < |NonEmpty(free[..n])| {
      k, l := NonEmptyOrder(free[..n], i, j);
    } else {
      k := NonEmptyOrigin(free[..n], i);
      l := n;
    }
  }

  ghost predicate Ends(g: Group) {
    forall i :: 0 <= i < |g.free| ==> g.free[i].free.End() < U64
  }

  /** The group after its permissions have been applied. */
  function Applied(g: Group, page: nat): Group
    requires 0 < page < U64 && Ends(g)
  {
    Group([], NonEmpty(TrimAll(g.free, page)))
  }

  function AllApplied(allocs: seq<Alloc>): (r: seq<Alloc>)
    ensures |r| == |allocs| && forall n :: 0 <= n < |r| ==> r[n] == allocs[n].(slot := -1)
  {
    seq(|allocs|, n requires 0 <= n < |allocs| => allocs[n].(slot := -1))
  }

  /** Every free block that is left is the trimmed form of one that was there. */
  lemma AppliedOrigin(g: Group, page: nat, i: nat) returns (k: nat)
    requires 0 < page < U64 && Ends(g) && i < |Applied(g, page).free|
    ensures k < |g.free| && Applied(g, page).free[i] == FreeBlock(Trim(g.free[k].free, page), SENTINEL)
    ensures Trim(g.free[k].free, page).size > 0
  {
    k := NonEmptyOrigin(TrimAll(g.free, page), i);
  }

  lemma AppliedKeepsOk(g: Group, allocs: seq<Alloc>, own: set<nat>, page: nat)
    requires 0 < page < U64 && Ends(g) && GroupOk(g, allocs, own, page)
    ensures GroupOk(Applied(g, page), AllApplied(allocs), own, page) && Ends(Applied(g, page))
  {
    var h := Applied(g, page);
    forall i | 0 <= i < |h.free|
      ensures h.free[i].free.Within(own, page) && h.free[i].free.End() % page == 0
      ensures h.free[i].prefix == SENTINEL && h.free[i].free.End() < U64
    {
      var k := AppliedOrigin(g, page, i);
      TrimExact(g.free[k].free, page);
      InsideWithin(h.free[i].free, g.free[k].free, own, page);
    }
    forall i, j | 0 <= i < j < |h.free| ensures Disjoint(h.free[i].free, h.free[j].free) {
      var k, l := NonEmptyOrder(TrimAll(g.free, page), i, j);
      TrimExact(g.free[k].free, page);
      TrimExact(g.free[l].free, page);
      DisjointInside(h.free[i].free, g.free[k].free, g.free[l].free);
      DisjointInside(h.free[j].free, g.free[l].free, h.free[i].free);
    }
    forall n | 0 <= n < |allocs| ensures AllocOk(AllApplied(allocs)[n], h, own, page) {
      assert AllocOk(allocs[n], g, own, page);
      forall i | 0 <= i < |h.free| ensures Disjoint(allocs[n].block, h.free[i].free) {
        var k := AppliedOrigin(g, page, i);
        TrimExact(g.free[k].free, page);
        DisjointInside(h.free[i].free, g.free[k].free, allocs[n].block);
      }
    }
  }

  // ----- page permissions

  type Perms = map<nat, Perm>

  /** `protectMappedMemory`, which acts on every page that the block touches. */
  function Protect(perms: Perms, b: Block, target: Perm, page: nat): Perms {
    map pg | pg in perms :: if b.Touches(pg, page) then target else perms[pg]
  }

  function ProtectAll(perms: Perms, blocks: seq<Block>, target: Perm, page: nat): Perms {
    if blocks == [] then perms
    else Protect(ProtectAll(perms, blocks[..|blocks| - 1], target, page), blocks[|blocks| - 1], target, page)
  }

  ghost predicate SomeTouches(blocks: seq<Block>, pg: nat, page: nat) {
    exists k :: 0 <= k < |blocks| && blocks[k].Touches(pg, page)
  }

  lemma {:induction false} ProtectAllEffect(perms: Perms, blocks: seq<Block>, target: Perm, page: nat, pg: nat)
    requires pg in perms
    ensures pg in ProtectAll(perms, blocks, target, page)
    ensures ProtectAll(perms, blocks, target, page)[pg] == if SomeTouches(blocks, pg, page) then target else perms[pg]
    ensures ProtectAll(perms, blocks, target, page).Keys == perms.Keys
  {
    if blocks != [] {
      var n := |blocks| - 1;
      ProtectAllEffect(perms, blocks[..n], target, page, pg);
      if SomeTouches(blocks[..n], pg, page) {
        var k :| 0 <= k < n && blocks[..n][k].Touches(pg, page);
        assert blocks[k].Touches(pg, page);
      }
      if SomeTouches(blocks, pg, page) && !blocks[n].Touches(pg, page) {
        var k :| 0 <= k < |blocks| && blocks[k].Touches(pg, page);
        assert blocks[..n][k].Touches(pg, page);
      }
    }
  }

  ghost predicate PagesAre(b: Block, perms: Perms, p: Perm, page: nat) {
    forall pg :: b.Touches(pg, page) ==> pg in perms && perms[pg] == p
  }

  /** What can still be written is on writable pages, and what has its final permissions is
      on pages that have them. */
  ghost predicate PermsOk(g: Group, allocs: seq<Alloc>, perms: Perms, final: Perm, page: nat) {
    && (forall i :: 0 <= i < |g.free| ==> PagesAre(g.free[i].free, perms, RW, page))
    && (forall k :: 0 <= k < |g.pending| ==> PagesAre(g.pending[k], perms, RW, page))
    && (forall n :: 0 <= n < |allocs| && !allocs[n].Pending() ==> PagesAre(allocs[n].block, perms, final, page))
  }

  ghost predicate FilledAre(b: Block, perms: Perms, p: Perm, page: nat) {
    forall pg :: b.Fills(pg, page) ==> pg in perms && perms[pg] == p
  }

  /** What always holds of a group whose pages are being made final, a refused application
      included: each page is writable or final, a page all of which is free is writable, and
      what was finalized is final. */
  ghost predicate PermsHeld(g: Group, allocs: seq<Alloc>, own: set<nat>, perms: Perms, final: Perm, page: nat) {
    && (forall pg :: pg in own ==> pg in perms && (perms[pg] == RW || perms[pg] == final))
    && (forall i :: 0 <= i < |g.free| ==> FilledAre(g.free[i].free, perms, RW, page))
    && (forall n :: 0 <= n < |allocs| && !allocs[n].Pending() ==> PagesAre(allocs[n].block, perms, final, page))
  }

  /** No page that a pending block touches is all free. */
  lemma FilledUntouched(g: Group, own: set<nat>, page: nat, k: nat, pg: nat)
    requires PendingOk(g, own, page) && k < |g.free| && g.free[k].free.Fills(pg, page)
    ensures !SomeTouches(g.pending, pg, page)
  {
    forall l | 0 <= l < |g.pending| ensures !g.pending[l].Touches(pg, page) {
      assert Disjoint(g.free[k].free, g.pending[l]);
    }
  }

  /** No page that was protected touches a free block that is left. */
  lemma TrimmedUntouched(g: Group, own: set<nat>, page: nat, k: nat, pg: nat)
    requires 0 < page < U64 && Ends(g) && FreeOk(g, own, page) && PendingOk(g, own, page)
    requires k < |g.free| && Trim(g.free[k].free, page).Touches(pg, page)
    ensures !SomeTouches(g.pending, pg, page)
  {
    TrimFills(g.free[k].free, page, pg);
    FilledUntouched(g, own, page, k, pg);
  }

  lemma AppliedFreeWritable(g: Group, own: set<nat>, perms: Perms, final: Perm, page: nat, i: nat)
    requires 0 < page < U64 && Ends(g) && FreeOk(g, own, page) && PendingOk(g, own, page)
    requires forall k :: 0 <= k < |g.free| ==> FilledAre(g.free[k].free, perms, RW, page)
    requires i < |Applied(g, page).free|
    ensures PagesAre(Applied(g, page).free[i].free, ProtectAll(perms, g.pending, final, page), RW, page)
  {
    var after, t := ProtectAll(perms, g.pending, final, page), Applied(g, page).free[i].free;
    var k := AppliedOrigin(g, page, i);
    forall pg | t.Touches(pg, page) ensures pg in after && after[pg] == RW {
      TrimFills(g.free[k].free, page, pg);
      TrimmedUntouched(g, own, page, k, pg);
      ProtectAllEffect(perms, g.pending, final, page, pg);
    }
  }

  lemma AppliedAllocFinal(g: Group, a: Alloc, own: set<nat>, perms: Perms, final: Perm, page: nat)
    requires AllocOk(a, g, own, page) && forall pg :: pg in own ==> pg in perms
    requires !a.Pending() ==> PagesAre(a.block, perms, final, page)
    ensures PagesAre(a.block, ProtectAll(perms, g.pending, final, page), final, page)
  {
    var after := ProtectAll(perms, g.pending, final, page);
    forall pg | a.block.Touches(pg, page) ensures pg in after && after[pg] == final {
      if a.Pending() {
        assert g.pending[a.slot].Touches(pg, page);
      }
      ProtectAllEffect(perms, g.pending, final, page, pg);
    }
  }

  /** A successful application makes every allocation of the group final and leaves only
      writable memory free, even if an earlier application was refused half-way. */
  lemma AppliedRestoresPerms(g: Group, allocs: seq<Alloc>, own: set<nat>, perms: Perms, final: Perm, page: nat)
    requires 0 < page < U64 && Ends(g) && GroupOk(g, allocs, own, page) && PermsHeld(g, allocs, own, perms, final, page)
    ensures PermsOk(Applied(g, page), AllApplied(allocs), ProtectAll(perms, g.pending, final, page), final, page)
    ensures PermsHeld(Applied(g, page), AllApplied(allocs), own, ProtectAll(perms, g.pending, final, page), final, page)
  {
    var after := ProtectAll(perms, g.pending, final, page);
    forall i | 0 <= i < |Applied(g, page).free| ensures PagesAre(Applied(g, page).free[i].free, after, RW, page) {
      AppliedFreeWritable(g, own, perms, final, page, i);
    }
    forall n | 0 <= n < |allocs| ensures PagesAre(AllApplied(allocs)[n].block, after, final, page) {
      assert AllocOk(allocs[n], g, own, page);
      AppliedAllocFinal(g, allocs[n], own, perms, final, page);
    }
    forall pg | pg in own ensures pg in after && (after[pg] == RW || after[pg] == final) {
      ProtectAllEffect(perms, g.pending, final, page, pg);
    }
    PermsOkHeld(Applied(g, page), AllApplied(allocs), own, after, final, page);
  }

  lemma PermsOkHeld(g: Group, allocs: seq<Alloc>, own: set<nat>, perms: Perms, final: Perm, page: nat)
    requires PermsOk(g, allocs, perms, final, page)
    requires forall pg :: pg in own ==> pg in perms && (perms[pg] == RW || perms[pg] == final)
    ensures PermsHeld(g, allocs, own, perms, final, page)
  {
    forall i, pg | 0 <= i < |g.free| && g.free[i].free.Fills(pg, page) ensures pg in perms && perms[pg] == RW {
      assert g.free[i].free.Touches(pg, page);
    }
  }

  /** An application that stops half-way breaks nothing that always holds. */
  lemma StoppedKeepsHeld(g: Group, allocs: seq<Alloc>, own: set<nat>, perms: Perms, final: Perm, page: nat, k: nat)
    requires page > 0 && k <= |g.pending| && PendingOk(g, own, page) && PermsHeld(g, allocs, own, perms, final, page)
    ensures PermsHeld(g, allocs, own, ProtectAll(perms, g.pending[..k], final, page), final, page)
  {
    var after := ProtectAll(perms, g.pending[..k], final, page);
    forall pg | pg in perms
      ensures pg in after && (after[pg] == perms[pg] || after[pg] == final)
      ensures !SomeTouches(g.pending, pg, page) ==> after[pg] == perms[pg]
    {
      ProtectAllEffect(perms, g.pending[..k], final, page, pg);
      if SomeTouches(g.pending[..k], pg, page) {
        var l :| 0 <= l < k && g.pending[..k][l].Touches(pg, page);
        assert g.pending[l].Touches(pg, page);
      }
    }
    forall i, pg | 0 <= i < |g.free| && g.free[i].free.Fills(pg, page) ensures pg in after && after[pg] == RW {
      FilledUntouched(g, own, page, i, pg);
    }
  }

  /** Protecting the pages of one group keeps what always holds of another. */
  lemma HeldElsewhere(g: Group, h: Group, hallocs: seq<Alloc>, own: set<nat>, other: set<nat>,
                      perms: Perms, p: Perm, final: Perm, page: nat)
    requires page > 0 && PendingOk(g, own, page) && GroupOk(h, hallocs, other, page) && own !! other
    requires PermsHeld(h, hallocs, other, perms, final, page)
    ensures PermsHeld(h, hallocs, other, ProtectAll(perms, g.pending, p, page), final, page)
  {
    var after := ProtectAll(perms, g.pending, p, page);
    forall pg | pg in other ensures pg in after && after[pg] == perms[pg] {
      ProtectAllEffect(perms, g.pending, p, page, pg);
    }
    forall i, pg | 0 <= i < |h.free| && h.free[i].free.Fills(pg, page) ensures pg in other {
      assert h.free[i].free.Touches(pg, page);
    }
    forall n | 0 <= n < |hallocs| ensures hallocs[n].block.Within(other, page) {
      assert AllocOk(hallocs[n], h, other, page);
    }
  }

  lemma CarveKeepsHeld(g: Group, allocs: seq<Alloc>, i: nat, size: nat, alignment: nat, own: set<nat>,
                       perms: Perms, final: Perm, page: nat)
    requires page > 0 && Carvable(g, i, size, alignment) && LinksOk(g) && PermsHeld(g, allocs, own, perms, final, page)
    ensures PermsHeld(Carve(g, i, size, alignment), allocs + [Carved(g, i, size, alignment)], own, perms, final, page)
  {
    CarvePieces(g, i, size, alignment);
    var h := Carve(g, i, size, alignment);
    forall pg | h.free[i].free.Fills(pg, page) ensures g.free[i].free.Fills(pg, page) {
    }
  }

  /** Protecting the pages of one group leaves the other groups alone. */
  lemma ProtectElsewhere(g: Group, h: Group, hallocs: seq<Alloc>, own: set<nat>, other: set<nat>,
                         perms: Perms, p: Perm, final: Perm, page: nat)
    requires page > 0 && PendingOk(g, own, page) && GroupOk(h, hallocs, other, page) && own !! other
    requires PermsOk(h, hallocs, perms, final, page)
    ensures PermsOk(h, hallocs, ProtectAll(perms, g.pending, p, page), final, page)
  {
    var after := ProtectAll(perms, g.pending, p, page);
    forall b: Block, q: Perm, pg | b.Within(other, page) && PagesAre(b, perms, q, page) && b.Touches(pg, page)
      ensures pg in after && after[pg] == q
    {
      assert pg in other;
      ProtectAllEffect(perms, g.pending, p, page, pg);
    }
    forall n | 0 <= n < |hallocs| ensures hallocs[n].block.Within(other, page) {
      assert AllocOk(hallocs[n], h, other, page);
    }
  }

  /** Carving changes no permission and hands out writable memory. */
  lemma CarveKeepsPerms(g: Group, allocs: seq<Alloc>, i: nat, size: nat, alignment: nat, perms: Perms, final: Perm, page: nat)
    requires page > 0 && Carvable(g, i, size, alignment) && LinksOk(g) && PermsOk(g, allocs, perms, final, page)
    ensures PermsOk(Carve(g, i, size, alignment), allocs + [Carved(g, i, size, alignment)], perms, final, page)
    ensures PagesAre(Carved(g, i, size, alignment).block, perms, RW, page)
  {
    CarvePieces(g, i, size, alignment);
    var h, s, b := Carve(g, i, size, alignment), CarvedSlot(g, i), g.free[i].free;
    forall pg | h.free[i].free.Touches(pg, page) || Carved(g, i, size, alignment).block.Touches(pg, page)
      ensures pg in perms && perms[pg] == RW
    {
      assert b.Touches(pg, page);
    }
    forall pg | h.pending[s].Touches(pg, page) ensures pg in perms && perms[pg] == RW {
      if s < |g.pending| {
        GrownTouches(g.pending[s], b, h.pending[s], pg, page);
      } else {
        assert b.Touches(pg, page);
      }
    }
  }

  lemma FirstPage(b: Block, page: nat) returns (pg: nat)
    requires page > 0 && b.size > 0
    ensures b.Touches(pg, page)
  {
    var q, m := b.base / page, b.base % page;
    assert b.base == page * q + m;
    pg := page * q;
    DivUnique(pg, page, q, 0);
  }

  /** An application that stops after `k` blocks leaves the permissions right exactly if
      those blocks were all empty: the blocks stay pending though their pages are final. */
  lemma StoppedExactly(g: Group, allocs: seq<Alloc>, perms: Perms, final: Perm, page: nat, k: nat)
    requires page > 0 && k <= |g.pending| && final != RW && PermsOk(g, allocs, perms, final, page)
    ensures PermsOk(g, allocs, ProtectAll(perms, g.pending[..k], final, page), final, page)
            <==> forall l :: 0 <= l < k ==> g.pending[l].size == 0
  {
    var after := ProtectAll(perms, g.pending[..k], final, page);
    if l :| 0 <= l < k && g.pending[l].size != 0 {
      var pg := FirstPage(g.pending[l], page);
      assert g.pending[..k][l].Touches(pg, page);
      ProtectAllEffect(perms, g.pending[..k], final, page, pg);
      assert g.pending[l].Touches(pg, page);
    } else {
      forall pg | pg in perms ensures pg in after && after[pg] == perms[pg] {
        ProtectAllEffect(perms, g.pending[..k], final, page, pg);
      }
    }
  }

  // ----- how much a group can still serve

  /** `hasSpace`: some free block holds `size` bytes. */
  ghost predicate HasSpace(g: Group, size: int) {
    exists i :: 0 <= i < |g.free| && g.free[i].free.size >= size
  }

  /** Whichever block the allocation comes from, one that held `n` bytes still holds what
      the allocation's padded size leaves of them. */
  lemma CarveLeavesSpace(g: Group, i: nat, size: nat, alignment: nat, n: int)
    requires Carvable(g, i, size, alignment) && LinksOk(g) && HasSpace(g, n)
    ensures HasSpace(Carve(g, i, size, alignment), n - RequiredSize(size, alignment))
  {
    CarvePieces(g, i, size, alignment);
    CarveFits(g, i, size, alignment);
    var h := Carve(g, i, size, alignment);
    var j :| 0 <= j < |g.free| && g.free[j].free.size >= n;
    assert h.free[j].free.size >= n - RequiredSize(size, alignment);
  }
}
