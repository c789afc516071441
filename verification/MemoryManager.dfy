/** The section allocator of the JIT: reserve, allocate, finalize. */
module MemoryManager {
  import opened Options
  import opened PageMath
  import opened GroupLayout

  datatype Purpose = Code | ROData | RWData

  function FinalPerm(p: Purpose): Perm {
    match p
    case Code => RX
    case ROData => R
    case RWData => RW
  }

  /** A section request: for which group, how large, and how aligned. */
  datatype Request = Request(purpose: Purpose, size: nat, alignment: nat)
  {
    function Padded(): nat {
      RequiredSize(size, Effective(alignment))
    }

    ghost predicate Acceptable() {
      Alignment(alignment) && size + 2 * Effective(alignment) <= U64
    }
  }

  /** A power of two, or 0 for the default. */
  predicate Alignment(n: nat) {
    n <= 1 || (n % 2 == 0 && Alignment(n / 2))
  }

  function Power(k: nat): nat {
    if k == 0 then 1 else 2 * Power(k - 1)
  }

  lemma {:induction false} PowerAligned(k: nat)
    ensures Alignment(Power(k))
  {
    if k > 0 {
      PowerAligned(k - 1);
      var half := Power(k - 1);
      assert (2 * half) % 2 == 0 && (2 * half) / 2 == half;
    }
  }

  lemma {:induction false} AlignedPower(n: nat) returns (k: nat)
    requires n > 0 && Alignment(n)
    ensures n == Power(k)
  {
    if n == 1 {
      k := 0;
    } else {
      k := AlignedPower(n / 2);
      k := k + 1;
    }
  }

  /** The alignments allowed are 0 and the powers of two. */
  lemma AlignmentExactly(n: nat)
    ensures Alignment(n) <==> n == 0 || exists k: nat :: n == Power(k)
  {
    if n > 0 && Alignment(n) {
      var k := AlignedPower(n);
    }
    if k: nat :| n == Power(k) {
      PowerAligned(k);
    }
  }

  function Effective(alignment: nat): nat {
    if alignment == 0 then 8 else alignment
  }

  /** A group with what it has handed out and the pages it owns. */
  datatype Layout = Layout(group: Group, allocs: seq<Alloc>, own: set<nat>)
  {
    ghost predicate Ok(page: nat) {
      page > 0 && GroupOk(group, allocs, own, page) && Ends(group)
    }

    ghost predicate Held(perms: Perms, final: Perm, page: nat) {
      PermsHeld(group, allocs, own, perms, final, page)
    }

    ghost predicate Permitted(perms: Perms, final: Perm, page: nat) {
      PermsOk(group, allocs, perms, final, page)
    }
  }

  /** A page inside one of the reservations. */
  ghost predicate Reserved(blocks: seq<Block>, pg: nat, page: nat) {
    exists i :: 0 <= i < |blocks| && blocks[i].base <= pg && pg + page <= blocks[i].End()
  }

  /** Everything the manager and the operating system know. */
  datatype State = State(code: Layout, ro: Layout, rw: Layout, reserved: seq<Block>, perms: Perms)
  {
    function Get(p: Purpose): Layout {
      match p
      case Code => code
      case ROData => ro
      case RWData => rw
    }

    function Put(p: Purpose, l: Layout): State {
      match p
      case Code => this.(code := l)
      case ROData => this.(ro := l)
      case RWData => this.(rw := l)
    }

    /** Within each group blocks, links and allocations are in order, no two groups share a
        page, and every page in use is reserved and mapped. */
    ghost predicate LayoutOk(page: nat) {
      && code.Ok(page) && ro.Ok(page) && rw.Ok(page)
      && code.own !! ro.own && code.own !! rw.own && ro.own !! rw.own
      && forall pg :: pg in code.own + ro.own + rw.own ==> pg in perms && Reserved(reserved, pg, page)
    }

    /** What holds of the permissions whatever was refused: code pages are writable or
        executable, constant pages writable or read-only, a page all of which is free is
        writable, and what was finalized stays final. */
    ghost predicate FinalHeld(page: nat) {
      code.Held(perms, RX, page) && ro.Held(perms, R, page) && rw.Permitted(perms, RW, page)
    }

    ghost predicate PermissionsOk(page: nat) {
      code.Permitted(perms, RX, page) && ro.Permitted(perms, R, page) && rw.Permitted(perms, RW, page)
    }
  }

  // ----- allocating

  ghost predicate CanTake(s: State, p: Purpose, i: nat, size: nat, alignment: nat) {
    Carvable(s.Get(p).group, i, size, alignment)
  }

  /** The state after `size` bytes of free block `i` have been handed out. */
  ghost function Taken(s: State, p: Purpose, i: nat, size: nat, alignment: nat): State
    requires CanTake(s, p, i, size, alignment) && LinksOk(s.Get(p).group)
  {
    var l := s.Get(p);
    s.Put(p, Layout(Carve(l.group, i, size, alignment), l.allocs + [Carved(l.group, i, size, alignment)], l.own))
  }

  lemma TakenOk(s: State, p: Purpose, i: nat, size: nat, alignment: nat, page: nat)
    requires s.LayoutOk(page) && CanTake(s, p, i, size, alignment)
    ensures LinksOk(s.Get(p).group) && Taken(s, p, i, size, alignment).LayoutOk(page)
  {
    var l := s.Get(p);
    CarveKeepsOk(l.group, l.allocs, i, size, alignment, l.own, page);
    CarvePieces(l.group, i, size, alignment);
  }

  lemma TakenPermitted(s: State, p: Purpose, i: nat, size: nat, alignment: nat, page: nat)
    requires s.LayoutOk(page) && s.PermissionsOk(page) && CanTake(s, p, i, size, alignment)
    ensures LinksOk(s.Get(p).group) && Taken(s, p, i, size, alignment).PermissionsOk(page)
    ensures PagesAre(Carved(s.Get(p).group, i, size, alignment).block, s.perms, RW, page)
  {
    var l := s.Get(p);
    CarveKeepsPerms(l.group, l.allocs, i, size, alignment, s.perms, FinalPerm(p), page);
  }

  lemma TakenHeld(s: State, p: Purpose, i: nat, size: nat, alignment: nat, page: nat)
    requires s.LayoutOk(page) && s.FinalHeld(page) && CanTake(s, p, i, size, alignment)
    ensures LinksOk(s.Get(p).group) && Taken(s, p, i, size, alignment).FinalHeld(page)
  {
    var l := s.Get(p);
    if p == RWData {
      CarveKeepsPerms(l.group, l.allocs, i, size, alignment, s.perms, RW, page);
    } else {
      CarveKeepsHeld(l.group, l.allocs, i, size, alignment, l.own, s.perms, FinalPerm(p), page);
    }
  }

  /** The first free block that is large enough. */
  method FirstFit(g: Group, required: nat) returns (i: nat)
    ensures i <= |g.free|
    ensures i < |g.free| ==> g.free[i].free.size >= required
    ensures forall k :: 0 <= k < i ==> g.free[k].free.size < required
  {
    i := 0;
    while i < |g.free|
      invariant i <= |g.free|
      invariant forall k :: 0 <= k < i ==> g.free[k].free.size < required
    {
      if g.free[i].free.size >= required {
        return;
      }
      i := i + 1;
    }
  }

  /** Takes an allocation out of free block `i`, growing the pending block before it or
      starting a new one. */
  method TakeFrom(g: Group, i: nat, size: nat, alignment: nat) returns (h: Group, addr: nat)
    requires Carvable(g, i, size, alignment) && LinksOk(g)
    ensures h == Carve(g, i, size, alignment) && addr == CarvedAddr(g, i, alignment)
  {
    CarveFits(g, i, size, alignment);
    var block, link := g.free[i].free, g.free[i].prefix;
    addr := AlignTo(block.base, alignment);
    var pending := g.pending;
    if link == SENTINEL {
      pending := pending + [Block(addr, size)];
      link := |pending| - 1;
    } else {
      pending := pending[link := Block(pending[link].base, addr + size - pending[link].base)];
    }
    h := Group(pending, g.free[i := FreeBlock(Block(addr + size, block.End() - addr - size), link)]);
  }

  // ----- finalizing

  /** The state after the permissions of group `p` have been applied. */
  ghost function AppliedTo(s: State, p: Purpose, page: nat): State
    requires 0 < page < U64 && Ends(s.Get(p).group)
  {
    var l := s.Get(p);
    s.Put(p, Layout(Applied(l.group, page), AllApplied(l.allocs), l.own))
     .(perms := ProtectAll(s.perms, l.group.pending, FinalPerm(p), page))
  }

  /** The state after the application to group `p` failed at pending block `k`. */
  ghost function StoppedAt(s: State, p: Purpose, k: nat, page: nat): State
    requires k <= |s.Get(p).group.pending|
  {
    s.(perms := ProtectAll(s.perms, s.Get(p).group.pending[..k], FinalPerm(p), page))
  }

  lemma {:induction false} ProtectKeepsKeys(perms: Perms, blocks: seq<Block>, target: Perm, page: nat)
    ensures ProtectAll(perms, blocks, target, page).Keys == perms.Keys
  {
    if blocks != [] {
      ProtectKeepsKeys(perms, blocks[..|blocks| - 1], target, page);
    }
  }

  lemma AppliedLayoutOk(s: State, p: Purpose, page: nat)
    requires page < U64 && s.LayoutOk(page)
    ensures AppliedTo(s, p, page).LayoutOk(page)
  {
    var l := s.Get(p);
    AppliedKeepsOk(l.group, l.allocs, l.own, page);
    ProtectKeepsKeys(s.perms, l.group.pending, FinalPerm(p), page);
  }

  lemma StoppedLayoutOk(s: State, p: Purpose, k: nat, page: nat)
    requires s.LayoutOk(page) && k <= |s.Get(p).group.pending|
    ensures StoppedAt(s, p, k, page).LayoutOk(page)
  {
    ProtectKeepsKeys(s.perms, s.Get(p).group.pending[..k], FinalPerm(p), page);
  }

  lemma StoppedPart(s: State, p: Purpose, k: nat, page: nat) returns (part: Group)
    requires s.LayoutOk(page) && k <= |s.Get(p).group.pending|
    ensures PendingOk(part, s.Get(p).own, page) && part.pending == s.Get(p).group.pending[..k]
  {
    var l := s.Get(p);
    part := Group(l.group.pending[..k], l.group.free);
    assert PendingOk(l.group, l.own, page);
  }

  /** Protecting pages of group `p` does nothing to group `q`. */
  lemma OtherPermitted(s: State, p: Purpose, k: nat, q: Purpose, page: nat)
    requires s.LayoutOk(page) && p != q && k <= |s.Get(p).group.pending|
    requires s.Get(q).Permitted(s.perms, FinalPerm(q), page)
    ensures s.Get(q).Permitted(StoppedAt(s, p, k, page).perms, FinalPerm(q), page)
  {
    var part := StoppedPart(s, p, k, page);
    var m := s.Get(q);
    ProtectElsewhere(part, m.group, m.allocs, s.Get(p).own, m.own, s.perms, FinalPerm(p), FinalPerm(q), page);
  }

  lemma OtherHeld(s: State, p: Purpose, k: nat, q: Purpose, page: nat)
    requires s.LayoutOk(page) && p != q && k <= |s.Get(p).group.pending|
    requires s.Get(q).Held(s.perms, FinalPerm(q), page)
    ensures s.Get(q).Held(StoppedAt(s, p, k, page).perms, FinalPerm(q), page)
  {
    var part := StoppedPart(s, p, k, page);
    var m := s.Get(q);
    HeldElsewhere(part, m.group, m.allocs, s.Get(p).own, m.own, s.perms, FinalPerm(p), FinalPerm(q), page);
  }

  /** The other of the two groups that finalization protects. */
  function Other(p: Purpose): Purpose {
    if p == Code then ROData else Code
  }

  lemma StoppedHeld(s: State, p: Purpose, k: nat, page: nat)
    requires s.LayoutOk(page) && s.FinalHeld(page) && p != RWData && k <= |s.Get(p).group.pending|
    ensures StoppedAt(s, p, k, page).FinalHeld(page)
  {
    var l := s.Get(p);
    StoppedKeepsHeld(l.group, l.allocs, l.own, s.perms, FinalPerm(p), page, k);
    OtherHeld(s, p, k, Other(p), page);
    OtherPermitted(s, p, k, RWData, page);
  }

  /** A successful application makes its group's permissions right, whatever was refused
      before. */
  lemma AppliedPermitted(s: State, p: Purpose, page: nat)
    requires page < U64 && s.LayoutOk(page) && s.FinalHeld(page) && p != RWData
    ensures
      var t := AppliedTo(s, p, page);
      && t.FinalHeld(page) && t.Get(p).Permitted(t.perms, FinalPerm(p), page)
      && (s.Get(Other(p)).Permitted(s.perms, FinalPerm(Other(p)), page) ==> t.PermissionsOk(page))
  {
    var l := s.Get(p);
    assert l.group.pending[..|l.group.pending|] == l.group.pending;
    AppliedRestoresPerms(l.group, l.allocs, l.own, s.perms, FinalPerm(p), page);
    OtherHeld(s, p, |l.group.pending|, Other(p), page);
    OtherPermitted(s, p, |l.group.pending|, RWData, page);
    if s.Get(Other(p)).Permitted(s.perms, FinalPerm(Other(p)), page) {
      OtherPermitted(s, p, |l.group.pending|, Other(p), page);
    }
  }

  lemma StoppedSound(s: State, p: Purpose, k: nat, page: nat)
    requires s.LayoutOk(page) && s.FinalHeld(page) && p != RWData && k <= |s.Get(p).group.pending|
    ensures StoppedAt(s, p, k, page).LayoutOk(page) && StoppedAt(s, p, k, page).FinalHeld(page)
  {
    StoppedLayoutOk(s, p, k, page);
    StoppedHeld(s, p, k, page);
  }

  lemma AppliedSound(s: State, p: Purpose, page: nat)
    requires page < U64 && s.LayoutOk(page) && s.FinalHeld(page) && p != RWData
    ensures AppliedTo(s, p, page).LayoutOk(page) && AppliedTo(s, p, page).FinalHeld(page)
  {
    AppliedLayoutOk(s, p, page);
    AppliedPermitted(s, p, page);
  }

  /** The state after code and constants were both protected. */
  ghost function Finalized(s: State, page: nat): State
    requires 0 < page < U64 && s.LayoutOk(page)
  {
    AppliedLayoutOk(s, Code, page);
    AppliedTo(AppliedTo(s, Code, page), ROData, page)
  }

  /** A successful finalization makes all permissions right, whatever was refused before. */
  lemma FinalizedPermitted(s: State, page: nat)
    requires 0 < page < U64 && s.LayoutOk(page) && s.FinalHeld(page)
    ensures Finalized(s, page).FinalHeld(page) && Finalized(s, page).PermissionsOk(page)
  {
    AppliedPermitted(s, Code, page);
    AppliedLayoutOk(s, Code, page);
    AppliedPermitted(AppliedTo(s, Code, page), ROData, page);
  }

  /** After a successful finalization every allocation lies only on pages of its final
      permission: code on executable, constants on read-only, data on writable ones. */
  lemma FinalizedAllocations(s: State, p: Purpose, n: nat, page: nat)
    requires 0 < page < U64 && s.LayoutOk(page) && s.FinalHeld(page) && n < |s.Get(p).allocs|
    ensures
      var t := Finalized(s, page);
      && |t.Get(p).allocs| == |s.Get(p).allocs| && t.Get(p).allocs[n].block == s.Get(p).allocs[n].block
      && PagesAre(s.Get(p).allocs[n].block, t.perms, FinalPerm(p), page)
  {
    FinalizedPermitted(s, page);
    AppliedLayoutOk(s, Code, page);
    AppliedLayoutOk(AppliedTo(s, Code, page), ROData, page);
    AllocationsPermitted(Finalized(s, page), p, n, page);
  }

  /** After a failed application the permissions are right exactly if every block protected
      before the failure was empty. */
  lemma StoppedPermitted(s: State, p: Purpose, k: nat, page: nat)
    requires s.LayoutOk(page) && s.PermissionsOk(page) && p != RWData && k <= |s.Get(p).group.pending|
    ensures StoppedAt(s, p, k, page).PermissionsOk(page) <==>
            forall l :: 0 <= l < k ==> s.Get(p).group.pending[l].size == 0
  {
    var l := s.Get(p);
    StoppedExactly(l.group, l.allocs, s.perms, FinalPerm(p), page, k);
    forall q: Purpose | q != p ensures s.Get(q).Permitted(StoppedAt(s, p, k, page).perms, FinalPerm(q), page) {
      OtherPermitted(s, p, k, q, page);
    }
    assert s.Get(Code) == s.code && s.Get(ROData) == s.ro && s.Get(RWData) == s.rw;
  }

  /** What the permissions mean for what has been handed out: finalized code sits on
      executable pages, finalized constants on read-only pages, variable data on writable
      pages. What is not yet finalized is on pages that are writable or already final, and on
      writable ones only if the permissions are right. */
  lemma AllocationsPermitted(s: State, p: Purpose, n: nat, page: nat)
    requires s.LayoutOk(page) && s.FinalHeld(page) && n < |s.Get(p).allocs|
    ensures
      var a := s.Get(p).allocs[n];
      && (!a.Pending() || p == RWData ==> PagesAre(a.block, s.perms, FinalPerm(p), page))
      && (forall pg :: a.block.Touches(pg, page) ==> pg in s.perms && (s.perms[pg] == RW || s.perms[pg] == FinalPerm(p)))
      && (s.PermissionsOk(page) && a.Pending() ==> PagesAre(a.block, s.perms, RW, page))
  {
    var l := s.Get(p);
    var a := l.allocs[n];
    assert AllocOk(a, l.group, l.own, page);
    if a.Pending() {
      forall pg | a.block.Touches(pg, page) ensures l.group.pending[a.slot].Touches(pg, page) {
      }
    }
  }

  /** Allocations of all groups are aligned, inside reserved pages, and pairwise apart; one
      that is not finalized is in exactly one pending block. */
  lemma AllocationsApart(s: State, p: Purpose, n: nat, q: Purpose, m: nat, page: nat)
    requires s.LayoutOk(page) && n < |s.Get(p).allocs| && m < |s.Get(q).allocs| && (p != q || n != m)
    ensures Disjoint(s.Get(p).allocs[n].block, s.Get(q).allocs[m].block)
  {
    var l, k := s.Get(p), s.Get(q);
    assert AllocOk(l.allocs[n], l.group, l.own, page) && AllocOk(k.allocs[m], k.group, k.own, page);
    if p == q {
      assert if n < m then Disjoint(l.allocs[n].block, l.allocs[m].block) else Disjoint(l.allocs[m].block, l.allocs[n].block);
    } else {
      ApartByPages(l.allocs[n].block, k.allocs[m].block, l.own, k.own, page);
    }
  }

  lemma ApartByPages(a: Block, b: Block, own: set<nat>, other: set<nat>, page: nat)
    requires page > 0 && a.Within(own, page) && b.Within(other, page) && own !! other
    ensures Disjoint(a, b)
  {
    if !Disjoint(a, b) {
      var x := if a.base < b.base then b.base else a.base;
      var pg := FirstPage(Block(x, 1), page);
      assert a.Touches(pg, page) && b.Touches(pg, page);
    }
  }

  lemma PendingHoldsOnce(s: State, p: Purpose, n: nat, k: nat, page: nat)
    requires s.LayoutOk(page) && n < |s.Get(p).allocs| && k < |s.Get(p).group.pending|
    ensures
      var a := s.Get(p).allocs[n];
      var g := s.Get(p).group;
      && a.block.base % a.alignment == 0
      && (forall pg :: a.block.Touches(pg, page) ==> Reserved(s.reserved, pg, page))
      && (a.Pending() && a.block.size > 0 ==> (a.block.Inside(g.pending[k]) <==> k == a.slot))
      && (forall i :: 0 <= i < |g.free| ==> Disjoint(a.block, g.free[i].free))
  {
    var l := s.Get(p);
    var a := l.allocs[n];
    assert AllocOk(a, l.group, l.own, page);
    forall pg | a.block.Touches(pg, page) ensures Reserved(s.reserved, pg, page) {
      assert pg in l.own;
      assert pg in s.code.own + s.ro.own + s.rw.own;
    }
    if a.Pending() && k != a.slot {
      assert if k < a.slot then Disjoint(l.group.pending[k], l.group.pending[a.slot]) else Disjoint(l.group.pending[a.slot], l.group.pending[k]);
    }
  }

  // ----- reserving

  /** Size and alignment of one of the three sections to reserve for. */
  datatype Need = Need(size: nat, alignment: nat)
  {
    function Align(): nat {
      if alignment < 8 then 8 else alignment
    }

    /** The space required for the section, before rounding to pages. */
    function Required(): nat {
      AlignTo(size, Align()) + Align()
    }
  }

  /** The addresses of `count` pages from `base` on. */
  function PagesFrom(base: nat, count: nat, page: nat): set<nat> {
    if count == 0 then {} else PagesFrom(base, count - 1, page) + {base + (count - 1) * page}
  }

  lemma {:induction false} PagesFromTouched(base: nat, count: nat, page: nat)
    requires page > 0 && base % page == 0
    ensures forall pg :: pg in PagesFrom(base, count, page) <==> Block(base, count * page).Touches(pg, page)
  {
    if count > 0 {
      var n := count - 1;
      PagesFromTouched(base, n, page);
      MultipleOf(n, page);
      SumOfMultiples(base, n * page, page);
      var last := base + n * page;
      assert count * page == n * page + page;
      forall pg: nat ensures pg in PagesFrom(base, count, page) <==> Block(base, count * page).Touches(pg, page) {
        if pg % page == 0 {
          if pg < last {
            MultiplesApart(pg, last, page);
          } else if last < pg {
            MultiplesApart(last, pg, page);
          }
        }
      }
    } else {
      assert 0 * page == 0;
    }
  }

  function PagesOf(b: Block, page: nat): set<nat>
    requires page > 0
  {
    PagesFrom(b.base, b.size / page, page)
  }

  lemma PagesOfTouched(b: Block, page: nat)
    requires page > 0 && b.base % page == 0 && b.size % page == 0
    ensures forall pg :: pg in PagesOf(b, page) <==> b.Touches(pg, page)
  {
    PagesFromTouched(b.base, b.size / page, page);
    assert b.size / page * page == b.size;
  }

  /** A mapper returns whole, fresh pages, at least as many bytes as it was asked for. */
  ghost predicate Fresh(s: State, mapped: Block, size: nat, page: nat) {
    && page > 0 && mapped.base % page == 0 && mapped.size % page == 0 && mapped.size >= size && mapped.End() < U64
    && forall pg :: mapped.Touches(pg, page) ==> pg !in s.perms
  }

  function Map(perms: Perms, mapped: Block, page: nat): Perms
    requires page > 0
  {
    perms + map pg | pg in PagesOf(mapped, page) :: RW
  }

  /** A group with its free blocks dropped. */
  function Dropped(g: Group): Group {
    Group(g.pending, [])
  }

  /** A group with a new free block on fresh pages. */
  ghost function Grown(l: Layout, b: Block, page: nat): Layout
    requires page > 0
  {
    if b.size == 0 then Layout(Dropped(l.group), l.allocs, l.own)
    else Layout(Group(l.group.pending, [FreeBlock(b, SENTINEL)]), l.allocs, l.own + PagesOf(b, page))
  }

  lemma GrownOk(l: Layout, b: Block, page: nat)
    requires l.Ok(page) && b.base % page == 0 && b.size % page == 0 && b.End() < U64
    requires PagesOf(b, page) !! l.own
    ensures Grown(l, b, page).Ok(page)
  {
    PagesOfTouched(b, page);
    SumOfMultiples(b.base, b.size, page);
    var own := l.own + PagesOf(b, page);
    forall k | 0 <= k < |l.group.pending| ensures Disjoint(b, l.group.pending[k]) {
      ApartByPages(b, l.group.pending[k], PagesOf(b, page), l.own, page);
    }
    forall n | 0 <= n < |l.allocs| ensures AllocOk(l.allocs[n], Grown(l, b, page).group, Grown(l, b, page).own, page) {
      assert AllocOk(l.allocs[n], l.group, l.own, page);
      ApartByPages(b, l.allocs[n].block, PagesOf(b, page), l.own, page);
    }
  }

  lemma GrownPermitted(l: Layout, b: Block, perms: Perms, mapped: Block, final: Perm, page: nat)
    requires l.Ok(page) && l.Permitted(perms, final, page) && b.Inside(mapped)
    requires b.base % page == 0 && b.size % page == 0 && mapped.base % page == 0 && mapped.size % page == 0
    requires forall pg :: mapped.Touches(pg, page) ==> pg !in perms
    ensures Grown(l, b, page).Permitted(Map(perms, mapped, page), final, page)
  {
    var after := Map(perms, mapped, page);
    PagesOfTouched(mapped, page);
    forall pg | b.Touches(pg, page) ensures pg in after && after[pg] == RW {
      assert mapped.Touches(pg, page);
    }
    forall c: Block, q: Perm | PagesAre(c, perms, q, page) ensures PagesAre(c, after, q, page) {
    }
  }

  /** How a fresh region is divided: each section that needs memory gets whole pages. */
  function Share(need: Need, base: nat, page: nat): Block
    requires page > 0
  {
    Block(base, if need.size > 0 then AlignTo(need.Required(), page) else 0)
  }

  function TotalSize(code: Need, ro: Need, rw: Need, page: nat): nat
    requires page > 0
  {
    AlignTo(code.Required(), page) + AlignTo(ro.Required(), page) + AlignTo(rw.Required(), page)
  }

  ghost function Shares(mapped: Block, code: Need, ro: Need, rw: Need, page: nat): (Block, Block, Block)
    requires page > 0
  {
    var a := Share(code, mapped.base, page);
    var b := Share(ro, a.End(), page);
    (a, b, Share(rw, b.End(), page))
  }

  function AddFree(g: Group, b: Block): Group {
    Group(g.pending, g.free + [FreeBlock(b, SENTINEL)])
  }

  lemma SharedGroup(l: Layout, need: Need, base: nat, page: nat)
    requires page > 0
    ensures Grown(l, Share(need, base, page), page).group ==
            if need.size > 0 then AddFree(Dropped(l.group), Share(need, base, page)) else Dropped(l.group)
  {
  }

  /** The state after a fresh region has been divided among the groups. */
  ghost function ReservedIn(s: State, mapped: Block, code: Need, ro: Need, rw: Need, page: nat): State
    requires page > 0
  {
    var (a, b, c) := Shares(mapped, code, ro, rw, page);
    State(Grown(s.code, a, page), Grown(s.ro, b, page), Grown(s.rw, c, page),
          s.reserved + [mapped], Map(s.perms, mapped, page))
  }

  lemma SharesFit(mapped: Block, code: Need, ro: Need, rw: Need, page: nat)
    requires page > 0 && mapped.base % page == 0 && mapped.size >= TotalSize(code, ro, rw, page)
    ensures
      var (a, b, c) := Shares(mapped, code, ro, rw, page);
      && a.Inside(mapped) && b.Inside(mapped) && c.Inside(mapped)
      && a.base % page == 0 && b.base % page == 0 && c.base % page == 0
      && a.size % page == 0 && b.size % page == 0 && c.size % page == 0
      && a.End() <= b.base && b.End() <= c.base
  {
    var (a, b, c) := Shares(mapped, code, ro, rw, page);
    assert 0 % page == 0;
    SumOfMultiples(a.base, a.size, page);
    SumOfMultiples(b.base, b.size, page);
  }

  lemma SharesApart(a: Block, b: Block, page: nat)
    requires page > 0 && a.base % page == 0 && a.size % page == 0 && b.base % page == 0 && b.size % page == 0
    requires a.End() <= b.base
    ensures PagesOf(a, page) !! PagesOf(b, page)
  {
    PagesOfTouched(a, page);
    PagesOfTouched(b, page);
    forall pg | a.Touches(pg, page) && b.Touches(pg, page) ensures false {
      SumOfMultiples(a.base, a.size, page);
      MultiplesApart(pg, b.base, page);
    }
  }

  lemma PagesInside(a: Block, mapped: Block, page: nat)
    requires page > 0 && a.base % page == 0 && a.size % page == 0 && mapped.base % page == 0 && mapped.size % page == 0
    requires a.Inside(mapped)
    ensures PagesOf(a, page) <= PagesOf(mapped, page)
    ensures forall pg :: pg in PagesOf(mapped, page) ==> mapped.base <= pg && pg + page <= mapped.End()
  {
    PagesOfTouched(a, page);
    PagesOfTouched(mapped, page);
    SumOfMultiples(mapped.base, mapped.size, page);
    forall pg | pg in PagesOf(a, page) ensures pg in PagesOf(mapped, page) {
      assert mapped.Touches(pg, page);
    }
    forall pg | pg in PagesOf(mapped, page) ensures mapped.base <= pg && pg + page <= mapped.End() {
      if pg < mapped.base {
        MultiplesApart(pg, mapped.base, page);
      }
      MultiplesApart(pg, mapped.End(), page);
    }
  }

  lemma ReservedGrows(s: State, mapped: Block, pg: nat, page: nat)
    requires Reserved(s.reserved, pg, page) || (mapped.base <= pg && pg + page <= mapped.End())
    ensures Reserved(s.reserved + [mapped], pg, page)
  {
    var r := s.reserved + [mapped];
    if Reserved(s.reserved, pg, page) {
      var i :| 0 <= i < |s.reserved| && s.reserved[i].base <= pg && pg + page <= s.reserved[i].End();
      assert r[i] == s.reserved[i];
    } else {
      assert r[|s.reserved|] == mapped;
    }
  }

  lemma ReservedInOk(s: State, mapped: Block, code: Need, ro: Need, rw: Need, page: nat)
    requires s.LayoutOk(page) && Fresh(s, mapped, TotalSize(code, ro, rw, page), page)
    ensures ReservedIn(s, mapped, code, ro, rw, page).LayoutOk(page)
  {
    var (a, b, c) := Shares(mapped, code, ro, rw, page);
    var t := ReservedIn(s, mapped, code, ro, rw, page);
    SharesFit(mapped, code, ro, rw, page);
    SharesApart(a, b, page);
    SharesApart(a, c, page);
    SharesApart(b, c, page);
    PagesInside(a, mapped, page);
    PagesInside(b, mapped, page);
    PagesInside(c, mapped, page);
    PagesOfTouched(mapped, page);
    var all := s.code.own + s.ro.own + s.rw.own;
    assert PagesOf(mapped, page) !! all by {
      forall pg | pg in PagesOf(mapped, page) ensures pg !in all {
        assert pg !in s.perms;
      }
    }
    GrownOk(s.code, a, page);
    GrownOk(s.ro, b, page);
    GrownOk(s.rw, c, page);
    forall pg | pg in t.code.own + t.ro.own + t.rw.own ensures pg in t.perms && Reserved(t.reserved, pg, page) {
      assert pg in all || pg in PagesOf(mapped, page);
      ReservedGrows(s, mapped, pg, page);
    }
  }

  lemma GrownHeld(l: Layout, b: Block, perms: Perms, mapped: Block, final: Perm, page: nat)
    requires l.Ok(page) && l.Held(perms, final, page) && b.Inside(mapped)
    requires b.base % page == 0 && b.size % page == 0 && mapped.base % page == 0 && mapped.size % page == 0
    requires forall pg :: mapped.Touches(pg, page) ==> pg !in perms
    ensures Grown(l, b, page).Held(Map(perms, mapped, page), final, page)
  {
    var after := Map(perms, mapped, page);
    PagesOfTouched(mapped, page);
    PagesOfTouched(b, page);
    forall pg | b.Touches(pg, page) ensures pg in after && after[pg] == RW {
      assert mapped.Touches(pg, page);
    }
    forall pg | b.Fills(pg, page) ensures b.Touches(pg, page) {
    }
    forall c: Block, q: Perm | PagesAre(c, perms, q, page) ensures PagesAre(c, after, q, page) {
    }
  }

  lemma ReservedInHeld(s: State, mapped: Block, code: Need, ro: Need, rw: Need, page: nat)
    requires s.LayoutOk(page) && s.FinalHeld(page) && Fresh(s, mapped, TotalSize(code, ro, rw, page), page)
    ensures ReservedIn(s, mapped, code, ro, rw, page).FinalHeld(page)
  {
    var (a, b, c) := Shares(mapped, code, ro, rw, page);
    SharesFit(mapped, code, ro, rw, page);
    GrownHeld(s.code, a, s.perms, mapped, RX, page);
    GrownHeld(s.ro, b, s.perms, mapped, R, page);
    GrownPermitted(s.rw, c, s.perms, mapped, RW, page);
  }

  lemma ReservedInPermitted(s: State, mapped: Block, code: Need, ro: Need, rw: Need, page: nat)
    requires s.LayoutOk(page) && s.PermissionsOk(page) && Fresh(s, mapped, TotalSize(code, ro, rw, page), page)
    ensures ReservedIn(s, mapped, code, ro, rw, page).PermissionsOk(page)
  {
    var (a, b, c) := Shares(mapped, code, ro, rw, page);
    SharesFit(mapped, code, ro, rw, page);
    GrownPermitted(s.code, a, s.perms, mapped, RX, page);
    GrownPermitted(s.ro, b, s.perms, mapped, R, page);
    GrownPermitted(s.rw, c, s.perms, mapped, RW, page);
  }

  /** Every section that asked for memory has a free block that holds what it requires. */
  ghost predicate Provided(s: State, code: Need, ro: Need, rw: Need) {
    && (code.size > 0 ==> HasSpace(s.code.group, code.Required()))
    && (ro.size > 0 ==> HasSpace(s.ro.group, ro.Required()))
    && (rw.size > 0 ==> HasSpace(s.rw.group, rw.Required()))
  }

  predicate NothingAsked(code: Need, ro: Need, rw: Need) {
    code.size == 0 && ro.size == 0 && rw.size == 0
  }

  /** Every group, asked for or not, has a free block that holds what is required of it. */
  ghost predicate AllHaveRoom(s: State, code: Need, ro: Need, rw: Need) {
    && HasSpace(s.code.group, code.Required()) && HasSpace(s.ro.group, ro.Required())
    && HasSpace(s.rw.group, rw.Required())
  }

  lemma ReservedInProvides(s: State, mapped: Block, code: Need, ro: Need, rw: Need, page: nat)
    requires page > 0
    ensures Provided(ReservedIn(s, mapped, code, ro, rw, page), code, ro, rw)
  {
    var (a, b, c) := Shares(mapped, code, ro, rw, page);
    var t := ReservedIn(s, mapped, code, ro, rw, page);
    assert code.size > 0 ==> t.code.group.free[0].free == a;
    assert ro.size > 0 ==> t.ro.group.free[0].free == b;
    assert rw.size > 0 ==> t.rw.group.free[0].free == c;
  }

  /** The padded sizes of the requests to group `p`. */
  function PaddedFor(p: Purpose, requests: seq<Request>): nat {
    if requests == [] then 0
    else
      var last := requests[|requests| - 1];
      PaddedFor(p, requests[..|requests| - 1]) + if last.purpose == p then last.Padded() else 0
  }

  lemma PaddedNext(p: Purpose, requests: seq<Request>, i: nat)
    requires i < |requests|
    ensures PaddedFor(p, requests[..i+1]) ==
            PaddedFor(p, requests[..i]) + if requests[i].purpose == p then requests[i].Padded() else 0
  {
    assert requests[..i+1][..i] == requests[..i];
  }

  lemma {:induction false} PaddedAtMost(p: Purpose, requests: seq<Request>, i: nat)
    requires i <= |requests|
    ensures PaddedFor(p, requests[..i]) <= PaddedFor(p, requests)
    decreases |requests| - i
  {
    if i < |requests| {
      PaddedNext(p, requests, i);
      PaddedAtMost(p, requests, i + 1);
    } else {
      assert requests[..i] == requests;
    }
  }

  /** If `g` had `n` bytes at hand, `h` has all but `used` of them. */
  ghost predicate Keeps(g: Group, h: Group, n: int, used: nat) {
    HasSpace(g, n) ==> HasSpace(h, n - used)
  }

  lemma KeepsSame(g: Group, n: int, used: nat)
    ensures Keeps(g, g, n, used)
  {
    if HasSpace(g, n) {
      HasSpaceLess(g, n, n - used);
    }
  }

  /** What one request leaves of `n` bytes at hand in group `p`. */
  ghost predicate KeepsFor(s: State, t: State, r: Request, p: Purpose, n: int) {
    Keeps(s.Get(p).group, t.Get(p).group, n, if p == r.purpose then r.Padded() else 0)
  }

  ghost predicate OneServed(s: State, t: State, r: Request) {
    (forall p: Purpose, n: int :: KeepsFor(s, t, r, p, n)) && FewPending(s, t, 1)
  }

  /** No group has more than `n` pending blocks more. */
  ghost predicate FewPending(s: State, t: State, n: nat) {
    forall p: Purpose :: |t.Get(p).group.pending| <= |s.Get(p).group.pending| + n
  }

  lemma TakenServes(s: State, r: Request, i: nat)
    requires CanTake(s, r.purpose, i, r.size, Effective(r.alignment)) && LinksOk(s.Get(r.purpose).group)
    ensures OneServed(s, Taken(s, r.purpose, i, r.size, Effective(r.alignment)), r)
  {
    var t := Taken(s, r.purpose, i, r.size, Effective(r.alignment));
    forall p: Purpose, n: int ensures KeepsFor(s, t, r, p, n) {
      if p == r.purpose {
        TakenSpace(s, p, i, r.size, Effective(r.alignment), n);
      } else {
        KeepsSame(s.Get(p).group, n, 0);
      }
    }
    TakenSpace(s, r.purpose, i, r.size, Effective(r.alignment), 0);
  }

  lemma NothingServes(s: State, r: Request)
    ensures OneServed(s, s, r)
  {
    forall p: Purpose, n: int ensures KeepsFor(s, s, r, p, n) {
      KeepsSame(s.Get(p).group, n, if p == r.purpose then r.Padded() else 0);
    }
  }

  /** After the first `i` requests, what they took is all that is gone from what group `g`
      had at hand for the requests to `p`. */
  ghost predicate Served(g: Group, h: Group, p: Purpose, requests: seq<Request>, i: nat)
    requires i <= |requests|
  {
    HasSpace(g, PaddedFor(p, requests)) ==> HasSpace(h, PaddedFor(p, requests) - PaddedFor(p, requests[..i]))
  }

  lemma ServedNext(g: Group, u: Group, h: Group, p: Purpose, requests: seq<Request>, i: nat)
    requires i < |requests| && Served(g, u, p, requests, i)
    requires Keeps(u, h, PaddedFor(p, requests) - PaddedFor(p, requests[..i]),
                   if p == requests[i].purpose then requests[i].Padded() else 0)
    ensures Served(g, h, p, requests, i + 1)
  {
    PaddedNext(p, requests, i);
  }

  /** Are there indexes left for so many more pending blocks in every group? */
  ghost predicate IndexesLeft(s: State, n: nat) {
    forall p: Purpose :: |s.Get(p).group.pending| + n < SENTINEL
  }

  lemma IndexLeft(t: State, u: State, i: nat, n: nat, p: Purpose)
    requires IndexesLeft(t, n) && FewPending(t, u, i) && i <= n
    ensures |u.Get(p).group.pending| < SENTINEL
  {
    assert |u.Get(p).group.pending| <= |t.Get(p).group.pending| + i;
  }

  lemma FewerPending(t: State, u: State, v: State, r: Request, i: nat)
    requires FewPending(t, u, i) && OneServed(u, v, r)
    ensures FewPending(t, v, i + 1)
  {
    forall p: Purpose ensures |v.Get(p).group.pending| <= |t.Get(p).group.pending| + (i + 1) {
      assert |u.Get(p).group.pending| <= |t.Get(p).group.pending| + i;
    }
  }

  ghost predicate AllServed(t: State, u: State, requests: seq<Request>, i: nat)
    requires i <= |requests|
  {
    forall p: Purpose :: Served(t.Get(p).group, u.Get(p).group, p, requests, i)
  }

  lemma AllServedNext(t: State, u: State, v: State, requests: seq<Request>, i: nat)
    requires i < |requests| && AllServed(t, u, requests, i) && OneServed(u, v, requests[i])
    ensures AllServed(t, v, requests, i + 1)
  {
    forall p: Purpose ensures Served(t.Get(p).group, v.Get(p).group, p, requests, i + 1) {
      assert KeepsFor(u, v, requests[i], p, PaddedFor(p, requests) - PaddedFor(p, requests[..i]));
      ServedNext(t.Get(p).group, u.Get(p).group, v.Get(p).group, p, requests, i);
    }
  }

  /** Had the request's group, at first, a free block for all requests to the group? */
  ghost predicate Promised(t: State, requests: seq<Request>, k: nat)
    requires k < |requests|
  {
    HasSpace(t.Get(requests[k].purpose).group, PaddedFor(requests[k].purpose, requests))
  }

  lemma ServedMet(g: Group, u: Group, requests: seq<Request>, i: nat)
    requires i < |requests| && Served(g, u, requests[i].purpose, requests, i)
    ensures HasSpace(g, PaddedFor(requests[i].purpose, requests)) ==> HasSpace(u, requests[i].Padded())
  {
    var p := requests[i].purpose;
    PaddedNext(p, requests, i);
    PaddedAtMost(p, requests, i + 1);
    if HasSpace(g, PaddedFor(p, requests)) {
      HasSpaceLess(u, PaddedFor(p, requests) - PaddedFor(p, requests[..i]), requests[i].Padded());
    }
  }

  /** The first requests answered, and each met that was promised. */
  ghost predicate MetSoFar(t: State, u: State, requests: seq<Request>, addrs: seq<Option<nat>>)
    requires |addrs| <= |requests|
  {
    && FewPending(t, u, |addrs|) && AllServed(t, u, requests, |addrs|)
    && forall k :: 0 <= k < |addrs| && Promised(t, requests, k) ==> addrs[k].Some?
  }

  lemma MetNext(t: State, u: State, v: State, requests: seq<Request>, addrs: seq<Option<nat>>, addr: Option<nat>)
    requires |addrs| < |requests| && MetSoFar(t, u, requests, addrs)
    requires OneServed(u, v, requests[|addrs|])
    requires addr.Some? <==> HasSpace(u.Get(requests[|addrs|].purpose).group, requests[|addrs|].Padded())
    ensures MetSoFar(t, v, requests, addrs + [addr])
  {
    var i := |addrs|;
    AllServedNext(t, u, v, requests, i);
    FewerPending(t, u, v, requests[i], i);
    ServedMet(t.Get(requests[i].purpose).group, u.Get(requests[i].purpose).group, requests, i);
  }

  function NeedOf(p: Purpose, code: Need, ro: Need, rw: Need): Need {
    match p
    case Code => code
    case ROData => ro
    case RWData => rw
  }

  /** A reservation is enough: it provides for any requests to a group that reserved memory
      whose padded sizes sum to no more than the group's required size. */
  lemma ReservationIsEnough(s: State, code: Need, ro: Need, rw: Need, p: Purpose, requests: seq<Request>)
    requires Provided(s, code, ro, rw) && NeedOf(p, code, ro, rw).size > 0
    requires PaddedFor(p, requests) <= NeedOf(p, code, ro, rw).Required()
    ensures HasSpace(s.Get(p).group, PaddedFor(p, requests))
  {
    HasSpaceLess(s.Get(p).group, NeedOf(p, code, ro, rw).Required(), PaddedFor(p, requests));
  }

  lemma HasSpaceLess(g: Group, n: int, m: int)
    requires HasSpace(g, n) && m <= n
    ensures HasSpace(g, m)
  {
    var i :| 0 <= i < |g.free| && g.free[i].free.size >= n;
    assert g.free[i].free.size >= m;
  }

  lemma TakenSpace(s: State, p: Purpose, i: nat, size: nat, alignment: nat, n: int)
    requires CanTake(s, p, i, size, alignment) && LinksOk(s.Get(p).group)
    ensures HasSpace(s.Get(p).group, n) ==>
              HasSpace(Taken(s, p, i, size, alignment).Get(p).group, n - RequiredSize(size, alignment))
    ensures |Taken(s, p, i, size, alignment).Get(p).group.pending| <= |s.Get(p).group.pending| + 1
  {
    CarvePieces(s.Get(p).group, i, size, alignment);
    if HasSpace(s.Get(p).group, n) {
      CarveLeavesSpace(s.Get(p).group, i, size, alignment, n);
    }
  }

  class LlvmliteMemoryManager {
    const page: nat
    var codeMem: Group
    var roDataMem: Group
    var rwDataMem: Group
    var allocatedMem: seq<Block>
    var perms: Perms
    ghost var codeLog: Layout
    ghost var roLog: Layout
    ghost var rwLog: Layout

    ghost function View(): State
      reads this
    {
      State(codeLog.(group := codeMem), roLog.(group := roDataMem), rwLog.(group := rwDataMem), allocatedMem, perms)
    }

    /** What every sequence of calls keeps, refused finalizations included. */
    ghost predicate Sound()
      reads this
    {
      page < U64 && View().LayoutOk(page) && View().FinalHeld(page)
    }

    ghost predicate PermissionsOk()
      reads this
    {
      View().PermissionsOk(page)
    }

    constructor (page: nat)
      requires 0 < page < U64
      ensures this.page == page && Sound() && PermissionsOk()
      ensures View() == State(NoLayout(), NoLayout(), NoLayout(), [], map[])
    {
      this.page := page;
      codeMem, roDataMem, rwDataMem := Group([], []), Group([], []), Group([], []);
      allocatedMem, perms := [], map[];
      codeLog, roLog, rwLog := NoLayout(), NoLayout(), NoLayout();
    }

    function GroupOf(p: Purpose): Group
      reads this
    {
      match p
      case Code => codeMem
      case ROData => roDataMem
      case RWData => rwDataMem
    }

    method SetGroup(p: Purpose, g: Group, ghost allocs: seq<Alloc>)
      modifies this`codeMem, this`roDataMem, this`rwDataMem, this`codeLog, this`roLog, this`rwLog
      ensures View() == old(View()).Put(p, Layout(g, allocs, old(View()).Get(p).own))
    {
      match p
      case Code => codeMem, codeLog := g, codeLog.(allocs := allocs);
      case ROData => roDataMem, roLog := g, roLog.(allocs := allocs);
      case RWData => rwDataMem, rwLog := g, rwLog.(allocs := allocs);
    }

    /** Hands out `size` bytes for `p` from the first free block that is large enough, or
        nothing if there is none. */
    method AllocateSection(p: Purpose, size: nat, alignment: nat) returns (addr: Option<nat>)
      requires Sound() && Alignment(alignment) && size + 2 * Effective(alignment) <= U64
      requires |GroupOf(p).pending| < SENTINEL
      modifies this`codeMem, this`roDataMem, this`rwDataMem, this`codeLog, this`roLog, this`rwLog
      ensures Sound() && (old(PermissionsOk()) ==> PermissionsOk())
      ensures addr.Some? <==> HasSpace(old(GroupOf(p)), RequiredSize(size, Effective(alignment)))
      ensures addr.None? ==> View() == old(View())
      ensures addr.Some? ==> exists i :: TakenFirst(old(View()), View(), p, i, size, Effective(alignment), addr.value)
      ensures addr.Some? && old(PermissionsOk()) ==> PagesAre(Block(addr.value, size), perms, RW, page)
    {
      var al := Effective(alignment);
      RequiredSizeFits(size, al);
      var required := RequiredSizeWrapping(size, al);
      var g := GroupOf(p);
      var i := FirstFit(g, required);
      if i == |g.free| {
        return None;
      }
      ghost var s := View();
      TakenOk(s, p, i, size, al, page);
      if s.PermissionsOk(page) {
        TakenPermitted(s, p, i, size, al, page);
      }
      TakenHeld(s, p, i, size, al, page);
      var h, a := TakeFrom(g, i, size, al);
      SetGroup(p, h, s.Get(p).allocs + [Carved(g, i, size, al)]);
      assert TakenFirst(s, View(), p, i, size, al, a);
      return Some(a);
    }

    /** `hasSpace` */
    method CheckSpace(g: Group, size: nat) returns (found: bool)
      ensures found <==> HasSpace(g, size)
    {
      var i := FirstFit(g, size);
      found := i < |g.free|;
    }

    /** Makes room for the three sections, out of the free blocks at hand if each group has
        one that is large enough, and otherwise on fresh pages: `mapped` is what the
        operating system returns if it is asked. */
    method ReserveAllocationSpace(code: Need, ro: Need, rw: Need, mapped: Block)
      requires Sound() && TotalSize(code, ro, rw, page) < U64
      requires Fresh(View(), mapped, TotalSize(code, ro, rw, page), page)
      modifies this
      ensures Sound() && (old(PermissionsOk()) ==> PermissionsOk())
      ensures Provided(View(), code, ro, rw)
      ensures View() == if NothingAsked(code, ro, rw) || AllHaveRoom(old(View()), code, ro, rw) then old(View())
                        else ReservedIn(old(View()), mapped, code, ro, rw, page)
    {
      if code.size == 0 && ro.size == 0 && rw.size == 0 {
        return;
      }
      var codeRoom := CheckSpace(codeMem, code.Required());
      var roRoom := CheckSpace(roDataMem, ro.Required());
      var rwRoom := CheckSpace(rwDataMem, rw.Required());
      if codeRoom && roRoom && rwRoom {
        return;
      }
      ghost var s := View();
      ReservedInOk(s, mapped, code, ro, rw, page);
      ReservedInHeld(s, mapped, code, ro, rw, page);
      ReservedInProvides(s, mapped, code, ro, rw, page);
      if s.PermissionsOk(page) {
        ReservedInPermitted(s, mapped, code, ro, rw, page);
      }
      Reserve(code, ro, rw, mapped);
    }

    /** Drops what was free and divides a fresh region. */
    method Reserve(code: Need, ro: Need, rw: Need, mapped: Block)
      requires page > 0
      modifies this
      ensures View() == ReservedIn(old(View()), mapped, code, ro, rw, page)
    {
      ghost var s := View();
      ghost var (a, b, c) := Shares(mapped, code, ro, rw, page);
      SharedGroup(s.code, code, a.base, page);
      SharedGroup(s.ro, ro, b.base, page);
      SharedGroup(s.rw, rw, c.base, page);
      codeMem, roDataMem, rwDataMem := Dropped(codeMem), Dropped(roDataMem), Dropped(rwDataMem);
      perms := Map(perms, mapped, page);
      allocatedMem := allocatedMem + [mapped];
      var addr := mapped.base;
      if code.size > 0 {
        codeMem := AddFree(codeMem, Share(code, addr, page));
        addr := addr + AlignTo(code.Required(), page);
      }
      assert codeMem == Grown(s.code, a, page).group && addr == b.base;
      if ro.size > 0 {
        roDataMem := AddFree(roDataMem, Share(ro, addr, page));
        addr := addr + AlignTo(ro.Required(), page);
      }
      assert roDataMem == Grown(s.ro, b, page).group && addr == c.base;
      if rw.size > 0 {
        rwDataMem := AddFree(rwDataMem, Share(rw, addr, page));
      }
      assert rwDataMem == Grown(s.rw, c, page).group;
      codeLog, roLog, rwLog := Grown(s.code, a, page), Grown(s.ro, b, page), Grown(s.rw, c, page);
    }

    /** One request. Every amount at hand in some free block of any group stays at hand, less
        the padded size if the request was to that group. */
    method AllocateCounted(r: Request) returns (addr: Option<nat>)
      requires Sound() && r.Acceptable() && |GroupOf(r.purpose).pending| < SENTINEL
      modifies this`codeMem, this`roDataMem, this`rwDataMem, this`codeLog, this`roLog, this`rwLog
      ensures Sound() && (old(PermissionsOk()) ==> PermissionsOk())
      ensures addr.Some? <==> HasSpace(old(GroupOf(r.purpose)), r.Padded())
      ensures OneServed(old(View()), View(), r)
    {
      ghost var t := View();
      addr := AllocateSection(r.purpose, r.size, r.alignment);
      if addr.Some? {
        ghost var k :| TakenFirst(t, View(), r.purpose, k, r.size, Effective(r.alignment), addr.value);
        TakenServes(t, r, k);
      } else {
        NothingServes(t, r);
      }
    }

    /** Any sequence of requests, in any order of groups, with no finalization between. For
        each group, if a free block holds the sum of the padded sizes of the requests to the
        group, all those requests are met. */
    method AllocateAll(requests: seq<Request>) returns (addrs: seq<Option<nat>>)
      requires Sound() && forall i :: 0 <= i < |requests| ==> requests[i].Acceptable()
      requires IndexesLeft(View(), |requests|)
      modifies this`codeMem, this`roDataMem, this`rwDataMem, this`codeLog, this`roLog, this`rwLog
      ensures Sound() && (old(PermissionsOk()) ==> PermissionsOk())
      ensures |addrs| == |requests|
      ensures forall i :: 0 <= i < |addrs| && Promised(old(View()), requests, i) ==> addrs[i].Some?
    {
      addrs := [];
      ghost var t := View();
      for i := 0 to |requests|
        invariant Sound() && (old(PermissionsOk()) ==> PermissionsOk())
        invariant |addrs| == i && MetSoFar(t, View(), requests, addrs)
      {
        ghost var u := View();
        IndexLeft(t, u, i, |requests|, requests[i].purpose);
        var addr := AllocateCounted(requests[i]);
        MetNext(t, u, View(), requests, addrs, addr);
        addrs := addrs + [addr];
      }
    }

    /** Protects the pending blocks of a group in order, up to the first refusal. */
    method ProtectPending(p: Purpose, answers: nat -> bool, first: nat) returns (calls: nat)
      modifies this`perms
      ensures calls <= |old(GroupOf(p)).pending| && AllGood(answers, first, first + calls)
      ensures calls < |old(GroupOf(p)).pending| ==> !answers(first + calls)
      ensures View() == StoppedAt(old(View()), p, calls, page)
    {
      ghost var s := View();
      var g := GroupOf(p);
      calls := 0;
      while calls < |g.pending|
        invariant calls <= |g.pending| && View() == StoppedAt(s, p, calls, page)
        invariant AllGood(answers, first, first + calls)
      {
        if !answers(first + calls) {
          return;
        }
        perms := Protect(perms, g.pending[calls], FinalPerm(p), page);
        assert g.pending[..calls+1][..calls] == g.pending[..calls];
        calls := calls + 1;
      }
    }

    /** Protects the pending blocks of a group in order, then trims its free blocks.
        `answers(n)` is whether the n-th call to the operating system succeeds. */
    method ApplyMemoryGroupPermissions(p: Purpose, answers: nat -> bool, first: nat)
      returns (error: bool, calls: nat)
      requires Sound() && p != RWData
      modifies this`codeMem, this`roDataMem, this`rwDataMem, this`codeLog, this`roLog, this`rwLog, this`perms
      ensures Sound()
      ensures calls <= |old(GroupOf(p)).pending| && AllGood(answers, first, first + calls)
      ensures !error ==> calls == |old(GroupOf(p)).pending| && View() == AppliedTo(old(View()), p, page)
      ensures error ==> calls < |old(GroupOf(p)).pending| && !answers(first + calls) && View() == StoppedAt(old(View()), p, calls, page)
    {
      ghost var s := View();
      var g := GroupOf(p);
      calls := ProtectPending(p, answers, first);
      error := calls < |g.pending|;
      if error {
        StoppedSound(s, p, calls, page);
      } else {
        assert g.pending[..|g.pending|] == g.pending;
        AppliedSound(s, p, page);
        SetGroup(p, Applied(g, page), AllApplied(s.Get(p).allocs));
      }
    }

    /** The second half: makes constants read-only after the code was made executable. */
    method FinalizeData(answers: nat -> bool, calls: nat, ghost s: State) returns (error: bool)
      requires Sound() && s.LayoutOk(page) && s.FinalHeld(page) && View() == AppliedTo(s, Code, page)
      requires calls == |s.code.group.pending| && AllGood(answers, 0, calls)
      modifies this`codeMem, this`roDataMem, this`rwDataMem, this`codeLog, this`roLog, this`rwLog, this`perms
      ensures Sound()
      ensures !error ==> AllGood(answers, 0, |s.code.group.pending| + |s.ro.group.pending|)
      ensures !error ==> View() == Finalized(s, page)
      ensures error ==> Refused(s, View(), answers, page)
    {
      var more;
      error, more := ApplyMemoryGroupPermissions(ROData, answers, calls);
      DataFinalized(s, View(), error, calls, more, answers, page);
    }

    /** Makes code executable and constants read-only; true if the operating system refused.
        A success makes all permissions right, whatever was refused before. */
    method FinalizeMemory(answers: nat -> bool) returns (error: bool)
      requires Sound()
      modifies this`codeMem, this`roDataMem, this`rwDataMem, this`codeLog, this`roLog, this`rwLog, this`perms
      ensures Sound()
      ensures !error ==> AllGood(answers, 0, |old(View()).code.group.pending| + |old(View()).ro.group.pending|)
      ensures !error ==> View() == Finalized(old(View()), page)
      ensures !error ==> PermissionsOk()
      ensures error ==> Refused(old(View()), View(), answers, page)
    {
      ghost var s := View();
      FinalizedPermitted(s, page);
      var calls;
      error, calls := ApplyMemoryGroupPermissions(Code, answers, 0);
      if error {
        RefusedCode(s, calls, answers, page);
        return;
      }
      error := FinalizeData(answers, calls, s);
    }
  }

  ghost predicate AllGood(answers: nat -> bool, from: nat, to: nat) {
    forall n :: from <= n < to ==> answers(n)
  }

  /** What protecting the constants after the code has come to. */
  lemma DataFinalized(s: State, t: State, error: bool, calls: nat, more: nat, answers: nat -> bool, page: nat)
    requires 0 < page < U64 && s.LayoutOk(page) && s.FinalHeld(page)
    requires calls == |s.code.group.pending| && AllGood(answers, 0, calls) && AllGood(answers, calls, calls + more)
    requires !error ==> more == |s.ro.group.pending| && t == AppliedTo(AppliedTo(s, Code, page), ROData, page)
    requires error ==> more < |s.ro.group.pending| && !answers(calls + more)
    requires error ==> t == StoppedAt(AppliedTo(s, Code, page), ROData, more, page)
    ensures !error ==> AllGood(answers, 0, calls + |s.ro.group.pending|) && t == Finalized(s, page)
    ensures error ==> Refused(s, t, answers, page)
  {
    AllGoodThen(answers, calls, calls + more);
    if error {
      RefusedData(s, more, answers, page);
    }
  }

  lemma AllGoodThen(answers: nat -> bool, mid: nat, to: nat)
    requires AllGood(answers, 0, mid) && AllGood(answers, mid, to)
    ensures AllGood(answers, 0, to)
  {
  }

  /** The operating system refused at block `k` of group `p`, after granting all before. */
  ghost predicate RefusedAt(s: State, p: Purpose, k: nat, answers: nat -> bool) {
    && p != RWData && k < |s.Get(p).group.pending|
    && var n := if p == Code then k else |s.code.group.pending| + k;
    !answers(n) && AllGood(answers, 0, n)
  }

  /** The state after a refusal at block `k` of group `p`: nothing else has changed than the
      pages of the blocks before it, and the whole code group if constants were refused. */
  ghost function RefusedState(s: State, p: Purpose, k: nat, page: nat): State
    requires 0 < page < U64 && s.LayoutOk(page) && p != RWData && k <= |s.Get(p).group.pending|
  {
    if p == Code then StoppedAt(s, Code, k, page) else StoppedAt(AppliedTo(s, Code, page), ROData, k, page)
  }

  /** A failed finalization. If the permissions were right before, they are right now exactly
      if the blocks of the failing group that were protected before the refusal are empty. */
  ghost predicate Refused(s: State, t: State, answers: nat -> bool, page: nat)
    requires 0 < page < U64 && s.LayoutOk(page)
  {
    exists p, k: nat :: RefusedAt(s, p, k, answers) && t == RefusedState(s, p, k, page) &&
      (s.PermissionsOk(page) ==> (t.PermissionsOk(page) <==> EmptyBefore(s.Get(p).group, k)))
  }

  ghost predicate EmptyBefore(g: Group, k: nat)
    requires k <= |g.pending|
  {
    forall l :: 0 <= l < k ==> g.pending[l].size == 0
  }

  lemma RefusedCode(s: State, k: nat, answers: nat -> bool, page: nat)
    requires page < U64 && s.LayoutOk(page) && k < |s.code.group.pending| && !answers(k) && AllGood(answers, 0, k)
    ensures Refused(s, StoppedAt(s, Code, k, page), answers, page)
  {
    if s.PermissionsOk(page) {
      StoppedPermitted(s, Code, k, page);
    }
    assert RefusedAt(s, Code, k, answers);
  }

  lemma RefusedData(s: State, k: nat, answers: nat -> bool, page: nat)
    requires page < U64 && s.LayoutOk(page) && s.FinalHeld(page) && k < |s.ro.group.pending|
    requires !answers(|s.code.group.pending| + k) && AllGood(answers, 0, |s.code.group.pending| + k)
    ensures Refused(s, StoppedAt(AppliedTo(s, Code, page), ROData, k, page), answers, page)
  {
    AppliedLayoutOk(s, Code, page);
    if s.PermissionsOk(page) {
      AppliedPermitted(s, Code, page);
      StoppedPermitted(AppliedTo(s, Code, page), ROData, k, page);
    }
    assert RefusedAt(s, ROData, k, answers);
  }

  /** `t` is `s` after an allocation at `addr` out of `i`, the first block large enough. */
  ghost predicate TakenFirst(s: State, t: State, p: Purpose, i: nat, size: nat, alignment: nat, addr: nat) {
    && CanTake(s, p, i, size, alignment) && LinksOk(s.Get(p).group)
    && (forall k :: 0 <= k < i ==> s.Get(p).group.free[k].free.size < RequiredSize(size, alignment))
    && t == Taken(s, p, i, size, alignment) && addr == CarvedAddr(s.Get(p).group, i, alignment)
  }

  ghost function NoLayout(): Layout {
    Layout(Group([], []), [], {})
  }
}
