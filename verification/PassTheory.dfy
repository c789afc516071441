/** What one pass, or several in a row, may do to a function. */
module PassTheory {
  import opened RefIr
  import opened Balance
  import opened PruneTheory
  import opened BlockTheory
  import opened BlockPrune

  ghost predicate IsRefopOf(f: Func, id: nat) {
    exists b :: 0 <= b < |f.blocks| && IsRefopId(f.blocks[b], id)
  }

  /** `g` is `f` without the reference operations `ids`; if `sound`, every complete run
      through no block of `avoid` gives every object the same net count. */
  ghost predicate PassResult(f: Func, g: Func, ids: set<nat>, avoid: set<nat>, sound: bool) {
    && g == Erase(f, ids) && g.Wf() && g.Ssa()
    && (forall x :: x in ids ==> IsRefopOf(f, x))
    && (sound ==> SameNet(f, g, avoid))
  }

  lemma PassNothing(f: Func, avoid: set<nat>, sound: bool)
    requires f.Wf() && f.Ssa()
    ensures PassResult(f, f, {}, avoid, sound)
  {
    EraseAllNone(f);
  }

  lemma RefopBefore(f: Func, ids: set<nat>, id: nat)
    requires IsRefopOf(Erase(f, ids), id)
    ensures IsRefopOf(f, id)
  {
    var g := Erase(f, ids);
    var b :| 0 <= b < |g.blocks| && IsRefopId(g.blocks[b], id);
    var i :| 0 <= i < |g.blocks[b]| && g.blocks[b][i].id == id && g.blocks[b][i].op.IsRefop();
    EraseMembers(f.blocks[b], ids);
    assert g.blocks[b][i] in f.blocks[b];
    assert IsRefopId(f.blocks[b], id);
  }

  lemma PassThen(f: Func, g: Func, h: Func, ids: set<nat>, more: set<nat>, avoid: set<nat>, sound: bool)
    requires f.Wf() && PassResult(f, g, ids, avoid, sound) && PassResult(g, h, more, avoid, sound)
    ensures PassResult(f, h, ids + more, avoid, sound)
  {
    EraseAllTwice(f, ids, more);
    forall x | x in more ensures IsRefopOf(f, x) {
      RefopBefore(f, ids, x);
    }
    if sound {
      SameNetTransitive(f, g, h, avoid);
    }
  }

  /** A pass that erased anything left fewer reference operations. */
  lemma PassShrinks(f: Func, g: Func, ids: set<nat>, avoid: set<nat>, sound: bool)
    requires PassResult(f, g, ids, avoid, sound)
    ensures RefopTotal(g.blocks) <= RefopTotal(f.blocks)
    ensures ids != {} ==> RefopTotal(g.blocks) < RefopTotal(f.blocks)
  {
    EraseTotalNoMore(f.blocks, ids);
    if ids != {} {
      var x :| x in ids;
      var b :| 0 <= b < |f.blocks| && IsRefopId(f.blocks[b], x);
      var i :| 0 <= i < |f.blocks[b]| && f.blocks[b][i].id == x && f.blocks[b][i].op.IsRefop();
      EraseTotal(f.blocks, ids, b, i);
    }
  }

  lemma RefopIdsOnly(f: Func, ids: set<nat>, b: nat, i: nat)
    requires f.Wf() && (forall x :: x in ids ==> IsRefopOf(f, x))
    requires b < |f.blocks| && i < |f.blocks[b]| && f.blocks[b][i].id in ids
    ensures f.blocks[b][i].op.IsRefop()
  {
    var c :| 0 <= c < |f.blocks| && IsRefopId(f.blocks[c], f.blocks[b][i].id);
    var j :| 0 <= j < |f.blocks[c]| && f.blocks[c][j].id == f.blocks[b][i].id && f.blocks[c][j].op.IsRefop();
    assert !f.Clash(b, i, c, j);
  }

  /** Passes leave the raising blocks raising. */
  lemma PassKeepsRaising(f: Func, g: Func, ids: set<nat>, avoid: set<nat>, sound: bool)
    requires f.Wf() && PassResult(f, g, ids, avoid, sound)
    ensures RaisingBlocks(g) == RaisingBlocks(f)
  {
    forall b | 0 <= b < |f.blocks| ensures Raises(g.blocks[b]) == Raises(f.blocks[b]) {
      EraseMembers(f.blocks[b], ids);
      if i :| 0 <= i < |f.blocks[b]| && f.blocks[b][i].op.StoreExc? {
        if f.blocks[b][i].id in ids {
          RefopIdsOnly(f, ids, b, i);
        }
        assert f.blocks[b][i] in g.blocks[b];
      }
      if i :| 0 <= i < |g.blocks[b]| && g.blocks[b][i].op.StoreExc? {
        assert g.blocks[b][i] in f.blocks[b];
      }
    }
  }

  // ----- lists of reference operations

  /** An instruction and the block it stands in: what a call pointer names. */
  datatype Site = Site(block: nat, ins: Instr)

  ghost predicate At(f: Func, s: Site) {
    s.block < |f.blocks| && s.ins in f.blocks[s.block]
  }

  ghost predicate DistinctSites(sites: seq<Site>) {
    forall i, j :: 0 <= i < j < |sites| ==> sites[i].ins.id != sites[j].ins.id
  }

  lemma SiteSurvives(f: Func, ids: set<nat>, s: Site)
    requires At(f, s) && s.ins.id !in ids
    ensures At(Erase(f, ids), s)
  {
    EraseMembers(f.blocks[s.block], ids);
  }

  lemma SitesUnique(f: Func, s: Site, t: Site)
    requires f.Wf() && At(f, s) && At(f, t) && s.ins.id == t.ins.id
    ensures s == t
  {
    var i :| 0 <= i < |f.blocks[s.block]| && f.blocks[s.block][i] == s.ins;
    var j :| 0 <= j < |f.blocks[t.block]| && f.blocks[t.block][j] == t.ins;
    assert !f.Clash(s.block, i, t.block, j);
  }

  predicate IsKind(s: Site, decrefs: bool) {
    if decrefs then s.ins.op.Decref? else s.ins.op.Incref?
  }

  /** The increfs, or the decrefs, of some code of block `b`, in order. */
  function BlockRefops(code: Code, b: nat, decrefs: bool): seq<Site> {
    if code == [] then []
    else
      var s := Site(b, code[|code| - 1]);
      BlockRefops(code[..|code| - 1], b, decrefs) + if IsKind(s, decrefs) then [s] else []
  }

  /** Those of the first `n` blocks, block by block. */
  function Refops(f: Func, decrefs: bool, n: nat): seq<Site>
    requires n <= |f.blocks|
  {
    if n == 0 then [] else Refops(f, decrefs, n - 1) + BlockRefops(f.blocks[n-1], n - 1, decrefs)
  }

  lemma {:induction false} BlockRefopsAre(code: Code, b: nat, decrefs: bool)
    ensures forall s :: s in BlockRefops(code, b, decrefs) <==> s.block == b && s.ins in code && IsKind(s, decrefs)
  {
    if code != [] {
      var n := |code| - 1;
      BlockRefopsAre(code[..n], b, decrefs);
      assert code == code[..n] + [code[n]];
    }
  }

  lemma {:induction false} RefopsAre(f: Func, decrefs: bool, n: nat)
    requires n <= |f.blocks|
    ensures forall s :: s in Refops(f, decrefs, n) <==> s.block < n && At(f, s) && IsKind(s, decrefs)
  {
    if n > 0 {
      RefopsAre(f, decrefs, n - 1);
      BlockRefopsAre(f.blocks[n-1], n - 1, decrefs);
    }
  }

  /** `listRefOps`: all increfs, or all decrefs, of the function. */
  method ListRefops(f: Func, decrefs: bool) returns (sites: seq<Site>)
    requires f.Wf()
    ensures sites == Refops(f, decrefs, |f.blocks|)
    ensures DistinctSites(sites)
    ensures forall s :: s in sites <==> At(f, s) && IsKind(s, decrefs)
  {
    sites := [];
    for b := 0 to |f.blocks|
      invariant DistinctSites(sites) && sites == Refops(f, decrefs, b)
      invariant forall s :: s in sites <==> At(f, s) && IsKind(s, decrefs) && s.block < b
    {
      sites := ListBlock(f, b, decrefs, sites);
    }
  }

  ghost predicate Listed(f: Func, b: nat, n: nat, s: Site)
    requires b < |f.blocks| && n <= |f.blocks[b]|
  {
    At(f, s) && (s.block < b || (s.block == b && s.ins in f.blocks[b][..n]))
  }

  method ListBlock(f: Func, b: nat, decrefs: bool, before: seq<Site>) returns (sites: seq<Site>)
    requires f.Wf() && b < |f.blocks| && DistinctSites(before)
    requires forall s :: s in before <==> At(f, s) && IsKind(s, decrefs) && s.block < b
    ensures DistinctSites(sites) && sites == before + BlockRefops(f.blocks[b], b, decrefs)
    ensures forall s :: s in sites <==> At(f, s) && IsKind(s, decrefs) && s.block < b + 1
  {
    var code := f.blocks[b];
    sites := before;
    for i := 0 to |code|
      invariant DistinctSites(sites) && sites == before + BlockRefops(code[..i], b, decrefs)
      invariant forall s :: s in sites <==> IsKind(s, decrefs) && Listed(f, b, i, s)
    {
      assert code[..i+1] == code[..i] + [code[i]];
      assert code[..i+1][..i] == code[..i];
      var site := Site(b, code[i]);
      if IsKind(site, decrefs) {
        forall s | s in sites ensures s.ins.id != code[i].id {
          if s.ins.id == code[i].id {
            SitesUnique(f, s, site);
            var k :| 0 <= k < i && code[k] == code[i];
            assert f.Clash(b, k, b, i);
            assert false;
          }
        }
        sites := sites + [site];
      }
    }
    assert code[..|code|] == code;
  }
}
