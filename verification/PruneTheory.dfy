/** What it means for a pruned function to be as good as the original, and the
    conditions on the control-flow graph under which erasing a pairing is. */
module PruneTheory {
  import opened RefIr
  import opened Balance

  function RaisingBlocks(f: Func): set<nat> {
    set b | 0 <= b < |f.blocks| && Raises(f.blocks[b])
  }

  /** Every complete run through no block of `avoid` changes the count of every object by
      as much in `g` as in `f`, whatever the pointers denote. */
  ghost predicate SameNet(f: Func, g: Func, avoid: set<nat>) {
    && f.succs == g.succs && |f.blocks| == |g.blocks|
    && forall path: seq<nat>, w: World, o: nat :: f.Complete(path) && Avoids(path, avoid) ==>
         Count(TraceOf(f, path), w, o) == Count(TraceOf(g, path), w, o)
  }

  /** Every run, stopped at the end of any block, has changed the count of every object by
      as much in `g` as in `f`. */
  ghost predicate SameCounts(f: Func, g: Func) {
    && f.succs == g.succs && |f.blocks| == |g.blocks|
    && forall path: seq<nat>, w: World, o: nat :: f.Run(path) ==>
         Count(TraceOf(f, path), w, o) == Count(TraceOf(g, path), w, o)
  }

  ghost predicate SameShape(f: Func, g: Func) {
    f.succs == g.succs && |f.blocks| == |g.blocks|
  }

  lemma SameRuns(f: Func, g: Func, path: seq<nat>)
    requires SameShape(f, g)
    ensures f.Path(path) == g.Path(path) && f.Run(path) == g.Run(path)
  {
    forall k | 0 < k < |path| ensures f.Step(path, k) == g.Step(path, k) {
    }
  }

  lemma SameDominators(f: Func, g: Func, a: nat, b: nat)
    requires SameShape(f, g)
    ensures f.Dominates(a, b) == g.Dominates(a, b)
  {
    forall path ensures f.Run(path) == g.Run(path) {
      SameRuns(f, g, path);
    }
  }

  lemma SamePostDominators(f: Func, g: Func, b: nat, a: nat)
    requires SameShape(f, g) && f.Wf() && g.Wf()
    ensures f.PostDominates(b, a) == g.PostDominates(b, a)
  {
    forall path ensures f.Path(path) == g.Path(path) {
      SameRuns(f, g, path);
    }
  }

  // ----- erasing keeps the function well formed

  lemma {:induction false} EraseOrder(code: Code, ids: set<nat>, i: nat, j: nat) returns (k: nat, l: nat)
    requires i < j < |EraseCode(code, ids)|
    ensures k < l < |code|
    ensures code[k] == EraseCode(code, ids)[i] && code[l] == EraseCode(code, ids)[j]
  {
    var n := |code| - 1;
    var rest := EraseCode(code[..n], ids);
    if j < |rest| {
      k, l := EraseOrder(code[..n], ids, i, j);
    } else {
      EraseMembers(code[..n], ids);
      assert rest[i] in code[..n];
      k :| 0 <= k < n && code[k] == rest[i];
      l := n;
    }
  }

  lemma EraseKeepsWf(f: Func, ids: set<nat>)
    requires f.Wf()
    ensures Erase(f, ids).Wf()
  {
    var g := Erase(f, ids);
    forall b, i, c, j |
      && 0 <= b < |g.blocks| && 0 <= i < |g.blocks[b]|
      && 0 <= c < |g.blocks| && 0 <= j < |g.blocks[c]|
      ensures !g.Clash(b, i, c, j)
    {
      EraseMembers(f.blocks[b], ids);
      EraseMembers(f.blocks[c], ids);
      assert g.blocks[b][i] in f.blocks[b] && g.blocks[c][j] in f.blocks[c];
      if b == c && i != j {
        var k, l := EraseOrder(f.blocks[b], ids, if i < j then i else j, if i < j then j else i);
        assert !f.Clash(b, k, b, l);
      } else {
        var k :| 0 <= k < |f.blocks[b]| && f.blocks[b][k] == g.blocks[b][i];
        var l :| 0 <= l < |f.blocks[c]| && f.blocks[c][l] == g.blocks[c][j];
        assert !f.Clash(b, k, c, l);
      }
    }
  }

  lemma EraseKeepsSsa(f: Func, ids: set<nat>)
    requires f.Wf() && f.Ssa()
    ensures Erase(f, ids).Ssa()
  {
    var g := Erase(f, ids);
    forall b, i, d, j |
      && 0 <= b < |g.blocks| && 0 <= i < |g.blocks[b]|
      && 0 <= d < |g.blocks| && 0 <= j < |g.blocks[d]|
      ensures g.DefFirst(b, i, d, j)
    {
      EraseMembers(f.blocks[b], ids);
      EraseMembers(f.blocks[d], ids);
      assert g.blocks[b][i] in f.blocks[b] && g.blocks[d][j] in f.blocks[d];
      SameDominators(f, g, d, b);
      if d == b && i < j {
        var k, l := EraseOrder(f.blocks[b], ids, i, j);
        assert f.DefFirst(b, k, b, l);
      } else {
        var k :| 0 <= k < |f.blocks[b]| && f.blocks[b][k] == g.blocks[b][i];
        var l :| 0 <= l < |f.blocks[d]| && f.blocks[d][l] == g.blocks[d][j];
        assert f.DefFirst(b, k, d, l);
      }
    }
  }

  // ----- erasing a pairing

  lemma OnlyRefopsErased(f: Func, m: Pairing, path: seq<nat>)
    requires f.Wf() && m.In(f)
    requires forall k :: 0 <= k < |path| ==> path[k] < |f.blocks|
    ensures OnlyRefops(TraceOf(f, path), m.Ids())
  {
    if path != [] {
      var n := |path| - 1;
      OnlyRefopsErased(f, m, path[..n]);
      var code := f.blocks[path[n]];
      forall i | 0 <= i < |code| && code[i].id in m.Ids() ensures code[i].op.IsRefop() {
        OneInBlock(f, m, path[n], i);
      }
    }
  }

  /** At the end of every block of every run, the pruned count of every object is the
      original one, or the original less one while the pair is open. */
  lemma PrunedCount(f: Func, m: Pairing, avoid: set<nat>, path: seq<nat>, w: World, o: nat)
    requires Ready(f, m, avoid)
    requires f.Run(path) && Avoids(path, avoid)
    ensures Count(TraceOf(Erase(f, m.Ids()), path), w, o) ==
            Count(TraceOf(f, path), w, o)
            - if Open(path, m.head, m.tails.Keys) && o != NIL && Denotes(TraceOf(f, path), w, m.ptr) == o then 1 else 0
  {
    OnlyRefopsErased(f, m, path);
    TraceOfErase(f, path, m.Ids());
    CountKeep(TraceOf(f, path), m.Ids(), w, o);
    ErasedContribution(f, m, avoid, path, w, o);
  }

  ghost predicate ClosedAtExits(f: Func, head: nat, tails: set<nat>, avoid: set<nat>)
    requires f.Wf()
  {
    forall path :: f.Run(path) && Avoids(path, avoid) && path != [] && f.Exit(path[|path| - 1])
      ==> !Open(path, head, tails)
  }

  lemma EraseKeepsNet(f: Func, m: Pairing, avoid: set<nat>)
    requires Ready(f, m, avoid)
    requires ClosedAtExits(f, m.head, m.tails.Keys, avoid)
    ensures SameNet(f, Erase(f, m.Ids()), avoid)
  {
    forall path: seq<nat>, w: World, o: nat | f.Complete(path) && Avoids(path, avoid)
      ensures Count(TraceOf(f, path), w, o) == Count(TraceOf(Erase(f, m.Ids()), path), w, o)
    {
      PrunedCount(f, m, avoid, path, w, o);
    }
  }

  lemma SameCountsNet(f: Func, g: Func)
    requires SameCounts(f, g)
    ensures SameNet(f, g, {})
  {
  }

  lemma SameCountsTransitive(f: Func, g: Func, h: Func)
    requires SameCounts(f, g) && SameCounts(g, h)
    ensures SameCounts(f, h)
  {
    forall path: seq<nat>, w: World, o: nat | f.Run(path)
      ensures Count(TraceOf(f, path), w, o) == Count(TraceOf(h, path), w, o)
    {
      SameRuns(f, g, path);
    }
  }

  lemma SameNetTransitive(f: Func, g: Func, h: Func, avoid: set<nat>)
    requires SameNet(f, g, avoid) && SameNet(g, h, avoid)
    requires f.Wf() && g.Wf()
    ensures SameNet(f, h, avoid)
  {
    forall path: seq<nat>, w: World, o: nat | f.Complete(path) && Avoids(path, avoid)
      ensures Count(TraceOf(f, path), w, o) == Count(TraceOf(h, path), w, o)
    {
      SameRuns(f, g, path);
      assert g.Complete(path);
    }
  }

  lemma SameNetLess(f: Func, g: Func, avoid: set<nat>, more: set<nat>)
    requires SameNet(f, g, avoid) && avoid <= more
    ensures SameNet(f, g, more)
  {
    forall path: seq<nat>, w: World, o: nat | f.Complete(path) && Avoids(path, more)
      ensures Count(TraceOf(f, path), w, o) == Count(TraceOf(g, path), w, o)
    {
      assert Avoids(path, avoid);
    }
  }
}
