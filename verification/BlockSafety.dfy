/** Normalising and then pruning block by block takes no object away from an instruction
    that used it while it was alive, however the pointers alias. */
module BlockSafety {
  import opened RefIr
  import opened Balance
  import opened PruneTheory
  import opened RefNormalize
  import opened BlockTheory
  import opened BlockPrune
  import opened PassTheory

  /** How often `code`, run as block number `k`, binds a value to the new-born object `o`. */
  function Born(code: Code, k: nat, w: World, o: nat): nat {
    if code == [] then 0
    else
      var x := code[|code| - 1];
      Born(code[..|code| - 1], k, w, o) + if o != NIL && x.op.Alloc? && w.pick(k, x.id) == o then 1 else 0
  }

  lemma EventsNext(t: Trace, k: nat, code: Code)
    requires code != []
    ensures t + Events(k, code) == t + Events(k, code[..|code| - 1]) + [Event(k, code[|code| - 1])]
  {
  }

  /** Without decrefs a count can only rise, by every birth at least. */
  lemma {:induction false} NoDecrefRises(t: Trace, k: nat, code: Code, w: World, o: nat)
    requires forall x :: x in code ==> !x.op.Decref?
    ensures Count(t + Events(k, code), w, o) >= Count(t, w, o) + Born(code, k, w, o)
  {
    if code == [] {
      assert t + Events(k, code) == t;
    } else {
      var n := |code| - 1;
      NoDecrefRises(t, k, code[..n], w, o);
      EventsNext(t, k, code);
      CountSnoc(t + Events(k, code[..n]), Event(k, code[n]), w, o);
      assert code[n] in code;
    }
  }

  lemma {:induction false} BornSkips(code: Code, ids: set<nat>, k: nat, w: World, o: nat)
    requires forall i :: 0 <= i < |code| && code[i].id in ids ==> code[i].op.IsRefop()
    ensures Born(EraseCode(code, ids), k, w, o) == Born(code, k, w, o)
  {
    if code != [] {
      var n := |code| - 1;
      BornSkips(code[..n], ids, k, w, o);
      var rest := EraseCode(code[..n], ids);
      assert (rest + [code[n]])[..|rest|] == rest && rest + [] == rest;
    }
  }

  lemma {:induction false} BornPicks(code: Code, k: nat, w: World, o: nat)
    ensures Born(Others(code), k, w, o) == Born(code, k, w, o)
  {
    if code != [] {
      var n := |code| - 1;
      BornPicks(code[..n], k, w, o);
      var rest := Others(code[..n]);
      assert (rest + [code[n]])[..|rest|] == rest && rest + [] == rest;
    }
  }

  /** What was kept before a kept instruction is what is kept of what was before it. */
  lemma {:induction false} ErasePrefix(code: Code, ids: set<nat>, j: nat) returns (i: nat)
    requires j < |code| && code[j].id !in ids
    ensures i < |EraseCode(code, ids)| && EraseCode(code, ids)[i] == code[j]
    ensures EraseCode(code, ids)[..i] == EraseCode(code[..j], ids)
  {
    var n := |code| - 1;
    if j == n {
      i := |EraseCode(code[..n], ids)|;
    } else {
      i := ErasePrefix(code[..n], ids, j);
      assert code[..n][..j] == code[..j];
    }
  }

  lemma {:induction false} PickPrefix(code: Code, j: nat) returns (i: nat)
    requires j < |code| && !code[j].op.Decref?
    ensures i < |Others(code)| && Others(code)[i] == code[j]
    ensures Others(code)[..i] == Others(code[..j])
  {
    var n := |code| - 1;
    if j == n {
      i := |Others(code[..n])|;
    } else {
      i := PickPrefix(code[..n], j);
      assert code[..n][..j] == code[..j];
    }
  }

  /** `h` is what per-block pruning made of the normalised `f`. */
  ghost predicate BlockPruned(f: Func, h: Func, ids: set<nat>) {
    && f.Wf() && f.Ssa()
    && PassResult(Normalized(f), h, ids, {}, true) && SameCounts(Normalized(f), h)
    && AllPruned(Normalized(f), h)
  }

  /** Where an instruction that is not a decref ends up in a block with an incref, and that
      nothing before it there is a decref. */
  lemma PlaceAfterIncrefs(f: Func, h: Func, ids: set<nat>, b: nat, j: nat, k: nat, w: World, o: nat) returns (i: nat)
    requires BlockPruned(f, h, ids) && b < |f.blocks| && HasIncref(f.blocks[b])
    requires j < |f.blocks[b]| && !f.blocks[b][j].op.IsRefop()
    ensures i < |h.blocks[b]| && h.blocks[b][i] == f.blocks[b][j]
    ensures forall x :: x in h.blocks[b][..i] ==> !x.op.Decref?
    ensures Born(h.blocks[b][..i], k, w, o) == Born(f.blocks[b][..j], k, w, o)
  {
    var code := f.blocks[b];
    var n := Normalized(f);
    var normal := NormalCode(code);
    NormalizedKeepsWf(f);
    var m := PickPrefix(code, j);
    assert normal[m] == code[j] && normal[..m] == Others(code)[..m];
    assert n.blocks[b] == normal;
    if normal[m].id in ids {
      RefopIdsOnly(n, ids, b, m);
    }
    i := ErasePrefix(normal, ids, m);
    PickMembers(code[..j], false);
    EraseMembers(normal[..m], ids);
    forall l | 0 <= l < |normal[..m]| && normal[..m][l].id in ids ensures normal[..m][l].op.IsRefop() {
      RefopIdsOnly(n, ids, b, l);
    }
    BornSkips(normal[..m], ids, k, w, o);
    BornPicks(code[..j], k, w, o);
  }

  lemma NullsErased(f: Func, h: Func, ids: set<nat>, b: nat, l: nat)
    requires BlockPruned(f, h, ids) && b < |f.blocks| && !HasIncref(f.blocks[b])
    requires l < |f.blocks[b]| && f.blocks[b][l].id in ids
    ensures OnNull(f.blocks[b][l])
  {
    var code := f.blocks[b];
    var n := Normalized(f);
    var x := code[l];
    assert n.blocks[b] == code;
    NormalizedKeepsWf(f);
    RefopIdsOnly(n, ids, b, l);
    if !OnNull(x) {
      var p := x.op.p;
      assert Cancelled(code, h.blocks[b], Val(p.name));
      CountOpZero(code, Incref(p));
      BlockDistinctIds(n, b);
      CountOpLess(code, ids, l, x.op);
      assert false;
    }
  }

  lemma {:induction false} CountOpLess(code: Code, ids: set<nat>, l: nat, op: Op)
    requires l < |code| && code[l].op == op && code[l].id in ids
    ensures CountOp(EraseCode(code, ids), op) < CountOp(code, op)
  {
    var n := |code| - 1;
    var rest := EraseCode(code[..n], ids);
    assert (rest + [code[n]])[..|rest|] == rest && rest + [] == rest;
    if l < n {
      CountOpLess(code[..n], ids, l, op);
    } else {
      CountOpAtMost(code[..n], ids, op);
    }
  }

  lemma {:induction false} CountOpAtMost(code: Code, ids: set<nat>, op: Op)
    ensures CountOp(EraseCode(code, ids), op) <= CountOp(code, op)
  {
    if code != [] {
      var n := |code| - 1;
      CountOpAtMost(code[..n], ids, op);
      var rest := EraseCode(code[..n], ids);
      if code[n].id in ids {
        assert EraseCode(code, ids) == rest;
      } else {
        assert EraseCode(code, ids)[..|rest|] == rest;
      }
    }
  }

  /** In a block without increfs only operations on null go, so every count stays. */
  lemma PlaceWithoutIncrefs(f: Func, h: Func, ids: set<nat>, b: nat, j: nat, s: Trace, t: Trace, k: nat, w: World)
    returns (i: nat)
    requires BlockPruned(f, h, ids) && b < |f.blocks| && !HasIncref(f.blocks[b])
    requires j < |f.blocks[b]| && !f.blocks[b][j].op.IsRefop() && Agree(s, t, w)
    ensures i < |h.blocks[b]| && h.blocks[b][i] == f.blocks[b][j]
    ensures Agree(s + Events(k, f.blocks[b][..j]), t + Events(k, h.blocks[b][..i]), w)
  {
    var code := f.blocks[b];
    assert Normalized(f).blocks[b] == code;
    if code[j].id in ids {
      NullsErased(f, h, ids, b, j);
    }
    i := ErasePrefix(code, ids, j);
    forall l | 0 <= l < j && code[l].id in ids ensures OnNull(code[l]) {
      NullsErased(f, h, ids, b, l);
    }
    NullsAgree(code[..j], ids, s, t, k, w);
  }

  lemma {:induction false} NullsAgree(code: Code, ids: set<nat>, s: Trace, t: Trace, k: nat, w: World)
    requires forall l :: 0 <= l < |code| && code[l].id in ids ==> OnNull(code[l])
    requires Agree(s, t, w)
    ensures Agree(s + Events(k, code), t + Events(k, EraseCode(code, ids)), w)
  {
    if code == [] {
      assert s + Events(k, code) == s && t + Events(k, EraseCode(code, ids)) == t;
    } else {
      var n := |code| - 1;
      NullsAgree(code[..n], ids, s, t, k, w);
      EventsNext(s, k, code);
      var u, v, e := s + Events(k, code[..n]), t + Events(k, EraseCode(code[..n], ids)), Event(k, code[n]);
      if code[n].id in ids {
        assert EraseCode(code, ids) == EraseCode(code[..n], ids);
        NullAgrees(u, v, e, w);
      } else {
        AgreeSnoc(u, v, e, w);
        EventsConcat(k, EraseCode(code[..n], ids), [code[n]]);
        assert t + Events(k, EraseCode(code, ids)) == v + [e];
      }
    }
  }

  lemma NullAgrees(s: Trace, t: Trace, e: Event, w: World)
    requires OnNull(e.ins) && Agree(s, t, w)
    ensures Agree(s + [e], t, w)
  {
    assert (s + [e])[..|s|] == s;
    forall o ensures Count(s + [e], w, o) == Count(t, w, o) {
      CountSnoc(s, e, w, o);
    }
  }

  /** Pruned blocks and the original give every object the same count at block ends, and
      every value the same object. */
  lemma {:induction false} PrunedAgrees(f: Func, h: Func, ids: set<nat>, path: seq<nat>, w: World)
    requires BlockPruned(f, h, ids) && f.Run(path)
    ensures Agree(TraceOf(f, path), TraceOf(h, path), w)
  {
    var n := Normalized(f);
    NormalizedAgrees(f, path, w);
    SameRuns(f, n, path);
    NormalizedKeepsWf(f);
    forall b, i | 0 <= b < |n.blocks| && 0 <= i < |n.blocks[b]| && n.blocks[b][i].id in ids
      ensures n.blocks[b][i].op.IsRefop()
    {
      RefopIdsOnly(n, ids, b, i);
    }
    ErasesOnlyRefops(n, ids, path);
    TraceOfErase(n, path, ids);
    forall v ensures ValueAfter(TraceOf(h, path), w, v) == ValueAfter(TraceOf(n, path), w, v) {
      ValueAfterKeep(TraceOf(n, path), ids, w, v);
    }
  }

  /** At every instruction that is no reference operation, the pruned count of an object is
      at least the original count there, or at least what it was on entry to the block plus
      the references born since. So an object alive there, and alive on entry or born in the
      block, is alive there still. */
  lemma UseStaysLive(f: Func, h: Func, ids: set<nat>, path: seq<nat>, b: nat, j: nat, w: World, o: nat) returns (i: nat)
    requires BlockPruned(f, h, ids) && f.Run(path + [b]) && b < |f.blocks|
    requires j < |f.blocks[b]| && !f.blocks[b][j].op.IsRefop()
    ensures f.Run(path) && i < |h.blocks[b]| && h.blocks[b][i] == f.blocks[b][j]
    ensures
      var k := |path|;
      var before := Count(TraceOf(f, path) + Events(k, f.blocks[b][..j]), w, o);
      var after := Count(TraceOf(h, path) + Events(k, h.blocks[b][..i]), w, o);
      var entry := Count(TraceOf(f, path), w, o);
      after >= before || after >= entry + Born(f.blocks[b][..j], k, w, o)
  {
    assert (path + [b])[..|path|] == path;
    RunRest(f, path + [b], |path|, {});
    var k := |path|;
    PrunedAgrees(f, h, ids, path, w);
    assert Count(TraceOf(f, path), w, o) == Count(TraceOf(h, path), w, o);
    if HasIncref(f.blocks[b]) {
      i := PlaceAfterIncrefs(f, h, ids, b, j, k, w, o);
      NoDecrefRises(TraceOf(h, path), k, h.blocks[b][..i], w, o);
    } else {
      i := PlaceWithoutIncrefs(f, h, ids, b, j, TraceOf(f, path), TraceOf(h, path), k, w);
      assert Count(TraceOf(f, path) + Events(k, f.blocks[b][..j]), w, o) == Count(TraceOf(h, path) + Events(k, h.blocks[b][..i]), w, o);
    }
  }
}
