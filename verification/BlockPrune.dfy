/** Pruning within one block. */
module BlockPrune {
  import opened Options
  import opened RefIr
  import opened Balance
  import opened PruneTheory
  import opened RefNormalize
  import opened BlockTheory

  lemma EraseAllTwice(f: Func, ids: set<nat>, more: set<nat>)
    ensures Erase(Erase(f, ids), more) == Erase(f, ids + more)
  {
    forall b | 0 <= b < |f.blocks|
      ensures EraseCode(EraseCode(f.blocks[b], ids), more) == EraseCode(f.blocks[b], ids + more)
    {
      EraseTwice(f.blocks[b], ids, more);
    }
    assert Erase(Erase(f, ids), more).blocks == Erase(f, ids + more).blocks;
  }

  lemma EraseAllNone(f: Func)
    ensures Erase(f, {}) == f
  {
    forall b | 0 <= b < |f.blocks| ensures EraseCode(f.blocks[b], {}) == f.blocks[b] {
      EraseNone(f.blocks[b], {});
    }
    assert Erase(f, {}).blocks == f.blocks;
  }

  /** `eraseFromParent`: takes the instruction at address `id` out of its block. */
  method EraseFromParent(F: IrFunction, id: nat)
    modifies F
    ensures F.View() == Erase(old(F.View()), {id})
  {
    F.blocks := EraseAll(F.blocks, {id});
  }

  // ----- the three lists of the scanning phase

  predicate OnNull(x: Instr) {
    x.op.IsRefop() && x.op.p == Null
  }

  predicate IncrefOnValue(x: Instr) {
    x.op.Incref? && x.op.p.Val?
  }

  predicate DecrefOnValue(x: Instr) {
    x.op.Decref? && x.op.p.Val?
  }

  function Where(code: Code, test: Instr -> bool): Code {
    if code == [] then []
    else Where(code[..|code| - 1], test) + if test(code[|code| - 1]) then [code[|code| - 1]] else []
  }

  lemma {:induction false} WhereMembers(code: Code, test: Instr -> bool)
    ensures forall x :: x in Where(code, test) <==> x in code && test(x)
  {
    if code != [] {
      var n := |code| - 1;
      WhereMembers(code[..n], test);
      assert code == code[..n] + [code[n]];
    }
  }

  lemma {:induction false} WhereDistinct(code: Code, test: Instr -> bool)
    requires DistinctIds(code)
    ensures DistinctIds(Where(code, test))
  {
    if code != [] {
      var n := |code| - 1;
      WhereDistinct(code[..n], test);
      WhereMembers(code[..n], test);
      forall x | x in Where(code[..n], test) ensures x.id != code[n].id {
        assert x in code[..n];
        var k :| 0 <= k < n && code[k] == x;
      }
    }
  }

  method Scan(code: Code) returns (increfs: Code, decrefs: Code, nulls: Code)
    ensures increfs == Where(code, IncrefOnValue)
    ensures decrefs == Where(code, DecrefOnValue)
    ensures nulls == Where(code, OnNull)
  {
    increfs, decrefs, nulls := [], [], [];
    for i := 0 to |code|
      invariant increfs == Where(code[..i], IncrefOnValue)
      invariant decrefs == Where(code[..i], DecrefOnValue)
      invariant nulls == Where(code[..i], OnNull)
    {
      assert code[..i+1][..i] == code[..i];
      var ii := code[i];
      if ii.op.IsRefop() {
        if ii.op.p == Null {
          nulls := nulls + [ii];
        } else if ii.op.Incref? {
          increfs := increfs + [ii];
        } else {
          decrefs := decrefs + [ii];
        }
      }
    }
    assert code[..|code|] == code;
  }

  // ----- matching increfs with decrefs

  /** What the lists say about the block while pairs are being erased: `increfs` are still
      to be matched, `decrefs` holds the decrefs that are left. */
  ghost predicate Matching(code: Code, increfs: Code, decrefs: seq<Option<Instr>>) {
    && DistinctIds(code) && DistinctIds(increfs)
    && (forall x :: x in code ==> !OnNull(x))
    && (forall x :: x in code && x.op.Decref? ==> Some(x) in decrefs)
    && (forall k :: 0 <= k < |decrefs| && decrefs[k].Some? ==> decrefs[k].value in code && decrefs[k].value.op.Decref?)
    && (forall k, l :: 0 <= k < l < |decrefs| && decrefs[k].Some? && decrefs[l].Some? ==>
          decrefs[k].value.id != decrefs[l].value.id)
    && (forall x :: x in increfs ==> x in code && x.op.Incref?)
    && (forall x :: x in code && x.op.Incref? ==> x in increfs || Unmatched(code, x.op.p))
  }

  ghost predicate Unmatched(code: Code, p: Ptr) {
    forall x :: x in code ==> x.op != Decref(p)
  }

  lemma DistinctMembers(code: Code, x: Instr, y: Instr)
    requires DistinctIds(code) && x in code && y in code && x.id == y.id
    ensures x == y
  {
    var i :| 0 <= i < |code| && code[i] == x;
    var j :| 0 <= j < |code| && code[j] == y;
  }

  lemma EraseDistinct(code: Code, ids: set<nat>)
    requires DistinctIds(code)
    ensures DistinctIds(EraseCode(code, ids))
  {
    var r := EraseCode(code, ids);
    forall i, j | 0 <= i < |r| && 0 <= j < |r| && r[i].id == r[j].id ensures i == j {
      if i != j {
        var k, l := EraseOrder(code, ids, if i < j then i else j, if i < j then j else i);
      }
    }
  }

  /** A pair was found and erased. */
  lemma MatchingErase(code: Code, increfs: Code, decrefs: seq<Option<Instr>>, k: nat)
    requires Matching(code, increfs, decrefs) && increfs != [] && k < |decrefs| && decrefs[k].Some?
    requires decrefs[k].value.op.p == increfs[|increfs| - 1].op.p
    ensures Matching(EraseCode(code, {increfs[|increfs| - 1].id, decrefs[k].value.id}), increfs[..|increfs| - 1], decrefs[k := None])
  {
    var n := |increfs| - 1;
    var inc, dec := increfs[n], decrefs[k].value;
    var ids := {inc.id, dec.id};
    var r := EraseCode(code, ids);
    var ds := decrefs[k := None];
    EraseDistinct(code, ids);
    EraseMembers(code, ids);
    assert increfs == increfs[..n] + [inc];
    forall x | x in r && x.op.Decref? ensures Some(x) in ds {
      var l :| 0 <= l < |decrefs| && decrefs[l] == Some(x);
      assert ds[l] == Some(x);
    }
    forall l | 0 <= l < |ds| && ds[l].Some? ensures ds[l].value in r && ds[l].value.op.Decref? {
      assert decrefs[l] == ds[l];
    }
    forall x | x in increfs[..n] ensures x in r && x.op.Incref? {
      var l :| 0 <= l < n && increfs[l] == x;
      if x.id == dec.id {
        DistinctMembers(code, x, dec);
      }
    }
  }

  /** No decref is left for the last incref. */
  lemma MatchingSkip(code: Code, increfs: Code, decrefs: seq<Option<Instr>>)
    requires Matching(code, increfs, decrefs) && increfs != []
    requires forall k :: 0 <= k < |decrefs| && decrefs[k].Some? ==>
               decrefs[k].value.op.p != increfs[|increfs| - 1].op.p
    ensures Matching(code, increfs[..|increfs| - 1], decrefs)
  {
    var n := |increfs| - 1;
    assert increfs == increfs[..n] + [increfs[n]];
    forall x | x in code ensures x.op != Decref(increfs[n].op.p) {
      if x.op.Decref? {
        assert Some(x) in decrefs;
        var k :| 0 <= k < |decrefs| && decrefs[k] == Some(x);
      }
    }
    assert Unmatched(code, increfs[n].op.p);
  }

  /** What pruning makes of a block: no operation on null is left, and for each value the
      increfs and decrefs cancel until one kind is gone. */
  ghost predicate Pruned(code: Code, r: Code) {
    && (forall x :: x in r ==> x in code && !OnNull(x))
    && (forall x :: x in code && !x.op.IsRefop() ==> x in r)
    && forall v :: Cancelled(code, r, Val(v))
  }

  /** Every block of `g` is what pruning made of the one of `f`. */
  ghost predicate AllPruned(f: Func, g: Func) {
    |f.blocks| == |g.blocks| && forall b :: 0 <= b < |f.blocks| ==> Pruned(f.blocks[b], g.blocks[b])
  }

  /** Pruning what is pruned: still a pruning of the first block. */
  lemma PrunedThen(code: Code, r: Code, r': Code)
    requires Pruned(code, r) && Pruned(r, r')
    ensures Pruned(code, r')
  {
    forall v ensures Cancelled(code, r', Val(v)) {
      assert Cancelled(code, r, Val(v)) && Cancelled(r, r', Val(v));
    }
  }

  lemma AllPrunedThen(f: Func, g: Func, h: Func)
    requires AllPruned(f, g) && AllPruned(g, h)
    ensures AllPruned(f, h)
  {
    forall b | 0 <= b < |f.blocks| ensures Pruned(f.blocks[b], h.blocks[b]) {
      PrunedThen(f.blocks[b], g.blocks[b], h.blocks[b]);
    }
  }

  function Min(a: nat, b: nat): nat {
    if a < b then a else b
  }

  ghost predicate Cancelled(code: Code, r: Code, p: Ptr) {
    var pairs := Min(CountOp(code, Incref(p)), CountOp(code, Decref(p)));
    && CountOp(r, Incref(p)) == CountOp(code, Incref(p)) - pairs
    && CountOp(r, Decref(p)) == CountOp(code, Decref(p)) - pairs
  }

  /** As many increfs as decrefs of each value have gone so far. */
  ghost predicate Balanced(code: Code, r: Code) {
    forall v :: BalancedFor(code, r, v)
  }

  ghost predicate BalancedFor(code: Code, r: Code, v: nat) {
    CountOp(code, Incref(Val(v))) - CountOp(r, Incref(Val(v))) == CountOp(code, Decref(Val(v))) - CountOp(r, Decref(Val(v)))
  }

  lemma CancelledWhenUnmatched(code: Code, r: Code, decrefs: seq<Option<Instr>>)
    requires Balanced(code, r) && Matching(r, [], decrefs)
    ensures forall v :: Cancelled(code, r, Val(v))
  {
    forall v ensures Cancelled(code, r, Val(v)) {
      var p := Val(v);
      CountOpZero(r, Incref(p));
      CountOpZero(r, Decref(p));
      if x :| x in r && x.op == Incref(p) {
        assert Unmatched(r, p);
      }
      assert BalancedFor(code, r, v);
    }
  }

  lemma BalancedErase(code: Code, r: Code, i: nat, j: nat)
    requires Balanced(code, r) && DistinctIds(r)
    requires i < |r| && j < |r| && r[i].op.Incref? && r[j].op == Decref(r[i].op.p)
    ensures Balanced(code, EraseCode(r, {r[i].id, r[j].id}))
  {
    var one := EraseCode(r, {r[i].id});
    EraseTwice(r, {r[i].id}, {r[j].id});
    assert {r[i].id} + {r[j].id} == {r[i].id, r[j].id};
    EraseDistinct(r, {r[i].id});
    EraseMembers(r, {r[i].id});
    assert r[j] in one;
    var k :| 0 <= k < |one| && one[k] == r[j];
    forall v ensures BalancedFor(code, EraseCode(one, {one[k].id}), v) {
      assert BalancedFor(code, r, v);
      BalancedEraseFor(code, r, i, one, k, v);
    }
  }

  lemma BalancedEraseFor(code: Code, r: Code, i: nat, one: Code, k: nat, v: nat)
    requires DistinctIds(r) && i < |r| && r[i].op.Incref? && one == EraseCode(r, {r[i].id})
    requires DistinctIds(one) && k < |one| && one[k].op == Decref(r[i].op.p)
    requires BalancedFor(code, r, v)
    ensures BalancedFor(code, EraseCode(one, {one[k].id}), v)
  {
    CountOpErase(r, i, Incref(Val(v)));
    CountOpErase(r, i, Decref(Val(v)));
    CountOpErase(one, k, Incref(Val(v)));
    CountOpErase(one, k, Decref(Val(v)));
  }

  // ----- the pass

  /** The function after erasing `ids`, all of them reference operations of block `b`,
      which keeps every count. */
  ghost predicate Progress(f: Func, g: Func, b: nat, ids: set<nat>) {
    && g == Erase(f, ids) && g.Wf() && g.Ssa() && SameCounts(f, g) && b < |f.blocks|
    && forall x :: x in ids ==> IsRefopId(f.blocks[b], x)
  }

  ghost predicate IsRefopId(code: Code, id: nat) {
    exists i :: 0 <= i < |code| && code[i].id == id && code[i].op.IsRefop()
  }

  lemma ProgressStart(f: Func, b: nat)
    requires f.Wf() && f.Ssa() && b < |f.blocks|
    ensures Progress(f, f, b, {})
  {
    EraseAllNone(f);
  }

  lemma ProgressMore(f: Func, g: Func, b: nat, ids: set<nat>, more: set<nat>)
    requires f.Wf() && Progress(f, g, b, ids) && SameCounts(g, Erase(g, more))
    requires forall x :: x in more ==> IsRefopId(g.blocks[b], x)
    ensures Progress(f, Erase(g, more), b, ids + more)
  {
    EraseAllTwice(f, ids, more);
    EraseKeepsWf(g, more);
    EraseKeepsSsa(g, more);
    SameCountsTransitive(f, g, Erase(g, more));
    EraseMembers(f.blocks[b], ids);
    forall x | x in more ensures IsRefopId(f.blocks[b], x) {
      var i :| 0 <= i < |g.blocks[b]| && g.blocks[b][i].id == x && g.blocks[b][i].op.IsRefop();
      assert g.blocks[b][i] in f.blocks[b];
    }
  }

  lemma NullIdsOnlyNull(f: Func, b: nat)
    requires f.Wf() && b < |f.blocks|
    ensures OnlyNull(f, IdsOf(Where(f.blocks[b], OnNull)))
    ensures forall x :: x in IdsOf(Where(f.blocks[b], OnNull)) ==> IsRefopId(f.blocks[b], x)
  {
    var ids := IdsOf(Where(f.blocks[b], OnNull));
    WhereMembers(f.blocks[b], OnNull);
    forall x | x in ids ensures exists j :: 0 <= j < |f.blocks[b]| && f.blocks[b][j].id == x && OnNull(f.blocks[b][j]) {
      var k :| 0 <= k < |Where(f.blocks[b], OnNull)| && Where(f.blocks[b], OnNull)[k].id == x;
      assert Where(f.blocks[b], OnNull)[k] in f.blocks[b];
    }
    forall c, i | 0 <= c < |f.blocks| && 0 <= i < |f.blocks[c]| && f.blocks[c][i].id in ids
      ensures f.blocks[c][i].op.IsRefop() && f.blocks[c][i].op.p == Null
    {
      var j :| 0 <= j < |f.blocks[b]| && f.blocks[b][j].id == f.blocks[c][i].id && OnNull(f.blocks[b][j]);
      assert !f.Clash(c, i, b, j);
    }
  }

  lemma BalancedAfterNulls(code: Code, ids: set<nat>)
    requires forall i :: 0 <= i < |code| && code[i].id in ids ==> OnNull(code[i])
    ensures Balanced(code, EraseCode(code, ids))
  {
    forall v ensures
        CountOp(EraseCode(code, ids), Incref(Val(v))) == CountOp(code, Incref(Val(v))) &&
        CountOp(EraseCode(code, ids), Decref(Val(v))) == CountOp(code, Decref(Val(v)))
    {
      NullsNotCounted(code, ids, Incref(Val(v)));
      NullsNotCounted(code, ids, Decref(Val(v)));
    }
  }

  lemma {:induction false} NullsNotCounted(code: Code, ids: set<nat>, op: Op)
    requires forall i :: 0 <= i < |code| && code[i].id in ids ==> OnNull(code[i])
    requires op.IsRefop() && op.p.Val?
    ensures CountOp(EraseCode(code, ids), op) == CountOp(code, op)
  {
    if code != [] {
      var n := |code| - 1;
      NullsNotCounted(code[..n], ids, op);
      assert code == code[..n] + [code[n]];
      NotCountedSnoc(code[..n], code[n], ids, op);
    }
  }

  lemma NotCountedSnoc(code: Code, x: Instr, ids: set<nat>, op: Op)
    requires (x.id in ids ==> x.op != op) && CountOp(EraseCode(code, ids), op) == CountOp(code, op)
    ensures CountOp(EraseCode(code + [x], ids), op) == CountOp(code + [x], op)
  {
    var rest := EraseCode(code, ids);
    assert (code + [x])[..|code|] == code;
    assert EraseCode(code + [x], ids) == if x.id in ids then rest else rest + [x];
    CountOpSnoc(rest, x, op);
    CountOpSnoc(code, x, op);
  }

  /** Removes the refops on null from block `b`. */
  method DropNulls(F: IrFunction, b: nat, nulls: Code)
    requires F.View().Wf() && F.View().Ssa() && b < |F.blocks| && nulls == Where(F.blocks[b], OnNull)
    modifies F
    ensures Progress(old(F.View()), F.View(), b, IdsOf(nulls))
  {
    ghost var f := F.View();
    EraseAllNone(f);
    assert IdsOf(nulls[..0]) == {};
    for i := 0 to |nulls|
      invariant F.View() == Erase(f, IdsOf(nulls[..i]))
    {
      EraseAllTwice(f, IdsOf(nulls[..i]), {nulls[i].id});
      IdsOfNext(nulls, i);
      EraseFromParent(F, nulls[i].id);
    }
    assert nulls[..|nulls|] == nulls;
    NullIdsOnlyNull(f, b);
    EraseNullKeepsCounts(f, IdsOf(nulls));
    ProgressStart(f, b);
    ProgressMore(f, f, b, {}, IdsOf(nulls));
    assert {} + IdsOf(nulls) == IdsOf(nulls);
  }

  /** After the refops on null are gone, the lists fit the block. */
  lemma MatchingStart(f: Func, b: nat)
    requires f.Wf() && b < |f.blocks|
    ensures
      var code := f.blocks[b];
      var r := EraseCode(code, IdsOf(Where(code, OnNull)));
      Matching(r, Where(code, IncrefOnValue), Slots(Where(code, DecrefOnValue)))
  {
    var code := f.blocks[b];
    var ids := IdsOf(Where(code, OnNull));
    var r := EraseCode(code, ids);
    var incs, decs := Where(code, IncrefOnValue), Where(code, DecrefOnValue);
    BlockDistinctIds(f, b);
    EraseDistinct(code, ids);
    EraseMembers(code, ids);
    WhereMembers(code, OnNull);
    WhereMembers(code, IncrefOnValue);
    WhereMembers(code, DecrefOnValue);
    WhereDistinct(code, IncrefOnValue);
    WhereDistinct(code, DecrefOnValue);
    forall x | x in code ensures x in r <==> !OnNull(x) {
      NullIdsInBlock(f, b, x);
    }
    forall x | x in r && x.op.Decref? ensures Some(x) in Slots(decs) {
      assert x in decs;
      var k :| 0 <= k < |decs| && decs[k] == x;
      assert Slots(decs)[k] == Some(x);
    }
    assert forall k :: 0 <= k < |decs| ==> decs[k] in decs;
  }

  function Slots(code: Code): (r: seq<Option<Instr>>)
    ensures |r| == |code| && forall k :: 0 <= k < |r| ==> r[k] == Some(code[k])
  {
    seq(|code|, k requires 0 <= k < |code| => Some(code[k]))
  }

  lemma NullIdsInBlock(f: Func, b: nat, x: Instr)
    requires f.Wf() && b < |f.blocks| && x in f.blocks[b]
    ensures x.id in IdsOf(Where(f.blocks[b], OnNull)) <==> OnNull(x)
  {
    var code := f.blocks[b];
    var nulls := Where(code, OnNull);
    WhereMembers(code, OnNull);
    BlockDistinctIds(f, b);
    if x.id in IdsOf(nulls) {
      var k :| 0 <= k < |nulls| && nulls[k].id == x.id;
      assert nulls[k] in code;
      DistinctMembers(code, x, nulls[k]);
    }
    if OnNull(x) {
      assert x in nulls;
      var k :| 0 <= k < |nulls| && nulls[k] == x;
    }
  }

  /** Looks for a decref that is left for `incref`: its place in the list. */
  method FindDecref(incref: Instr, decrefs: seq<Option<Instr>>) returns (k: nat)
    requires incref.op.Incref?
    requires forall l :: 0 <= l < |decrefs| && decrefs[l].Some? ==> decrefs[l].value.op.Decref?
    ensures k <= |decrefs|
    ensures k < |decrefs| ==> decrefs[k].Some? && decrefs[k].value.op.p == incref.op.p
    ensures forall l :: 0 <= l < k && decrefs[l].Some? ==> decrefs[l].value.op.p != incref.op.p
  {
    k := 0;
    while k < |decrefs|
      invariant k <= |decrefs|
      invariant forall l :: 0 <= l < k && decrefs[l].Some? ==> decrefs[l].value.op.p != incref.op.p
    {
      if decrefs[k].Some? && decrefs[k].value.op.p == incref.op.p {
        return;
      }
      k := k + 1;
    }
  }

  lemma PairProgress(f: Func, g: Func, b: nat, ids: set<nat>, i: nat, j: nat)
    requires f.Wf() && Progress(f, g, b, ids) && PairAt(g, b, i, j)
    ensures Progress(f, Erase(g, PairIds(g, b, i, j)), b, ids + PairIds(g, b, i, j))
  {
    ErasePairKeepsCounts(g, b, i, j);
    forall x | x in PairIds(g, b, i, j) ensures IsRefopId(g.blocks[b], x) {
      assert g.blocks[b][i].op.IsRefop() && g.blocks[b][j].op.IsRefop();
    }
    ProgressMore(f, g, b, ids, PairIds(g, b, i, j));
  }

  /** Erases a matched pair. */
  method ErasePair(F: IrFunction, b: nat, incref: Instr, decref: Instr, ghost f: Func, ghost ids: set<nat>)
    requires f.Wf() && Progress(f, F.View(), b, ids) && b < |F.blocks|
    requires incref in F.blocks[b] && decref in F.blocks[b] && incref.op.Incref? && decref.op == Decref(incref.op.p)
    requires Balanced(f.blocks[b], F.blocks[b])
    modifies F
    ensures F.View() == Erase(old(F.View()), {incref.id, decref.id})
    ensures Progress(f, F.View(), b, ids + {incref.id, decref.id})
    ensures Balanced(f.blocks[b], F.blocks[b])
  {
    ghost var g := F.View();
    ghost var i :| 0 <= i < |g.blocks[b]| && g.blocks[b][i] == incref;
    ghost var j :| 0 <= j < |g.blocks[b]| && g.blocks[b][j] == decref;
    PairProgress(f, g, b, ids, i, j);
    BlockDistinctIds(g, b);
    BalancedErase(f.blocks[b], g.blocks[b], i, j);
    EraseAllTwice(g, {incref.id}, {decref.id});
    assert {incref.id} + {decref.id} == {incref.id, decref.id};
    EraseFromParent(F, incref.id);
    EraseFromParent(F, decref.id);
  }

  /** Erases pairs until no incref of the block can be matched. */
  method MatchPairs(F: IrFunction, b: nat, increfs: Code, decrefs: seq<Option<Instr>>, ghost f: Func, ghost ids: set<nat>)
    returns (mutated: bool, ghost ids': set<nat>)
    requires f.Wf() && Progress(f, F.View(), b, ids) && b < |F.blocks|
    requires Matching(F.blocks[b], increfs, decrefs) && Balanced(f.blocks[b], F.blocks[b])
    modifies F
    ensures Progress(f, F.View(), b, ids')
    ensures |F.blocks| == |f.blocks| && Balanced(f.blocks[b], F.blocks[b])
    ensures exists ds :: Matching(F.blocks[b], [], ds)
    ensures ids <= ids' && (mutated <==> ids' != ids)
  {
    mutated, ids' := false, ids;
    var incs, decs := increfs, decrefs;
    while incs != []
      invariant Progress(f, F.View(), b, ids') && |F.blocks| == |f.blocks|
      invariant Matching(F.blocks[b], incs, decs) && Balanced(f.blocks[b], F.blocks[b])
      invariant ids <= ids' && (mutated <==> ids' != ids)
      decreases |incs|
    {
      var incref := incs[|incs| - 1];
      var k := FindDecref(incref, decs);
      if k < |decs| {
        var decref := decs[k].value;
        MatchingErase(F.blocks[b], incs, decs, k);
        FreshId(f, F.View(), b, ids', incref);
        ErasePair(F, b, incref, decref, f, ids');
        ids' := ids' + {incref.id, decref.id};
        decs := decs[k := None];
        mutated := true;
      } else {
        MatchingSkip(F.blocks[b], incs, decs);
      }
      incs := incs[..|incs| - 1];
    }
  }

  lemma FreshId(f: Func, g: Func, b: nat, ids: set<nat>, x: Instr)
    requires Progress(f, g, b, ids) && x in g.blocks[b]
    ensures x.id !in ids
  {
    EraseMembers(f.blocks[b], ids);
  }

  lemma PrunedBlock(f: Func, g: Func, b: nat, ids: set<nat>, decrefs: seq<Option<Instr>>)
    requires f.Wf() && Progress(f, g, b, ids) && Balanced(f.blocks[b], g.blocks[b]) && Matching(g.blocks[b], [], decrefs)
    ensures Pruned(f.blocks[b], g.blocks[b])
  {
    EraseMembers(f.blocks[b], ids);
    CancelledWhenUnmatched(f.blocks[b], g.blocks[b], decrefs);
    BlockDistinctIds(f, b);
    forall x | x in f.blocks[b] && !x.op.IsRefop() ensures x in g.blocks[b] {
      if x.id in ids {
        assert false;
      }
    }
  }

  /** The pass on one block. */
  method PruneBlock(F: IrFunction, b: nat) returns (mutated: bool, ghost ids: set<nat>)
    requires F.View().Wf() && F.View().Ssa() && b < |F.blocks|
    modifies F
    ensures Progress(old(F.View()), F.View(), b, ids)
    ensures |F.blocks| == |old(F.blocks)| && Pruned(old(F.blocks)[b], F.blocks[b])
    ensures mutated <==> ids != {}
  {
    ghost var f := F.View();
    var increfs, decrefs, nulls := Scan(F.blocks[b]);
    DropNulls(F, b, nulls);
    MatchingStart(f, b);
    forall i | 0 <= i < |f.blocks[b]| && f.blocks[b][i].id in IdsOf(nulls) ensures OnNull(f.blocks[b][i]) {
      NullIdsInBlock(f, b, f.blocks[b][i]);
    }
    BalancedAfterNulls(f.blocks[b], IdsOf(nulls));
    var more;
    more, ids := MatchPairs(F, b, increfs, Slots(decrefs), f, IdsOf(nulls));
    ghost var ds :| Matching(F.blocks[b], [], ds);
    PrunedBlock(f, F.View(), b, ids, ds);
    mutated := nulls != [] || more;
    assert nulls != [] ==> nulls[0].id in IdsOf(nulls);
  }
}
