/** Erasing an incref and a decref of one pointer from one block, or reference operations
    on the null pointer, changes no object's count at the end of any block. */
module BlockTheory {
  import opened RefIr
  import opened Balance
  import opened PruneTheory
  import opened RefNormalize

  ghost predicate ErasesRefops(f: Func, ids: set<nat>) {
    forall b, i :: 0 <= b < |f.blocks| && 0 <= i < |f.blocks[b]| && f.blocks[b][i].id in ids ==>
      f.blocks[b][i].op.IsRefop()
  }

  lemma {:induction false} ErasesOnlyRefops(f: Func, ids: set<nat>, path: seq<nat>)
    requires ErasesRefops(f, ids) && forall k :: 0 <= k < |path| ==> path[k] < |f.blocks|
    ensures OnlyRefops(TraceOf(f, path), ids)
  {
    if path != [] {
      ErasesOnlyRefops(f, ids, path[..|path| - 1]);
    }
  }

  /** The erased instructions contribute nothing by the end of any block of any run. */
  ghost predicate Neutral(f: Func, ids: set<nat>) {
    forall path: seq<nat>, w: World, o: nat :: f.Run(path) ==> CountOf(TraceOf(f, path), ids, w, o) == 0
  }

  lemma NeutralKeepsCounts(f: Func, ids: set<nat>)
    requires ErasesRefops(f, ids) && Neutral(f, ids)
    ensures SameCounts(f, Erase(f, ids))
  {
    forall path: seq<nat>, w: World, o: nat | f.Run(path)
      ensures Count(TraceOf(f, path), w, o) == Count(TraceOf(Erase(f, ids), path), w, o)
    {
      ErasesOnlyRefops(f, ids, path);
      TraceOfErase(f, path, ids);
      CountKeep(TraceOf(f, path), ids, w, o);
    }
  }

  // ----- null pointers

  ghost predicate OnlyNull(f: Func, ids: set<nat>) {
    forall b, i :: 0 <= b < |f.blocks| && 0 <= i < |f.blocks[b]| && f.blocks[b][i].id in ids ==>
      f.blocks[b][i].op.IsRefop() && f.blocks[b][i].op.p == Null
  }

  lemma {:induction false} NullContribution(t: Trace, s: Trace, ids: set<nat>, w: World, o: nat)
    requires forall i :: 0 <= i < |s| && s[i].ins.id in ids ==> s[i].ins.op.IsRefop() && s[i].ins.op.p == Null
    ensures CountOf(t + s, ids, w, o) == CountOf(t, ids, w, o)
  {
    if s == [] {
      assert t + s == t;
    } else {
      NullContribution(t, s[..|s| - 1], ids, w, o);
      assert (t + s)[..|t + s| - 1] == t + s[..|s| - 1];
    }
  }

  lemma {:induction false} NullNeutral(f: Func, ids: set<nat>, path: seq<nat>, w: World, o: nat)
    requires OnlyNull(f, ids) && f.Run(path)
    ensures CountOf(TraceOf(f, path), ids, w, o) == 0
  {
    if path != [] {
      RunRest(f, path, |path| - 1, {});
      NullNeutral(f, ids, path[..|path| - 1], w, o);
      NullContribution(TraceOf(f, path[..|path| - 1]), Events(|path| - 1, f.blocks[path[|path| - 1]]), ids, w, o);
    }
  }

  /** Reference operations on the null pointer can go. */
  lemma EraseNullKeepsCounts(f: Func, ids: set<nat>)
    requires OnlyNull(f, ids)
    ensures SameCounts(f, Erase(f, ids))
  {
    forall path: seq<nat>, w: World, o: nat | f.Run(path) ensures CountOf(TraceOf(f, path), ids, w, o) == 0 {
      NullNeutral(f, ids, path, w, o);
    }
    NeutralKeepsCounts(f, ids);
  }

  // ----- a pair in one block

  /** An incref and a decref of one pointer, in either order, in block `b`. */
  ghost predicate PairAt(f: Func, b: nat, i: nat, j: nat) {
    && b < |f.blocks| && i < |f.blocks[b]| && j < |f.blocks[b]|
    && f.blocks[b][i].op.Incref? && f.blocks[b][j].op == Decref(f.blocks[b][i].op.p)
  }

  function PairIds(f: Func, b: nat, i: nat, j: nat): set<nat>
    requires b < |f.blocks| && i < |f.blocks[b]| && j < |f.blocks[b]|
  {
    {f.blocks[b][i].id, f.blocks[b][j].id}
  }

  lemma PairOnlyThere(f: Func, b: nat, i: nat, j: nat, c: nat, k: nat)
    requires f.Wf() && PairAt(f, b, i, j) && c < |f.blocks| && k < |f.blocks[c]|
    ensures f.blocks[c][k].id in PairIds(f, b, i, j) <==> c == b && (k == i || k == j)
  {
    assert !f.Clash(b, i, c, k) && !f.Clash(b, j, c, k);
  }

  /** Between the two operations the pointer keeps denoting one object. */
  lemma SameObjectInBlock(f: Func, t: Trace, n: nat, b: nat, p: Ptr, lo: nat, hi: nat, w: World)
    requires f.Ssa() && b < |f.blocks| && lo <= hi < |f.blocks[b]|
    requires f.blocks[b][lo].op.IsRefop() && f.blocks[b][lo].op.p == p
    ensures
      var s := Events(n, f.blocks[b]);
      Denotes(t + s[..hi], w, p) == Denotes(t + s[..lo], w, p)
  {
    var s := Events(n, f.blocks[b]);
    if p.Val? {
      forall k | lo <= k < hi ensures !f.blocks[b][k].op.Defines(p.name) {
        assert f.DefFirst(b, lo, b, k);
      }
      ValueAfterNoDef(t + s[..lo], s[lo..hi], w, p.name);
      assert t + s[..hi] == t + s[..lo] + s[lo..hi];
    }
  }

  lemma CountOfTwo(t: Trace, s: Trace, lo: nat, hi: nat, ids: set<nat>, w: World, o: nat)
    requires lo < hi < |s|
    requires forall k :: 0 <= k < |s| ==> (s[k].ins.id in ids <==> k == lo || k == hi)
    ensures CountOf(t + s, ids, w, o)
         == CountOf(t, ids, w, o) + Effect(t + s[..lo], s[lo], w, o) + Effect(t + s[..hi], s[hi], w, o)
  {
    var a, b := s[..hi], s[hi..];
    assert forall k :: 0 <= k < |b| ==> b[k] == s[hi + k];
    assert a[..lo] == s[..lo];
    CountOfOne(t, a, lo, ids, w, o);
    CountOfOne(t + a, b, 0, ids, w, o);
    assert (t + a) + b[..0] == t + a;
    assert (t + a) + b == t + s;
  }

  lemma PairContribution(f: Func, t: Trace, n: nat, b: nat, i: nat, j: nat, w: World, o: nat)
    requires f.Wf() && f.Ssa() && PairAt(f, b, i, j)
    ensures CountOf(t + Events(n, f.blocks[b]), PairIds(f, b, i, j), w, o) == CountOf(t, PairIds(f, b, i, j), w, o)
  {
    var s, ids, code := Events(n, f.blocks[b]), PairIds(f, b, i, j), f.blocks[b];
    var lo, hi := if i < j then i else j, if i < j then j else i;
    forall k | 0 <= k < |s| ensures s[k].ins.id in ids <==> k == lo || k == hi {
      PairOnlyThere(f, b, i, j, b, k);
    }
    CountOfTwo(t, s, lo, hi, ids, w, o);
    SameObjectInBlock(f, t, n, b, code[i].op.p, lo, hi, w);
  }

  lemma {:induction false} PairNeutral(f: Func, b: nat, i: nat, j: nat, path: seq<nat>, w: World, o: nat)
    requires f.Wf() && f.Ssa() && PairAt(f, b, i, j) && f.Run(path)
    ensures CountOf(TraceOf(f, path), PairIds(f, b, i, j), w, o) == 0
  {
    if path != [] {
      var n := |path| - 1;
      RunRest(f, path, n, {});
      PairNeutral(f, b, i, j, path[..n], w, o);
      var t, c := TraceOf(f, path[..n]), path[n];
      if c == b {
        PairContribution(f, t, n, b, i, j, w, o);
      } else {
        forall k | 0 <= k < |f.blocks[c]| ensures f.blocks[c][k].id !in PairIds(f, b, i, j) {
          PairOnlyThere(f, b, i, j, c, k);
        }
        CountOfNone(t, Events(n, f.blocks[c]), PairIds(f, b, i, j), w, o);
      }
    }
  }

  /** An incref and a decref of one pointer in one block can go together. */
  lemma ErasePairKeepsCounts(f: Func, b: nat, i: nat, j: nat)
    requires f.Wf() && f.Ssa() && PairAt(f, b, i, j)
    ensures SameCounts(f, Erase(f, PairIds(f, b, i, j)))
  {
    var ids := PairIds(f, b, i, j);
    forall path: seq<nat>, w: World, o: nat | f.Run(path) ensures CountOf(TraceOf(f, path), ids, w, o) == 0 {
      PairNeutral(f, b, i, j, path, w, o);
    }
    forall c, k | 0 <= c < |f.blocks| && 0 <= k < |f.blocks[c]| && f.blocks[c][k].id in ids
      ensures f.blocks[c][k].op.IsRefop()
    {
      PairOnlyThere(f, b, i, j, c, k);
    }
    NeutralKeepsCounts(f, ids);
  }

  // ----- counting operations

  function CountOp(code: Code, op: Op): nat {
    if code == [] then 0
    else CountOp(code[..|code| - 1], op) + if code[|code| - 1].op == op then 1 else 0
  }

  lemma {:induction false} CountOpZero(code: Code, op: Op)
    ensures CountOp(code, op) == 0 <==> forall x :: x in code ==> x.op != op
  {
    if code != [] {
      var n := |code| - 1;
      CountOpZero(code[..n], op);
      assert code == code[..n] + [code[n]];
    }
  }

  lemma CountOpSnoc(code: Code, x: Instr, op: Op)
    ensures CountOp(code + [x], op) == CountOp(code, op) + if x.op == op then 1 else 0
  {
    assert (code + [x])[..|code|] == code;
  }

  lemma {:induction false} CountOpErase(code: Code, i: nat, op: Op)
    requires DistinctIds(code) && i < |code|
    ensures CountOp(EraseCode(code, {code[i].id}), op) == CountOp(code, op) - if code[i].op == op then 1 else 0
  {
    var n := |code| - 1;
    if i == n {
      EraseNone(code[..n], {code[i].id});
      assert EraseCode(code, {code[i].id}) == code[..n];
    } else {
      CountOpErase(code[..n], i, op);
      var rest := EraseCode(code[..n], {code[i].id});
      assert code[n].id != code[i].id;
      CountOpSnoc(rest, code[n], op);
    }
  }

  function RefopCount(code: Code): nat {
    if code == [] then 0
    else RefopCount(code[..|code| - 1]) + if code[|code| - 1].op.IsRefop() then 1 else 0
  }

  function RefopTotal(blocks: seq<Code>): nat {
    if blocks == [] then 0 else RefopTotal(blocks[..|blocks| - 1]) + RefopCount(blocks[|blocks| - 1])
  }

  /** Erasing never adds refops. */
  lemma {:induction false} EraseNoMore(code: Code, ids: set<nat>)
    ensures RefopCount(EraseCode(code, ids)) <= RefopCount(code)
  {
    if code != [] {
      var n := |code| - 1;
      EraseNoMore(code[..n], ids);
      var rest := EraseCode(code[..n], ids);
      assert (rest + [code[n]])[..|rest|] == rest && rest + [] == rest;
    }
  }

  lemma {:induction false} EraseFewer(code: Code, ids: set<nat>, i: nat)
    requires i < |code| && code[i].id in ids && code[i].op.IsRefop()
    ensures RefopCount(EraseCode(code, ids)) < RefopCount(code)
  {
    var n := |code| - 1;
    var rest := EraseCode(code[..n], ids);
    assert (rest + [code[n]])[..|rest|] == rest && rest + [] == rest;
    if i < n {
      EraseFewer(code[..n], ids, i);
    } else {
      EraseNoMore(code[..n], ids);
    }
  }

  lemma {:induction false} EraseTotalNoMore(blocks: seq<Code>, ids: set<nat>)
    ensures RefopTotal(EraseAll(blocks, ids)) <= RefopTotal(blocks)
  {
    if blocks != [] {
      var n := |blocks| - 1;
      EraseTotalNoMore(blocks[..n], ids);
      EraseNoMore(blocks[n], ids);
      assert EraseAll(blocks, ids)[..n] == EraseAll(blocks[..n], ids);
    }
  }

  /** Erasing an instruction that counts takes refops away. */
  lemma {:induction false} EraseTotal(blocks: seq<Code>, ids: set<nat>, b: nat, i: nat)
    requires b < |blocks| && i < |blocks[b]| && blocks[b][i].id in ids && blocks[b][i].op.IsRefop()
    ensures RefopTotal(EraseAll(blocks, ids)) < RefopTotal(blocks)
  {
    var n := |blocks| - 1;
    assert EraseAll(blocks, ids)[..n] == EraseAll(blocks[..n], ids);
    if b < n {
      EraseTotal(blocks[..n], ids, b, i);
      EraseNoMore(blocks[n], ids);
    } else {
      EraseTotalNoMore(blocks[..n], ids);
      EraseFewer(blocks[n], ids, i);
    }
  }
}
