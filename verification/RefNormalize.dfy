/** Delaying the decrefs of a block to just before its terminator. */
module RefNormalize {
  import opened RefIr
  import opened PruneTheory

  /** A function whose instruction lists the passes change in place. The terminators,
      which carry `succs`, stay where they are: after the last instruction. */
  class IrFunction {
    const succs: seq<seq<nat>>
    var blocks: seq<Code>

    constructor (f: Func)
      ensures View() == f
    {
      succs, blocks := f.succs, f.blocks;
    }

    function View(): Func
      reads this
    {
      Func(blocks, succs)
    }
  }

  predicate HasIncref(code: Code) {
    exists i :: 0 <= i < |code| && code[i].op.Incref?
  }

  /** The decrefs of a block, or everything else, in order. */
  function Pick(code: Code, decrefs: bool): Code {
    if code == [] then []
    else
      var last := code[|code| - 1];
      Pick(code[..|code| - 1], decrefs) + if last.op.Decref? == decrefs then [last] else []
  }

  lemma {:induction false} PickMembers(code: Code, decrefs: bool)
    ensures forall x :: x in Pick(code, decrefs) <==> x in code && x.op.Decref? == decrefs
  {
    if code != [] {
      var n := |code| - 1;
      PickMembers(code[..n], decrefs);
      assert code == code[..n] + [code[n]];
    }
  }

  function Decrefs(code: Code): Code {
    Pick(code, true)
  }

  function Others(code: Code): Code {
    Pick(code, false)
  }

  /** What the pass makes of one block. */
  function NormalCode(code: Code): Code {
    if HasIncref(code) then Others(code) + Decrefs(code) else code
  }

  function Normalized(f: Func): Func {
    f.(blocks := seq(|f.blocks|, b requires 0 <= b < |f.blocks| => NormalCode(f.blocks[b])))
  }

  // ----- two traces that leave every value and every count the same

  ghost predicate Agree(s: Trace, t: Trace, w: World) {
    && (forall v :: ValueAfter(s, w, v) == ValueAfter(t, w, v))
    && (forall o :: Count(s, w, o) == Count(t, w, o))
  }

  lemma AgreeSnoc(s: Trace, t: Trace, e: Event, w: World)
    requires Agree(s, t, w)
    ensures Agree(s + [e], t + [e], w)
  {
    assert (s + [e])[..|s|] == s && (t + [e])[..|t|] == t;
    forall o ensures Count(s + [e], w, o) == Count(t + [e], w, o) {
      CountSnoc(s, e, w, o);
      CountSnoc(t, e, w, o);
      assert Count(s, w, o) == Count(t, w, o);
    }
  }

  lemma {:induction false} AgreeAppend(s: Trace, t: Trace, u: Trace, w: World)
    requires Agree(s, t, w)
    ensures Agree(s + u, t + u, w)
  {
    if u == [] {
      assert s + u == s && t + u == t;
    } else {
      var n := |u| - 1;
      AgreeAppend(s, t, u[..n], w);
      AgreeSnoc(s + u[..n], t + u[..n], u[n], w);
      assert s + u == s + u[..n] + [u[n]] && t + u == t + u[..n] + [u[n]];
    }
  }

  ghost predicate DelayableAfter(d: Event, u: Trace) {
    d.ins.op.Decref? &&
    (d.ins.op.p.Val? ==> forall i :: 0 <= i < |u| ==> !u[i].ins.op.Defines(d.ins.op.p.name))
  }

  /** A decref commutes with everything but a definition of the value it names. */
  lemma {:induction false} DelayDecref(t: Trace, d: Event, u: Trace, w: World)
    requires DelayableAfter(d, u)
    ensures Agree(t + [d] + u, t + u + [d], w)
  {
    if u == [] {
      assert t + [d] + u == t + u + [d];
    } else {
      var n := |u| - 1;
      var e := u[n];
      DelayDecref(t, d, u[..n], w);
      var r := t + u[..n];
      AgreeSnoc(t + [d] + u[..n], r + [d], e, w);
      assert t + [d] + u == t + [d] + u[..n] + [e];
      Swap(r, d, e, w);
      assert t + u + [d] == r + [e] + [d];
    }
  }

  lemma Swap(r: Trace, d: Event, e: Event, w: World)
    requires DelayableAfter(d, [e])
    ensures Agree(r + [d] + [e], r + [e] + [d], w)
  {
    assert (r + [d] + [e])[..|r| + 1] == r + [d] && (r + [e] + [d])[..|r| + 1] == r + [e];
    assert (r + [d])[..|r|] == r && (r + [e])[..|r|] == r;
    assert [e][0] == e;
    forall o ensures Count(r + [d] + [e], w, o) == Count(r + [e] + [d], w, o) {
      CountSnoc(r, d, w, o);
      CountSnoc(r + [d], e, w, o);
      CountSnoc(r, e, w, o);
      CountSnoc(r + [e], d, w, o);
    }
  }

  ghost predicate DefsFirst(code: Code) {
    forall i, j ::
      && 0 <= i < |code| && 0 <= j < |code|
      && code[i].op.IsRefop() && code[i].op.p.Val? && code[j].op.Defines(code[i].op.p.name)
      ==> j < i
  }

  lemma EventsConcat(k: nat, a: Code, b: Code)
    ensures Events(k, a + b) == Events(k, a) + Events(k, b)
  {
  }

  lemma DefsFirstPrefix(code: Code, n: nat)
    requires DefsFirst(code) && n <= |code|
    ensures DefsFirst(code[..n])
  {
  }

  /** Running a block with its decrefs delayed leaves values and counts as running it does. */
  lemma {:induction false} DelayAll(t: Trace, k: nat, code: Code, w: World)
    requires DefsFirst(code)
    ensures Agree(t + Events(k, code), t + Events(k, Others(code)) + Events(k, Decrefs(code)), w)
  {
    if code == [] {
      assert t + Events(k, code) == t + Events(k, Others(code)) + Events(k, Decrefs(code));
    } else {
      var n := |code| - 1;
      var rest, x := code[..n], code[n];
      var e := Event(k, x);
      DefsFirstPrefix(code, n);
      DelayAll(t, k, rest, w);
      var o, d := Events(k, Others(rest)), Events(k, Decrefs(rest));
      assert code == rest + [x];
      EventsConcat(k, rest, [x]);
      assert Events(k, [x]) == [e];
      AgreeSnoc(t + Events(k, rest), t + o + d, e, w);
      assert t + Events(k, code) == t + Events(k, rest) + [e];
      if x.op.Decref? {
        EventsConcat(k, Decrefs(rest), [x]);
        assert t + o + d + [e] == t + Events(k, Others(code)) + Events(k, Decrefs(code));
      } else {
        EventsConcat(k, Others(rest), [x]);
        PickMembers(rest, true);
        DelaySeveral(t + o, k, Decrefs(rest), e, code, w);
        assert t + o + [e] + d == t + Events(k, Others(code)) + Events(k, Decrefs(code));
      }
    }
  }

  /** Several decrefs commute with an event of the same block that comes after them. */
  lemma {:induction false} DelaySeveral(t: Trace, k: nat, ds: Code, e: Event, code: Code, w: World)
    requires code != [] && DefsFirst(code) && e == Event(k, code[|code| - 1])
    requires forall x :: x in ds ==> x in code && x.op.Decref?
    ensures Agree(t + Events(k, ds) + [e], t + [e] + Events(k, ds), w)
  {
    if ds == [] {
      assert t + Events(k, ds) + [e] == t + [e] + Events(k, ds);
    } else {
      var n := |ds| - 1;
      var d := Event(k, ds[n]);
      var u := Events(k, ds[..n]);
      DelaySeveral(t, k, ds[..n], e, code, w);
      AgreeSnoc(t + u + [e], t + [e] + u, d, w);
      assert ds[n] in code;
      var j :| 0 <= j < |code| && code[j] == ds[n];
      assert DelayableAfter(d, [e]);
      Swap(t + u, d, e, w);
      assert t + Events(k, ds) + [e] == t + u + [d] + [e];
      assert t + [e] + Events(k, ds) == t + [e] + u + [d];
    }
  }

  lemma BlockDefsFirst(f: Func, b: nat)
    requires f.Ssa() && b < |f.blocks|
    ensures DefsFirst(f.blocks[b])
  {
    forall i, j |
      && 0 <= i < |f.blocks[b]| && 0 <= j < |f.blocks[b]|
      && f.blocks[b][i].op.IsRefop() && f.blocks[b][i].op.p.Val?
      && f.blocks[b][j].op.Defines(f.blocks[b][i].op.p.name)
      ensures j < i
    {
      assert f.DefFirst(b, i, b, j);
    }
  }

  /** Normalising changes neither a value nor a count at the end of any block of any run. */
  lemma {:induction false} NormalizedAgrees(f: Func, path: seq<nat>, w: World)
    requires f.Ssa() && f.Run(path)
    ensures Agree(TraceOf(f, path), TraceOf(Normalized(f), path), w)
  {
    if path != [] {
      var n := |path| - 1;
      var code := f.blocks[path[n]];
      assert f.Run(path[..n]) by {
        forall k | 0 < k < |path[..n]| ensures f.Step(path[..n], k) {
          assert f.Step(path, k);
        }
      }
      NormalizedAgrees(f, path[..n], w);
      var s, t := TraceOf(f, path[..n]), TraceOf(Normalized(f), path[..n]);
      AgreeAppend(s, t, Events(n, code), w);
      if HasIncref(code) {
        BlockDefsFirst(f, path[n]);
        DelayAll(t, n, code, w);
        EventsConcat(n, Others(code), Decrefs(code));
        assert TraceOf(Normalized(f), path) == t + Events(n, Others(code)) + Events(n, Decrefs(code));
      }
    }
  }

  lemma NormalizedKeepsCounts(f: Func)
    requires f.Ssa()
    ensures SameCounts(f, Normalized(f))
  {
    forall path: seq<nat>, w: World, o: nat | f.Run(path)
      ensures Count(TraceOf(f, path), w, o) == Count(TraceOf(Normalized(f), path), w, o)
    {
      NormalizedAgrees(f, path, w);
    }
  }

  // ----- the normalised function is well formed

  lemma {:induction false} PickOrder(code: Code, decrefs: bool, i: nat, j: nat) returns (k: nat, l: nat)
    requires i < j < |Pick(code, decrefs)|
    ensures k < l < |code|
    ensures code[k] == Pick(code, decrefs)[i] && code[l] == Pick(code, decrefs)[j]
  {
    var n := |code| - 1;
    var rest := Pick(code[..n], decrefs);
    if j < |rest| {
      k, l := PickOrder(code[..n], decrefs, i, j);
    } else {
      PickMembers(code[..n], decrefs);
      assert rest[i] in code[..n];
      k :| 0 <= k < n && code[k] == rest[i];
      l := n;
    }
  }

  /** Two places of a normalised block hold what two places of the block hold, in the
      same order unless the second of them was a decref. */
  lemma NormalOrder(code: Code, i: nat, j: nat) returns (k: nat, l: nat)
    requires i < j < |NormalCode(code)|
    ensures k < |code| && l < |code| && k != l
    ensures code[k] == NormalCode(code)[i] && code[l] == NormalCode(code)[j]
    ensures k < l || code[l].op.Decref?
  {
    if !HasIncref(code) {
      k, l := i, j;
    } else {
      var o, d := Others(code), Decrefs(code);
      if j < |o| {
        k, l := PickOrder(code, false, i, j);
      } else if i >= |o| {
        k, l := PickOrder(code, true, i - |o|, j - |o|);
      } else {
        PickMembers(code, false);
        PickMembers(code, true);
        assert o[i] in code && d[j - |o|] in code;
        k :| 0 <= k < |code| && code[k] == o[i];
        l :| 0 <= l < |code| && code[l] == d[j - |o|];
      }
    }
  }

  lemma NormalMembers(code: Code)
    ensures forall x :: x in NormalCode(code) <==> x in code
  {
    PickMembers(code, false);
    PickMembers(code, true);
  }

  lemma NormalizedKeepsWf(f: Func)
    requires f.Wf()
    ensures Normalized(f).Wf()
  {
    var g := Normalized(f);
    forall b, i, c, j |
      && 0 <= b < |g.blocks| && 0 <= i < |g.blocks[b]|
      && 0 <= c < |g.blocks| && 0 <= j < |g.blocks[c]|
      ensures !g.Clash(b, i, c, j)
    {
      NormalMembers(f.blocks[b]);
      NormalMembers(f.blocks[c]);
      assert g.blocks[b][i] in f.blocks[b] && g.blocks[c][j] in f.blocks[c];
      if b == c && i != j {
        var k, l := NormalOrder(f.blocks[b], if i < j then i else j, if i < j then j else i);
        assert !f.Clash(b, k, b, l);
      } else {
        var k :| 0 <= k < |f.blocks[b]| && f.blocks[b][k] == g.blocks[b][i];
        var l :| 0 <= l < |f.blocks[c]| && f.blocks[c][l] == g.blocks[c][j];
        assert !f.Clash(b, k, c, l);
      }
    }
  }

  /** Normalising still defines every value before its uses, and once if it was so before. */
  lemma NormalizedKeepsSsa(f: Func)
    requires f.Wf() && f.Ssa()
    ensures Normalized(f).Ssa()
    ensures f.DefinedOnce() ==> Normalized(f).DefinedOnce()
  {
    if f.DefinedOnce() {
      NormalizedDefinesOnce(f);
    }
    var g := Normalized(f);
    forall b, i, d, j |
      && 0 <= b < |g.blocks| && 0 <= i < |g.blocks[b]|
      && 0 <= d < |g.blocks| && 0 <= j < |g.blocks[d]|
      ensures g.DefFirst(b, i, d, j)
    {
      NormalMembers(f.blocks[b]);
      NormalMembers(f.blocks[d]);
      assert g.blocks[b][i] in f.blocks[b] && g.blocks[d][j] in f.blocks[d];
      SameDominators(f, g, d, b);
      if d == b && i < j {
        var k, l := NormalOrder(f.blocks[b], i, j);
        assert f.DefFirst(b, k, b, l);
      } else {
        var k :| 0 <= k < |f.blocks[b]| && f.blocks[b][k] == g.blocks[b][i];
        var l :| 0 <= l < |f.blocks[d]| && f.blocks[d][l] == g.blocks[d][j];
        assert f.DefFirst(b, k, d, l);
      }
    }
  }

  lemma NormalizedDefinesOnce(f: Func)
    requires f.Wf() && f.DefinedOnce()
    ensures Normalized(f).DefinedOnce()
  {
    var g := Normalized(f);
    forall b, i, d, j |
      && 0 <= b < |g.blocks| && 0 <= i < |g.blocks[b]|
      && 0 <= d < |g.blocks| && 0 <= j < |g.blocks[d]|
      ensures !g.DefinedTwice(b, i, d, j)
    {
      NormalMembers(f.blocks[b]);
      NormalMembers(f.blocks[d]);
      assert g.blocks[b][i] in f.blocks[b] && g.blocks[d][j] in f.blocks[d];
      if b == d && i != j {
        var k, l := NormalOrder(f.blocks[b], if i < j then i else j, if i < j then j else i);
        assert !f.DefinedTwice(b, k, b, l);
      } else {
        var k :| 0 <= k < |f.blocks[b]| && f.blocks[b][k] == g.blocks[b][i];
        var l :| 0 <= l < |f.blocks[d]| && f.blocks[d][l] == g.blocks[d][j];
        assert !f.DefinedTwice(b, k, d, l);
      }
    }
  }

  // ----- moving the decrefs one at a time

  lemma {:induction false} EraseConcat(a: Code, b: Code, ids: set<nat>)
    ensures EraseCode(a + b, ids) == EraseCode(a, ids) + EraseCode(b, ids)
  {
    if b == [] {
      assert a + b == a;
    } else {
      EraseConcat(a, b[..|b| - 1], ids);
      assert (a + b)[..|a + b| - 1] == a + b[..|b| - 1];
    }
  }

  lemma {:induction false} EraseTwice(code: Code, ids: set<nat>, more: set<nat>)
    ensures EraseCode(EraseCode(code, ids), more) == EraseCode(code, ids + more)
  {
    if code != [] {
      var n := |code| - 1;
      EraseTwice(code[..n], ids, more);
      EraseConcat(EraseCode(code[..n], ids), if code[n].id in ids then [] else [code[n]], more);
    }
  }

  lemma {:induction false} EraseNone(code: Code, ids: set<nat>)
    requires forall i :: 0 <= i < |code| ==> code[i].id !in ids
    ensures EraseCode(code, ids) == code
  {
    if code != [] {
      EraseNone(code[..|code| - 1], ids);
    }
  }

  function IdsOf(code: Code): set<nat> {
    set i | 0 <= i < |code| :: code[i].id
  }

  lemma {:induction false} EraseDecrefs(code: Code, ids: set<nat>)
    requires forall i :: 0 <= i < |code| ==> (code[i].id in ids <==> code[i].op.Decref?)
    ensures EraseCode(code, ids) == Others(code)
  {
    if code != [] {
      EraseDecrefs(code[..|code| - 1], ids);
    }
  }

  ghost predicate DistinctIds(code: Code) {
    forall i, j :: 0 <= i < |code| && 0 <= j < |code| && code[i].id == code[j].id ==> i == j
  }

  lemma DecrefIds(code: Code)
    requires DistinctIds(code)
    ensures forall i :: 0 <= i < |code| ==> (code[i].id in IdsOf(Decrefs(code)) <==> code[i].op.Decref?)
  {
    PickMembers(code, true);
    forall i | 0 <= i < |code| ensures code[i].id in IdsOf(Decrefs(code)) <==> code[i].op.Decref? {
      if code[i].op.Decref? {
        assert code[i] in Decrefs(code);
      } else if code[i].id in IdsOf(Decrefs(code)) {
        assert false;
      }
    }
  }

  lemma DecrefsDistinct(code: Code, k: nat)
    requires DistinctIds(code) && k < |Decrefs(code)|
    ensures forall i :: 0 <= i < k ==> Decrefs(code)[i].id != Decrefs(code)[k].id
  {
    forall i | 0 <= i < k ensures Decrefs(code)[i].id != Decrefs(code)[k].id {
      var x, y := PickOrder(code, true, i, k);
    }
  }

  /** One move: instruction `x` goes to the end of the block. */
  function MovedToEnd(code: Code, x: Instr): Code {
    EraseCode(code, {x.id}) + [x]
  }

  lemma IdsOfNext(code: Code, k: nat)
    requires k < |code|
    ensures IdsOf(code[..k+1]) == IdsOf(code[..k]) + {code[k].id}
  {
    assert code[..k+1][k] == code[k];
    forall x | x in IdsOf(code[..k]) ensures x in IdsOf(code[..k+1]) {
      var i :| 0 <= i < k && code[..k][i].id == x;
      assert code[..k+1][i].id == x;
    }
    forall x | x in IdsOf(code[..k+1]) ensures x in IdsOf(code[..k]) + {code[k].id} {
      var i :| 0 <= i < k + 1 && code[..k+1][i].id == x;
      if i < k {
        assert code[..k][i].id == x;
      }
    }
  }

  lemma MoveNext(code: Code, k: nat)
    requires DistinctIds(code) && k < |Decrefs(code)|
    ensures
      var ds := Decrefs(code);
      MovedToEnd(EraseCode(code, IdsOf(ds[..k])) + ds[..k], ds[k]) ==
      EraseCode(code, IdsOf(ds[..k+1])) + ds[..k+1]
  {
    var ds := Decrefs(code);
    var x, kept, gone := ds[k], ds[..k], IdsOf(ds[..k]);
    var left := EraseCode(code, gone + {x.id});
    assert EraseCode(EraseCode(code, gone) + kept, {x.id}) == left + kept by {
      DecrefsDistinct(code, k);
      EraseConcat(EraseCode(code, gone), kept, {x.id});
      EraseTwice(code, gone, {x.id});
      EraseNone(kept, {x.id});
    }
    assert ds[..k+1] == kept + [x];
    assert IdsOf(ds[..k+1]) == gone + {x.id} by {
      IdsOfNext(ds, k);
    }
    assert left + kept + [x] == left + (kept + [x]);
  }

  method FindIncref(code: Code) returns (found: bool)
    ensures found == HasIncref(code)
  {
    for i := 0 to |code|
      invariant forall k :: 0 <= k < i ==> !code[k].op.Incref?
    {
      if code[i].op.Incref? {
        return true;
      }
    }
    return false;
  }

  method ListDecrefs(code: Code) returns (list: seq<Instr>)
    ensures list == Decrefs(code)
  {
    list := [];
    for i := 0 to |code|
      invariant list == Decrefs(code[..i])
    {
      assert code[..i+1][..i] == code[..i];
      if code[i].op.Decref? {
        list := list + [code[i]];
      }
    }
    assert code[..|code|] == code;
  }

  /** Moves each listed decref of block `b` to just before the terminator. */
  method MoveDecrefs(F: IrFunction, b: nat, toBeMoved: seq<Instr>)
    requires b < |F.blocks| && DistinctIds(F.blocks[b]) && toBeMoved == Decrefs(F.blocks[b])
    modifies F
    ensures F.blocks == old(F.blocks)[b := Others(old(F.blocks)[b]) + Decrefs(old(F.blocks)[b])]
  {
    ghost var code := F.blocks[b];
    ghost var blocks := F.blocks;
    assert IdsOf(toBeMoved[..0]) == {};
    EraseNone(code, {});
    assert EraseCode(code, {}) + toBeMoved[..0] == code;
    for k := 0 to |toBeMoved|
      invariant |F.blocks| == |blocks|
      invariant F.blocks == blocks[b := EraseCode(code, IdsOf(toBeMoved[..k])) + toBeMoved[..k]]
    {
      MoveNext(code, k);
      F.blocks := F.blocks[b := MovedToEnd(F.blocks[b], toBeMoved[k])];
    }
    assert toBeMoved[..|toBeMoved|] == toBeMoved;
    DecrefIds(code);
    EraseDecrefs(code, IdsOf(toBeMoved));
  }

  lemma DecrefListed(code: Code)
    ensures HasDecref(code) <==> Decrefs(code) != []
  {
    PickMembers(code, true);
    if Decrefs(code) != [] {
      assert Decrefs(code)[0] in code;
    }
  }

  lemma BlockDistinctIds(f: Func, b: nat)
    requires f.Wf() && b < |f.blocks|
    ensures DistinctIds(f.blocks[b])
  {
    forall i, j | 0 <= i < |f.blocks[b]| && 0 <= j < |f.blocks[b]| && f.blocks[b][i].id == f.blocks[b][j].id
      ensures i == j
    {
      assert !f.Clash(b, i, b, j);
    }
  }

  /** The blocks after the first `n` have been normalised. */
  function PartlyNormalized(f: Func, n: nat): seq<Code>
    requires n <= |f.blocks|
  {
    Normalized(f).blocks[..n] + f.blocks[n..]
  }

  lemma PartlyNext(f: Func, b: nat)
    requires b < |f.blocks|
    ensures |PartlyNormalized(f, b)| == |f.blocks| && PartlyNormalized(f, b)[b] == f.blocks[b]
    ensures PartlyNormalized(f, b + 1) == PartlyNormalized(f, b)[b := NormalCode(f.blocks[b])]
  {
  }

  lemma AllNormalized(f: Func)
    ensures PartlyNormalized(f, |f.blocks|) == Normalized(f).blocks
  {
  }

  lemma NormalizedIsGood(f: Func)
    requires f.Wf() && f.Ssa()
    ensures Normalized(f).Wf() && Normalized(f).Ssa() && SameCounts(f, Normalized(f))
  {
    NormalizedKeepsWf(f);
    NormalizedKeepsSsa(f);
    NormalizedKeepsCounts(f);
  }

  /** Some block holds both an incref and a decref. */
  ghost predicate SomeMoved(blocks: seq<Code>) {
    exists b :: 0 <= b < |blocks| && HasIncref(blocks[b]) && HasDecref(blocks[b])
  }

  lemma SomeMovedNext(blocks: seq<Code>, b: nat)
    requires b < |blocks|
    ensures SomeMoved(blocks[..b+1]) <==> SomeMoved(blocks[..b]) || (HasIncref(blocks[b]) && HasDecref(blocks[b]))
  {
    var now, next := blocks[..b], blocks[..b+1];
    if SomeMoved(now) {
      var c :| 0 <= c < |now| && HasIncref(now[c]) && HasDecref(now[c]);
      assert next[c] == now[c];
    }
    if HasIncref(blocks[b]) && HasDecref(blocks[b]) {
      assert next[b] == blocks[b];
    }
    if SomeMoved(next) {
      var c :| 0 <= c < |next| && HasIncref(next[c]) && HasDecref(next[c]);
      assert c < b ==> now[c] == next[c];
    }
  }

  /** The pass on one block. */
  method NormalizeBlock(F: IrFunction, b: nat) returns (mutated: bool)
    requires b < |F.blocks| && DistinctIds(F.blocks[b])
    modifies F
    ensures F.blocks == old(F.blocks)[b := NormalCode(old(F.blocks)[b])]
    ensures mutated <==> HasIncref(old(F.blocks)[b]) && HasDecref(old(F.blocks)[b])
  {
    var hasIncref := FindIncref(F.blocks[b]);
    DecrefListed(F.blocks[b]);
    mutated := false;
    if hasIncref {
      var toBeMoved := ListDecrefs(F.blocks[b]);
      MoveDecrefs(F, b, toBeMoved);
      mutated := toBeMoved != [];
    }
  }

  method RunOnFunction(F: IrFunction) returns (mutated: bool)
    requires F.View().Wf() && F.View().Ssa()
    modifies F
    ensures F.View() == Normalized(old(F.View()))
    ensures mutated <==> SomeMoved(old(F.blocks))
    ensures F.View().Wf() && F.View().Ssa() && SameCounts(old(F.View()), F.View())
  {
    NormalizedIsGood(F.View());
    mutated := NormalizeBlocks(F);
  }

  method NormalizeBlocks(F: IrFunction) returns (mutated: bool)
    requires F.View().Wf()
    modifies F
    ensures F.View() == Normalized(old(F.View()))
    ensures mutated <==> SomeMoved(old(F.blocks))
  {
    ghost var f := F.View();
    mutated := false;
    for b := 0 to |F.blocks|
      invariant F.blocks == PartlyNormalized(f, b)
      invariant mutated <==> SomeMoved(f.blocks[..b])
    {
      PartlyNext(f, b);
      SomeMovedNext(f.blocks, b);
      BlockDistinctIds(f, b);
      var changed := NormalizeBlock(F, b);
      mutated := mutated || changed;
    }
    assert f.blocks[..|f.blocks|] == f.blocks;
    AllNormalized(f);
  }
}
