/** What a fan-out pass makes of a function, and when it finds nothing to prune. */
module FanoutPass {
  import opened RefIr
  import opened Balance
  import opened PruneTheory
  import opened BlockTheory
  import opened BlockPrune
  import opened FanoutForward
  import opened FanoutBackward
  import opened FanoutPrune
  import opened PassTheory

  /** The pass at some incref: the function so far, and the heads that are not tried again. */
  datatype Tried = Tried(f: Func, bad: set<nat>)

  ghost function IdsFor(q: Query, inc: nat): set<nat> {
    {inc} + FirstDecrefs(q).Values
  }

  /** One incref: erased with its decrefs if its head holds no decref and is not marked bad, and
      the fan-out condition holds; if the walk marks the head, no other incref there is tried. */
  ghost function FanoutStep(t: Tried, s: Site, raise: bool, limit: nat): Tried {
    if !t.f.Wf() || s.block >= |t.f.blocks| || !s.ins.op.Incref? || s.block in t.bad || HasDecref(t.f.blocks[s.block]) then t
    else
      var q := Query(t.f, s.ins.op.p, s.block, raise);
      Tried(if Fans(q, limit) then Erase(t.f, IdsFor(q, s.ins.id)) else t.f,
            if Marks(q, limit) then t.bad + {s.block} else t.bad)
  }

  ghost function FanoutRun(f: Func, sites: seq<Site>, raise: bool, limit: nat): Tried {
    if sites == [] then Tried(f, {})
    else FanoutStep(FanoutRun(f, sites[..|sites| - 1], raise, limit), sites[|sites| - 1], raise, limit)
  }

  /** The pass: the increfs of the function in the order of its instructions. */
  ghost function AfterFanout(f: Func, raise: bool, limit: nat): Func {
    FanoutRun(f, Refops(f, false, |f.blocks|), raise, limit).f
  }

  // ----- when nothing is pruned

  ghost predicate IncrefAt(f: Func, b: nat, i: nat) {
    b < |f.blocks| && i < |f.blocks[b]| && f.blocks[b][i].op.Incref?
  }

  ghost function QueryAt(f: Func, b: nat, i: nat, raise: bool): Query
    requires IncrefAt(f, b, i)
  {
    Query(f, f.blocks[b][i].op.p, b, raise)
  }

  /** An incref that meets the condition. */
  ghost predicate Candidate(f: Func, b: nat, i: nat, raise: bool, limit: nat)
    requires f.Wf()
  {
    IncrefAt(f, b, i) && !HasDecref(f.blocks[b]) && Fans(QueryAt(f, b, i, raise), limit)
  }

  /** Does one of the first `n` instructions of block `b` mark it? */
  ghost predicate Marked(f: Func, b: nat, n: nat, raise: bool, limit: nat)
    requires f.Wf()
  {
    b < |f.blocks| && !HasDecref(f.blocks[b]) &&
    exists j :: 0 <= j < n && IncrefAt(f, b, j) && Marks(QueryAt(f, b, j, raise), limit)
  }

  /** A candidate that no incref before it in its block keeps from being tried. */
  ghost predicate Prunable(f: Func, b: nat, i: nat, raise: bool, limit: nat)
    requires f.Wf()
  {
    Candidate(f, b, i, raise, limit) && !Marked(f, b, i, raise, limit)
  }

  ghost predicate SomePrunable(f: Func, raise: bool, limit: nat)
    requires f.Wf()
  {
    exists b, i :: Prunable(f, b, i, raise, limit)
  }

  predicate Earlier(c: nat, j: nat, b: nat, i: nat) {
    c < b || (c == b && j < i)
  }

  /** Is there something to prune before instruction `i` of block `b`? */
  ghost predicate PrunableBefore(f: Func, b: nat, i: nat, raise: bool, limit: nat)
    requires f.Wf()
  {
    exists c: nat, j: nat :: Earlier(c, j, b, i) && Prunable(f, c, j, raise, limit)
  }

  /** The heads marked by the increfs before that place. */
  ghost function MarkedBefore(f: Func, b: nat, i: nat, raise: bool, limit: nat): set<nat>
    requires f.Wf()
  {
    set c | 0 <= c < |f.blocks| && c <= b && Marked(f, c, if c < b then |f.blocks[c]| else i, raise, limit)
  }

  /** Up to some place the pass has erased something if there was something to prune, and has
      only marked heads if not. */
  ghost predicate RunIs(f: Func, t: Tried, b: nat, i: nat, raise: bool, limit: nat)
    requires f.Wf()
  {
    if PrunableBefore(f, b, i, raise, limit) then RefopTotal(t.f.blocks) < RefopTotal(f.blocks)
    else t == Tried(f, MarkedBefore(f, b, i, raise, limit))
  }

  function SitesBefore(f: Func, b: nat, i: nat): seq<Site>
    requires b < |f.blocks| && i <= |f.blocks[b]|
  {
    Refops(f, false, b) + BlockRefops(f.blocks[b][..i], b, false)
  }

  lemma StepNoMore(t: Tried, s: Site, raise: bool, limit: nat)
    ensures RefopTotal(FanoutStep(t, s, raise, limit).f.blocks) <= RefopTotal(t.f.blocks)
  {
    if t.f.Wf() && s.block < |t.f.blocks| && s.ins.op.Incref? {
      EraseTotalNoMore(t.f.blocks, IdsFor(Query(t.f, s.ins.op.p, s.block, raise), s.ins.id));
    }
  }

  lemma MarkedNext(f: Func, b: nat, i: nat, raise: bool, limit: nat)
    requires f.Wf() && b < |f.blocks| && i < |f.blocks[b]|
    ensures Marked(f, b, i + 1, raise, limit) <==>
              Marked(f, b, i, raise, limit)
              || (!HasDecref(f.blocks[b]) && IncrefAt(f, b, i) && Marks(QueryAt(f, b, i, raise), limit))
  {
  }

  lemma MarkedBeforeNext(f: Func, b: nat, i: nat, raise: bool, limit: nat)
    requires f.Wf() && b < |f.blocks| && i < |f.blocks[b]|
    ensures MarkedBefore(f, b, i + 1, raise, limit) ==
            MarkedBefore(f, b, i, raise, limit) + if Marked(f, b, i + 1, raise, limit) then {b} else {}
    ensures b in MarkedBefore(f, b, i, raise, limit) <==> Marked(f, b, i, raise, limit)
  {
    MarkedNext(f, b, i, raise, limit);
  }

  lemma PrunableNext(f: Func, b: nat, i: nat, raise: bool, limit: nat)
    requires f.Wf() && b < |f.blocks| && i < |f.blocks[b]|
    ensures PrunableBefore(f, b, i + 1, raise, limit) <==>
              PrunableBefore(f, b, i, raise, limit) || Prunable(f, b, i, raise, limit)
  {
    if Prunable(f, b, i, raise, limit) {
      assert Earlier(b, i, b, i + 1);
    }
    if PrunableBefore(f, b, i, raise, limit) {
      var c: nat, j: nat :| Earlier(c, j, b, i) && Prunable(f, c, j, raise, limit);
      assert Earlier(c, j, b, i + 1);
    }
    if PrunableBefore(f, b, i + 1, raise, limit) && !Prunable(f, b, i, raise, limit) {
      var c: nat, j: nat :| Earlier(c, j, b, i + 1) && Prunable(f, c, j, raise, limit);
      assert Earlier(c, j, b, i);
    }
  }

  /** At an incref that is tried with nothing erased so far. */
  lemma StepAt(f: Func, b: nat, i: nat, raise: bool, limit: nat)
    requires f.Wf() && IncrefAt(f, b, i) && !PrunableBefore(f, b, i, raise, limit)
    ensures RunIs(f, FanoutStep(Tried(f, MarkedBefore(f, b, i, raise, limit)), Site(b, f.blocks[b][i]), raise, limit),
                  b, i + 1, raise, limit)
  {
    var bad, s := MarkedBefore(f, b, i, raise, limit), Site(b, f.blocks[b][i]);
    var q := QueryAt(f, b, i, raise);
    MarkedNext(f, b, i, raise, limit);
    MarkedBeforeNext(f, b, i, raise, limit);
    PrunableNext(f, b, i, raise, limit);
    if Prunable(f, b, i, raise, limit) {
      EraseTotal(f.blocks, IdsFor(q, s.ins.id), b, i);
    }
  }

  lemma {:induction false} RunTo(f: Func, b: nat, i: nat, raise: bool, limit: nat)
    requires f.Wf() && b < |f.blocks| && i <= |f.blocks[b]|
    ensures RunIs(f, FanoutRun(f, SitesBefore(f, b, i), raise, limit), b, i, raise, limit)
    decreases b, i
  {
    if i == 0 {
      RunToBlock(f, b, raise, limit);
    } else {
      RunTo(f, b, i - 1, raise, limit);
      RunNext(f, b, i - 1, raise, limit);
    }
  }

  lemma RunNext(f: Func, b: nat, i: nat, raise: bool, limit: nat)
    requires f.Wf() && b < |f.blocks| && i < |f.blocks[b]|
    requires RunIs(f, FanoutRun(f, SitesBefore(f, b, i), raise, limit), b, i, raise, limit)
    ensures RunIs(f, FanoutRun(f, SitesBefore(f, b, i + 1), raise, limit), b, i + 1, raise, limit)
  {
    var now, next := SitesBefore(f, b, i), SitesBefore(f, b, i + 1);
    var s := Site(b, f.blocks[b][i]);
    assert f.blocks[b][..i+1][..i] == f.blocks[b][..i];
    PrunableNext(f, b, i, raise, limit);
    if IsKind(s, false) {
      assert next == now + [s] && next[..|now|] == now;
      if PrunableBefore(f, b, i, raise, limit) {
        StepNoMore(FanoutRun(f, now, raise, limit), s, raise, limit);
      } else {
        StepAt(f, b, i, raise, limit);
      }
    } else {
      assert next == now;
      MarkedBeforeNext(f, b, i, raise, limit);
      MarkedNext(f, b, i, raise, limit);
    }
  }

  /** The beginning of a block is the end of the one before. */
  lemma RunToBlock(f: Func, b: nat, raise: bool, limit: nat)
    requires f.Wf() && b < |f.blocks|
    ensures RunIs(f, FanoutRun(f, SitesBefore(f, b, 0), raise, limit), b, 0, raise, limit)
    decreases b, 0, 0
  {
    if b == 0 {
      assert SitesBefore(f, 0, 0) == [];
      assert MarkedBefore(f, 0, 0, raise, limit) == {};
    } else {
      var n := |f.blocks[b-1]|;
      RunTo(f, b - 1, n, raise, limit);
      BlockEnd(f, b, raise, limit);
    }
  }

  lemma BlockEnd(f: Func, b: nat, raise: bool, limit: nat)
    requires f.Wf() && 0 < b < |f.blocks|
    ensures
      var n := |f.blocks[b-1]|;
      && SitesBefore(f, b, 0) == SitesBefore(f, b - 1, n)
      && MarkedBefore(f, b, 0, raise, limit) == MarkedBefore(f, b - 1, n, raise, limit)
      && (PrunableBefore(f, b, 0, raise, limit) <==> PrunableBefore(f, b - 1, n, raise, limit))
  {
    SitesAtEnd(f, b);
    MarkedAtEnd(f, b, raise, limit);
    PrunableAtEnd(f, b, raise, limit);
  }

  lemma SitesAtEnd(f: Func, b: nat)
    requires 0 < b < |f.blocks|
    ensures SitesBefore(f, b, 0) == SitesBefore(f, b - 1, |f.blocks[b-1]|)
  {
    assert f.blocks[b-1][..|f.blocks[b-1]|] == f.blocks[b-1];
  }

  lemma MarkedAtEnd(f: Func, b: nat, raise: bool, limit: nat)
    requires f.Wf() && 0 < b < |f.blocks|
    ensures MarkedBefore(f, b, 0, raise, limit) == MarkedBefore(f, b - 1, |f.blocks[b-1]|, raise, limit)
  {
    assert !Marked(f, b, 0, raise, limit);
  }

  lemma PrunableAtEnd(f: Func, b: nat, raise: bool, limit: nat)
    requires f.Wf() && 0 < b < |f.blocks|
    ensures PrunableBefore(f, b, 0, raise, limit) <==> PrunableBefore(f, b - 1, |f.blocks[b-1]|, raise, limit)
  {
    var n := |f.blocks[b-1]|;
    if PrunableBefore(f, b, 0, raise, limit) {
      var c: nat, j: nat :| Earlier(c, j, b, 0) && Prunable(f, c, j, raise, limit);
      assert Earlier(c, j, b - 1, n);
    }
    if PrunableBefore(f, b - 1, n, raise, limit) {
      var c: nat, j: nat :| Earlier(c, j, b - 1, n) && Prunable(f, c, j, raise, limit);
      assert Earlier(c, j, b, 0);
    }
  }

  /** The pass leaves a function as it is exactly if no incref in it is prunable. */
  lemma FanoutIdle(f: Func, raise: bool, limit: nat)
    requires f.Wf()
    ensures AfterFanout(f, raise, limit) == f <==> !SomePrunable(f, raise, limit)
  {
    var b := |f.blocks| - 1;
    var n := |f.blocks[b]|;
    assert f.blocks[b][..n] == f.blocks[b];
    assert SitesBefore(f, b, n) == Refops(f, false, |f.blocks|);
    RunTo(f, b, n, raise, limit);
    if SomePrunable(f, raise, limit) {
      var c, j :| Prunable(f, c, j, raise, limit);
      assert Earlier(c, j, b, n);
    }
  }

  // ----- a candidate that is not tried

  /** A head with two increfs whose successor decrefs only the second pointer. */
  function MaskingHead(): Func {
    Func([[Instr(0, Incref(Val(0))), Instr(1, Incref(Val(1)))], [Instr(2, Decref(Val(1)))]], [[1], []])
  }

  lemma MaskingHeadShape()
    ensures
      var f := MaskingHead();
      && f.Wf() && |f.blocks| == 2 && !HasDecref(f.blocks[0]) && IncrefAt(f, 0, 0) && IncrefAt(f, 0, 1)
      && HasDecrefOf(f.blocks[1], Val(1)) && !HasDecrefOf(f.blocks[1], Val(0))
      && f.succs[0] == [1] && f.succs[1] == []
  {
    var f := MaskingHead();
    assert |f.blocks[0]| == 2 && |f.blocks[1]| == 1;
    assert f.blocks[0][0].id == 0 && f.blocks[0][1].id == 1 && f.blocks[1][0].id == 2;
    assert f.blocks[1][0].op == Decref(Val(1));
  }

  lemma MaskingHeadStep(path: seq<nat>, k: nat)
    requires MaskingHead().Path(path) && 0 < k < |path|
    ensures path[k-1] == 0 && path[k] == 1
  {
    MaskingHeadShape();
    assert MaskingHead().Step(path, k);
  }

  /** The only way for the second incref is to the decref. */
  lemma SecondWays(way: seq<nat>)
    ensures
      var q := Query(MaskingHead(), Val(1), 0, false);
      !q.BadWay(way) && !q.DeepWay(way)
  {
    MaskingHeadShape();
    var q := Query(MaskingHead(), Val(1), 0, false);
    if |way| >= 2 && q.f.Path(way) {
      MaskingHeadStep(way, 1);
      if |way| > 2 {
        MaskingHeadStep(way, 2);
      }
      assert way == [0, 1];
    }
  }

  lemma SecondTrails(trail: seq<nat>)
    ensures !Tails(MaskingHead(), 0, {1}, {}).BadTrail(trail)
  {
    if |trail| >= 2 && MaskingHead().Path(trail) {
      MaskingHeadStep(trail, 1);
    }
  }

  lemma SecondFans(limit: nat)
    requires limit >= 1
    ensures MaskingHead().Wf() && Fans(Query(MaskingHead(), Val(1), 0, false), limit)
  {
    MaskingHeadShape();
    var q := Query(MaskingHead(), Val(1), 0, false);
    assert q.Reaches([0, 1], 1) by {
      assert q.f.Step([0, 1], 1);
      assert [0, 1][..1] == [0];
    }
    assert q.DecrefEnd(1);
    assert DecrefEnds(q) == {1} && RaiseEnds(q) == {};
    forall way ensures !q.BadWay(way) && !q.DeepWay(way) {
      SecondWays(way);
    }
    assert WalkSize(q, [0], 1) == 1;
    assert WalkSizes(q, [0], 0, 0) == 1;
    forall trail ensures !Tails(q.f, q.head, DecrefEnds(q) + RaiseEnds(q), Avoided(q)).BadTrail(trail) {
      SecondTrails(trail);
      assert DecrefEnds(q) + RaiseEnds(q) == {1};
    }
  }

  /** The first incref's walk meets the foreign decref and marks the head, so the second, which
      meets the condition, is never tried: the pass leaves it, however often it is repeated. */
  lemma MaskedCandidateStays(limit: nat)
    requires limit >= 1
    ensures
      var f := MaskingHead();
      f.Wf() && Candidate(f, 0, 1, false, limit) && AfterFanout(f, false, limit) == f
  {
    MaskingHeadShape();
    SecondFans(limit);
    var f := MaskingHead();
    var q := QueryAt(f, 0, 0, false);
    assert Visit(q, limit, [0], 1, 0) == Failed(1, true);
    assert Marks(q, limit);
    assert !Goes(q, limit) by {
      if Goes(q, limit) {
        GoesPasses(q, limit);
      }
    }
    assert Marked(f, 0, 1, false, limit);
    forall b, i ensures !Prunable(f, b, i, false, limit) {
      if Candidate(f, b, i, false, limit) {
        assert b == 0 && i < 2;
      }
    }
    FanoutIdle(f, false, limit);
  }
}
