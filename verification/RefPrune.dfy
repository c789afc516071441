/** The pruning pass: its four subpasses, repeated until none of them changes anything. */
module RefPrune {
  import opened RefIr
  import opened Balance
  import opened PruneTheory
  import opened DiamondTheory
  import opened RefNormalize
  import opened BlockTheory
  import opened BlockPrune
  import opened FanoutForward
  import opened FanoutPrune
  import opened FanoutPass
  import opened DiamondPrune
  import opened PassTheory
  import BlockSafety

  datatype Subpasses = Subpasses(perBlock: bool, diamond: bool, fanout: bool, fanoutRaise: bool)
  {
    predicate BlocksOnly() {
      perBlock && !diamond && !fanout && !fanoutRaise
    }
  }

  // ----- per block

  lemma ProgressIsPass(f: Func, g: Func, b: nat, ids: set<nat>, avoid: set<nat>, sound: bool)
    requires Progress(f, g, b, ids)
    ensures PassResult(f, g, ids, avoid, sound)
  {
    SameCountsNet(f, g);
    SameNetLess(f, g, {}, avoid);
    forall x | x in ids ensures IsRefopOf(f, x) {
      assert IsRefopId(f.blocks[b], x);
    }
  }

  /** Erasing in block `b` leaves the other blocks alone. */
  lemma ProgressElsewhere(f: Func, g: Func, b: nat, ids: set<nat>, c: nat)
    requires f.Wf() && Progress(f, g, b, ids) && c < |f.blocks| && c != b
    ensures g.blocks[c] == f.blocks[c]
  {
    forall i | 0 <= i < |f.blocks[c]| ensures f.blocks[c][i].id !in ids {
      if f.blocks[c][i].id in ids {
        var j :| 0 <= j < |f.blocks[b]| && f.blocks[b][j].id == f.blocks[c][i].id && f.blocks[b][j].op.IsRefop();
        assert f.Clash(c, i, b, j);
        assert false;
      }
    }
    EraseNone(f.blocks[c], ids);
  }

  method RunPerBasicBlockPrune(F: IrFunction, ghost avoid: set<nat>, ghost sound: bool)
    returns (mutated: bool, ghost ids: set<nat>)
    requires F.View().Wf() && F.View().Ssa()
    modifies F
    ensures PassResult(old(F.View()), F.View(), ids, avoid, sound) && (mutated <==> ids != {})
    ensures |F.blocks| == |old(F.blocks)|
    ensures forall b :: 0 <= b < |F.blocks| ==> Pruned(old(F.blocks)[b], F.blocks[b])
    ensures SameCounts(old(F.View()), F.View())
  {
    ghost var f := F.View();
    mutated, ids := false, {};
    PassNothing(f, avoid, sound);
    for b := 0 to |F.blocks|
      invariant PassResult(f, F.View(), ids, avoid, sound) && (mutated <==> ids != {})
      invariant |F.blocks| == |f.blocks| && SameCounts(f, F.View())
      invariant forall c :: 0 <= c < b ==> Pruned(f.blocks[c], F.blocks[c])
      invariant forall c :: b <= c < |f.blocks| ==> F.blocks[c] == f.blocks[c]
    {
      ghost var g := F.View();
      var changed;
      ghost var more;
      changed, more := PruneBlock(F, b);
      forall c | 0 <= c < |f.blocks| && c != b ensures F.blocks[c] == g.blocks[c] {
        ProgressElsewhere(g, F.View(), b, more, c);
      }
      ProgressIsPass(g, F.View(), b, more, avoid, sound);
      SameCountsTransitive(f, g, F.View());
      PassThen(f, g, F.View(), ids, more, avoid, sound);
      ids := ids + more;
      mutated := mutated || changed;
    }
  }

  // ----- fan-out

  lemma FanoutIsPass(q: Query, m: Pairing, s: Site, avoid: set<nat>, sound: bool)
    requires q.f.Wf() && q.f.Ssa() && FanoutOk(q, m.tails.Keys) && At(q.f, s) && s.ins.op.Incref?
    requires q.head == s.block && q.p == s.ins.op.p
    requires m.head == s.block && m.inc == s.ins.id && m.ptr == s.ins.op.p && Chosen(q.f, m.ptr, m.tails)
    requires Avoided(q) <= avoid
    ensures PassResult(q.f, Erase(q.f, m.Ids()), m.Ids(), avoid, sound)
  {
    assert s.ins == Instr(m.inc, Incref(m.ptr));
    FanoutPruneSound(q, m);
    SameNetLess(q.f, Erase(q.f, m.Ids()), Avoided(q), avoid);
    EraseKeepsWf(q.f, m.Ids());
    EraseKeepsSsa(q.f, m.Ids());
    forall x | x in m.Ids() ensures IsRefopOf(q.f, x) {
      if x == m.inc {
        SiteIsRefop(q.f, s);
      } else {
        ChosenIsRefop(q.f, m, x);
      }
    }
  }

  lemma ChosenIsRefop(f: Func, m: Pairing, x: nat)
    requires Chosen(f, m.ptr, m.tails) && x in m.tails.Values
    ensures IsRefopOf(f, x) && exists t :: At(f, t) && t.ins.id == x && t.ins.op.Decref?
  {
    var b :| b in m.tails && m.tails[b] == x;
    var j: nat :| FirstDecrefAt(f.blocks[b], m.ptr, x, j);
    assert IsRefopId(f.blocks[b], x);
    assert At(f, Site(b, f.blocks[b][j]));
  }

  /** The other increfs are still there. */
  lemma FanoutKeepsIncrefs(f: Func, m: Pairing)
    requires f.Wf() && Chosen(f, m.ptr, m.tails)
    ensures forall s :: At(f, s) && s.ins.op.Incref? && s.ins.id != m.inc ==> At(Erase(f, m.Ids()), s)
  {
    forall s | At(f, s) && s.ins.op.Incref? && s.ins.id != m.inc ensures At(Erase(f, m.Ids()), s) {
      if s.ins.id in m.tails.Values {
        ChosenIsRefop(f, m, s.ins.id);
        var t :| At(f, t) && t.ins.id == s.ins.id && t.ins.op.Decref?;
        SitesUnique(f, s, t);
      }
      SiteSurvives(f, m.Ids(), s);
    }
  }

  /** Tries to prune one incref. */
  method FanoutIncref(F: IrFunction, s: Site, badBlocks: set<nat>, raise: bool, subgraphLimit: nat,
                      ghost avoid: set<nat>, ghost sound: bool)
    returns (mutated: bool, badBlocks': set<nat>, ghost ids: set<nat>)
    requires F.View().Wf() && F.View().Ssa() && At(F.View(), s) && s.ins.op.Incref?
    requires raise ==> RaisingBlocks(F.View()) <= avoid
    modifies F
    ensures PassResult(old(F.View()), F.View(), ids, avoid, sound) && (mutated <==> ids != {})
    ensures Tried(F.View(), badBlocks') == FanoutStep(Tried(old(F.View()), badBlocks), s, raise, subgraphLimit)
    ensures forall t :: At(old(F.View()), t) && t.ins.op.Incref? && t.ins.id != s.ins.id ==> At(F.View(), t)
  {
    ghost var f := F.View();
    if s.block !in badBlocks && !HasDecref(F.blocks[s.block]) {
      var q := Query(F.View(), s.ins.op.p, s.block, raise);
      var found, decrefBlocks;
      found, decrefBlocks, badBlocks' := FindFanout(q, subgraphLimit, badBlocks);
      if found {
        ghost var m := EraseFanout(F, s.block, s.ins, decrefBlocks);
        ChosenAre(q, m.tails);
        FanoutIsPass(q, m, s, avoid, sound);
        FanoutKeepsIncrefs(f, m);
        return true, badBlocks', m.Ids();
      }
    } else {
      badBlocks' := badBlocks;
    }
    PassNothing(f, avoid, sound);
    mutated, ids := false, {};
  }

  /** Where the pass is after `i` increfs. */
  ghost predicate SoFar(f: Func, increfs: seq<Site>, i: nat, raise: bool, limit: nat, avoid: set<nat>, sound: bool,
                        g: Func, bad: set<nat>, ids: set<nat>)
    requires i <= |increfs|
  {
    && PassResult(f, g, ids, avoid, sound) && Tried(g, bad) == FanoutRun(f, increfs[..i], raise, limit)
    && forall k :: i <= k < |increfs| ==> At(g, increfs[k]) && increfs[k].ins.op.Incref?
  }

  lemma SoFarNext(f: Func, increfs: seq<Site>, i: nat, raise: bool, limit: nat, avoid: set<nat>, sound: bool,
                  g: Func, bad: set<nat>, ids: set<nat>, h: Func, bad': set<nat>, more: set<nat>)
    requires f.Wf() && i < |increfs| && SoFar(f, increfs, i, raise, limit, avoid, sound, g, bad, ids)
    requires PassResult(g, h, more, avoid, sound) && DistinctSites(increfs)
    requires Tried(h, bad') == FanoutStep(Tried(g, bad), increfs[i], raise, limit)
    requires forall t :: At(g, t) && t.ins.op.Incref? && t.ins.id != increfs[i].ins.id ==> At(h, t)
    ensures SoFar(f, increfs, i + 1, raise, limit, avoid, sound, h, bad', ids + more)
  {
    assert increfs[..i+1][..i] == increfs[..i];
    PassThen(f, g, h, ids, more, avoid, sound);
  }

  lemma SoFarStart(f: Func, increfs: seq<Site>, raise: bool, limit: nat, avoid: set<nat>, sound: bool)
    requires f.Wf() && f.Ssa() && forall s :: s in increfs ==> At(f, s) && IsKind(s, false)
    ensures SoFar(f, increfs, 0, raise, limit, avoid, sound, f, {}, {})
  {
    PassNothing(f, avoid, sound);
    assert forall i :: 0 <= i < |increfs| ==> increfs[i] in increfs;
  }

  method RunFanoutPrune(F: IrFunction, raise: bool, subgraphLimit: nat, ghost avoid: set<nat>, ghost sound: bool)
    returns (mutated: bool, ghost ids: set<nat>)
    requires F.View().Wf() && F.View().Ssa()
    requires raise ==> RaisingBlocks(F.View()) <= avoid
    modifies F
    ensures PassResult(old(F.View()), F.View(), ids, avoid, sound) && (mutated <==> ids != {})
    ensures F.View() == AfterFanout(old(F.View()), raise, subgraphLimit)
  {
    ghost var f := F.View();
    var increfs := ListRefops(F.View(), false);
    SoFarStart(f, increfs, raise, subgraphLimit, avoid, sound);
    var badBlocks: set<nat> := {};
    mutated, ids := false, {};
    for i := 0 to |increfs|
      invariant SoFar(f, increfs, i, raise, subgraphLimit, avoid, sound, F.View(), badBlocks, ids)
      invariant mutated <==> ids != {}
    {
      ghost var g, bad := F.View(), badBlocks;
      PassKeepsRaising(f, g, ids, avoid, sound);
      var changed;
      ghost var more;
      changed, badBlocks, more := FanoutIncref(F, increfs[i], badBlocks, raise, subgraphLimit, avoid, sound);
      SoFarNext(f, increfs, i, raise, subgraphLimit, avoid, sound, g, bad, ids, F.View(), badBlocks, more);
      ids := ids + more;
      mutated := mutated || changed;
    }
    assert increfs[..|increfs|] == increfs;
  }

  // ----- all subpasses

  /** With the raise variant, nothing is claimed of runs that enter a raising block. */
  function Excused(f: Func, flags: Subpasses): set<nat> {
    if flags.fanoutRaise then RaisingBlocks(f) else {}
  }

  ghost predicate DiamondsSound(f: Func, flags: Subpasses, trees: Trees) {
    flags.diamond ==> trees.NoBypasses(f)
  }

  /** Nothing is left for the per-block subpass: no operation on null, and no value with
      both an incref and a decref in one block. */
  ghost predicate Settled(code: Code) {
    && (forall x :: x in code ==> !OnNull(x))
    && forall x, y :: x in code && y in code && x.op.Incref? && y.op.Decref? ==> x.op.p != y.op.p
  }

  lemma PrunedSettled(code: Code, r: Code)
    requires Pruned(code, r)
    ensures Settled(r)
  {
    forall x, y | x in r && y in r && x.op.Incref? && y.op.Decref? ensures x.op.p != y.op.p {
      if x.op.p == y.op.p {
        assert !OnNull(x);
        var v := x.op.p.name;
        assert Cancelled(code, r, Val(v));
        CountOpZero(r, Incref(Val(v)));
        CountOpZero(r, Decref(Val(v)));
        assert false;
      }
    }
  }

  /** No enabled subpass can do more: nothing is prunable within a block, no diamond is accepted,
      and no incref that is tried meets a fan-out condition. */
  ghost predicate Exhausted(f: Func, flags: Subpasses, trees: Trees, limit: nat)
    requires f.Wf()
  {
    && (flags.perBlock ==> forall b :: 0 <= b < |f.blocks| ==> Settled(f.blocks[b]))
    && (flags.diamond ==> !SomeDiamond(f, trees))
    && (flags.fanout ==> !SomePrunable(f, false, limit))
    && (flags.fanoutRaise ==> !SomePrunable(f, true, limit))
  }

  ghost function AfterFanouts(f: Func, flags: Subpasses, limit: nat): Func {
    var g := if flags.fanout then AfterFanout(f, false, limit) else f;
    if flags.fanoutRaise then AfterFanout(g, true, limit) else g
  }

  ghost predicate BlocksDone(f: Func, flags: Subpasses, g: Func) {
    if flags.perBlock then AllPruned(f, g) else g == f
  }

  /** Blocks, then diamonds, as far as these subpasses are enabled. */
  ghost predicate LocallyDone(f: Func, flags: Subpasses, trees: Trees, h: Func) {
    exists g :: BlocksDone(f, flags, g) && h == if flags.diamond then AfterDiamonds(g, trees) else g
  }

  /** One round of exactly the enabled subpasses: blocks, diamonds, fan-outs, fan-outs with raises. */
  ghost predicate RoundDone(f: Func, flags: Subpasses, trees: Trees, limit: nat, h: Func) {
    exists g :: LocallyDone(f, flags, trees, g) && h == AfterFanouts(g, flags, limit)
  }

  /** Round after round, up to one that changes nothing. */
  ghost predicate RoundsDone(rounds: seq<Func>, flags: Subpasses, trees: Trees, limit: nat) {
    && |rounds| > 0
    && forall k :: 0 < k < |rounds| ==> RoundAt(rounds, k, flags, trees, limit)
  }

  ghost predicate RoundAt(rounds: seq<Func>, k: nat, flags: Subpasses, trees: Trees, limit: nat)
    requires 0 < k < |rounds|
  {
    RoundDone(rounds[k-1], flags, trees, limit, rounds[k]) && (rounds[k-1] == rounds[k] ==> k == |rounds| - 1)
  }

  lemma RoundsNext(rounds: seq<Func>, flags: Subpasses, trees: Trees, limit: nat, h: Func)
    requires RoundsDone(rounds, flags, trees, limit) && RoundDone(rounds[|rounds| - 1], flags, trees, limit, h)
    requires |rounds| > 1 ==> rounds[|rounds| - 2] != rounds[|rounds| - 1]
    ensures RoundsDone(rounds + [h], flags, trees, limit)
  {
    var next := rounds + [h];
    forall k | 0 < k < |next| ensures RoundAt(next, k, flags, trees, limit) {
      if k < |rounds| {
        assert RoundAt(rounds, k, flags, trees, limit);
      }
    }
  }

  /** Both variants of the fan-out subpass, if they are enabled. */
  method RunFanouts(F: IrFunction, flags: Subpasses, subgraphLimit: nat, ghost avoid: set<nat>, ghost sound: bool)
    returns (mutated: bool, ghost ids: set<nat>)
    requires F.View().Wf() && F.View().Ssa()
    requires flags.fanoutRaise ==> RaisingBlocks(F.View()) <= avoid
    modifies F
    ensures PassResult(old(F.View()), F.View(), ids, avoid, sound) && (mutated <==> ids != {})
    ensures F.View() == AfterFanouts(old(F.View()), flags, subgraphLimit)
    ensures !flags.fanout && !flags.fanoutRaise ==> !mutated
    ensures !mutated ==> F.View() == old(F.View())
    ensures !mutated && flags.fanout ==> !SomePrunable(F.View(), false, subgraphLimit)
    ensures !mutated && flags.fanoutRaise ==> !SomePrunable(F.View(), true, subgraphLimit)
  {
    ghost var f := F.View();
    mutated, ids := false, {};
    PassNothing(f, avoid, sound);
    if flags.fanout {
      mutated, ids := RunFanoutPrune(F, false, subgraphLimit, avoid, sound);
    }
    if flags.fanoutRaise {
      ghost var g := F.View();
      PassKeepsRaising(f, g, ids, avoid, sound);
      var changed;
      ghost var more;
      changed, more := RunFanoutPrune(F, true, subgraphLimit, avoid, sound);
      PassThen(f, g, F.View(), ids, more, avoid, sound);
      mutated, ids := mutated || changed, ids + more;
    }
    EraseAllNone(f);
    FanoutIdle(f, false, subgraphLimit);
    FanoutIdle(f, true, subgraphLimit);
  }

  /** The subpasses within blocks and across diamonds, if they are enabled. */
  method RunBlocksAndDiamonds(F: IrFunction, flags: Subpasses, trees: Trees, ghost avoid: set<nat>)
    returns (mutated: bool, ghost ids: set<nat>)
    requires F.View().Wf() && F.View().Ssa() && trees.Sound(F.View())
    modifies F
    ensures PassResult(old(F.View()), F.View(), ids, avoid, DiamondsSound(old(F.View()), flags, trees))
    ensures mutated <==> ids != {}
    ensures LocallyDone(old(F.View()), flags, trees, F.View())
    ensures !mutated ==> F.View() == old(F.View())
    ensures !mutated && flags.perBlock ==> forall b :: 0 <= b < |F.blocks| ==> Settled(F.blocks[b])
    ensures !mutated && flags.diamond ==> !SomeDiamond(F.View(), trees)
    ensures flags.BlocksOnly() ==> AllPruned(old(F.View()), F.View()) && SameCounts(old(F.View()), F.View())
  {
    ghost var f := F.View();
    ghost var sound := DiamondsSound(f, flags, trees);
    mutated, ids := false, {};
    PassNothing(f, avoid, sound);
    if flags.perBlock {
      mutated, ids := RunPerBasicBlockPrune(F, avoid, sound);
      forall b | 0 <= b < |F.blocks| ensures Settled(F.blocks[b]) {
        PrunedSettled(f.blocks[b], F.blocks[b]);
      }
    }
    ghost var pruned := F.View();
    assert BlocksDone(f, flags, pruned);
    if flags.diamond {
      ghost var g := F.View();
      TreesStaySound(trees, f, g);
      if sound {
        NoNewBypasses(trees, f, ids);
      }
      var changed;
      ghost var more;
      changed, more := RunDiamondPrune(F, trees, avoid);
      PassThen(f, g, F.View(), ids, more, avoid, sound);
      mutated, ids := mutated || changed, ids + more;
    }
    EraseAllNone(f);
    DiamondIdle(f, trees);
  }

  /** One round of the enabled subpasses. */
  method Round(F: IrFunction, flags: Subpasses, trees: Trees, subgraphLimit: nat, ghost avoid: set<nat>)
    returns (mutated: bool, ghost ids: set<nat>)
    requires F.View().Wf() && F.View().Ssa() && trees.Sound(F.View())
    requires flags.fanoutRaise ==> RaisingBlocks(F.View()) <= avoid
    modifies F
    ensures PassResult(old(F.View()), F.View(), ids, avoid, DiamondsSound(old(F.View()), flags, trees))
    ensures mutated <==> ids != {}
    ensures RoundDone(old(F.View()), flags, trees, subgraphLimit, F.View())
    ensures !mutated ==> F.View() == old(F.View()) && Exhausted(F.View(), flags, trees, subgraphLimit)
    ensures mutated ==> RefopTotal(F.blocks) < RefopTotal(old(F.blocks))
    ensures flags.BlocksOnly() ==> AllPruned(old(F.View()), F.View()) && SameCounts(old(F.View()), F.View())
  {
    ghost var f := F.View();
    ghost var sound := DiamondsSound(f, flags, trees);
    mutated, ids := RunBlocksAndDiamonds(F, flags, trees, avoid);
    ghost var g := F.View();
    PassKeepsRaising(f, g, ids, avoid, sound);
    var changed;
    ghost var more;
    changed, more := RunFanouts(F, flags, subgraphLimit, avoid, sound);
    PassThen(f, g, F.View(), ids, more, avoid, sound);
    mutated, ids := mutated || changed, ids + more;
    PassShrinks(f, F.View(), ids, avoid, sound);
  }

  /** The pass. It ends because a round that changed anything erased a reference operation.
      Every object has the same net count on every complete run (through no raising block,
      if the raise variant is on), provided no run bypasses a diamond. */
  method RunOnFunction(F: IrFunction, flags: Subpasses, trees: Trees, subgraphLimit: nat)
    returns (mutated: bool, ghost ids: set<nat>, ghost rounds: seq<Func>)
    requires F.View().Wf() && F.View().Ssa() && trees.Sound(F.View())
    modifies F
    ensures RoundsDone(rounds, flags, trees, subgraphLimit) && |rounds| > 1
    ensures rounds[0] == old(F.View()) && rounds[|rounds| - 2] == rounds[|rounds| - 1] == F.View()
    ensures PassResult(old(F.View()), F.View(), ids, Excused(old(F.View()), flags), DiamondsSound(old(F.View()), flags, trees))
    ensures mutated <==> ids != {}
    ensures Exhausted(F.View(), flags, trees, subgraphLimit)
    ensures flags.BlocksOnly() ==> AllPruned(old(F.View()), F.View()) && SameCounts(old(F.View()), F.View())
  {
    ghost var f := F.View();
    RanStart(f, flags, trees, subgraphLimit);
    mutated, ids, rounds := RunRounds(F, flags, trees, subgraphLimit, f);
    RanEnd(f, flags, trees, subgraphLimit, rounds, ids, F.View());
  }

  method RunRounds(F: IrFunction, flags: Subpasses, trees: Trees, subgraphLimit: nat, ghost f: Func)
    returns (mutated: bool, ghost ids: set<nat>, ghost rounds: seq<Func>)
    requires f == F.View() && f.Wf() && trees.Sound(f) && Ran(f, flags, trees, subgraphLimit, [f], {}, f)
    modifies F
    ensures Ran(f, flags, trees, subgraphLimit, rounds, ids, F.View()) && |rounds| > 1 && !MayGoOn(rounds)
    ensures (mutated <==> ids != {}) && Exhausted(F.View(), flags, trees, subgraphLimit)
  {
    mutated, ids, rounds := false, {}, [f];
    var again := true;
    while again
      invariant Ran(f, flags, trees, subgraphLimit, rounds, ids, F.View()) && (mutated <==> ids != {})
      invariant again <==> MayGoOn(rounds)
      invariant !again ==> |rounds| > 1 && Exhausted(F.View(), flags, trees, subgraphLimit)
      decreases RefopTotal(F.blocks) + if again then 1 else 0
    {
      again, rounds, ids := NextRound(F, flags, trees, subgraphLimit, f, rounds, ids);
      mutated := mutated || again;
    }
  }

  /** One more round. */
  method NextRound(F: IrFunction, flags: Subpasses, trees: Trees, subgraphLimit: nat,
                   ghost f: Func, ghost rounds: seq<Func>, ghost ids: set<nat>)
    returns (again: bool, ghost rounds': seq<Func>, ghost ids': set<nat>)
    requires f.Wf() && trees.Sound(f) && Ran(f, flags, trees, subgraphLimit, rounds, ids, F.View()) && MayGoOn(rounds)
    modifies F
    ensures Ran(f, flags, trees, subgraphLimit, rounds', ids', F.View())
    ensures |rounds'| > 1 && (again <==> MayGoOn(rounds'))
    ensures if again then ids' != {} && RefopTotal(F.blocks) < RefopTotal(old(F.blocks))
            else ids' == ids && Exhausted(F.View(), flags, trees, subgraphLimit) && F.blocks == old(F.blocks)
  {
    ghost var g := F.View();
    RanReady(f, flags, trees, subgraphLimit, rounds, ids, g);
    ghost var more;
    again, more := Round(F, flags, trees, subgraphLimit, Excused(f, flags));
    RanNext(f, flags, trees, subgraphLimit, rounds, ids, g, F.View(), more);
    rounds', ids' := rounds + [F.View()], ids + more;
  }

  /** Did the last round, if there was one, change anything? */
  ghost predicate MayGoOn(rounds: seq<Func>) {
    |rounds| > 1 ==> rounds[|rounds| - 2] != rounds[|rounds| - 1]
  }

  /** What the rounds so far have come to. */
  ghost predicate Ran(f: Func, flags: Subpasses, trees: Trees, limit: nat, rounds: seq<Func>, ids: set<nat>, g: Func)
    requires f.Wf()
  {
    && RoundsDone(rounds, flags, trees, limit) && rounds[0] == f && rounds[|rounds| - 1] == g
    && PassResult(f, g, ids, Excused(f, flags), DiamondsSound(f, flags, trees))
    && (flags.BlocksOnly() && |rounds| > 1 ==> AllPruned(f, g) && SameCounts(f, g))
  }

  lemma RoundPasses(f: Func, flags: Subpasses, trees: Trees, ids: set<nat>, g: Func, h: Func, more: set<nat>)
    requires f.Wf() && PassResult(f, g, ids, Excused(f, flags), DiamondsSound(f, flags, trees))
    requires PassResult(g, h, more, Excused(f, flags), DiamondsSound(g, flags, trees))
    ensures PassResult(f, h, ids + more, Excused(f, flags), DiamondsSound(f, flags, trees))
  {
    var avoid, sound := Excused(f, flags), DiamondsSound(f, flags, trees);
    if sound && flags.diamond {
      NoNewBypasses(trees, f, ids);
    }
    PassWeaker(g, h, more, avoid, DiamondsSound(g, flags, trees), sound);
    PassThen(f, g, h, ids, more, avoid, sound);
  }

  lemma RanStart(f: Func, flags: Subpasses, trees: Trees, limit: nat)
    requires f.Wf() && f.Ssa()
    ensures Ran(f, flags, trees, limit, [f], {}, f) && MayGoOn([f])
  {
    PassNothing(f, Excused(f, flags), DiamondsSound(f, flags, trees));
  }

  /** What a round may rely on. */
  lemma RanReady(f: Func, flags: Subpasses, trees: Trees, limit: nat, rounds: seq<Func>, ids: set<nat>, g: Func)
    requires f.Wf() && trees.Sound(f) && Ran(f, flags, trees, limit, rounds, ids, g)
    ensures g.Wf() && g.Ssa() && trees.Sound(g) && (flags.fanoutRaise ==> RaisingBlocks(g) <= Excused(f, flags))
  {
    PassKeepsRaising(f, g, ids, Excused(f, flags), DiamondsSound(f, flags, trees));
    TreesStaySound(trees, f, g);
  }

  lemma RanNext(f: Func, flags: Subpasses, trees: Trees, limit: nat, rounds: seq<Func>, ids: set<nat>, g: Func, h: Func, more: set<nat>)
    requires f.Wf() && Ran(f, flags, trees, limit, rounds, ids, g) && MayGoOn(rounds)
    requires RoundDone(g, flags, trees, limit, h)
    requires PassResult(g, h, more, Excused(f, flags), DiamondsSound(g, flags, trees))
    requires flags.BlocksOnly() ==> AllPruned(g, h) && SameCounts(g, h)
    ensures Ran(f, flags, trees, limit, rounds + [h], ids + more, h)
    ensures MayGoOn(rounds + [h]) <==> g != h
  {
    RoundPasses(f, flags, trees, ids, g, h, more);
    RoundsNext(rounds, flags, trees, limit, h);
    LastTwo(rounds, h);
    if flags.BlocksOnly() && |rounds| > 1 {
      AllPrunedThen(f, g, h);
      SameCountsTransitive(f, g, h);
    }
  }

  lemma LastTwo(rounds: seq<Func>, h: Func)
    requires rounds != []
    ensures MayGoOn(rounds + [h]) <==> rounds[|rounds| - 1] != h
    ensures (rounds + [h])[0] == rounds[0] && (rounds + [h])[|rounds|] == h
  {
  }

  lemma RanEnd(f: Func, flags: Subpasses, trees: Trees, limit: nat, rounds: seq<Func>, ids: set<nat>, g: Func)
    requires f.Wf() && Ran(f, flags, trees, limit, rounds, ids, g) && |rounds| > 1 && !MayGoOn(rounds)
    ensures RoundsDone(rounds, flags, trees, limit)
    ensures rounds[0] == f && rounds[|rounds| - 2] == rounds[|rounds| - 1] == g
    ensures PassResult(f, g, ids, Excused(f, flags), DiamondsSound(f, flags, trees))
    ensures flags.BlocksOnly() ==> AllPruned(f, g) && SameCounts(f, g)
  {
  }

  lemma PassWeaker(f: Func, g: Func, ids: set<nat>, avoid: set<nat>, sound: bool, less: bool)
    requires PassResult(f, g, ids, avoid, sound) && (less ==> sound)
    ensures PassResult(f, g, ids, avoid, less)
  {
  }

  /** Normalising makes no reference operation. */
  lemma RefopWasThere(f: Func, id: nat)
    requires IsRefopOf(Normalized(f), id)
    ensures IsRefopOf(f, id)
  {
    var b :| 0 <= b < |f.blocks| && IsRefopId(Normalized(f).blocks[b], id);
    var code := NormalCode(f.blocks[b]);
    var i :| 0 <= i < |code| && code[i].id == id && code[i].op.IsRefop();
    NormalMembers(f.blocks[b]);
    assert code[i] in f.blocks[b];
    assert IsRefopId(f.blocks[b], id);
  }

  /** Normalising first and pruning then, as the pass is set up: the net counts are those
      of the function before both. Pruning within blocks only gives what `BlockSafety` is about. */
  method NormalizeAndPrune(F: IrFunction, flags: Subpasses, trees: Trees, subgraphLimit: nat)
    returns (mutated: bool, ghost ids: set<nat>)
    requires F.View().Wf() && F.View().Ssa() && trees.Sound(F.View())
    modifies F
    ensures F.View().Wf() && F.View().Ssa()
    ensures F.View() == Erase(Normalized(old(F.View())), ids)
    ensures forall x :: x in ids ==> IsRefopOf(old(F.View()), x)
    ensures mutated <==> SomeMoved(old(F.blocks)) || ids != {}
    ensures flags.BlocksOnly() ==> BlockSafety.BlockPruned(old(F.View()), F.View(), ids)
    ensures DiamondsSound(Normalized(old(F.View())), flags, trees) ==>
              SameNet(old(F.View()), F.View(), Excused(Normalized(old(F.View())), flags))
    ensures Exhausted(F.View(), flags, trees, subgraphLimit)
  {
    ghost var f := F.View();
    var moved := RefNormalize.RunOnFunction(F);
    ghost var g := F.View();
    TreesStaySound(trees, f, g);
    ghost var rounds;
    mutated, ids, rounds := RunOnFunction(F, flags, trees, subgraphLimit);
    forall x | x in ids ensures IsRefopOf(f, x) {
      RefopWasThere(f, x);
    }
    if DiamondsSound(g, flags, trees) {
      SameCountsNet(f, g);
      SameNetLess(f, g, {}, Excused(g, flags));
      SameNetTransitive(f, g, F.View(), Excused(g, flags));
    }
    mutated := mutated || moved;
  }
}
