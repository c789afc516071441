/** The diamond prune: an incref goes with a decref that postdominates it. */
module DiamondPrune {
  import opened Numbers
  import opened Options
  import opened RefIr
  import opened Balance
  import opened PruneTheory
  import opened DiamondTheory
  import opened WindowTheory
  import opened RefNormalize
  import opened BlockTheory
  import opened BlockPrune
  import opened FanoutBackward
  import opened PassTheory

  // ----- is there a decref between?

  /** A way from the head that does not enter the tail. */
  ghost predicate Between(f: Func, head: nat, tail: nat, path: seq<nat>) {
    && f.Path(path) && path != [] && path[0] == head
    && forall k :: 0 < k < |path| ==> path[k] != tail
  }

  ghost predicate DecrefBetween(f: Func, head: nat, tail: nat) {
    exists path :: Between(f, head, tail, path) && HasDecref(f.blocks[path[|path| - 1]])
  }

  ghost predicate ReachedFrom(f: Func, head: nat, tail: nat, v: nat) {
    exists path :: Between(f, head, tail, path) && path[|path| - 1] == v
  }

  /** Every successor of a visited block is visited, pending, or the tail. */
  ghost predicate Explored(f: Func, tail: nat, visited: set<nat>, stack: seq<nat>) {
    && (forall v :: v in visited ==> v < |f.blocks| && !HasDecref(f.blocks[v]))
    && (forall u, v :: u in visited && f.Edge(u, v) && v != tail ==> v in visited || v in stack)
  }

  lemma BetweenExtends(f: Func, head: nat, tail: nat, u: nat, v: nat)
    requires ReachedFrom(f, head, tail, u) && f.Edge(u, v) && v != tail
    ensures ReachedFrom(f, head, tail, v)
  {
    var path :| Between(f, head, tail, path) && path[|path| - 1] == u;
    var next := path + [v];
    forall k | 0 < k < |next| ensures f.Step(next, k) {
      if k < |path| {
        assert f.Step(path, k);
      }
    }
    assert Between(f, head, tail, next);
  }

  lemma {:induction false} ExploredAll(f: Func, head: nat, tail: nat, visited: set<nat>, path: seq<nat>)
    requires Explored(f, tail, visited, []) && head in visited && Between(f, head, tail, path)
    ensures path[|path| - 1] in visited
  {
    var n := |path| - 1;
    if n > 0 {
      var rest := path[..n];
      assert f.Step(path, n);
      forall k | 0 < k < |rest| ensures f.Step(rest, k) {
        assert f.Step(path, k);
      }
      ExploredAll(f, head, tail, visited, rest);
    }
  }

  method HasDecrefBetweenGraph(f: Func, head: nat, tail: nat) returns (found: bool)
    requires f.Wf() && head < |f.blocks|
    ensures found <==> DecrefBetween(f, head, tail)
  {
    var visited: set<nat> := {};
    var stack: seq<nat> := [head];
    assert Between(f, head, tail, [head]);
    while stack != []
      invariant Explored(f, tail, visited, stack) && visited <= Below(|f.blocks|)
      invariant head in visited || head in stack
      invariant forall v :: v in stack ==> v < |f.blocks| && ReachedFrom(f, head, tail, v)
      decreases Below(|f.blocks|) - visited, |stack|
    {
      var cur := stack[|stack| - 1];
      var rest := stack[..|stack| - 1];
      assert stack == rest + [cur] && cur in stack;
      assert forall v :: v in rest ==> v in stack;
      if cur in visited {
        stack := rest;
        continue;
      }
      if HasDecref(f.blocks[cur]) {
        return true;
      }
      ghost var before := visited;
      visited := visited + {cur};
      stack := PushChildren(f, head, tail, cur, rest);
      assert forall u, v :: u in before && f.Edge(u, v) && v != tail ==> v in before || v in rest || v == cur;
    }
    found := false;
    forall path | Between(f, head, tail, path) ensures !HasDecref(f.blocks[path[|path| - 1]]) {
      ExploredAll(f, head, tail, visited, path);
    }
  }

  method PushChildren(f: Func, head: nat, tail: nat, cur: nat, stack: seq<nat>) returns (stack': seq<nat>)
    requires f.Wf() && cur < |f.blocks| && ReachedFrom(f, head, tail, cur)
    requires forall v :: v in stack ==> v < |f.blocks| && ReachedFrom(f, head, tail, v)
    ensures forall v :: v in stack' <==> v in stack || (f.Edge(cur, v) && v != tail)
    ensures forall v :: v in stack' ==> v < |f.blocks| && ReachedFrom(f, head, tail, v)
  {
    stack' := stack;
    for i := 0 to |f.succs[cur]|
      invariant forall v :: v in stack' <==> v in stack || (v in f.succs[cur][..i] && v != tail)
      invariant forall v :: v in stack' ==> v < |f.blocks| && ReachedFrom(f, head, tail, v)
    {
      var child := f.succs[cur][i];
      assert f.succs[cur][..i+1] == f.succs[cur][..i] + [child];
      if child != tail {
        BetweenExtends(f, head, tail, cur, child);
        stack' := stack' + [child];
      }
    }
    assert f.succs[cur][..|f.succs[cur]|] == f.succs[cur];
  }

  /** No decref between head and tail: none while the pair is open. */
  lemma NoDecrefBetweenQuiet(f: Func, head: nat, tail: nat)
    requires !DecrefBetween(f, head, tail)
    ensures Quiet(f, head, {tail}, {})
  {
    forall path | f.Run(path) && Open(path, head, {tail}) ensures !HasDecref(f.blocks[path[|path| - 1]]) {
      var i := OpenAt(path, head, {tail});
      PathSuffix(f, path, i);
      var s := path[i..];
      assert forall k :: 0 < k < |s| ==> s[k] == path[i + k] && path[i + k] !in {tail};
      assert Between(f, head, tail, s);
    }
  }

  // ----- the pass

  /** What the dominator and postdominator trees say: `(a, b)` in `dom` if block `a`
      dominates block `b`, `(b, a)` in `pdom` if block `b` postdominates block `a`. */
  datatype Trees = Trees(dom: set<(nat, nat)>, pdom: set<(nat, nat)>)
  {
    ghost predicate Sound(f: Func)
      requires f.Wf()
    {
      && (forall a, b :: (a, b) in dom ==> f.Dominates(a, b))
      && (forall a, b :: (b, a) in pdom ==> f.PostDominates(b, a))
    }

    /** No run that leaves the function passes a prunable incref twice with no decref of
        the pair between. */
    ghost predicate NoBypasses(f: Func) {
      forall a, b :: Candidate(f, a, b) ==> !Bypass(f, a, b)
    }

    ghost predicate Candidate(f: Func, a: nat, b: nat) {
      && a != b && (a, b) in dom && (b, a) in pdom
      && exists s, t :: RelatedSites(f, s, t) && s.block == a && t.block == b
    }
  }

  ghost predicate RelatedSites(f: Func, s: Site, t: Site) {
    At(f, s) && At(f, t) && s.ins.op.Incref? && t.ins.op == Decref(s.ins.op.p)
  }

  lemma TreesStaySound(trees: Trees, f: Func, g: Func)
    requires f.Wf() && g.Wf() && SameShape(f, g) && trees.Sound(f)
    ensures trees.Sound(g)
  {
    forall a, b | (a, b) in trees.dom ensures g.Dominates(a, b) {
      SameDominators(f, g, a, b);
    }
    forall a, b | (b, a) in trees.pdom ensures g.PostDominates(b, a) {
      SamePostDominators(f, g, b, a);
    }
  }

  lemma SameBypass(f: Func, g: Func, a: nat, b: nat)
    requires f.Wf() && g.Wf() && SameShape(f, g) && Bypass(g, a, b)
    ensures Bypass(f, a, b)
  {
    var path, i, j :| BypassAt(g, path, i, j, a, b);
    SameRuns(f, g, path);
    assert BypassAt(f, path, i, j, a, b);
  }

  /** Erasing makes no new candidates, so it makes no new bypasses. */
  lemma NoNewBypasses(trees: Trees, f: Func, ids: set<nat>)
    requires f.Wf() && Erase(f, ids).Wf() && trees.NoBypasses(f)
    ensures trees.NoBypasses(Erase(f, ids))
  {
    var g := Erase(f, ids);
    forall a: nat, b: nat | trees.Candidate(g, a, b) ensures !Bypass(g, a, b) {
      var s, t :| RelatedSites(g, s, t) && s.block == a && t.block == b;
      EraseMembers(f.blocks[a], ids);
      EraseMembers(f.blocks[b], ids);
      assert RelatedSites(f, s, t);
      assert trees.Candidate(f, a, b);
      if Bypass(g, a, b) {
        SameBypass(f, g, a, b);
      }
    }
  }

  function PairingOf(s: Site, t: Site): Pairing
    requires s.ins.op.Incref?
  {
    Pairing(s.block, s.ins.id, s.ins.op.p, map[t.block := t.ins.id])
  }

  lemma PairingIn(f: Func, s: Site, t: Site)
    requires RelatedSites(f, s, t) && s.block != t.block
    ensures PairingOf(s, t).In(f) && PairingOf(s, t).tails.Keys == {t.block}
    ensures PairingOf(s, t).Ids() == {s.ins.id, t.ins.id}
  {
    assert PairingOf(s, t).tails[t.block] == t.ins.id;
    assert PairingOf(s, t).tails.Values == {t.ins.id};
    assert s.ins == Instr(s.ins.id, Incref(s.ins.op.p));
    assert t.ins == Instr(t.ins.id, Decref(s.ins.op.p));
  }

  /** A pair of one pointer in two blocks that dominate and postdominate each other as the trees
      say, whose decref is not reached again without the incref, with no decref between. */
  ghost predicate Accepted(f: Func, trees: Trees, s: Site, t: Site)
    requires f.Wf()
  {
    && s.block != t.block && s.ins.op.Incref? && t.ins.op == Decref(s.ins.op.p)
    && (s.block, t.block) in trees.dom && (t.block, s.block) in trees.pdom
    && (forall trail :: !Tails(f, s.block, {t.block}, {}).BadTrail(trail))
    && !DecrefBetween(f, s.block, t.block)
  }

  /** The conditions under which the pass erases a pair. */
  method IsDiamond(f: Func, trees: Trees, s: Site, t: Site) returns (ok: bool)
    requires f.Wf() && trees.Sound(f) && At(f, s) && At(f, t) && s.ins.op.Incref? && t.ins.op.Decref?
    ensures ok <==> Accepted(f, trees, s, t)
    ensures ok ==> RelatedSites(f, s, t) && trees.Candidate(f, s.block, t.block)
    ensures ok ==> HeadFirst(f, s.block, {t.block}, {}) && Quiet(f, s.block, {t.block}, {})
  {
    if s.block == t.block || s.ins.op.p != t.ins.op.p {
      return false;
    }
    if (s.block, t.block) !in trees.dom || (t.block, s.block) !in trees.pdom {
      return false;
    }
    assert RelatedSites(f, s, t);
    ok := VerifyFanoutBackward(Tails(f, s.block, {t.block}, {}));
    if !ok {
      return;
    }
    var found := HasDecrefBetweenGraph(f, s.block, t.block);
    if found {
      return false;
    }
    NoDecrefBetweenQuiet(f, s.block, t.block);
  }

  lemma DiamondResult(f: Func, trees: Trees, s: Site, t: Site, avoid: set<nat>)
    requires f.Wf() && f.Ssa() && trees.Sound(f) && RelatedSites(f, s, t) && trees.Candidate(f, s.block, t.block)
    requires HeadFirst(f, s.block, {t.block}, {})
    ensures PassResult(f, Erase(f, {s.ins.id, t.ins.id}), {s.ins.id, t.ins.id}, avoid, trees.NoBypasses(f))
  {
    var ids := {s.ins.id, t.ins.id};
    EraseKeepsWf(f, ids);
    EraseKeepsSsa(f, ids);
    SiteIsRefop(f, s);
    SiteIsRefop(f, t);
    if trees.NoBypasses(f) {
      DiamondKeepsNet(f, trees, s, t, avoid);
    }
  }

  lemma DiamondKeepsNet(f: Func, trees: Trees, s: Site, t: Site, avoid: set<nat>)
    requires f.Wf() && f.Ssa() && trees.Sound(f) && RelatedSites(f, s, t) && trees.Candidate(f, s.block, t.block)
    requires HeadFirst(f, s.block, {t.block}, {}) && trees.NoBypasses(f)
    ensures SameNet(f, Erase(f, {s.ins.id, t.ins.id}), avoid)
  {
    PairingIn(f, s, t);
    NoBypassKeepsNet(f, PairingOf(s, t), t.block);
    SameNetLess(f, Erase(f, {s.ins.id, t.ins.id}), {}, avoid);
  }

  lemma SiteIsRefop(f: Func, s: Site)
    requires At(f, s) && s.ins.op.IsRefop()
    ensures IsRefopOf(f, s.ins.id)
  {
    var i :| 0 <= i < |f.blocks[s.block]| && f.blocks[s.block][i] == s.ins;
    assert IsRefopId(f.blocks[s.block], s.ins.id);
  }

  /** The decrefs that are left, each at its place. */
  ghost predicate Live(f: Func, decrefs: seq<Option<Site>>) {
    && (forall i :: 0 <= i < |decrefs| && decrefs[i].Some? ==> At(f, decrefs[i].value) && decrefs[i].value.ins.op.Decref?)
    && (forall i, j :: 0 <= i < j < |decrefs| && decrefs[i].Some? && decrefs[j].Some? ==>
          decrefs[i].value.ins.id != decrefs[j].value.ins.id)
  }

  lemma LiveErase(f: Func, decrefs: seq<Option<Site>>, s: Site, k: nat)
    requires f.Wf() && Live(f, decrefs) && At(f, s) && s.ins.op.Incref? && k < |decrefs| && decrefs[k].Some?
    ensures Live(Erase(f, {s.ins.id, decrefs[k].value.ins.id}), decrefs[k := None])
  {
    var ids := {s.ins.id, decrefs[k].value.ins.id};
    forall i | 0 <= i < |decrefs| && i != k && decrefs[i].Some? ensures At(Erase(f, ids), decrefs[i].value) {
      if decrefs[i].value.ins.id == s.ins.id {
        SitesUnique(f, decrefs[i].value, s);
      }
      SiteSurvives(f, ids, decrefs[i].value);
    }
  }

  ghost predicate AcceptedAt(f: Func, trees: Trees, incref: Site, decrefs: seq<Option<Site>>, k: nat)
    requires f.Wf() && k < |decrefs|
  {
    decrefs[k].Some? && Accepted(f, trees, incref, decrefs[k].value)
  }

  /** Looks for the first decref that makes a diamond with the incref: its place in the list. */
  method FindDiamond(f: Func, trees: Trees, incref: Site, decrefs: seq<Option<Site>>) returns (k: nat)
    requires f.Wf() && trees.Sound(f) && At(f, incref) && incref.ins.op.Incref? && Live(f, decrefs)
    ensures k <= |decrefs| && forall l :: 0 <= l < k ==> !AcceptedAt(f, trees, incref, decrefs, l)
    ensures k < |decrefs| ==>
              && AcceptedAt(f, trees, incref, decrefs, k)
              && decrefs[k].Some? && RelatedSites(f, incref, decrefs[k].value)
              && trees.Candidate(f, incref.block, decrefs[k].value.block)
              && HeadFirst(f, incref.block, {decrefs[k].value.block}, {})
  {
    k := 0;
    while k < |decrefs|
      invariant k <= |decrefs| && forall l :: 0 <= l < k ==> !AcceptedAt(f, trees, incref, decrefs, l)
    {
      if decrefs[k].Some? {
        var ok := IsDiamond(f, trees, incref, decrefs[k].value);
        if ok {
          return;
        }
      }
      k := k + 1;
    }
  }

  lemma IncrefsSurvive(f: Func, incref: Site, decref: Site)
    requires f.Wf() && At(f, decref) && decref.ins.op.Decref?
    ensures forall s :: At(f, s) && s.ins.op.Incref? && s.ins.id != incref.ins.id ==>
              At(Erase(f, {incref.ins.id, decref.ins.id}), s)
  {
    forall s | At(f, s) && s.ins.op.Incref? && s.ins.id != incref.ins.id
      ensures At(Erase(f, {incref.ins.id, decref.ins.id}), s)
    {
      if s.ins.id == decref.ins.id {
        SitesUnique(f, s, decref);
      }
      SiteSurvives(f, {incref.ins.id, decref.ins.id}, s);
    }
  }

  ghost predicate IncrefsKept(f: Func, g: Func, but: nat) {
    forall s :: At(f, s) && s.ins.op.Incref? && s.ins.id != but ==> At(g, s)
  }

  lemma DiamondErased(f: Func, trees: Trees, incref: Site, decrefs: seq<Option<Site>>, k: nat, avoid: set<nat>)
    requires f.Wf() && f.Ssa() && trees.Sound(f) && Live(f, decrefs) && k < |decrefs| && decrefs[k].Some?
    requires RelatedSites(f, incref, decrefs[k].value) && trees.Candidate(f, incref.block, decrefs[k].value.block)
    requires HeadFirst(f, incref.block, {decrefs[k].value.block}, {})
    ensures
      var decref := decrefs[k].value;
      var ids := {incref.ins.id, decref.ins.id};
      var g := Erase(Erase(f, {incref.ins.id}), {decref.ins.id});
      && PassResult(f, g, ids, avoid, trees.NoBypasses(f))
      && Live(g, decrefs[k := None]) && IncrefsKept(f, g, incref.ins.id)
  {
    var decref := decrefs[k].value;
    EraseAllTwice(f, {incref.ins.id}, {decref.ins.id});
    assert {incref.ins.id} + {decref.ins.id} == {incref.ins.id, decref.ins.id};
    DiamondResult(f, trees, incref, decref, avoid);
    LiveErase(f, decrefs, incref, k);
    IncrefsSurvive(f, incref, decref);
  }

  /** Tries to pair one incref with one of the decrefs that are left. */
  method PruneIncref(F: IrFunction, trees: Trees, incref: Site, decrefs: seq<Option<Site>>, ghost avoid: set<nat>)
    returns (mutated: bool, decrefs': seq<Option<Site>>, ghost ids: set<nat>)
    requires F.View().Wf() && F.View().Ssa() && trees.Sound(F.View())
    requires At(F.View(), incref) && incref.ins.op.Incref? && Live(F.View(), decrefs)
    modifies F
    ensures PassResult(old(F.View()), F.View(), ids, avoid, trees.NoBypasses(old(F.View())))
    ensures Pairs(F.View(), decrefs') == DiamondStep(Pairs(old(F.View()), decrefs), trees, incref)
    ensures Live(F.View(), decrefs') && (mutated <==> ids != {})
    ensures IncrefsKept(old(F.View()), F.View(), incref.ins.id)
  {
    ghost var f := F.View();
    var k := FindDiamond(F.View(), trees, incref, decrefs);
    FirstAcceptedIs(f, trees, incref, decrefs, 0, k);
    if k < |decrefs| {
      var decref := decrefs[k].value;
      DiamondErased(f, trees, incref, decrefs, k, avoid);
      ids := {incref.ins.id, decref.ins.id};
      EraseAllTwice(f, {incref.ins.id}, {decref.ins.id});
      assert {incref.ins.id} + {decref.ins.id} == ids;
      EraseFromParent(F, incref.ins.id);
      EraseFromParent(F, decref.ins.id);
      return true, decrefs[k := None], ids;
    }
    PassNothing(f, avoid, trees.NoBypasses(f));
    return false, decrefs, {};
  }

  lemma DiamondThen(trees: Trees, f: Func, g: Func, h: Func, ids: set<nat>, more: set<nat>, avoid: set<nat>)
    requires f.Wf() && PassResult(f, g, ids, avoid, trees.NoBypasses(f))
    requires PassResult(g, h, more, avoid, trees.NoBypasses(g))
    ensures PassResult(f, h, ids + more, avoid, trees.NoBypasses(f))
  {
    if trees.NoBypasses(f) {
      NoNewBypasses(trees, f, ids);
    }
    PassThen(f, g, h, ids, more, avoid, trees.NoBypasses(f));
  }

  /** The increfs from place `i` on, each at its place. */
  ghost predicate IncrefsLive(f: Func, increfs: seq<Site>, i: nat) {
    forall k :: i <= k < |increfs| ==> At(f, increfs[k]) && increfs[k].ins.op.Incref?
  }

  lemma ListedLive(f: Func, increfs: seq<Site>, sites: seq<Site>, decrefs: seq<Option<Site>>)
    requires forall s :: s in increfs ==> At(f, s) && IsKind(s, false)
    requires forall s :: s in sites ==> At(f, s) && IsKind(s, true)
    requires DistinctSites(sites) && |decrefs| == |sites| && forall i :: 0 <= i < |sites| ==> decrefs[i] == Some(sites[i])
    ensures IncrefsLive(f, increfs, 0) && Live(f, decrefs)
  {
    assert forall i :: 0 <= i < |sites| ==> sites[i] in sites;
    assert forall i :: 0 <= i < |increfs| ==> increfs[i] in increfs;
  }

  lemma NextIncrefs(f: Func, g: Func, increfs: seq<Site>, i: nat)
    requires i < |increfs| && IncrefsLive(f, increfs, i) && IncrefsKept(f, g, increfs[i].ins.id)
    requires forall j, k :: 0 <= j < k < |increfs| ==> increfs[j].ins.id != increfs[k].ins.id
    ensures IncrefsLive(g, increfs, i + 1)
  {
  }

  // ----- what the pass makes of a function

  /** The pass at some incref: the function so far, and the decrefs that are left. */
  datatype Pairs = Pairs(f: Func, decrefs: seq<Option<Site>>)

  ghost function FirstAccepted(f: Func, trees: Trees, s: Site, decrefs: seq<Option<Site>>, k: nat): (l: nat)
    requires f.Wf() && k <= |decrefs|
    ensures k <= l <= |decrefs|
    decreases |decrefs| - k
  {
    if k == |decrefs| || AcceptedAt(f, trees, s, decrefs, k) then k else FirstAccepted(f, trees, s, decrefs, k + 1)
  }

  lemma {:induction false} FirstAcceptedIs(f: Func, trees: Trees, s: Site, decrefs: seq<Option<Site>>, k: nat, l: nat)
    requires f.Wf() && k <= l <= |decrefs| && forall i :: k <= i < l ==> !AcceptedAt(f, trees, s, decrefs, i)
    requires l < |decrefs| ==> AcceptedAt(f, trees, s, decrefs, l)
    ensures FirstAccepted(f, trees, s, decrefs, k) == l
    decreases |decrefs| - k
  {
    if k < l {
      FirstAcceptedIs(f, trees, s, decrefs, k + 1, l);
    }
  }

  /** One incref: it goes with the first decref left that makes an accepted pair with it. */
  ghost function DiamondStep(t: Pairs, trees: Trees, s: Site): Pairs {
    if !t.f.Wf() || !s.ins.op.Incref? then t
    else
      var k := FirstAccepted(t.f, trees, s, t.decrefs, 0);
      if k == |t.decrefs| || t.decrefs[k].None? then t
      else Pairs(Erase(t.f, {s.ins.id, t.decrefs[k].value.ins.id}), t.decrefs[k := None])
  }

  function AllDecrefs(f: Func): seq<Option<Site>> {
    var sites := Refops(f, true, |f.blocks|);
    seq(|sites|, i requires 0 <= i < |sites| => Some(sites[i]))
  }

  ghost function DiamondRun(f: Func, trees: Trees, sites: seq<Site>): Pairs {
    if sites == [] then Pairs(f, AllDecrefs(f))
    else DiamondStep(DiamondRun(f, trees, sites[..|sites| - 1]), trees, sites[|sites| - 1])
  }

  ghost function AfterDiamonds(f: Func, trees: Trees): Func {
    DiamondRun(f, trees, Refops(f, false, |f.blocks|)).f
  }

  ghost predicate SomeDiamond(f: Func, trees: Trees)
    requires f.Wf()
  {
    exists s, t :: At(f, s) && At(f, t) && Accepted(f, trees, s, t)
  }

  ghost predicate MakesDiamond(f: Func, trees: Trees, s: Site)
    requires f.Wf()
  {
    exists t :: At(f, t) && Accepted(f, trees, s, t)
  }

  lemma MakesDiamondListed(f: Func, trees: Trees, s: Site)
    requires f.Wf()
    ensures MakesDiamond(f, trees, s) <==> FirstAccepted(f, trees, s, AllDecrefs(f), 0) < |AllDecrefs(f)|
    ensures var k := FirstAccepted(f, trees, s, AllDecrefs(f), 0); k < |AllDecrefs(f)| ==> AllDecrefs(f)[k].Some?
  {
    var all := AllDecrefs(f);
    var sites := Refops(f, true, |f.blocks|);
    RefopsAre(f, true, |f.blocks|);
    if exists l :: 0 <= l < |all| && AcceptedAt(f, trees, s, all, l) {
      var l := FirstOfAccepted(f, trees, s, all);
      FirstAcceptedIs(f, trees, s, all, 0, l);
      assert sites[l] in sites;
    } else {
      FirstAcceptedIs(f, trees, s, all, 0, |all|);
    }
    if MakesDiamond(f, trees, s) {
      var t :| At(f, t) && Accepted(f, trees, s, t);
      assert t in sites;
      var l :| 0 <= l < |sites| && sites[l] == t;
      assert AcceptedAt(f, trees, s, all, l);
    }
  }

  lemma FirstOfAccepted(f: Func, trees: Trees, s: Site, decrefs: seq<Option<Site>>) returns (l: nat)
    requires f.Wf() && exists i :: 0 <= i < |decrefs| && AcceptedAt(f, trees, s, decrefs, i)
    ensures l < |decrefs| && AcceptedAt(f, trees, s, decrefs, l)
    ensures forall i :: 0 <= i < l ==> !AcceptedAt(f, trees, s, decrefs, i)
  {
    l := 0;
    while !AcceptedAt(f, trees, s, decrefs, l)
      invariant l < |decrefs| && forall i :: 0 <= i < l ==> !AcceptedAt(f, trees, s, decrefs, i)
      decreases |decrefs| - l
    {
      var k :| 0 <= k < |decrefs| && AcceptedAt(f, trees, s, decrefs, k);
      assert l < k;
      l := l + 1;
    }
  }

  lemma DiamondStepNoMore(t: Pairs, trees: Trees, s: Site)
    ensures RefopTotal(DiamondStep(t, trees, s).f.blocks) <= RefopTotal(t.f.blocks)
  {
    if t.f.Wf() && s.ins.op.Incref? {
      var k := FirstAccepted(t.f, trees, s, t.decrefs, 0);
      if k < |t.decrefs| && t.decrefs[k].Some? {
        EraseTotalNoMore(t.f.blocks, {s.ins.id, t.decrefs[k].value.ins.id});
      }
    }
  }

  lemma DiamondStepFirst(f: Func, trees: Trees, s: Site)
    requires f.Wf() && At(f, s) && s.ins.op.Incref?
    ensures
      var t := DiamondStep(Pairs(f, AllDecrefs(f)), trees, s);
      if MakesDiamond(f, trees, s) then RefopTotal(t.f.blocks) < RefopTotal(f.blocks) else t == Pairs(f, AllDecrefs(f))
  {
    MakesDiamondListed(f, trees, s);
    if MakesDiamond(f, trees, s) {
      var k := FirstAccepted(f, trees, s, AllDecrefs(f), 0);
      var i :| 0 <= i < |f.blocks[s.block]| && f.blocks[s.block][i] == s.ins;
      EraseTotal(f.blocks, {s.ins.id, AllDecrefs(f)[k].value.ins.id}, s.block, i);
    }
  }

  /** As long as no incref makes a diamond nothing changes, and from then on something is gone. */
  lemma {:induction false} DiamondRunIs(f: Func, trees: Trees, sites: seq<Site>)
    requires f.Wf() && forall s :: s in sites ==> At(f, s) && s.ins.op.Incref?
    ensures
      var t := DiamondRun(f, trees, sites);
      if exists s :: s in sites && MakesDiamond(f, trees, s) then RefopTotal(t.f.blocks) < RefopTotal(f.blocks)
      else t == Pairs(f, AllDecrefs(f))
  {
    if sites != [] {
      var n := |sites| - 1;
      var rest := sites[..n];
      assert sites == rest + [sites[n]];
      DiamondRunIs(f, trees, rest);
      DiamondStepNoMore(DiamondRun(f, trees, rest), trees, sites[n]);
      DiamondStepFirst(f, trees, sites[n]);
    }
  }

  /** The pass leaves a function as it is exactly if no pair in it is accepted. */
  lemma DiamondIdle(f: Func, trees: Trees)
    requires f.Wf()
    ensures AfterDiamonds(f, trees) == f <==> !SomeDiamond(f, trees)
  {
    var sites := Refops(f, false, |f.blocks|);
    RefopsAre(f, false, |f.blocks|);
    DiamondRunIs(f, trees, sites);
    if SomeDiamond(f, trees) {
      var s, t :| At(f, s) && At(f, t) && Accepted(f, trees, s, t);
      assert s in sites && MakesDiamond(f, trees, s);
    } else {
      forall s | s in sites ensures !MakesDiamond(f, trees, s) {
      }
    }
  }

  /** Where the pass is after `i` increfs. */
  ghost predicate SoFar(f: Func, trees: Trees, avoid: set<nat>, increfs: seq<Site>, i: nat,
                        g: Func, decrefs: seq<Option<Site>>, ids: set<nat>)
    requires i <= |increfs|
  {
    && PassResult(f, g, ids, avoid, trees.NoBypasses(f)) && Live(g, decrefs) && IncrefsLive(g, increfs, i)
    && Pairs(g, decrefs) == DiamondRun(f, trees, increfs[..i])
  }

  lemma SoFarStart(f: Func, trees: Trees, avoid: set<nat>, increfs: seq<Site>, sites: seq<Site>, decrefs: seq<Option<Site>>)
    requires f.Wf() && f.Ssa() && sites == Refops(f, true, |f.blocks|)
    requires forall s :: s in increfs ==> At(f, s) && IsKind(s, false)
    requires forall s :: s in sites ==> At(f, s) && IsKind(s, true)
    requires DistinctSites(sites) && |decrefs| == |sites| && forall i :: 0 <= i < |sites| ==> decrefs[i] == Some(sites[i])
    ensures SoFar(f, trees, avoid, increfs, 0, f, decrefs, {})
  {
    ListedLive(f, increfs, sites, decrefs);
    PassNothing(f, avoid, trees.NoBypasses(f));
    assert decrefs == AllDecrefs(f) && increfs[..0] == [];
  }

  lemma SoFarEnd(f: Func, trees: Trees, avoid: set<nat>, increfs: seq<Site>, g: Func, decrefs: seq<Option<Site>>, ids: set<nat>)
    requires increfs == Refops(f, false, |f.blocks|) && SoFar(f, trees, avoid, increfs, |increfs|, g, decrefs, ids)
    ensures PassResult(f, g, ids, avoid, trees.NoBypasses(f)) && g == AfterDiamonds(f, trees)
  {
    assert increfs[..|increfs|] == increfs;
  }

  lemma SoFarNext(f: Func, trees: Trees, avoid: set<nat>, increfs: seq<Site>, i: nat, g: Func, decrefs: seq<Option<Site>>,
                  ids: set<nat>, h: Func, left: seq<Option<Site>>, more: set<nat>)
    requires f.Wf() && i < |increfs| && SoFar(f, trees, avoid, increfs, i, g, decrefs, ids)
    requires forall j, k :: 0 <= j < k < |increfs| ==> increfs[j].ins.id != increfs[k].ins.id
    requires PassResult(g, h, more, avoid, trees.NoBypasses(g)) && Live(h, left) && IncrefsKept(g, h, increfs[i].ins.id)
    requires Pairs(h, left) == DiamondStep(Pairs(g, decrefs), trees, increfs[i])
    ensures SoFar(f, trees, avoid, increfs, i + 1, h, left, ids + more)
  {
    NextIncrefs(g, h, increfs, i);
    DiamondThen(trees, f, g, h, ids, more, avoid);
    assert increfs[..i+1][..i] == increfs[..i];
  }

  method RunDiamondPrune(F: IrFunction, trees: Trees, ghost avoid: set<nat>) returns (mutated: bool, ghost ids: set<nat>)
    requires F.View().Wf() && F.View().Ssa() && trees.Sound(F.View())
    modifies F
    ensures PassResult(old(F.View()), F.View(), ids, avoid, trees.NoBypasses(old(F.View())))
    ensures mutated <==> ids != {}
    ensures F.View() == AfterDiamonds(old(F.View()), trees)
  {
    ghost var f := F.View();
    var increfs := ListRefops(F.View(), false);
    var decrefSites := ListRefops(F.View(), true);
    var decrefs := seq(|decrefSites|, i requires 0 <= i < |decrefSites| => Some(decrefSites[i]));
    SoFarStart(f, trees, avoid, increfs, decrefSites, decrefs);
    mutated, ids := false, {};
    for i := 0 to |increfs|
      invariant SoFar(f, trees, avoid, increfs, i, F.View(), decrefs, ids) && (mutated <==> ids != {})
    {
      ghost var g, before := F.View(), decrefs;
      TreesStaySound(trees, f, g);
      ghost var more;
      var changed;
      changed, decrefs, more := PruneIncref(F, trees, increfs[i], decrefs, avoid);
      SoFarNext(f, trees, avoid, increfs, i, g, before, ids, F.View(), decrefs, more);
      ids := ids + more;
      mutated := mutated || changed;
    }
    SoFarEnd(f, trees, avoid, increfs, F.View(), decrefs, ids);
  }

  // ----- what the checks of the pass do not rule out

  /** An entry, then a block that increfs and loops on itself before it leaves to the block of
      the decref. */
  function LoopingHead(): Func {
    Func([[], [Instr(0, Incref(Val(0)))], [Instr(1, Decref(Val(0)))]], [[1], [1, 2], []])
  }

  lemma LoopingHeadWellFormed()
    ensures LoopingHead().Wf() && LoopingHead().Ssa()
  {
    var f := LoopingHead();
    assert |f.blocks[0]| == 0 && |f.blocks[1]| == 1 && |f.blocks[2]| == 1;
    assert f.blocks[1][0].id == 0 && f.blocks[2][0].id == 1;
    assert f.succs[0] == [1] && f.succs[1] == [1, 2] && f.succs[2] == [];
  }

  /** Where an edge leads, and where it comes from. */
  lemma LoopingHeadEdge(a: nat, b: nat)
    requires LoopingHead().Edge(a, b)
    ensures (b == 1 && a <= 1) || (b == 2 && a == 1)
  {
    var f := LoopingHead();
    assert f.succs[0] == [1] && f.succs[1] == [1, 2] && f.succs[2] == [];
  }

  lemma LoopingHeadStep(path: seq<nat>, k: nat)
    requires LoopingHead().Path(path) && 0 < k < |path|
    ensures (path[k] == 1 && path[k-1] <= 1) || (path[k] == 2 && path[k-1] == 1)
  {
    assert LoopingHead().Step(path, k);
    LoopingHeadEdge(path[k-1], path[k]);
  }

  /** Every way to the tail has just passed the head. */
  lemma LoopingHeadBeforeTail(path: seq<nat>)
    requires LoopingHead().Run(path) && path != [] && path[|path| - 1] == 2
    ensures |path| > 1 && path[|path| - 2] == 1
  {
    assert |path| > 1;
    LoopingHeadStep(path, |path| - 1);
  }

  /** The way from the head that does not reach the tail goes round the loop. */
  lemma LoopingHeadStays(path: seq<nat>, k: nat)
    requires Between(LoopingHead(), 1, 2, path) && k < |path|
    ensures path[k] == 1
  {
    if k > 0 {
      LoopingHeadStep(path, k);
    }
  }

  /** All that the pass checks of the pair holds. */
  lemma LoopingHeadAccepted()
    ensures
      var f := LoopingHead();
      f.Wf() && f.Dominates(1, 2) && f.PostDominates(2, 1) && HeadFirst(f, 1, {2}, {}) && !DecrefBetween(f, 1, 2)
  {
    var f := LoopingHead();
    LoopingHeadWellFormed();
    forall path | f.Run(path) && path != [] && path[|path| - 1] == 2
      ensures Open(path[..|path| - 1], 1, {2}) && 1 in path
    {
      LoopingHeadBeforeTail(path);
      assert path[..|path| - 1][|path| - 2] == 1;
    }
    forall path | f.Path(path) && path != [] && path[0] == 1 && f.Exit(path[|path| - 1]) ensures 2 in path {
      assert f.succs[0] == [1] && f.succs[1] == [1, 2] && f.succs[2] == [];
      assert path[|path| - 1] == 2;
    }
    forall path | Between(f, 1, 2, path) ensures !HasDecref(f.blocks[path[|path| - 1]]) {
      LoopingHeadStays(path, |path| - 1);
      assert |f.blocks[1]| == 1 && !f.blocks[1][0].op.Decref?;
    }
  }

  lemma LoopingHeadBypassed()
    ensures Bypass(LoopingHead(), 1, 2)
  {
    var f := LoopingHead();
    LoopingHeadWellFormed();
    var path := [0, 1, 1, 2];
    assert f.succs[0] == [1] && f.succs[1] == [1, 2] && f.succs[2] == [];
    forall k | 0 < k < |path| ensures f.Step(path, k) {
    }
    assert BypassAt(f, path, 1, 2, 1, 2);
  }

  /** The entry has no predecessor, the pass accepts this pair, and erasing it changes the net
      count on the run that goes round the loop once. */
  lemma DiamondLoopUnsound()
    ensures
      var f := LoopingHead();
      && f.Wf() && f.Ssa() && (forall b :: !f.Edge(b, 0))
      && RelatedSites(f, Site(1, f.blocks[1][0]), Site(2, f.blocks[2][0]))
      && f.Dominates(1, 2) && f.PostDominates(2, 1) && HeadFirst(f, 1, {2}, {}) && !DecrefBetween(f, 1, 2)
      && !SameNet(f, Erase(f, {0, 1}), {})
  {
    var f := LoopingHead();
    var s, t := Site(1, f.blocks[1][0]), Site(2, f.blocks[2][0]);
    LoopingHeadWellFormed();
    LoopingHeadAccepted();
    LoopingHeadBypassed();
    forall b | f.Edge(b, 0) ensures false {
      LoopingHeadEdge(b, 0);
    }
    assert RelatedSites(f, s, t);
    PairingIn(f, s, t);
    BypassBreaksNet(f, PairingOf(s, t), 2);
  }

  /** A diamond that no run bypasses: no count falls before the erased decref would have
      run, exactly if the tail runs no other decref before it; and where such decrefs are on other
      objects, nothing dies early in all the tail. */
  lemma DiamondPruneSafe(f: Func, s: Site, t: Site)
    requires f.Wf() && f.Ssa() && RelatedSites(f, s, t) && s.block != t.block
    requires HeadFirst(f, s.block, {t.block}, {}) && !DecrefBetween(f, s.block, t.block)
    requires ReachesExit(f, s.block) && !Bypass(f, s.block, t.block)
    ensures NeverFalls(f, PairingOf(s, t), {}) <==> TailsClean(f, PairingOf(s, t), {})
    ensures TailsSafe(f, PairingOf(s, t), {})
  {
    PairingIn(f, s, t);
    NoBypassAlternates(f, s.block, t.block);
    NoDecrefBetweenQuiet(f, s.block, t.block);
    AllTailsSafe(f, PairingOf(s, t), {});
    NeverFallsExact(f, PairingOf(s, t), {});
  }
}
