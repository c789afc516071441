/** Exactly when erasing one incref and one postdominating decref in another block is
    right: when no complete run passes the incref twice without the decref between. */
module DiamondTheory {
  import opened RefIr
  import opened Balance
  import opened PruneTheory

  /** Some complete run passes `a` at `i` and again at `j` with no `b` between. */
  ghost predicate BypassAt(f: Func, path: seq<nat>, i: nat, j: nat, a: nat, b: nat) {
    && f.Complete(path) && i < j < |path| && path[i] == a && path[j] == a
    && forall k :: i < k < j ==> path[k] != b
  }

  ghost predicate Bypass(f: Func, a: nat, b: nat) {
    exists path, i, j :: BypassAt(f, path, i, j, a, b)
  }

  /** What the backward walk establishes: every run to a tail passes the head after the
      last tail before it. */
  ghost predicate HeadFirst(f: Func, head: nat, tails: set<nat>, avoid: set<nat>) {
    forall path :: f.Run(path) && path != [] && Avoids(path, avoid) && path[|path| - 1] in tails ==>
      Open(path[..|path| - 1], head, tails)
  }

  ghost predicate ReachesExit(f: Func, a: nat)
    requires f.Wf()
  {
    exists path :: ExitPath(f, path, a)
  }

  ghost predicate ExitPath(f: Func, path: seq<nat>, a: nat)
    requires f.Wf()
  {
    f.Path(path) && path != [] && path[0] == a && f.Exit(path[|path| - 1])
  }

  lemma JoinPaths(f: Func, p: seq<nat>, q: seq<nat>)
    requires f.Run(p) && f.Path(q) && p != [] && q != [] && p[|p| - 1] == q[0]
    ensures f.Run(p + q[1..])
  {
    var s := p + q[1..];
    forall k | 0 < k < |s| ensures f.Step(s, k) {
      if k < |p| {
        assert f.Step(p, k);
      } else {
        assert s[k] == q[k - |p| + 1] && s[k-1] == q[k - |p|];
        assert f.Step(q, k - |p| + 1);
      }
    }
  }

  lemma PathSuffix(f: Func, path: seq<nat>, i: nat)
    requires f.Path(path) && i <= |path|
    ensures f.Path(path[i..])
  {
    var s := path[i..];
    forall k | 0 < k < |s| ensures f.Step(s, k) {
      assert f.Step(path, i + k);
    }
  }

  /** Without a bypass the head and the tail alternate, if the head can reach an exit. */
  lemma NoBypassAlternates(f: Func, a: nat, b: nat)
    requires f.Wf() && HeadFirst(f, a, {b}, {}) && ReachesExit(f, a) && !Bypass(f, a, b)
    ensures Alternates(f, a, {b}, {})
  {
    forall path | f.Run(path) && path != [] && path[|path| - 1] == a
      ensures !Open(path[..|path| - 1], a, {b})
    {
      var n := |path| - 1;
      if Open(path[..n], a, {b}) {
        var i := OpenAt(path[..n], a, {b});
        var q :| ExitPath(f, q, a);
        JoinPaths(f, path, q);
        var whole := path + q[1..];
        assert forall k :: i < k < n ==> whole[k] == path[..n][k];
        assert BypassAt(f, whole, i, n, a, b);
        assert false;
      }
    }
  }

  lemma PostDominatedClosed(f: Func, a: nat, b: nat)
    requires f.Wf() && f.PostDominates(b, a) && a != b
    ensures ClosedAtExits(f, a, {b}, {})
  {
    forall path | f.Run(path) && path != [] && f.Exit(path[|path| - 1])
      ensures !Open(path, a, {b})
    {
      if Open(path, a, {b}) {
        var i := OpenAt(path, a, {b});
        PathSuffix(f, path, i);
        assert false;
      }
    }
  }

  // ----- counting visits in the world where every pointer denotes one object

  function Visits(path: seq<nat>, b: nat): nat {
    if path == [] then 0 else Visits(path[..|path| - 1], b) + if path[|path| - 1] == b then 1 else 0
  }

  function OneObject(): World {
    World(_ => 1, (_, _) => 1)
  }

  lemma {:induction false} OneObjectValue(t: Trace, v: nat)
    ensures ValueAfter(t, OneObject(), v) == 1
  {
    if t != [] {
      OneObjectValue(t[..|t| - 1], v);
    }
  }

  lemma {:induction false} OneObjectContribution(f: Func, m: Pairing, b: nat, path: seq<nat>)
    requires f.Wf() && m.In(f) && m.tails.Keys == {b} && m.ptr.Val?
    requires forall k :: 0 <= k < |path| ==> path[k] < |f.blocks|
    ensures CountOf(TraceOf(f, path), m.Ids(), OneObject(), 1) == Visits(path, m.head) - Visits(path, b)
  {
    if path != [] {
      var n := |path| - 1;
      var t, code := TraceOf(f, path[..n]), f.blocks[path[n]];
      OneObjectContribution(f, m, b, path[..n]);
      if i :| 0 <= i < |code| && code[i].id in m.Ids() {
        OneInBlock(f, m, path[n], i);
        CountOfOne(t, Events(n, code), i, m.Ids(), OneObject(), 1);
        OneObjectValue(t + Events(n, code)[..i], m.ptr.name);
      } else {
        CountOfNone(t, Events(n, code), m.Ids(), OneObject(), 1);
        assert path[n] != m.head;
        assert b in m.tails && m.tails[b] in m.Ids();
      }
    }
  }

  lemma {:induction false} VisitsAtLeast(f: Func, a: nat, b: nat, path: seq<nat>)
    requires HeadFirst(f, a, {b}, {}) && f.Run(path) && a != b
    ensures Visits(path, a) >= Visits(path, b) + if Open(path, a, {b}) then 1 else 0
  {
    if path != [] {
      RunRest(f, path, |path| - 1, {});
      VisitsAtLeast(f, a, b, path[..|path| - 1]);
      if path[|path| - 1] == b {
        assert path[|path| - 1] in {b};
      }
    }
  }

  /** After a bypass the head has been visited once too often, for good. */
  lemma {:induction false} VisitsExceed(f: Func, a: nat, b: nat, path: seq<nat>, i: nat, j: nat)
    requires HeadFirst(f, a, {b}, {}) && f.Run(path) && a != b
    requires i < j < |path| && path[i] == a && path[j] == a && forall k :: i < k < j ==> path[k] != b
    ensures Visits(path, a) >= Visits(path, b) + 1 + if Open(path, a, {b}) then 1 else 0
  {
    var n := |path| - 1;
    RunRest(f, path, n, {});
    if j < n {
      VisitsExceed(f, a, b, path[..n], i, j);
      if path[n] == b {
        assert path[n] in {b};
      }
    } else {
      VisitsAtLeast(f, a, b, path[..n]);
      OpenSince(path[..n], a, b, i);
    }
  }

  lemma {:induction false} OpenSince(path: seq<nat>, a: nat, b: nat, i: nat)
    requires i < |path| && path[i] == a && forall k :: i < k < |path| ==> path[k] != b
    ensures Open(path, a, {b})
  {
    if i < |path| - 1 {
      OpenSince(path[..|path| - 1], a, b, i);
    }
  }

  lemma BypassBreaksNet(f: Func, m: Pairing, b: nat)
    requires f.Wf() && m.In(f) && m.tails.Keys == {b} && m.ptr.Val?
    requires HeadFirst(f, m.head, {b}, {}) && Bypass(f, m.head, b)
    ensures !SameNet(f, Erase(f, m.Ids()), {})
  {
    var path, i, j :| BypassAt(f, path, i, j, m.head, b);
    assert m.head != b by {
      assert b in m.tails;
    }
    VisitsExceed(f, m.head, b, path, i, j);
    OneObjectContribution(f, m, b, path);
    OnlyRefopsErased(f, m, path);
    TraceOfErase(f, path, m.Ids());
    CountKeep(TraceOf(f, path), m.Ids(), OneObject(), 1);
    assert Avoids(path, {});
  }

  /** If the head reaches no exit, no complete run passes the head or the tail. */
  lemma UnreachedBlocks(f: Func, a: nat, b: nat, path: seq<nat>, n: nat)
    requires f.Wf() && HeadFirst(f, a, {b}, {}) && !ReachesExit(f, a)
    requires f.Complete(path) && n < |path|
    ensures path[n] != a && path[n] != b
  {
    if path[n] == a {
      PathSuffix(f, path, n);
      assert ExitPath(f, path[n..], a);
    } else if path[n] == b {
      RunCut(f, path, n, {});
      assert path[..n+1][..n] == path[..n] && path[..n+1][n] in {b};
      var i := OpenAt(path[..n], a, {b});
      PathSuffix(f, path, i);
      assert ExitPath(f, path[i..], a);
    }
  }

  lemma {:induction false} UnreachedContribution(f: Func, m: Pairing, b: nat, path: seq<nat>, n: nat, w: World, o: nat)
    requires f.Wf() && m.In(f) && m.tails.Keys == {b}
    requires HeadFirst(f, m.head, {b}, {}) && !ReachesExit(f, m.head)
    requires f.Complete(path) && n <= |path|
    ensures CountOf(TraceOf(f, path[..n]), m.Ids(), w, o) == 0
  {
    if n > 0 {
      UnreachedContribution(f, m, b, path, n - 1, w, o);
      assert path[..n][..n-1] == path[..n-1];
      UnreachedBlocks(f, m.head, b, path, n - 1);
      OtherContribution(f, m, TraceOf(f, path[..n-1]), n - 1, path[n-1], w, o);
    }
  }

  lemma NoBypassKeepsNet(f: Func, m: Pairing, b: nat)
    requires f.Wf() && f.Ssa() && m.In(f) && m.tails.Keys == {b}
    requires HeadFirst(f, m.head, {b}, {}) && f.PostDominates(b, m.head) && !Bypass(f, m.head, b)
    ensures SameNet(f, Erase(f, m.Ids()), {})
  {
    if ReachesExit(f, m.head) {
      assert m.head != b by {
        assert b in m.tails;
      }
      NoBypassAlternates(f, m.head, b);
      PostDominatedClosed(f, m.head, b);
      EraseKeepsNet(f, m, {});
    } else {
      forall path: seq<nat>, w: World, o: nat | f.Complete(path)
        ensures Count(TraceOf(f, path), w, o) == Count(TraceOf(Erase(f, m.Ids()), path), w, o)
      {
        UnreachedContribution(f, m, b, path, |path|, w, o);
        assert path[..|path|] == path;
        OnlyRefopsErased(f, m, path);
        TraceOfErase(f, path, m.Ids());
        CountKeep(TraceOf(f, path), m.Ids(), w, o);
      }
    }
  }

  /** Given what the diamond prune checks, erasing the pair keeps every object's net count
      on every complete run if and only if no complete run bypasses the decref. */
  lemma DiamondExact(f: Func, m: Pairing, b: nat)
    requires f.Wf() && f.Ssa() && m.In(f) && m.tails.Keys == {b} && m.ptr.Val?
    requires HeadFirst(f, m.head, {b}, {}) && f.PostDominates(b, m.head)
    ensures SameNet(f, Erase(f, m.Ids()), {}) <==> !Bypass(f, m.head, b)
  {
    if Bypass(f, m.head, b) {
      BypassBreaksNet(f, m, b);
    } else {
      NoBypassKeepsNet(f, m, b);
    }
  }
}
