/** The backward walk of the fan-out and diamond prunes: from the tails against the
    edges, to see that nothing but the head lets a run in. */
module FanoutBackward {
  import opened Numbers
  import opened RefIr
  import opened Balance
  import opened PruneTheory
  import opened DiamondTheory

  /** The predecessors of `c`, once for each edge. */
  function Preds(f: Func, c: nat): seq<nat> {
    PredsBelow(f, c, |f.succs|)
  }

  function PredsBelow(f: Func, c: nat, n: nat): seq<nat>
    requires n <= |f.succs|
  {
    if n == 0 then [] else PredsBelow(f, c, n - 1) + EdgesTo(f.succs[n-1], c, n - 1)
  }

  function EdgesTo(targets: seq<nat>, c: nat, from: nat): seq<nat> {
    if targets == [] then []
    else EdgesTo(targets[..|targets| - 1], c, from) + if targets[|targets| - 1] == c then [from] else []
  }

  lemma {:induction false} EdgesToMembers(targets: seq<nat>, c: nat, from: nat)
    ensures forall x :: x in EdgesTo(targets, c, from) <==> x == from && c in targets
  {
    if targets != [] {
      var n := |targets| - 1;
      EdgesToMembers(targets[..n], c, from);
      assert targets == targets[..n] + [targets[n]];
    }
  }

  lemma {:induction false} PredsMembers(f: Func, c: nat, n: nat)
    requires n <= |f.succs|
    ensures forall x :: x in PredsBelow(f, c, n) <==> 0 <= x < n && c in f.succs[x]
  {
    if n > 0 {
      PredsMembers(f, c, n - 1);
      EdgesToMembers(f.succs[n-1], c, n - 1);
    }
  }

  /** The head, the tails, and the blocks the walk does not enter. */
  datatype Tails = Tails(f: Func, head: nat, tails: set<nat>, avoid: set<nat>)
  {
    ghost predicate Valid() {
      f.Wf() && head < |f.blocks| && head !in tails && forall t :: t in tails ==> t < |f.blocks|
    }

    /** A way to a tail that passes neither the head nor, after its first block, `avoid`. */
    ghost predicate Trail(path: seq<nat>) {
      && f.Path(path) && path != [] && path[|path| - 1] in tails && head !in path
      && forall k :: 0 < k < |path| ==> path[k] !in avoid
    }

    /** A trail that begins where it must not: at the entry of the function or at a tail. */
    ghost predicate BadTrail(path: seq<nat>) {
      Trail(path) && ((path[0] == 0 && 0 !in avoid) || (|path| >= 2 && path[0] in tails))
    }

    ghost predicate TrailFrom(v: nat) {
      exists path :: Trail(path) && path[0] == v
    }

    /** All predecessors of a visited block are the head, or are or will be visited. */
    ghost predicate Closed(visited: set<nat>, pending: set<nat>) {
      forall v, u :: v in visited && f.Edge(u, v) ==>
        u !in tails && u in {head} + visited + pending + avoid
    }

    ghost predicate Complete(visited: set<nat>) {
      && Closed(visited, {}) && 0 !in visited
      && tails <= visited + avoid
    }
  }

  lemma PredTrail(q: Tails, v: nat, u: nat) returns (path: seq<nat>)
    requires q.Valid() && q.TrailFrom(v) && v !in q.avoid && q.f.Edge(u, v) && u != q.head
    ensures q.Trail(path) && |path| >= 2 && path[0] == u && q.TrailFrom(u)
  {
    var rest :| q.Trail(rest) && rest[0] == v;
    path := [u] + rest;
    forall k | 0 < k < |path| ensures q.f.Step(path, k) {
      if k > 1 {
        assert q.f.Step(rest, k - 1);
      }
    }
  }

  lemma {:induction false} CompleteTrail(q: Tails, visited: set<nat>, path: seq<nat>, k: nat)
    requires q.Complete(visited) && q.Trail(path) && k < |path|
    requires path[k] !in q.avoid
    ensures path[k] in visited
    decreases |path| - k
  {
    if k < |path| - 1 {
      CompleteTrail(q, visited, path, k + 1);
      assert q.f.Step(path, k + 1);
    }
  }

  /** When the walk comes to its end, no bad trail exists. */
  lemma CompleteNoBadTrail(q: Tails, visited: set<nat>, path: seq<nat>)
    requires q.Complete(visited) && q.Trail(path)
    ensures !q.BadTrail(path)
  {
    if |path| >= 2 {
      CompleteTrail(q, visited, path, 1);
      assert q.f.Step(path, 1);
    }
    if path[0] !in q.avoid {
      CompleteTrail(q, visited, path, 0);
    }
  }

  /** A path that is not open has not passed the head since some tail, or ever. */
  lemma {:induction false} NotOpenSince(path: seq<nat>, head: nat, tails: set<nat>) returns (i: nat)
    requires !Open(path, head, tails)
    ensures i <= |path| && forall k :: i <= k < |path| ==> path[k] != head
    ensures i == 0 || (i < |path| && path[i] in tails)
  {
    if path == [] {
      i := 0;
    } else {
      var n := |path| - 1;
      if path[n] in tails {
        i := n;
      } else {
        i := NotOpenSince(path[..n], head, tails);
      }
    }
  }

  /** A run that comes to a tail with no head since the tail before ends in a bad trail. */
  lemma RunIsBadTrail(q: Tails, path: seq<nat>, t: nat) returns (trail: seq<nat>)
    requires q.Valid() && q.f.Run(path + [t]) && Avoids(path + [t], q.avoid)
    requires t in q.tails && !Open(path, q.head, q.tails)
    ensures q.BadTrail(trail)
  {
    var whole := path + [t];
    var i := NotOpenSince(path, q.head, q.tails);
    PathSuffix(q.f, whole, i);
    trail := whole[i..];
    forall k | 0 <= k < |trail| ensures trail[k] != q.head && trail[k] !in q.avoid {
      assert trail[k] == whole[i + k];
      assert i + k < |path| ==> whole[i + k] == path[i + k];
    }
  }

  /** Without bad trails every run to a tail passes the head after the tail before. */
  lemma NoBadTrailHeadFirst(q: Tails)
    requires q.Valid() && forall path :: !q.BadTrail(path)
    ensures HeadFirst(q.f, q.head, q.tails, q.avoid)
  {
    forall path | q.f.Run(path) && path != [] && Avoids(path, q.avoid) && path[|path| - 1] in q.tails
      ensures Open(path[..|path| - 1], q.head, q.tails)
    {
      var n := |path| - 1;
      if !Open(path[..n], q.head, q.tails) {
        assert path == path[..n] + [path[n]];
        var trail := RunIsBadTrail(q, path[..n], path[n]);
      }
    }
  }

  lemma {:induction false} OpenSameTails(path: seq<nat>, head: nat, tails: set<nat>, fewer: set<nat>, avoid: set<nat>)
    requires Avoids(path, avoid) && fewer <= tails <= fewer + avoid
    ensures Open(path, head, tails) == Open(path, head, fewer)
  {
    if path != [] {
      OpenSameTails(path[..|path| - 1], head, tails, fewer, avoid);
    }
  }

  /** Tails that no considered run enters can be left out. */
  lemma HeadFirstFewer(f: Func, head: nat, tails: set<nat>, fewer: set<nat>, avoid: set<nat>)
    requires HeadFirst(f, head, tails, avoid) && fewer <= tails <= fewer + avoid
    ensures HeadFirst(f, head, fewer, avoid)
  {
    forall path | f.Run(path) && path != [] && Avoids(path, avoid) && path[|path| - 1] in fewer
      ensures Open(path[..|path| - 1], head, fewer)
    {
      OpenSameTails(path[..|path| - 1], head, tails, fewer, avoid);
    }
  }

  /** Walks on from the predecessors of a block just visited: false if one is a tail. */
  method PushPreds(q: Tails, cur: nat, workstack: seq<nat>) returns (ok: bool, workstack': seq<nat>)
    requires q.Valid() && cur < |q.f.blocks| && cur !in q.avoid && q.TrailFrom(cur)
    requires forall v :: v in workstack ==> v < |q.f.blocks| && v != q.head && q.TrailFrom(v)
    ensures ok ==> forall v :: v in workstack' <==> v in workstack || (q.f.Edge(v, cur) && v != q.head)
    ensures ok ==> forall u :: q.f.Edge(u, cur) ==> u !in q.tails
    ensures ok ==> forall v :: v in workstack' ==> v < |q.f.blocks| && v != q.head && q.TrailFrom(v)
    ensures !ok ==> exists path :: q.BadTrail(path)
  {
    var preds := Preds(q.f, cur);
    PredsMembers(q.f, cur, |q.f.succs|);
    workstack' := workstack;
    for i := 0 to |preds|
      invariant forall k :: 0 <= k < i ==> preds[k] !in q.tails
      invariant forall v :: v in workstack' <==> v in workstack || (v in preds[..i] && v != q.head)
      invariant forall v :: v in workstack' ==> v < |q.f.blocks| && v != q.head && q.TrailFrom(v)
    {
      var pred := preds[i];
      assert preds[..i+1] == preds[..i] + [pred];
      assert |q.f.succs| == |q.f.blocks|;
      assert pred in Preds(q.f, cur) && pred < |q.f.succs| && cur in q.f.succs[pred];
      assert q.f.Edge(pred, cur);
      if pred in q.tails {
        ghost var path := PredTrail(q, cur, pred);
        assert q.BadTrail(path);
        return false, workstack';
      }
      if pred != q.head {
        ghost var path := PredTrail(q, cur, pred);
        workstack' := workstack' + [pred];
      }
    }
    assert preds[..|preds|] == preds;
    ok := true;
  }

  /** The state of the walk: every block pushed so far leads to a tail. */
  ghost predicate Walked(q: Tails, visited: set<nat>, workstack: seq<nat>) {
    && q.Closed(visited, set v | v in workstack) && 0 !in visited
    && visited <= Below(|q.f.blocks|)
    && forall v :: v in workstack ==> v < |q.f.blocks| && v != q.head && q.TrailFrom(v)
  }

  lemma VisitedOne(q: Tails, visited: set<nat>, rest: seq<nat>, cur: nat, pushed: seq<nat>)
    requires q.Valid() && Walked(q, visited, rest + [cur])
    requires cur != 0 && cur !in q.avoid && cur !in visited
    requires forall v :: v in pushed <==> v in rest || (q.f.Edge(v, cur) && v != q.head)
    requires forall u :: q.f.Edge(u, cur) ==> u !in q.tails
    requires forall v :: v in pushed ==> v < |q.f.blocks| && v != q.head && q.TrailFrom(v)
    ensures Walked(q, visited + {cur}, pushed)
  {
    forall v, u | v in visited + {cur} && q.f.Edge(u, v)
      ensures u !in q.tails && u in {q.head} + (visited + {cur}) + (set x | x in pushed) + q.avoid
    {
      if v in visited {
        assert u in (rest + [cur]) ==> u in rest || u == cur;
      }
    }
    assert (rest + [cur])[|rest|] == cur && cur in rest + [cur];
  }

  /** One block popped that need not be visited. */
  lemma SkippedOne(q: Tails, visited: set<nat>, rest: seq<nat>, cur: nat)
    requires Walked(q, visited, rest + [cur])
    requires cur in q.avoid || cur in visited
    ensures Walked(q, visited, rest)
  {
    forall v, u | v in visited && q.f.Edge(u, v)
      ensures u !in q.tails && u in {q.head} + visited + (set x | x in rest) + q.avoid
    {
      assert u in (rest + [cur]) ==> u in rest || u == cur;
    }
    assert forall v :: v in rest ==> v in rest + [cur];
  }

  /** The inner loop: everything that leads to `start`. */
  method WalkBack(q: Tails, start: nat, visited: set<nat>) returns (ok: bool, visited': set<nat>)
    requires q.Valid() && start in q.tails && Walked(q, visited, [])
    ensures ok ==> visited <= visited' && Walked(q, visited', []) && (start in visited' || start in q.avoid)
    ensures !ok ==> exists path :: q.BadTrail(path)
  {
    assert q.Trail([start]) && [start][0] == start;
    var workstack := [start];
    visited' := visited;
    while workstack != []
      invariant visited <= visited' && Walked(q, visited', workstack)
      invariant start in visited' || start in q.avoid || start in workstack
      decreases Below(|q.f.blocks|) - visited', |workstack|
    {
      var cur := workstack[|workstack| - 1];
      var rest := workstack[..|workstack| - 1];
      assert workstack == rest + [cur] && cur in workstack;
      if cur in q.avoid || cur in visited' {
        SkippedOne(q, visited', rest, cur);
        workstack := rest;
        continue;
      }
      if cur == 0 {
        ghost var path :| q.Trail(path) && path[0] == cur;
        assert q.BadTrail(path);
        return false, visited';
      }
      assert forall v :: v in rest ==> v in workstack;
      var pushed;
      ok, pushed := PushPreds(q, cur, rest);
      if !ok {
        return false, visited';
      }
      VisitedOne(q, visited', rest, cur, pushed);
      visited', workstack := visited' + {cur}, pushed;
    }
    ok := true;
  }

  lemma CompleteHolds(q: Tails, visited: set<nat>)
    requires q.Valid() && Walked(q, visited, []) && q.tails <= visited + q.avoid
    ensures forall path :: !q.BadTrail(path)
    ensures HeadFirst(q.f, q.head, q.tails, q.avoid)
  {
    assert (set v: nat | v in []) == {};
    forall path ensures !q.BadTrail(path) {
      if q.Trail(path) {
        CompleteNoBadTrail(q, visited, path);
      }
    }
    NoBadTrailHeadFirst(q);
  }

  method VerifyFanoutBackward(q: Tails) returns (ok: bool)
    requires q.Valid()
    ensures ok <==> forall path :: !q.BadTrail(path)
    ensures ok ==> HeadFirst(q.f, q.head, q.tails, q.avoid)
  {
    var todo, rest: set<nat> := [], q.tails;
    while rest != {}
      invariant forall v :: v in q.tails <==> v in todo || v in rest
      decreases rest
    {
      var t :| t in rest;
      todo, rest := todo + [t], rest - {t};
    }
    var visited: set<nat> := {};
    while todo != []
      invariant forall v :: v in todo ==> v in q.tails
      invariant forall v :: v in q.tails ==> v in visited || v in q.avoid || v in todo
      invariant Walked(q, visited, [])
      decreases |todo|
    {
      var start := todo[|todo| - 1];
      todo := todo[..|todo| - 1];
      ok, visited := WalkBack(q, start, visited);
      if !ok {
        return;
      }
    }
    ok := true;
    CompleteHolds(q, visited);
  }
}
