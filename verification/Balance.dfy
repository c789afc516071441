/** Why erasing an incref together with one decref in each of several tail blocks leaves
    every object's count right: on every run, head and tails strictly alternate. */
module Balance {
  import opened RefIr

  /** An incref to erase and, for each tail block, the decref to erase there. */
  datatype Pairing = Pairing(head: nat, inc: nat, ptr: Ptr, tails: map<nat, nat>)
  {
    function Ids(): set<nat> {
      {inc} + tails.Values
    }

    ghost predicate In(f: Func) {
      && head < |f.blocks| && head !in tails
      && Instr(inc, Incref(ptr)) in f.blocks[head]
      && forall b :: b in tails ==> b < |f.blocks| && Instr(tails[b], Decref(ptr)) in f.blocks[b]
    }
  }

  ghost predicate Avoids(path: seq<nat>, avoid: set<nat>) {
    forall k :: 0 <= k < |path| ==> path[k] !in avoid
  }

  /** Has `path` passed the head since it last passed a tail? */
  predicate Open(path: seq<nat>, head: nat, tails: set<nat>) {
    path != [] &&
    var last := path[|path| - 1];
    last == head || (last !in tails && Open(path[..|path| - 1], head, tails))
  }

  /** Executions of the head and of the tails strictly alternate, the head first, on
      every run through no block of `avoid`. */
  ghost predicate Alternates(f: Func, head: nat, tails: set<nat>, avoid: set<nat>) {
    forall path :: f.Run(path) && path != [] && Avoids(path, avoid) ==>
      var last := path[|path| - 1];
      && (last in tails ==> Open(path[..|path| - 1], head, tails))
      && (last == head ==> !Open(path[..|path| - 1], head, tails))
  }

  lemma {:induction false} OpenSkip(path: seq<nat>, s: seq<nat>, head: nat, tails: set<nat>)
    requires forall k :: 0 <= k < |s| ==> s[k] != head && s[k] !in tails
    ensures Open(path + s, head, tails) == Open(path, head, tails)
  {
    if s == [] {
      assert path + s == path;
    } else {
      OpenSkip(path, s[..|s| - 1], head, tails);
      assert (path + s)[..|path + s| - 1] == path + s[..|s| - 1];
    }
  }

  /** The place where an open path last passed the head. */
  lemma {:induction false} OpenAt(path: seq<nat>, head: nat, tails: set<nat>) returns (i: nat)
    requires Open(path, head, tails)
    ensures i < |path| && path[i] == head
    ensures forall k :: i < k < |path| ==> path[k] != head && path[k] !in tails
  {
    var n := |path| - 1;
    if path[n] == head {
      i := n;
    } else {
      i := OpenAt(path[..n], head, tails);
    }
  }

  lemma FirstOf(path: seq<nat>, from: nat, stop: set<nat>) returns (i: nat)
    requires exists k :: from <= k < |path| && path[k] in stop
    ensures from <= i < |path| && path[i] in stop
    ensures forall k :: from <= k < i ==> path[k] !in stop
  {
    i := from;
    while path[i] !in stop
      invariant from <= i < |path|
      invariant forall k :: from <= k < i ==> path[k] !in stop
      decreases |path| - i
    {
      i := i + 1;
    }
  }

  lemma AlternatesAt(f: Func, head: nat, tails: set<nat>, avoid: set<nat>, path: seq<nat>, b: nat)
    requires Alternates(f, head, tails, avoid)
    requires f.Run(path + [b]) && Avoids(path + [b], avoid)
    ensures b in tails ==> Open(path, head, tails)
    ensures b == head ==> !Open(path, head, tails)
  {
    assert (path + [b])[..|path|] == path;
  }

  lemma RunCut(f: Func, path: seq<nat>, n: nat, avoid: set<nat>)
    requires f.Run(path) && Avoids(path, avoid) && n < |path|
    ensures path[..n] + [path[n]] == path[..n+1]
    ensures f.Run(path[..n+1]) && Avoids(path[..n+1], avoid)
  {
    var cut := path[..n+1];
    forall k | 0 < k < |cut| ensures f.Step(cut, k) {
      assert f.Step(path, k);
    }
  }

  lemma RunRest(f: Func, path: seq<nat>, n: nat, avoid: set<nat>)
    requires f.Run(path) && Avoids(path, avoid) && n <= |path|
    ensures f.Run(path[..n]) && Avoids(path[..n], avoid)
  {
    if n > 0 {
      RunCut(f, path, n - 1, avoid);
    }
  }

  lemma {:induction false} NoHeadNotOpen(path: seq<nat>, head: nat, tails: set<nat>)
    requires head !in path
    ensures !Open(path, head, tails)
  {
    if path != [] {
      NoHeadNotOpen(path[..|path| - 1], head, tails);
    }
  }

  lemma DominatorComesFirst(f: Func, path: seq<nat>, m: nat, a: nat, b: nat) returns (k: nat)
    requires f.Run(path) && m < |path| && path[m] == b && f.Dominates(a, b)
    ensures k <= m && path[k] == a
  {
    RunCut(f, path, m, {});
    var p := path[..m+1];
    assert p[|p| - 1] == b;
    assert a in p;
    k :| 0 <= k < |p| && p[k] == a;
  }

  /** A dominator of the head appears on an open path, and no head before it. */
  lemma DominatorBeforeHead(f: Func, path: seq<nat>, i: nat, head: nat, b: nat) returns (j: nat)
    requires f.Run(path) && i < |path| && path[i] == head && b != head
    requires f.Dominates(b, head)
    ensures j < i && path[j] == b
    ensures forall m :: 0 <= m <= j ==> path[m] != head
  {
    var k := DominatorComesFirst(f, path, i, b, head);
    j := FirstOf(path, 0, {b});
    forall m | 0 <= m <= j ensures path[m] != head {
      if path[m] == head {
        var l := DominatorComesFirst(f, path, m, b, head);
        assert false;
      }
    }
  }

  /** A path on which no head precedes position `n` does not reach a tail there. */
  lemma NoHeadNoTail(f: Func, head: nat, tails: set<nat>, avoid: set<nat>, path: seq<nat>, n: nat)
    requires Alternates(f, head, tails, avoid)
    requires f.Run(path) && Avoids(path, avoid) && n < |path|
    requires forall m :: 0 <= m < n ==> path[m] != head
    ensures path[n] !in tails
  {
    RunCut(f, path, n, avoid);
    AlternatesAt(f, head, tails, avoid, path[..n], path[n]);
    NoHeadNotOpen(path[..n], head, tails);
  }

  /** While a pair is open, no run enters a block that dominates the head: a value the
      incref names cannot be bound again before the decref. */
  lemma DominatorNotOpen(f: Func, head: nat, tails: set<nat>, avoid: set<nat>, path: seq<nat>, b: nat)
    requires Alternates(f, head, tails, avoid)
    requires f.Run(path + [b]) && Avoids(path + [b], avoid)
    requires Open(path, head, tails)
    ensures !f.Dominates(b, head)
  {
    AlternatesAt(f, head, tails, avoid, path, b);
    if f.Dominates(b, head) {
      var q := path + [b];
      var i := OpenAt(path, head, tails);
      assert q[i] == head;
      var j := DominatorBeforeHead(f, q, i, head, b);
      assert forall k :: 0 <= k <= j ==> q[k] == path[k];
      NoHeadNoTail(f, head, tails, avoid, q, j);
      LoopBack(f, head, tails, avoid, path, b, j, i);
      assert false;
    }
  }

  /** A run that ends in block `b` can go on the way it went on from an earlier `b`. */
  lemma Splice(f: Func, q: seq<nat>, j: nat, m: nat, avoid: set<nat>)
    requires f.Run(q) && Avoids(q, avoid) && j <= m < |q| && q[|q| - 1] == q[j]
    ensures f.Run(q + q[j+1..m+1]) && Avoids(q + q[j+1..m+1], avoid)
  {
    var s := q + q[j+1..m+1];
    forall k | 0 < k < |s| ensures f.Step(s, k) {
      if k < |q| {
        assert f.Step(q, k);
      } else {
        assert s[k] == q[k - |q| + j + 1] && s[k-1] == q[k - |q| + j];
        assert f.Step(q, k - |q| + j + 1);
      }
    }
  }

  lemma OpenAround(path: seq<nat>, head: nat, tails: set<nat>, b: nat, j: nat, m: nat)
    requires Open(path, head, tails) && b != head && b !in tails
    requires j < m <= |path|
    requires forall k :: j < k < m ==> path[k] != head && path[k] !in tails
    ensures Open(path + [b] + path[j+1..m], head, tails)
  {
    OpenSkip(path, [b], head, tails);
    OpenSkip(path + [b], path[j+1..m], head, tails);
  }

  /** A run that has come back to `b` can go on as it went on from the earlier `b`. */
  lemma GoesOnAgain(f: Func, avoid: set<nat>, path: seq<nat>, b: nat, j: nat, m: nat)
    requires f.Run(path + [b]) && Avoids(path + [b], avoid)
    requires j < m < |path| && path[j] == b
    ensures f.Run(path + [b] + path[j+1..m] + [path[m]]) && Avoids(path + [b] + path[j+1..m] + [path[m]], avoid)
  {
    var q := path + [b];
    Splice(f, q, j, m, avoid);
    assert q[j+1..m+1] == path[j+1..m] + [path[m]];
    assert q + q[j+1..m+1] == q + path[j+1..m] + [path[m]];
  }

  /** An open path has come back to `b`: going on as it went on from the earlier `b`
      would meet the head while open, so it meets a tail first. */
  lemma OnceMore(f: Func, head: nat, tails: set<nat>, avoid: set<nat>, path: seq<nat>, b: nat, j: nat, m: nat)
    requires Alternates(f, head, tails, avoid)
    requires f.Run(path + [b]) && Avoids(path + [b], avoid)
    requires Open(path, head, tails) && b != head && b !in tails
    requires j < m < |path| && path[j] == b
    requires forall k :: j < k < m ==> path[k] != head && path[k] !in tails
    ensures path[m] != head
  {
    var r := path + [b] + path[j+1..m];
    assert Open(r, head, tails) by {
      OpenAround(path, head, tails, b, j, m);
    }
    assert f.Run(r + [path[m]]) && Avoids(r + [path[m]], avoid) by {
      GoesOnAgain(f, avoid, path, b, j, m);
    }
    AlternatesAt(f, head, tails, avoid, r, path[m]);
  }

  lemma LoopBack(f: Func, head: nat, tails: set<nat>, avoid: set<nat>, path: seq<nat>, b: nat, j: nat, i: nat)
    requires Alternates(f, head, tails, avoid)
    requires f.Run(path + [b]) && Avoids(path + [b], avoid)
    requires Open(path, head, tails) && b != head && b !in tails
    requires j < i < |path| && path[j] == b && path[i] == head
    ensures exists m :: 0 <= m <= j && path[m] == head
  {
    assert path[i] in tails + {head};
    var m := FirstOf(path, j + 1, tails + {head});
    OnceMore(f, head, tails, avoid, path, b, j, m);
    if forall l :: 0 <= l <= j ==> path[l] != head {
      var q := path + [b];
      assert forall l :: 0 <= l <= m ==> q[l] == path[l];
      NoHeadNoTail(f, head, tails, avoid, q, m);
      assert false;
    }
  }

  // ----- what the erased instructions contribute

  /** An instruction of the pairing stands where the pairing says. */
  lemma WhichErased(f: Func, m: Pairing, b: nat, i: nat)
    requires f.Wf() && m.In(f) && b < |f.blocks| && i < |f.blocks[b]|
    requires f.blocks[b][i].id in m.Ids()
    ensures b == m.head || b in m.tails
    ensures b == m.head ==> f.blocks[b][i] == Instr(m.inc, Incref(m.ptr))
    ensures b in m.tails ==> f.blocks[b][i] == Instr(m.tails[b], Decref(m.ptr))
  {
    var id := f.blocks[b][i].id;
    if id == m.inc {
      var h :| 0 <= h < |f.blocks[m.head]| && f.blocks[m.head][h] == Instr(m.inc, Incref(m.ptr));
      assert !f.Clash(b, i, m.head, h);
    } else {
      var t :| t in m.tails && m.tails[t] == id;
      var k :| 0 <= k < |f.blocks[t]| && f.blocks[t][k] == Instr(id, Decref(m.ptr));
      assert !f.Clash(b, i, t, k);
    }
  }

  lemma OneInBlock(f: Func, m: Pairing, b: nat, i: nat)
    requires f.Wf() && m.In(f) && b < |f.blocks| && i < |f.blocks[b]|
    requires f.blocks[b][i].id in m.Ids()
    ensures b == m.head || b in m.tails
    ensures b == m.head ==> f.blocks[b][i] == Instr(m.inc, Incref(m.ptr))
    ensures b in m.tails ==> f.blocks[b][i] == Instr(m.tails[b], Decref(m.ptr))
    ensures forall j :: 0 <= j < |f.blocks[b]| && j != i ==> f.blocks[b][j].id !in m.Ids()
  {
    WhichErased(f, m, b, i);
    forall j | 0 <= j < |f.blocks[b]| && j != i ensures f.blocks[b][j].id !in m.Ids() {
      if f.blocks[b][j].id in m.Ids() {
        WhichErased(f, m, b, j);
        assert f.Clash(b, i, b, j);
        assert false;
      }
    }
  }

  ghost predicate Ready(f: Func, m: Pairing, avoid: set<nat>) {
    && f.Wf() && f.Ssa() && m.In(f)
    && Alternates(f, m.head, m.tails.Keys, avoid)
  }

  lemma OpenBlockKeepsValue(f: Func, m: Pairing, avoid: set<nat>, path: seq<nat>, b: nat, i: nat)
    requires Ready(f, m, avoid) && m.ptr.Val?
    requires f.Run(path + [b]) && Avoids(path + [b], avoid)
    requires Open(path, m.head, m.tails.Keys)
    requires b < |f.blocks| && i < |f.blocks[b]|
    ensures !f.blocks[b][i].op.Defines(m.ptr.name)
  {
    if f.blocks[b][i].op.Defines(m.ptr.name) {
      var h :| 0 <= h < |f.blocks[m.head]| && f.blocks[m.head][h] == Instr(m.inc, Incref(m.ptr));
      assert f.DefFirst(m.head, h, b, i);
      DominatorNotOpen(f, m.head, m.tails.Keys, avoid, path, b);
    }
  }

  /** Executing the head contributes one reference to what the pointer denotes. */
  lemma HeadContribution(f: Func, m: Pairing, t: Trace, n: nat, w: World, o: nat)
    requires f.Wf() && f.Ssa() && m.In(f)
    ensures
      var s := t + Events(n, f.blocks[m.head]);
      CountOf(s, m.Ids(), w, o) == CountOf(t, m.Ids(), w, o) + if o != NIL && Denotes(s, w, m.ptr) == o then 1 else 0
  {
    var code, s := f.blocks[m.head], Events(n, f.blocks[m.head]);
    var i :| 0 <= i < |code| && code[i] == Instr(m.inc, Incref(m.ptr));
    OneInBlock(f, m, m.head, i);
    CountOfOne(t, s, i, m.Ids(), w, o);
    if m.ptr.Val? {
      assert t + s == (t + s[..i]) + s[i..];
      forall k | i <= k < |code| ensures !code[k].op.Defines(m.ptr.name) {
        assert f.DefFirst(m.head, i, m.head, k);
      }
      ValueAfterNoDef(t + s[..i], s[i..], w, m.ptr.name);
    }
  }

  /** Executing an open tail takes one reference from what the pointer denotes before it. */
  lemma TailContribution(f: Func, m: Pairing, t: Trace, n: nat, b: nat, w: World, o: nat)
    requires f.Wf() && m.In(f) && b in m.tails
    requires m.ptr.Val? ==> forall j :: 0 <= j < |f.blocks[b]| ==> !f.blocks[b][j].op.Defines(m.ptr.name)
    ensures CountOf(t + Events(n, f.blocks[b]), m.Ids(), w, o) ==
            CountOf(t, m.Ids(), w, o) - if o != NIL && Denotes(t, w, m.ptr) == o then 1 else 0
  {
    var code, s := f.blocks[b], Events(n, f.blocks[b]);
    var i :| 0 <= i < |code| && code[i] == Instr(m.tails[b], Decref(m.ptr));
    assert m.tails[b] in m.Ids();
    OneInBlock(f, m, b, i);
    CountOfOne(t, s, i, m.Ids(), w, o);
    if m.ptr.Val? {
      ValueAfterNoDef(t, s[..i], w, m.ptr.name);
    }
  }

  lemma OtherContribution(f: Func, m: Pairing, t: Trace, n: nat, b: nat, w: World, o: nat)
    requires f.Wf() && m.In(f) && b < |f.blocks| && b != m.head && b !in m.tails
    ensures CountOf(t + Events(n, f.blocks[b]), m.Ids(), w, o) == CountOf(t, m.Ids(), w, o)
  {
    var code := f.blocks[b];
    forall i | 0 <= i < |code| ensures code[i].id !in m.Ids() {
      if code[i].id in m.Ids() {
        OneInBlock(f, m, b, i);
      }
    }
    CountOfNone(t, Events(n, code), m.Ids(), w, o);
  }

  /** What the erased instructions have contributed to an object after a run. */
  function Contributed(f: Func, m: Pairing, path: seq<nat>, w: World, o: nat): int
    requires f.Run(path)
  {
    if Open(path, m.head, m.tails.Keys) && o != NIL && Denotes(TraceOf(f, path), w, m.ptr) == o then 1 else 0
  }

  lemma HeadStep(f: Func, m: Pairing, avoid: set<nat>, rest: seq<nat>, w: World, o: nat)
    requires Ready(f, m, avoid)
    requires f.Run(rest) && f.Run(rest + [m.head]) && Avoids(rest + [m.head], avoid)
    requires CountOf(TraceOf(f, rest), m.Ids(), w, o) == Contributed(f, m, rest, w, o)
    ensures CountOf(TraceOf(f, rest + [m.head]), m.Ids(), w, o) == Contributed(f, m, rest + [m.head], w, o)
  {
    AlternatesAt(f, m.head, m.tails.Keys, avoid, rest, m.head);
    assert (rest + [m.head])[..|rest|] == rest;
    HeadContribution(f, m, TraceOf(f, rest), |rest|, w, o);
  }

  /** A block entered while the pair is open leaves the pointer's value alone. */
  lemma OpenValue(f: Func, m: Pairing, avoid: set<nat>, rest: seq<nat>, b: nat, w: World)
    requires Ready(f, m, avoid) && b < |f.blocks|
    requires f.Run(rest) && f.Run(rest + [b]) && Avoids(rest + [b], avoid)
    requires Open(rest, m.head, m.tails.Keys)
    ensures m.ptr.Val? ==> forall j :: 0 <= j < |f.blocks[b]| ==> !f.blocks[b][j].op.Defines(m.ptr.name)
    ensures Denotes(TraceOf(f, rest + [b]), w, m.ptr) == Denotes(TraceOf(f, rest), w, m.ptr)
  {
    assert (rest + [b])[..|rest|] == rest;
    if m.ptr.Val? {
      forall j | 0 <= j < |f.blocks[b]| ensures !f.blocks[b][j].op.Defines(m.ptr.name) {
        OpenBlockKeepsValue(f, m, avoid, rest, b, j);
      }
      ValueAfterNoDef(TraceOf(f, rest), Events(|rest|, f.blocks[b]), w, m.ptr.name);
    }
  }

  lemma TailStep(f: Func, m: Pairing, avoid: set<nat>, rest: seq<nat>, b: nat, w: World, o: nat)
    requires Ready(f, m, avoid) && b in m.tails && b != m.head
    requires f.Run(rest) && f.Run(rest + [b]) && Avoids(rest + [b], avoid)
    requires CountOf(TraceOf(f, rest), m.Ids(), w, o) == Contributed(f, m, rest, w, o)
    ensures CountOf(TraceOf(f, rest + [b]), m.Ids(), w, o) == Contributed(f, m, rest + [b], w, o)
  {
    AlternatesAt(f, m.head, m.tails.Keys, avoid, rest, b);
    assert (rest + [b])[..|rest|] == rest;
    OpenValue(f, m, avoid, rest, b, w);
    TailContribution(f, m, TraceOf(f, rest), |rest|, b, w, o);
  }

  lemma OtherStep(f: Func, m: Pairing, avoid: set<nat>, rest: seq<nat>, b: nat, w: World, o: nat)
    requires Ready(f, m, avoid) && b < |f.blocks| && b !in m.tails && b != m.head
    requires f.Run(rest) && f.Run(rest + [b]) && Avoids(rest + [b], avoid)
    requires CountOf(TraceOf(f, rest), m.Ids(), w, o) == Contributed(f, m, rest, w, o)
    ensures CountOf(TraceOf(f, rest + [b]), m.Ids(), w, o) == Contributed(f, m, rest + [b], w, o)
  {
    assert (rest + [b])[..|rest|] == rest;
    if Open(rest, m.head, m.tails.Keys) {
      OpenValue(f, m, avoid, rest, b, w);
    }
    OtherContribution(f, m, TraceOf(f, rest), |rest|, b, w, o);
  }

  lemma ContributionStep(f: Func, m: Pairing, avoid: set<nat>, rest: seq<nat>, b: nat, w: World, o: nat)
    requires Ready(f, m, avoid) && b < |f.blocks|
    requires f.Run(rest) && f.Run(rest + [b]) && Avoids(rest + [b], avoid)
    requires CountOf(TraceOf(f, rest), m.Ids(), w, o) == Contributed(f, m, rest, w, o)
    ensures CountOf(TraceOf(f, rest + [b]), m.Ids(), w, o) == Contributed(f, m, rest + [b], w, o)
  {
    if b == m.head {
      HeadStep(f, m, avoid, rest, w, o);
    } else if b in m.tails {
      TailStep(f, m, avoid, rest, b, w, o);
    } else {
      OtherStep(f, m, avoid, rest, b, w, o);
    }
  }

  /** On every run, the erased instructions contribute one reference to the object the
      pointer denotes while the pair is open, and nothing to any object otherwise. */
  lemma {:induction false} ErasedContribution(f: Func, m: Pairing, avoid: set<nat>, path: seq<nat>, w: World, o: nat)
    requires Ready(f, m, avoid)
    requires f.Run(path) && Avoids(path, avoid)
    ensures CountOf(TraceOf(f, path), m.Ids(), w, o) == Contributed(f, m, path, w, o)
  {
    if path != [] {
      var n := |path| - 1;
      var rest, b := path[..n], path[n];
      assert b < |f.blocks|;
      RunRest(f, path, n, avoid);
      ErasedContribution(f, m, avoid, rest, w, o);
      assert rest + [b] == path;
      ContributionStep(f, m, avoid, rest, b, w, o);
    }
  }
}
