/** How low a pruned count can go between the erased incref and the erased decref. */
module WindowTheory {
  import opened RefIr
  import opened Balance
  import opened PruneTheory
  import opened DiamondTheory

  /** No block of an open pair, the head included, holds a decref of anything. */
  ghost predicate Quiet(f: Func, head: nat, tails: set<nat>, avoid: set<nat>) {
    forall path :: f.Run(path) && Avoids(path, avoid) && Open(path, head, tails) ==>
      !HasDecref(f.blocks[path[|path| - 1]])
  }

  /** `u` and `v` are moments of the run `path`, then `b` up to its instruction `j`,
      no earlier than the last entry of the head (which is at `i`) and `u` first. */
  ghost predicate Window(f: Func, m: Pairing, path: seq<nat>, i: nat, b: nat, j: nat, u: Trace, v: Trace)
  {
    && InBlocks(f, path) && b < |f.blocks|
    && i < |path| && path[i] == m.head
    && (forall k :: i < k < |path| ==> path[k] != m.head && path[k] !in m.tails)
    && b in m.tails && j < |f.blocks[b]| && f.blocks[b][j] == Instr(m.tails[b], Decref(m.ptr))
    && |Starts(f, path, i)| <= |u| && u <= v <= WholeWindow(f, path, b, j)
  }

  ghost predicate InBlocks(f: Func, path: seq<nat>) {
    forall k :: 0 <= k < |path| ==> path[k] < |f.blocks|
  }

  function Starts(f: Func, path: seq<nat>, i: nat): Trace
    requires InBlocks(f, path)
    requires i <= |path|
  {
    TraceOf(f, path[..i])
  }

  function WholeWindow(f: Func, path: seq<nat>, b: nat, j: nat): Trace
    requires InBlocks(f, path)
    requires b < |f.blocks| && j <= |f.blocks[b]|
  {
    TraceOf(f, path) + Events(|path|, f.blocks[b][..j])
  }

  function Since(f: Func, path: seq<nat>, i: nat, b: nat, j: nat): Trace
    requires InBlocks(f, path)
    requires b < |f.blocks| && j <= |f.blocks[b]| && i <= |path|
  {
    Stretch(f, path, i) + Events(|path|, f.blocks[b][..j])
  }

  /** The events of the blocks of `path` from position `i` on. */
  function Stretch(f: Func, path: seq<nat>, i: nat): Trace
    requires InBlocks(f, path)
    requires i <= |path|
    decreases |path|
  {
    if i == |path| then []
    else Stretch(f, path[..|path| - 1], i) + Events(|path| - 1, f.blocks[path[|path| - 1]])
  }

  lemma {:induction false} StretchSplits(f: Func, path: seq<nat>, i: nat)
    requires InBlocks(f, path)
    requires i <= |path|
    ensures TraceOf(f, path) == Starts(f, path, i) + Stretch(f, path, i)
    decreases |path|
  {
    if i == |path| {
      assert path[..i] == path;
    } else {
      var n := |path| - 1;
      StretchSplits(f, path[..n], i);
      assert path[..n][..i] == path[..i];
    }
  }

  lemma {:induction false} StretchQuiet(f: Func, path: seq<nat>, i: nat)
    requires InBlocks(f, path)
    requires i <= |path|
    requires forall k :: i <= k < |path| ==> !HasDecref(f.blocks[path[k]])
    ensures forall k :: 0 <= k < |Stretch(f, path, i)| ==> !Stretch(f, path, i)[k].ins.op.Decref?
    decreases |path|
  {
    if i < |path| {
      var n := |path| - 1;
      StretchQuiet(f, path[..n], i);
      var code := f.blocks[path[n]];
      assert !HasDecref(code);
      assert forall k :: 0 <= k < |code| ==> !code[k].op.Decref?;
    }
  }

  predicate Lowers(e: Event) {
    e.ins.op.Decref? && e.ins.op.p.Val?
  }

  lemma {:induction false} CountMonotone(u: Trace, s: Trace, ids: set<nat>, w: World, o: nat)
    requires forall k :: 0 <= k < |s| ==> !Lowers(s[k])
    ensures Count(Keep(u, ids), w, o) <= Count(Keep(u + s, ids), w, o)
  {
    if s == [] {
      assert u + s == u;
    } else {
      var n := |s| - 1;
      CountMonotone(u, s[..n], ids, w, o);
      assert u + s == u + s[..n] + [s[n]];
      KeptNotLower(u + s[..n], s[n], ids, w, o);
    }
  }

  lemma EffectNotDown(t: Trace, e: Event, w: World, o: nat)
    requires !Lowers(e)
    ensures Effect(t, e, w, o) >= 0
  {
  }

  lemma KeptNotLower(v: Trace, e: Event, ids: set<nat>, w: World, o: nat)
    requires !Lowers(e)
    ensures Count(Keep(v, ids), w, o) <= Count(Keep(v + [e], ids), w, o)
  {
    KeepSnoc(v, e, ids);
    CountSnoc(Keep(v, ids), e, w, o);
    EffectNotDown(Keep(v, ids), e, w, o);
  }

  lemma KeepSnoc(t: Trace, e: Event, ids: set<nat>)
    ensures Keep(t + [e], ids) == if e.ins.id in ids then Keep(t, ids) else Keep(t, ids) + [e]
  {
    assert (t + [e])[..|t|] == t;
  }

  /** Is another decref executed in the tail before the one that is erased? */
  predicate DecrefBefore(code: Code, j: nat)
    requires j <= |code|
  {
    exists i :: 0 <= i < j && code[i].op.Decref? && code[i].op.p.Val?
  }

  /** From the entry of the head to the erased decref, no count ever falls in the pruned
      function, whatever the pointers denote: nothing live then can die before it would have. */
  ghost predicate NeverFalls(f: Func, m: Pairing, avoid: set<nat>) {
    forall path, i, b, j, u, v, w: World, o: nat ::
      f.Run(path + [b]) && Avoids(path + [b], avoid) && Window(f, m, path, i, b, j, u, v) ==>
        Count(Keep(u, m.Ids()), w, o) <= Count(Keep(v, m.Ids()), w, o)
  }

  /** No tail that a run enters executes another decref before the erased one. */
  ghost predicate TailsClean(f: Func, m: Pairing, avoid: set<nat>) {
    forall path, b: nat, j ::
      && b < |f.blocks| && f.Run(path + [b]) && Avoids(path + [b], avoid) && b in m.tails
      && 0 <= j < |f.blocks[b]| && f.blocks[b][j] == Instr(m.tails[b], Decref(m.ptr))
      ==> !DecrefBefore(f.blocks[b], j)
  }

  lemma OpenStretchQuiet(f: Func, m: Pairing, avoid: set<nat>, path: seq<nat>, i: nat)
    requires Quiet(f, m.head, m.tails.Keys, avoid)
    requires f.Run(path) && Avoids(path, avoid) && i < |path| && path[i] == m.head
    requires forall k :: i < k < |path| ==> path[k] != m.head && path[k] !in m.tails
    ensures forall k :: i <= k < |path| ==> !HasDecref(f.blocks[path[k]])
  {
    forall k | i <= k < |path| ensures !HasDecref(f.blocks[path[k]]) {
      RunCut(f, path, k, avoid);
      OpenUpTo(m, path, i, k);
      var p := path[..k+1];
      assert p[|p| - 1] == path[k];
    }
  }

  lemma OpenUpTo(m: Pairing, path: seq<nat>, i: nat, k: nat)
    requires i <= k < |path| && path[i] == m.head
    requires forall l :: i < l < |path| ==> path[l] != m.head && path[l] !in m.tails
    ensures Open(path[..k+1], m.head, m.tails.Keys)
  {
    assert path[..k+1] == path[..i+1] + path[i+1..k+1];
    assert Open(path[..i+1], m.head, m.tails.Keys);
    OpenSkip(path[..i+1], path[i+1..k+1], m.head, m.tails.Keys);
  }

  /** Nothing lowers a count from the head's entry on. */
  lemma SinceQuiet(f: Func, m: Pairing, avoid: set<nat>, path: seq<nat>, i: nat, b: nat, j: nat)
    requires Quiet(f, m.head, m.tails.Keys, avoid)
    requires f.Run(path) && Avoids(path, avoid) && i < |path| && path[i] == m.head
    requires forall k :: i < k < |path| ==> path[k] != m.head && path[k] !in m.tails
    requires b < |f.blocks| && j <= |f.blocks[b]| && !DecrefBefore(f.blocks[b], j)
    ensures forall k :: 0 <= k < |Since(f, path, i, b, j)| ==> !Lowers(Since(f, path, i, b, j)[k])
  {
    OpenStretchQuiet(f, m, avoid, path, i);
    StretchQuiet(f, path, i);
    var stretch, all := Stretch(f, path, i), Since(f, path, i, b, j);
    forall k | 0 <= k < |all| ensures !Lowers(all[k]) {
      if k >= |stretch| {
        assert all[k].ins == f.blocks[b][k - |stretch|];
      }
    }
  }

  lemma SinceOfWhole(f: Func, path: seq<nat>, i: nat, b: nat, j: nat)
    requires InBlocks(f, path) && b < |f.blocks| && j <= |f.blocks[b]| && i <= |path|
    ensures WholeWindow(f, path, b, j) == Starts(f, path, i) + Since(f, path, i, b, j)
  {
    StretchSplits(f, path, i);
  }

  lemma SuffixQuiet(start: Trace, all: Trace, u: Trace, v: Trace)
    requires forall k :: 0 <= k < |all| ==> !Lowers(all[k])
    requires |start| <= |u| && u <= v <= start + all
    ensures forall k :: 0 <= k < |v[|u|..]| ==> !Lowers(v[|u|..][k])
  {
    forall k | 0 <= k < |v[|u|..]| ensures !Lowers(v[|u|..][k]) {
      assert v[|u|..][k] == (start + all)[|u| + k] == all[|u| + k - |start|];
    }
  }

  lemma CleanNeverFalls(f: Func, m: Pairing, avoid: set<nat>, path: seq<nat>, i: nat, b: nat, j: nat,
                        u: Trace, v: Trace, w: World, o: nat)
    requires Quiet(f, m.head, m.tails.Keys, avoid) && TailsClean(f, m, avoid)
    requires f.Run(path + [b]) && Avoids(path + [b], avoid) && Window(f, m, path, i, b, j, u, v)
    ensures Count(Keep(u, m.Ids()), w, o) <= Count(Keep(v, m.Ids()), w, o)
  {
    assert f.Run(path) && Avoids(path, avoid) by {
      assert (path + [b])[..|path|] == path;
      RunRest(f, path + [b], |path|, avoid);
    }
    SinceQuiet(f, m, avoid, path, i, b, j);
    SinceOfWhole(f, path, i, b, j);
    SuffixQuiet(Starts(f, path, i), Since(f, path, i, b, j), u, v);
    CountMonotone(u, v[|u|..], m.Ids(), w, o);
    assert u + v[|u|..] == v;
  }

  /** In the world with one object, a decref that is kept lowers its count. */
  lemma KeptDecrefLowers(u: Trace, e: Event, ids: set<nat>)
    requires Lowers(e) && e.ins.id !in ids
    ensures Count(Keep(u + [e], ids), OneObject(), 1) < Count(Keep(u, ids), OneObject(), 1)
  {
    KeepSnoc(u, e, ids);
    CountSnoc(Keep(u, ids), e, OneObject(), 1);
    OneObjectValue(Keep(u, ids), e.ins.op.p.name);
  }

  lemma MomentsInTail(t: Trace, n: nat, code: Code, c: nat, j: nat)
    requires c < j <= |code|
    ensures
      var u := t + Events(n, code[..c]);
      u <= u + [Event(n, code[c])] <= t + Events(n, code[..j])
  {
    var u, whole := t + Events(n, code[..c]), t + Events(n, code[..j]);
    var v := u + [Event(n, code[c])];
    assert forall k :: 0 <= k < |v| ==> v[k] == whole[k];
  }

  lemma DirtyWindow(f: Func, m: Pairing, avoid: set<nat>, path: seq<nat>, b: nat, j: nat, c: nat)
    returns (i: nat, u: Trace, v: Trace)
    requires Ready(f, m, avoid)
    requires f.Run(path + [b]) && Avoids(path + [b], avoid) && b in m.tails
    requires b < |f.blocks| && c < j < |f.blocks[b]| && f.blocks[b][j] == Instr(m.tails[b], Decref(m.ptr))
    ensures u == TraceOf(f, path) + Events(|path|, f.blocks[b][..c])
    ensures v == u + [Event(|path|, f.blocks[b][c])]
    ensures Window(f, m, path, i, b, j, u, v)
  {
    AlternatesAt(f, m.head, m.tails.Keys, avoid, path, b);
    i := OpenAt(path, m.head, m.tails.Keys);
    assert forall k :: 0 <= k < |path| ==> (path + [b])[k] == path[k];
    StretchSplits(f, path, i);
    var code, n := f.blocks[b], |path|;
    var t := TraceOf(f, path);
    u := t + Events(n, code[..c]);
    v := u + [Event(n, code[c])];
    MomentsInTail(t, n, code, c, j);
  }

  lemma DirtyFalls(f: Func, m: Pairing, avoid: set<nat>, path: seq<nat>, b: nat, j: nat, c: nat)
    requires Ready(f, m, avoid)
    requires f.Run(path + [b]) && Avoids(path + [b], avoid) && b in m.tails
    requires b < |f.blocks| && c < j < |f.blocks[b]| && f.blocks[b][j] == Instr(m.tails[b], Decref(m.ptr))
    requires f.blocks[b][c].op.Decref? && f.blocks[b][c].op.p.Val?
    ensures !NeverFalls(f, m, avoid)
  {
    var i, u, v := DirtyWindow(f, m, avoid, path, b, j, c);
    assert m.tails[b] in m.Ids();
    OneInBlock(f, m, b, j);
    KeptDecrefLowers(u, Event(|path|, f.blocks[b][c]), m.Ids());
  }

  /** The pruned counts never fall before the erased decrefs exactly when no tail executes
      another decref first. The pass looks for other decrefs in the blocks between, not in
      the tails. */
  lemma NeverFallsExact(f: Func, m: Pairing, avoid: set<nat>)
    requires Ready(f, m, avoid) && Quiet(f, m.head, m.tails.Keys, avoid)
    ensures NeverFalls(f, m, avoid) <==> TailsClean(f, m, avoid)
  {
    if TailsClean(f, m, avoid) {
      forall path, i, b, j, u, v, w: World, o: nat |
        f.Run(path + [b]) && Avoids(path + [b], avoid) && Window(f, m, path, i, b, j, u, v)
        ensures Count(Keep(u, m.Ids()), w, o) <= Count(Keep(v, m.Ids()), w, o)
      {
        CleanNeverFalls(f, m, avoid, path, i, b, j, u, v, w, o);
      }
    } else {
      var path, b: nat, j :|
        && b < |f.blocks| && f.Run(path + [b]) && Avoids(path + [b], avoid) && b in m.tails
        && 0 <= j < |f.blocks[b]| && f.blocks[b][j] == Instr(m.tails[b], Decref(m.ptr))
        && DecrefBefore(f.blocks[b], j);
      var c :| 0 <= c < j && f.blocks[b][c].op.Decref? && f.blocks[b][c].op.p.Val?;
      DirtyFalls(f, m, avoid, path, b, j, c);
    }
  }

  // ----- one object, and the rest of the tail

  lemma WindowRefopsOnly(f: Func, m: Pairing, path: seq<nat>, b: nat, n: nat)
    requires f.Wf() && m.In(f) && InBlocks(f, path) && b < |f.blocks| && n <= |f.blocks[b]|
    ensures OnlyRefops(WholeWindow(f, path, b, n), m.Ids())
  {
    OnlyRefopsErased(f, m, path);
    forall k | 0 <= k < n && f.blocks[b][k].id in m.Ids() ensures f.blocks[b][k].op.IsRefop() {
      OneInBlock(f, m, b, k);
    }
  }

  /** What the erased instructions have contributed up to instruction `n` of a tail. */
  lemma TailContributed(f: Func, m: Pairing, t: Trace, k: nat, b: nat, j: nat, n: nat, w: World, o: nat)
    requires f.Wf() && m.In(f) && b in m.tails
    requires m.ptr.Val? ==> forall l :: 0 <= l < |f.blocks[b]| ==> !f.blocks[b][l].op.Defines(m.ptr.name)
    requires j < |f.blocks[b]| && f.blocks[b][j] == Instr(m.tails[b], Decref(m.ptr)) && n <= |f.blocks[b]|
    ensures CountOf(t + Events(k, f.blocks[b][..n]), m.Ids(), w, o) ==
            CountOf(t, m.Ids(), w, o) - if j < n && o != NIL && Denotes(t, w, m.ptr) == o then 1 else 0
  {
    var s := Events(k, f.blocks[b][..n]);
    assert m.tails[b] in m.Ids();
    OneInBlock(f, m, b, j);
    if j < n {
      CountOfOne(t, s, j, m.Ids(), w, o);
      if m.ptr.Val? {
        ValueAfterNoDef(t, s[..j], w, m.ptr.name);
      }
    } else {
      CountOfNone(t, s, m.Ids(), w, o);
    }
  }

  /** At every moment of a tail: before the erased decref the pruned count of the object that the
      pointer denotes is one less than the original, and from then on no count differs. */
  lemma TailMoment(f: Func, m: Pairing, avoid: set<nat>, path: seq<nat>, b: nat, j: nat, n: nat, w: World, o: nat)
    requires Ready(f, m, avoid)
    requires f.Run(path + [b]) && Avoids(path + [b], avoid) && b in m.tails && InBlocks(f, path)
    requires j < |f.blocks[b]| && f.blocks[b][j] == Instr(m.tails[b], Decref(m.ptr)) && n <= |f.blocks[b]|
    ensures Count(Keep(WholeWindow(f, path, b, n), m.Ids()), w, o) ==
            Count(WholeWindow(f, path, b, n), w, o)
            - if n <= j && o != NIL && Denotes(TraceOf(f, path), w, m.ptr) == o then 1 else 0
  {
    assert (path + [b])[..|path|] == path;
    RunRest(f, path + [b], |path|, avoid);
    AlternatesAt(f, m.head, m.tails.Keys, avoid, path, b);
    ErasedContribution(f, m, avoid, path, w, o);
    OpenValue(f, m, avoid, path, b, w);
    TailContributed(f, m, TraceOf(f, path), |path|, b, j, n, w, o);
    WindowRefopsOnly(f, m, path, b, n);
    CountKeep(WholeWindow(f, path, b, n), m.Ids(), w, o);
  }

  ghost predicate Lowering(t: Trace, e: Event, w: World, o: nat) {
    Effect(t, e, w, o) < 0
  }

  /** No decref that the tail runs before the erased one is on this object. */
  ghost predicate Spared(f: Func, path: seq<nat>, b: nat, j: nat, w: World, o: nat)
    requires InBlocks(f, path) && b < |f.blocks| && j < |f.blocks[b]|
  {
    forall c :: 0 <= c < j ==> !Lowering(WholeWindow(f, path, b, c), Event(|path|, f.blocks[b][c]), w, o)
  }

  /** From the entry of the head to the erased decref of this tail the count of this object never
      falls in the pruned function. */
  ghost predicate NeverFallsFor(f: Func, m: Pairing, path: seq<nat>, b: nat, j: nat, w: World, o: nat) {
    forall i, u, v :: Window(f, m, path, i, b, j, u, v) ==>
      Count(Keep(u, m.Ids()), w, o) <= Count(Keep(v, m.Ids()), w, o)
  }

  ghost predicate NotLoweredAt(whole: Trace, k: nat, w: World, o: nat)
    requires k < |whole|
  {
    !Lowering(whole[..k], whole[k], w, o)
  }

  ghost function KeptCount(whole: Trace, n: nat, ids: set<nat>, w: World, o: nat): int
    requires n <= |whole|
  {
    Count(Keep(whole[..n], ids), w, o)
  }

  lemma {:induction false} CountNotDown(whole: Trace, from: nat, to: nat, ids: set<nat>, w: World, o: nat)
    requires from <= to <= |whole| && OnlyRefops(whole, ids)
    requires forall k :: from <= k < to ==> NotLoweredAt(whole, k, w, o)
    ensures KeptCount(whole, from, ids, w, o) <= KeptCount(whole, to, ids, w, o)
  {
    if from < to {
      CountNotDown(whole, from, to - 1, ids, w, o);
      assert NotLoweredAt(whole, to - 1, w, o);
      NotDownNext(whole, to - 1, ids, w, o);
    }
  }

  lemma NotDownNext(whole: Trace, n: nat, ids: set<nat>, w: World, o: nat)
    requires n < |whole| && OnlyRefops(whole, ids) && NotLoweredAt(whole, n, w, o)
    ensures KeptCount(whole, n, ids, w, o) <= KeptCount(whole, n + 1, ids, w, o)
  {
    assert whole[..n + 1] == whole[..n] + [whole[n]];
    KeepSnoc(whole[..n], whole[n], ids);
    CountSnoc(Keep(whole[..n], ids), whole[n], w, o);
    EffectKeep(whole[..n], whole[n], ids, w, o);
  }

  /** No event of the window from the head's entry on lowers the count of a spared object. */
  lemma SparedMoment(f: Func, path: seq<nat>, b: nat, j: nat, k: nat, w: World, o: nat)
    requires InBlocks(f, path) && b < |f.blocks| && j < |f.blocks[b]| && Spared(f, path, b, j, w, o)
    requires k < |WholeWindow(f, path, b, j)| && (k < |TraceOf(f, path)| ==> !TraceOf(f, path)[k].ins.op.Decref?)
    ensures NotLoweredAt(WholeWindow(f, path, b, j), k, w, o)
  {
    if k < |TraceOf(f, path)| {
      NoDecrefNotLowering(f, path, b, j, k, w, o);
    } else {
      SparedInTail(f, path, b, j, k - |TraceOf(f, path)|, w, o);
    }
  }

  lemma SparedInTail(f: Func, path: seq<nat>, b: nat, j: nat, c: nat, w: World, o: nat)
    requires InBlocks(f, path) && b < |f.blocks| && c < j < |f.blocks[b]| && Spared(f, path, b, j, w, o)
    ensures NotLoweredAt(WholeWindow(f, path, b, j), |TraceOf(f, path)| + c, w, o)
  {
    TailPrefix(f, path, b, j, c);
  }

  lemma NoDecrefNotLowering(f: Func, path: seq<nat>, b: nat, j: nat, k: nat, w: World, o: nat)
    requires InBlocks(f, path) && b < |f.blocks| && j < |f.blocks[b]|
    requires k < |TraceOf(f, path)| && !TraceOf(f, path)[k].ins.op.Decref?
    ensures NotLoweredAt(WholeWindow(f, path, b, j), k, w, o)
  {
  }

  lemma StretchMoments(f: Func, path: seq<nat>, i: nat)
    requires InBlocks(f, path) && i <= |path|
    requires forall l :: i <= l < |path| ==> !HasDecref(f.blocks[path[l]])
    ensures forall k :: |Starts(f, path, i)| <= k < |TraceOf(f, path)| ==> !TraceOf(f, path)[k].ins.op.Decref?
  {
    StretchQuiet(f, path, i);
    StretchSplits(f, path, i);
    assert forall k :: |Starts(f, path, i)| <= k < |TraceOf(f, path)| ==>
      TraceOf(f, path)[k] == Stretch(f, path, i)[k - |Starts(f, path, i)|];
  }

  /** The window up to an instruction of the tail, and the event that comes then. */
  lemma TailPrefix(f: Func, path: seq<nat>, b: nat, j: nat, c: nat)
    requires InBlocks(f, path) && b < |f.blocks| && c < j <= |f.blocks[b]|
    ensures
      var whole, k := WholeWindow(f, path, b, j), |TraceOf(f, path)| + c;
      whole[..k] == WholeWindow(f, path, b, c) && whole[k] == Event(|path|, f.blocks[b][c])
  {
    MomentsInTail(TraceOf(f, path), |path|, f.blocks[b], c, j);
  }

  lemma SparedNeverFalls(f: Func, m: Pairing, avoid: set<nat>, path: seq<nat>, i: nat, b: nat, j: nat,
                         u: Trace, v: Trace, w: World, o: nat)
    requires Ready(f, m, avoid) && Quiet(f, m.head, m.tails.Keys, avoid)
    requires f.Run(path) && Avoids(path, avoid) && Window(f, m, path, i, b, j, u, v)
    requires Spared(f, path, b, j, w, o)
    ensures Count(Keep(u, m.Ids()), w, o) <= Count(Keep(v, m.Ids()), w, o)
  {
    var whole := WholeWindow(f, path, b, j);
    assert u == whole[..|u|] && v == whole[..|v|];
    SparedMoments(f, m, avoid, path, i, b, j, w, o);
    WindowRefopsOnly(f, m, path, b, j);
    CountNotDown(whole, |u|, |v|, m.Ids(), w, o);
  }

  lemma SparedMoments(f: Func, m: Pairing, avoid: set<nat>, path: seq<nat>, i: nat, b: nat, j: nat, w: World, o: nat)
    requires Quiet(f, m.head, m.tails.Keys, avoid)
    requires f.Run(path) && Avoids(path, avoid) && i < |path| && path[i] == m.head
    requires forall l :: i < l < |path| ==> path[l] != m.head && path[l] !in m.tails
    requires b < |f.blocks| && j < |f.blocks[b]| && Spared(f, path, b, j, w, o)
    ensures forall k :: |Starts(f, path, i)| <= k < |WholeWindow(f, path, b, j)| ==>
              NotLoweredAt(WholeWindow(f, path, b, j), k, w, o)
  {
    OpenStretchQuiet(f, m, avoid, path, i);
    StretchMoments(f, path, i);
    forall k | |Starts(f, path, i)| <= k < |WholeWindow(f, path, b, j)|
      ensures NotLoweredAt(WholeWindow(f, path, b, j), k, w, o)
    {
      SparedMoment(f, path, b, j, k, w, o);
    }
  }

  lemma NotSparedFalls(f: Func, m: Pairing, avoid: set<nat>, path: seq<nat>, b: nat, j: nat, c: nat, w: World, o: nat)
    requires Ready(f, m, avoid)
    requires f.Run(path + [b]) && Avoids(path + [b], avoid) && b in m.tails && InBlocks(f, path)
    requires b < |f.blocks| && c < j < |f.blocks[b]| && f.blocks[b][j] == Instr(m.tails[b], Decref(m.ptr))
    requires Lowering(WholeWindow(f, path, b, c), Event(|path|, f.blocks[b][c]), w, o)
    ensures !NeverFallsFor(f, m, path, b, j, w, o)
  {
    var i, u, v := DirtyWindow(f, m, avoid, path, b, j, c);
    var e := Event(|path|, f.blocks[b][c]);
    assert u == WholeWindow(f, path, b, c);
    assert m.tails[b] in m.Ids();
    OneInBlock(f, m, b, j);
    WindowRefopsOnly(f, m, path, b, c);
    KeepSnoc(u, e, m.Ids());
    CountSnoc(Keep(u, m.Ids()), e, w, o);
    EffectKeep(u, e, m.Ids(), w, o);
  }

  /** On each run and for each object: its pruned count never falls up to the erased decref if and
      only if the tail runs no decref on this very object before. Where distinct pointers denote
      distinct objects, the object of the erased pair is so spared. */
  lemma NeverFallsForExact(f: Func, m: Pairing, avoid: set<nat>, path: seq<nat>, b: nat, j: nat, w: World, o: nat)
    requires Ready(f, m, avoid) && Quiet(f, m.head, m.tails.Keys, avoid)
    requires f.Run(path + [b]) && Avoids(path + [b], avoid) && b in m.tails && InBlocks(f, path)
    requires j < |f.blocks[b]| && f.blocks[b][j] == Instr(m.tails[b], Decref(m.ptr))
    ensures NeverFallsFor(f, m, path, b, j, w, o) <==> Spared(f, path, b, j, w, o)
  {
    if Spared(f, path, b, j, w, o) {
      assert (path + [b])[..|path|] == path;
      RunRest(f, path + [b], |path|, avoid);
      forall i, u, v | Window(f, m, path, i, b, j, u, v)
        ensures Count(Keep(u, m.Ids()), w, o) <= Count(Keep(v, m.Ids()), w, o)
      {
        SparedNeverFalls(f, m, avoid, path, i, b, j, u, v, w, o);
      }
    } else {
      var c :| 0 <= c < j && Lowering(WholeWindow(f, path, b, c), Event(|path|, f.blocks[b][c]), w, o);
      NotSparedFalls(f, m, avoid, path, b, j, c, w, o);
    }
  }

  /** Do the decrefs of the tail before the erased one all denote other objects than the erased
      pair's, as distinct pointers do that denote distinct objects? */
  ghost predicate Unaliased(f: Func, m: Pairing, path: seq<nat>, b: nat, j: nat, w: World)
    requires InBlocks(f, path) && b < |f.blocks| && j < |f.blocks[b]|
  {
    forall c :: 0 <= c < j ==> Apart(f, m, path, b, c, w)
  }

  ghost predicate Apart(f: Func, m: Pairing, path: seq<nat>, b: nat, c: nat, w: World)
    requires InBlocks(f, path) && b < |f.blocks| && c < |f.blocks[b]|
  {
    var op := f.blocks[b][c].op;
    op.Decref? ==> Denotes(WholeWindow(f, path, b, c), w, op.p) != Denotes(TraceOf(f, path), w, m.ptr)
  }

  /** Through the whole tail, if no other decref before the erased one is on the pair's object: at
      every moment every object has its original count, or at least the count it had in the pruned
      function when the head was entered. Nothing dies that would not have died. */
  lemma WholeTailSafe(f: Func, m: Pairing, avoid: set<nat>, path: seq<nat>, i: nat, b: nat, j: nat, n: nat, w: World, o: nat)
    requires Ready(f, m, avoid) && Quiet(f, m.head, m.tails.Keys, avoid)
    requires f.Run(path + [b]) && Avoids(path + [b], avoid) && b in m.tails && InBlocks(f, path)
    requires i < |path| && path[i] == m.head
    requires forall k :: i < k < |path| ==> path[k] != m.head && path[k] !in m.tails
    requires j < |f.blocks[b]| && f.blocks[b][j] == Instr(m.tails[b], Decref(m.ptr)) && n <= |f.blocks[b]|
    requires Unaliased(f, m, path, b, j, w)
    ensures
      var now := Count(Keep(WholeWindow(f, path, b, n), m.Ids()), w, o);
      now == Count(WholeWindow(f, path, b, n), w, o) || now >= Count(Keep(Starts(f, path, i), m.Ids()), w, o)
  {
    TailMoment(f, m, avoid, path, b, j, n, w, o);
    if n <= j && o != NIL && Denotes(TraceOf(f, path), w, m.ptr) == o {
      UnaliasedSpared(f, m, path, b, j, w);
      WindowAt(f, m, path, i, b, j, n);
      RunRest(f, path + [b], |path|, avoid);
      assert (path + [b])[..|path|] == path;
      SparedNeverFalls(f, m, avoid, path, i, b, j, Starts(f, path, i), WholeWindow(f, path, b, n), w, o);
    }
  }

  lemma UnaliasedSpared(f: Func, m: Pairing, path: seq<nat>, b: nat, j: nat, w: World)
    requires InBlocks(f, path) && b < |f.blocks| && j < |f.blocks[b]| && Unaliased(f, m, path, b, j, w)
    ensures Spared(f, path, b, j, w, Denotes(TraceOf(f, path), w, m.ptr))
  {
    forall c | 0 <= c < j
      ensures !Lowering(WholeWindow(f, path, b, c), Event(|path|, f.blocks[b][c]), w, Denotes(TraceOf(f, path), w, m.ptr))
    {
      assert Apart(f, m, path, b, c, w);
    }
  }

  lemma WindowAt(f: Func, m: Pairing, path: seq<nat>, i: nat, b: nat, j: nat, n: nat)
    requires InBlocks(f, path) && b < |f.blocks| && b in m.tails && i < |path| && path[i] == m.head
    requires forall k :: i < k < |path| ==> path[k] != m.head && path[k] !in m.tails
    requires n <= j < |f.blocks[b]| && f.blocks[b][j] == Instr(m.tails[b], Decref(m.ptr))
    ensures Window(f, m, path, i, b, j, Starts(f, path, i), WholeWindow(f, path, b, n))
  {
    StretchSplits(f, path, i);
    assert f.blocks[b][..j] == f.blocks[b][..n] + f.blocks[b][n..j];
    assert WholeWindow(f, path, b, n) == WholeWindow(f, path, b, j)[..|WholeWindow(f, path, b, n)|];
  }

  /** A run enters tail `b`, whose erased decref is at `j`. */
  ghost predicate EntersTail(f: Func, m: Pairing, avoid: set<nat>, path: seq<nat>, b: nat, j: nat) {
    && f.Run(path + [b]) && Avoids(path + [b], avoid) && b in m.tails && b < |f.blocks| && InBlocks(f, path)
    && j < |f.blocks[b]| && f.blocks[b][j] == Instr(m.tails[b], Decref(m.ptr))
  }

  /** At instruction `n` of the tail the object has its original count, or at least the pruned count
      it had when the head was last entered, at `i`. */
  ghost predicate SafeAt(f: Func, m: Pairing, path: seq<nat>, i: nat, b: nat, n: nat, w: World, o: nat)
    requires InBlocks(f, path) && b < |f.blocks| && i <= |path| && n <= |f.blocks[b]|
  {
    var now := Count(Keep(WholeWindow(f, path, b, n), m.Ids()), w, o);
    now == Count(WholeWindow(f, path, b, n), w, o) || now >= Count(Keep(Starts(f, path, i), m.Ids()), w, o)
  }

  ghost predicate LastHead(m: Pairing, path: seq<nat>, i: nat) {
    i < |path| && path[i] == m.head && forall k :: i < k < |path| ==> path[k] != m.head && path[k] !in m.tails
  }

  /** Wherever no other decref of a tail before the erased one is on the pair's object, pruning is
      safe at every moment of the whole tail. */
  ghost predicate TailsSafe(f: Func, m: Pairing, avoid: set<nat>) {
    forall path, i: nat, b: nat, j: nat, n: nat, w: World, o: nat ::
      EntersTail(f, m, avoid, path, b, j) && LastHead(m, path, i) && 0 <= n <= |f.blocks[b]| && Unaliased(f, m, path, b, j, w)
      ==> SafeAt(f, m, path, i, b, n, w, o)
  }

  lemma AllTailsSafe(f: Func, m: Pairing, avoid: set<nat>)
    requires Ready(f, m, avoid) && Quiet(f, m.head, m.tails.Keys, avoid)
    ensures TailsSafe(f, m, avoid)
  {
    forall path, i: nat, b: nat, j: nat, n: nat, w: World, o: nat |
      EntersTail(f, m, avoid, path, b, j) && LastHead(m, path, i) && 0 <= n <= |f.blocks[b]| && Unaliased(f, m, path, b, j, w)
      ensures SafeAt(f, m, path, i, b, n, w, o)
    {
      WholeTailSafe(f, m, avoid, path, i, b, j, n, w, o);
    }
  }
}
