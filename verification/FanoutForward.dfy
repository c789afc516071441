/** The forward walk of the fan-out prune: from the head along every successor until a
    decref of the pointer (or, if asked for, a raising block) is met. */
module FanoutForward {
  import opened RefIr
  import opened Balance
  import opened PruneTheory

  const FANOUT_RECURSE_DEPTH: nat := 15
  const UNSIGNED: nat := 0x1_0000_0000

  /** What the walk looks for: the pointer, the block of its incref, and whether paths
      may also end in raising blocks. */
  datatype Query = Query(f: Func, p: Ptr, head: nat, raise: bool)
  {
    predicate Stops(v: nat)
      requires v < |f.blocks|
    {
      raise && Raises(f.blocks[v])
    }

    /** A block the walk goes through. */
    predicate Inner(v: nat)
      requires v < |f.blocks|
    {
      v != head && !HasDecref(f.blocks[v]) && !Stops(v)
    }

    /** A block where the walk must give up. */
    predicate Bad(v: nat)
      requires v < |f.blocks| == |f.succs|
    {
      || v == head
      || (HasDecref(f.blocks[v]) && !HasDecrefOf(f.blocks[v], p))
      || (Inner(v) && f.Exit(v))
    }

    ghost predicate Through(path: seq<nat>) {
      && f.Path(path) && path != [] && path[0] == head
      && forall k :: 0 < k < |path| ==> Inner(path[k])
    }

    /** A way from the head through inner blocks to a block where the walk must give up. */
    ghost predicate BadWay(path: seq<nat>) {
      f.Wf() && |path| >= 2 && f.Path(path) && Through(path[..|path| - 1]) && Bad(path[|path| - 1])
    }

    /** A way from the head through inner blocks to this one. */
    ghost predicate Reaches(way: seq<nat>, v: nat) {
      |way| >= 2 && f.Path(way) && way[|way| - 1] == v && Through(way[..|way| - 1])
    }

    /** A block with a decref of the pointer at the end of some way. */
    ghost predicate DecrefEnd(v: nat) {
      v < |f.blocks| && v != head && HasDecrefOf(f.blocks[v], p) && exists way :: Reaches(way, v)
    }

    /** A raising block at the end of some way, if ways may end there. */
    ghost predicate RaiseEnd(v: nat) {
      v < |f.blocks| && v != head && !HasDecref(f.blocks[v]) && Stops(v) && exists way :: Reaches(way, v)
    }

    /** A way through inner blocks that repeats none and is too long to be walked. */
    ghost predicate DeepWay(way: seq<nat>) {
      Through(way) && Distinct(way) && |way| >= FANOUT_RECURSE_DEPTH
    }

    /** A way that makes the walk give up on every incref of the head: it leads back to the head
        or to a decref of something else. */
    ghost predicate StrayWay(way: seq<nat>) {
      BadWay(way) && (way[|way| - 1] == head || HasDecref(f.blocks[way[|way| - 1]]))
    }

    /** A way that makes it give up on this incref: to the end of a run, or too long. */
    ghost predicate LostWay(way: seq<nat>) {
      DeepWay(way) || (BadWay(way) && Inner(way[|way| - 1]) && f.Exit(way[|way| - 1]))
    }

    /** No way that begins like this is too long. */
    ghost predicate Shallow(stack: seq<nat>) {
      forall way :: Through(way) && Distinct(way) && stack <= way ==> |way| < FANOUT_RECURSE_DEPTH
    }

    ghost predicate BranchIsShallow(stack: seq<nat>, node: nat, k: nat)
      requires node < |f.succs| && k < |f.succs[node]|
    {
      Shallow(stack + [f.succs[node][k]])
    }

    /** None of the first successors of the block on top leads to a way that is too long. */
    ghost predicate Branches(stack: seq<nat>, node: nat, n: nat)
      requires node < |f.succs| && n <= |f.succs[node]|
    {
      forall k :: 0 <= k < n ==> BranchIsShallow(stack, node, k)
    }

    /** `black` is finished: its blocks are inner, go on, and lead to `black`, blocks still
        being walked, or blocks where walks end. */
    ghost predicate Finished(black: set<nat>, grey: set<nat>, ends: set<nat>) {
      forall v :: v in black ==> Done(v, black, grey, ends)
    }

    ghost predicate Done(v: nat, black: set<nat>, grey: set<nat>, ends: set<nat>) {
      && v < |f.blocks| == |f.succs| && Inner(v) && !f.Exit(v)
      && forall i :: 0 <= i < |f.succs[v]| ==> f.succs[v][i] in black + grey + ends
    }

    ghost predicate EndsOk(decrefs: set<nat>, raising: set<nat>) {
      (forall v :: v in decrefs ==> DecrefEnd(v)) && (forall v :: v in raising ==> RaiseEnd(v))
    }

    /** What a successful walk has shown. */
    ghost predicate Covered(black: set<nat>, decrefs: set<nat>, raising: set<nat>) {
      && head < |f.blocks| == |f.succs|
      && Finished(black, {}, decrefs + raising) && EndsOk(decrefs, raising)
      && !f.Exit(head)
      && forall i :: 0 <= i < |f.succs[head]| ==> f.succs[head][i] in black + decrefs + raising
    }
  }

  ghost predicate Distinct(way: seq<nat>) {
    forall i, j :: 0 <= i < j < |way| ==> way[i] != way[j]
  }

  function Elements(s: seq<nat>): set<nat> {
    set x | x in s
  }

  lemma DoneGrows(q: Query, v: nat, black: set<nat>, grey: set<nat>, ends: set<nat>,
                  black': set<nat>, grey': set<nat>, ends': set<nat>)
    requires q.Done(v, black, grey, ends)
    requires black + grey + ends <= black' + grey' + ends'
    ensures q.Done(v, black', grey', ends')
  {
  }

  /** When the block on top of the stack has been walked it turns from grey to black. */
  lemma Blacken(q: Query, v: nat, black: set<nat>, grey: set<nat>, ends: set<nat>)
    requires q.Finished(black, grey + {v}, ends)
    requires q.Done(v, black, grey + {v}, ends)
    ensures q.Finished(black + {v}, grey, ends)
  {
    forall u | u in black + {v} ensures q.Done(u, black + {v}, grey, ends) {
      DoneGrows(q, u, black, grey + {v}, ends, black + {v}, grey, ends);
    }
  }

  lemma FinishedGrows(q: Query, black: set<nat>, grey: set<nat>, ends: set<nat>, grey': set<nat>, ends': set<nat>)
    requires q.Finished(black, grey, ends) && grey <= grey' && ends <= ends'
    ensures q.Finished(black, grey', ends')
  {
    forall u | u in black ensures q.Done(u, black, grey', ends') {
      DoneGrows(q, u, black, grey, ends, black, grey', ends');
    }
  }

  // ----- the order of the walk

  /** What walking a block comes to after `size` blocks in all: a failure may mark the head. */
  datatype Answer = Passed(size: nat) | Failed(size: nat, marks: bool)

  /** Can the counter exceed the limit, and would it? */
  predicate Over(limit: nat, size: nat) {
    limit < UNSIGNED - 1 && size > limit
  }

  /** Walking block `cur` from the top of the stack, depth first. */
  ghost function Visit(q: Query, limit: nat, stack: seq<nat>, cur: nat, n: nat): Answer
    requires q.f.Wf() && stack != [] && cur < |q.f.blocks|
    decreases FANOUT_RECURSE_DEPTH - |stack|, 0, 0
  {
    if |stack| >= FANOUT_RECURSE_DEPTH then Failed(n, false)
    else if Over(limit, n + 1) then Failed(n + 1, true)
    else if cur in stack then (if cur == stack[0] then Failed(n + 1, true) else Passed(n + 1))
    else if HasDecrefOf(q.f.blocks[cur], q.p) then Passed(n + 1)
    else if HasDecref(q.f.blocks[cur]) then Failed(n + 1, true)
    else if q.Stops(cur) then Passed(n + 1)
    else VisitAll(q, limit, stack + [cur], cur, 0, n + 1)
  }

  /** Walking the successors of `node` from the i-th on: the first failure is the answer, and
      having no successor is one. */
  ghost function VisitAll(q: Query, limit: nat, stack: seq<nat>, node: nat, i: nat, n: nat): Answer
    requires q.f.Wf() && stack != [] && node < |q.f.blocks| && i <= |q.f.succs[node]|
    decreases FANOUT_RECURSE_DEPTH - |stack|, 1, |q.f.succs[node]| - i
  {
    if q.f.Exit(node) then Failed(n, false)
    else if i == |q.f.succs[node]| then Passed(n)
    else
      var a := Visit(q, limit, stack, q.f.succs[node][i], n);
      if a.Failed? then a else VisitAll(q, limit, stack, node, i + 1, a.size)
  }

  /** How many blocks a walk through `cur` looks at, each as often as ways lead to it. */
  ghost function WalkSize(q: Query, stack: seq<nat>, cur: nat): (size: nat)
    requires q.f.Wf() && stack != [] && cur < |q.f.blocks|
    ensures size >= 1
    decreases FANOUT_RECURSE_DEPTH - |stack|, 0, 0
  {
    if |stack| >= FANOUT_RECURSE_DEPTH || cur in stack || !q.Inner(cur) then 1
    else 1 + WalkSizes(q, stack + [cur], cur, 0)
  }

  ghost function WalkSizes(q: Query, stack: seq<nat>, node: nat, i: nat): nat
    requires q.f.Wf() && stack != [] && node < |q.f.blocks| && i <= |q.f.succs[node]|
    decreases FANOUT_RECURSE_DEPTH - |stack|, 1, |q.f.succs[node]| - i
  {
    if i == |q.f.succs[node]| then 0
    else WalkSize(q, stack, q.f.succs[node][i]) + WalkSizes(q, stack, node, i + 1)
  }

  /** The condition of the walk: no way from the head is bad or too long, and, if the counter can
      exceed the limit, there are not too many. */
  ghost predicate Goes(q: Query, limit: nat)
    requires q.f.Wf() && q.head < |q.f.blocks|
  {
    && !q.f.Exit(q.head) && (forall way :: !q.BadWay(way) && !q.DeepWay(way))
    && !Over(limit, WalkSizes(q, [q.head], q.head, 0))
  }

  /** Does the walk mark its head, so that no other incref there is tried? */
  ghost predicate Marks(q: Query, limit: nat)
    requires q.f.Wf() && q.head < |q.f.blocks|
  {
    var a := VisitAll(q, limit, [q.head], q.head, 0, 0);
    a.Failed? && a.marks
  }

  /** Why a walk of so many blocks in all fails. */
  ghost predicate Because(q: Query, limit: nat, a: Answer, all: nat) {
    a.Failed? ==>
      if a.marks then Over(limit, all) || exists way :: q.StrayWay(way)
      else exists way :: q.LostWay(way)
  }

  ghost predicate Counts(limit: nat, a: Answer, all: nat) {
    a.Passed? ==> a.size == all && !Over(limit, all)
  }

  lemma SomeDecref(code: Code, p: Ptr)
    ensures HasDecrefOf(code, p) ==> HasDecref(code)
  {
  }

  lemma {:induction false} VisitCounts(q: Query, limit: nat, stack: seq<nat>, cur: nat, n: nat)
    requires q.f.Wf() && stack != [] && stack[0] == q.head && cur < |q.f.blocks|
    ensures Counts(limit, Visit(q, limit, stack, cur, n), n + WalkSize(q, stack, cur))
    decreases FANOUT_RECURSE_DEPTH - |stack|, 0, 0
  {
    SomeDecref(q.f.blocks[cur], q.p);
    if |stack| < FANOUT_RECURSE_DEPTH && !Over(limit, n + 1) && cur !in stack && q.Inner(cur) {
      VisitAllCounts(q, limit, stack + [cur], cur, 0, n + 1);
    }
  }

  lemma {:induction false} VisitAllCounts(q: Query, limit: nat, stack: seq<nat>, node: nat, i: nat, n: nat)
    requires q.f.Wf() && stack != [] && stack[0] == q.head && node < |q.f.blocks| && i <= |q.f.succs[node]|
    requires !Over(limit, n)
    ensures Counts(limit, VisitAll(q, limit, stack, node, i, n), n + WalkSizes(q, stack, node, i))
    decreases FANOUT_RECURSE_DEPTH - |stack|, 1, |q.f.succs[node]| - i
  {
    if i < |q.f.succs[node]| {
      var a := Visit(q, limit, stack, q.f.succs[node][i], n);
      VisitCounts(q, limit, stack, q.f.succs[node][i], n);
      if a.Passed? {
        VisitAllCounts(q, limit, stack, node, i + 1, a.size);
      }
    }
  }

  /** Where the walk may be: its stack is a way from the head. */
  ghost predicate OnWay(q: Query, stack: seq<nat>) {
    q.f.Wf() && q.Through(stack) && Distinct(stack) && stack[|stack| - 1] < |q.f.blocks|
  }

  lemma {:induction false} VisitBecause(q: Query, limit: nat, stack: seq<nat>, cur: nat, n: nat)
    requires OnWay(q, stack) && q.f.Edge(stack[|stack| - 1], cur)
    ensures Because(q, limit, Visit(q, limit, stack, cur, n), n + WalkSize(q, stack, cur))
    decreases FANOUT_RECURSE_DEPTH - |stack|, 0, 0
  {
    WayOn(q, stack, cur);
    SomeDecref(q.f.blocks[cur], q.p);
    var way := stack + [cur];
    if |stack| >= FANOUT_RECURSE_DEPTH {
      assert q.LostWay(stack);
    } else if Over(limit, n + 1) {
      assert Over(limit, n + WalkSize(q, stack, cur));
    } else if cur == q.head || (cur !in stack && HasDecref(q.f.blocks[cur])) {
      if !HasDecrefOf(q.f.blocks[cur], q.p) || cur == q.head {
        assert q.StrayWay(way);
      }
    } else if cur !in stack && q.Inner(cur) {
      VisitAllBecause(q, limit, way, cur, 0, n + 1);
      assert Visit(q, limit, stack, cur, n) == VisitAll(q, limit, way, cur, 0, n + 1);
      assert WalkSize(q, stack, cur) == 1 + WalkSizes(q, way, cur, 0);
      if q.f.Exit(cur) {
        assert q.LostWay(way);
      }
    }
  }

  lemma {:induction false} VisitAllBecause(q: Query, limit: nat, stack: seq<nat>, node: nat, i: nat, n: nat)
    requires OnWay(q, stack) && node == stack[|stack| - 1] && i <= |q.f.succs[node]|
    ensures !q.f.Exit(node) ==>
              Because(q, limit, VisitAll(q, limit, stack, node, i, n), n + WalkSizes(q, stack, node, i))
    decreases FANOUT_RECURSE_DEPTH - |stack|, 1, |q.f.succs[node]| - i
  {
    if i < |q.f.succs[node]| {
      var a := Visit(q, limit, stack, q.f.succs[node][i], n);
      VisitBecause(q, limit, stack, q.f.succs[node][i], n);
      if a.Passed? {
        VisitCounts(q, limit, stack, q.f.succs[node][i], n);
        VisitAllBecause(q, limit, stack, node, i + 1, a.size);
      }
    }
  }

  /** A walk that meets the condition passes. */
  lemma GoesPasses(q: Query, limit: nat)
    requires q.f.Wf() && q.head < |q.f.blocks| && Goes(q, limit)
    ensures VisitAll(q, limit, [q.head], q.head, 0, 0).Passed?
  {
    VisitAllBecause(q, limit, [q.head], q.head, 0, 0);
  }

  /** What marks a head: a way back to it or to a decref of something else, or too many ways; and
      what makes a walk fail without marking it: a way to the end of a run, or too long. */
  lemma MarksBecause(q: Query, limit: nat)
    requires q.f.Wf() && q.head < |q.f.blocks|
    ensures Marks(q, limit) ==> Over(limit, WalkSizes(q, [q.head], q.head, 0)) || exists way :: q.StrayWay(way)
    ensures VisitAll(q, limit, [q.head], q.head, 0, 0).Failed? && !Marks(q, limit) ==>
              q.f.Exit(q.head) || exists way :: q.LostWay(way)
  {
    VisitAllBecause(q, limit, [q.head], q.head, 0, 0);
  }

  datatype Verdict = Accept | Reject | Descend

  /** The accumulators and the path stack that the recursive walk shares. */
  class Walk {
    const q: Query
    const subgraphLimit: nat
    var pathStack: seq<nat>
    var subgraphSize: nat
    var badBlocks: set<nat>
    var decrefBlocks: set<nat>
    var raisingBlocks: set<nat>
    ghost var black: set<nat>
    ghost var steps: nat

    constructor (q: Query, subgraphLimit: nat, badBlocks: set<nat>)
      ensures this.q == q && this.subgraphLimit == subgraphLimit
      ensures pathStack == [q.head] && subgraphSize == 0 && this.badBlocks == badBlocks
      ensures decrefBlocks == {} && raisingBlocks == {} && black == {} && steps == 0
    {
      this.q, this.subgraphLimit := q, subgraphLimit;
      pathStack, subgraphSize, this.badBlocks := [q.head], 0, badBlocks;
      decrefBlocks, raisingBlocks, black, steps := {}, {}, {}, 0;
    }

    ghost predicate Good()
      reads this
    {
      && pathStack != []
      && q.Finished(black, Elements(pathStack[1..]), decrefBlocks + raisingBlocks)
      && q.EndsOk(decrefBlocks, raisingBlocks)
    }

    ghost function Met(): set<nat>
      requires pathStack != []
      reads this
    {
      black + Elements(pathStack[1..]) + decrefBlocks + raisingBlocks
    }

    /** The counter wraps around, but not if it can exceed the limit. */
    ghost predicate Counted()
      reads this
    {
      subgraphSize == steps % UNSIGNED && !Over(subgraphLimit, steps)
    }

    /** The walk has come to this, from these bad blocks. */
    ghost predicate Ends(a: Answer, found: bool, bad: set<nat>)
      reads this
    {
      && found == a.Passed? && steps == a.size && (found ==> Counted())
      && badBlocks == if a.Failed? && a.marks then bad + {q.head} else bad
    }

    /** May the walk of `cur` begin? */
    ghost predicate At(cur: nat)
      reads this
    {
      && q.f.Wf() && cur < |q.f.blocks|
      && 0 < |pathStack| <= FANOUT_RECURSE_DEPTH && Good() && Counted()
      && q.Through(pathStack) && Distinct(pathStack) && cur in q.f.succs[pathStack[|pathStack| - 1]]
    }

    /** The tests made on a block before its successors are walked. */
    method Meet(cur: nat) returns (verdict: Verdict)
      requires At(cur)
      modifies this
      ensures pathStack == old(pathStack)
      ensures verdict != Reject ==> Good() && old(Met()) <= Met() && |pathStack| < FANOUT_RECURSE_DEPTH
      ensures verdict == Accept ==> cur in Met() && (cur in pathStack || !q.Inner(cur))
      ensures verdict == Descend ==> q.Inner(cur) && cur !in pathStack && Counted() && badBlocks == old(badBlocks)
      ensures
        var a := Visit(q, subgraphLimit, pathStack, cur, old(steps));
        if verdict == Descend then a == VisitAll(q, subgraphLimit, pathStack + [cur], cur, 0, steps)
        else Ends(a, verdict == Accept, old(badBlocks))
    {
      if |pathStack| >= FANOUT_RECURSE_DEPTH {
        return Reject;
      }
      subgraphSize := (subgraphSize + 1) % UNSIGNED;
      steps := steps + 1;
      if subgraphSize > subgraphLimit {
        badBlocks := badBlocks + {q.head};
        return Reject;
      }
      if cur in pathStack {
        if cur == pathStack[0] {
          badBlocks := badBlocks + {q.head};
          return Reject;
        }
        return Accept;
      }
      SomeDecref(q.f.blocks[cur], q.p);
      verdict := Classify(cur);
    }

    /** The tests on the instructions of a block that is not on the stack. */
    method Classify(cur: nat) returns (verdict: Verdict)
      requires At(cur) && cur !in pathStack && |pathStack| < FANOUT_RECURSE_DEPTH
      modifies this`decrefBlocks, this`raisingBlocks, this`badBlocks
      ensures Good() && old(Met()) <= Met()
      ensures verdict == Accept <==> HasDecrefOf(q.f.blocks[cur], q.p) || (!HasDecref(q.f.blocks[cur]) && q.Stops(cur))
      ensures verdict == Reject <==> !HasDecrefOf(q.f.blocks[cur], q.p) && HasDecref(q.f.blocks[cur])
      ensures verdict == Accept ==> cur in Met()
      ensures badBlocks == if verdict == Reject then old(badBlocks) + {q.head} else old(badBlocks)
    {
      SomeDecref(q.f.blocks[cur], q.p);
      WayOn(q, pathStack, cur);
      if HasDecrefOf(q.f.blocks[cur], q.p) {
        AddDecrefBlock(cur);
        return Accept;
      }
      if HasDecref(q.f.blocks[cur]) {
        badBlocks := badBlocks + {q.head};
        return Reject;
      }
      if q.raise && Raises(q.f.blocks[cur]) {
        AddRaisingBlock(cur);
        return Accept;
      }
      return Descend;
    }

    method AddDecrefBlock(cur: nat)
      requires Good() && q.DecrefEnd(cur)
      modifies this`decrefBlocks
      ensures decrefBlocks == old(decrefBlocks) + {cur}
      ensures Good()
    {
      FinishedGrows(q, black, Elements(pathStack[1..]), decrefBlocks + raisingBlocks,
                    Elements(pathStack[1..]), decrefBlocks + {cur} + raisingBlocks);
      decrefBlocks := decrefBlocks + {cur};
    }

    method AddRaisingBlock(cur: nat)
      requires Good() && q.RaiseEnd(cur)
      modifies this`raisingBlocks
      ensures raisingBlocks == old(raisingBlocks) + {cur}
      ensures Good()
    {
      FinishedGrows(q, black, Elements(pathStack[1..]), decrefBlocks + raisingBlocks,
                    Elements(pathStack[1..]), decrefBlocks + (raisingBlocks + {cur}));
      raisingBlocks := raisingBlocks + {cur};
    }

    method WalkChild(cur: nat) returns (found: bool)
      requires At(cur)
      modifies this
      ensures pathStack == old(pathStack)
      ensures found ==> Good() && cur in Met() && old(Met()) <= Met()
      ensures found ==> |pathStack| < FANOUT_RECURSE_DEPTH && q.Shallow(pathStack + [cur])
      ensures Ends(Visit(q, subgraphLimit, pathStack, cur, old(steps)), found, old(badBlocks))
      decreases FANOUT_RECURSE_DEPTH - |pathStack|, 1
    {
      var verdict := Meet(cur);
      if verdict != Descend {
        if verdict == Accept {
          EndIsShallow(q, pathStack, cur);
        }
        return verdict == Accept;
      }
      found := WalkBelow(cur);
    }

    /** Walks the successors of an inner block that is not on the stack. */
    method WalkBelow(cur: nat) returns (found: bool)
      requires At(cur) && q.Inner(cur) && cur !in pathStack && |pathStack| < FANOUT_RECURSE_DEPTH
      modifies this
      ensures pathStack == old(pathStack)
      ensures found ==> Good() && cur in Met() && old(Met()) <= Met()
      ensures found ==> q.Shallow(pathStack + [cur])
      ensures Ends(VisitAll(q, subgraphLimit, pathStack + [cur], cur, 0, old(steps)), found, old(badBlocks))
      decreases FANOUT_RECURSE_DEPTH - |pathStack|, 0
    {
      Push(cur);
      found := WalkSuccessors(cur);
      Leave(cur, found);
    }

    method Push(cur: nat)
      requires At(cur) && q.Inner(cur) && cur !in pathStack
      modifies this`pathStack
      ensures pathStack == old(pathStack) + [cur]
      ensures Good() && Counted() && q.Through(pathStack) && q.f.Path(pathStack) && Distinct(pathStack)
      ensures Met() == old(Met()) + {cur}
    {
      ghost var grey := Elements(pathStack[1..]);
      WayOn(q, pathStack, cur);
      FinishedGrows(q, black, grey, decrefBlocks + raisingBlocks, grey + {cur}, decrefBlocks + raisingBlocks);
      GreyGrows(pathStack, cur);
      pathStack := pathStack + [cur];
    }

    /** Takes the block on top off the stack; if every successor of it was walked it turns black. */
    method Leave(ghost cur: nat, ghost walked: bool)
      requires |pathStack| >= 2 && cur == pathStack[|pathStack| - 1]
      requires walked ==> q.f.Wf() && Good() && q.Through(pathStack) && !q.f.Exit(cur) && AllMet(q, cur, Met())
      modifies this`pathStack, this`black
      ensures pathStack == old(pathStack)[..|old(pathStack)| - 1]
      ensures walked ==> Good() && Met() == old(Met()) && cur in Met()
    {
      var rest := pathStack[..|pathStack| - 1];
      assert pathStack == rest + [cur];
      GreyGrows(rest, cur);
      if walked {
        Blacken(q, cur, black, Elements(rest[1..]), decrefBlocks + raisingBlocks);
        black := black + {cur};
      }
      pathStack := rest;
    }

    /** Walks the successors of the block on top of the stack: false at the first that
        fails, and false if there is none. */
    method WalkSuccessors(node: nat) returns (found: bool)
      requires q.f.Wf() && 0 < |pathStack| <= FANOUT_RECURSE_DEPTH && Good() && Counted()
      requires q.Through(pathStack) && Distinct(pathStack) && node == pathStack[|pathStack| - 1]
      modifies this
      ensures pathStack == old(pathStack)
      ensures found ==> Good() && !q.f.Exit(node) && old(Met()) <= Met()
      ensures found ==> AllMet(q, node, Met()) && q.Shallow(pathStack)
      ensures Ends(VisitAll(q, subgraphLimit, pathStack, node, 0, old(steps)), found, old(badBlocks))
      decreases FANOUT_RECURSE_DEPTH - |pathStack|, 2
    {
      found := false;
      for i := 0 to |q.f.succs[node]|
        invariant pathStack == old(pathStack) && Good() && Counted()
        invariant found == (i > 0) && badBlocks == old(badBlocks)
        invariant VisitAll(q, subgraphLimit, pathStack, node, 0, old(steps))
               == VisitAll(q, subgraphLimit, pathStack, node, i, steps)
        invariant old(Met()) <= Met()
        invariant MetUpTo(q, node, i, Met())
        invariant i > 0 ==> |pathStack| < FANOUT_RECURSE_DEPTH
        invariant q.Branches(pathStack, node, i)
      {
        ghost var met := Met();
        found := WalkChild(q.f.succs[node][i]);
        if !found {
          return false;
        }
        MetMore(q, node, i, met, Met());
        BranchesMore(q, pathStack, node, i);
      }
      if found {
        BranchesShallow(q, pathStack, node);
      }
    }
  }

  /** The first successors of a block have been met. */
  ghost predicate MetUpTo(q: Query, node: nat, n: nat, met: set<nat>) {
    && node < |q.f.succs| && n <= |q.f.succs[node]|
    && forall k :: 0 <= k < n ==> q.f.succs[node][k] in met
  }

  ghost predicate AllMet(q: Query, node: nat, met: set<nat>) {
    node < |q.f.succs| && MetUpTo(q, node, |q.f.succs[node]|, met)
  }

  lemma MetMore(q: Query, node: nat, n: nat, met: set<nat>, met': set<nat>)
    requires MetUpTo(q, node, n, met) && met <= met'
    requires n < |q.f.succs[node]| && q.f.succs[node][n] in met'
    ensures MetUpTo(q, node, n + 1, met')
  {
  }

  lemma BranchesMore(q: Query, stack: seq<nat>, node: nat, n: nat)
    requires node < |q.f.succs| && n < |q.f.succs[node]|
    requires q.Branches(stack, node, n) && q.Shallow(stack + [q.f.succs[node][n]])
    ensures q.Branches(stack, node, n + 1)
  {
    assert q.BranchIsShallow(stack, node, n);
  }

  lemma WayOn(q: Query, stack: seq<nat>, cur: nat)
    requires q.f.Wf() && q.Through(stack) && cur < |q.f.blocks| && cur in q.f.succs[stack[|stack| - 1]]
    ensures q.f.Path(stack + [cur]) && (stack + [cur])[..|stack|] == stack && q.Reaches(stack + [cur], cur)
    ensures q.Inner(cur) ==> q.Through(stack + [cur])
  {
    var way := stack + [cur];
    forall k | 0 < k < |way| ensures q.f.Step(way, k) {
      if k < |stack| {
        assert q.f.Step(stack, k);
      }
    }
  }

  lemma GreyGrows(stack: seq<nat>, cur: nat)
    requires stack != []
    ensures Elements((stack + [cur])[1..]) == Elements(stack[1..]) + {cur}
  {
    assert (stack + [cur])[1..] == stack[1..] + [cur];
  }

  /** No way goes on through a block that is on the stack or not inner. */
  lemma EndsThere(q: Query, stack: seq<nat>, cur: nat, way: seq<nat>)
    requires cur < |q.f.blocks| && stack != [] && (cur in stack || !q.Inner(cur)) && stack + [cur] <= way
    ensures !(q.Through(way) && Distinct(way))
  {
    assert way[|stack|] == (stack + [cur])[|stack|] == cur;
    if cur in stack {
      var k :| 0 <= k < |stack| && stack[k] == cur;
      assert way[k] == (stack + [cur])[k] == cur;
    }
  }

  lemma EndIsShallow(q: Query, stack: seq<nat>, cur: nat)
    requires cur < |q.f.blocks| && stack != [] && (cur in stack || !q.Inner(cur))
    ensures q.Shallow(stack + [cur])
  {
    forall way | stack + [cur] <= way ensures !(q.Through(way) && Distinct(way)) {
      EndsThere(q, stack, cur, way);
    }
  }

  /** A way is not too long if none is through any successor of the block on top. */
  lemma BranchShallow(q: Query, stack: seq<nat>, node: nat, way: seq<nat>)
    requires q.f.Wf() && stack != [] && node == stack[|stack| - 1] < |q.f.blocks|
    requires |stack| < FANOUT_RECURSE_DEPTH
    requires q.Branches(stack, node, |q.f.succs[node]|)
    requires q.Through(way) && Distinct(way) && stack <= way
    ensures |way| < FANOUT_RECURSE_DEPTH
  {
    var n := |stack|;
    if |way| > n {
      assert q.f.Step(way, n) && way[n-1] == node;
      var k :| 0 <= k < |q.f.succs[node]| && q.f.succs[node][k] == way[n];
      assert stack + [way[n]] == way[..n+1];
      assert q.BranchIsShallow(stack, node, k);
    }
  }

  lemma BranchesShallow(q: Query, stack: seq<nat>, node: nat)
    requires q.f.Wf() && stack != [] && node == stack[|stack| - 1] < |q.f.blocks|
    requires |stack| < FANOUT_RECURSE_DEPTH
    requires q.Branches(stack, node, |q.f.succs[node]|)
    ensures q.Shallow(stack)
  {
    forall way | q.Through(way) && Distinct(way) && stack <= way ensures |way| < FANOUT_RECURSE_DEPTH {
      BranchShallow(q, stack, node, way);
    }
  }

  /** The walk from the head: it succeeds exactly if its condition is met. */
  method FindFanoutDecrefCandidates(q: Query, subgraphLimit: nat, badBlocks: set<nat>)
    returns (found: bool, decrefBlocks: set<nat>, raisingBlocks: set<nat>, badBlocks': set<nat>,
             ghost black: set<nat>)
    requires q.f.Wf() && q.head < |q.f.blocks|
    ensures found ==> q.Covered(black, decrefBlocks, raisingBlocks)
    ensures found <==> Goes(q, subgraphLimit)
    ensures badBlocks' == if Marks(q, subgraphLimit) then badBlocks + {q.head} else badBlocks
  {
    var walk := new Walk(q, subgraphLimit, badBlocks);
    found := walk.WalkSuccessors(q.head);
    decrefBlocks, raisingBlocks, badBlocks' := walk.decrefBlocks, walk.raisingBlocks, walk.badBlocks;
    black := walk.black;
    assert Elements(walk.pathStack[1..]) == {};
    if found {
      WalkGoes(q, subgraphLimit, black, decrefBlocks, raisingBlocks);
    } else if Goes(q, subgraphLimit) {
      GoesPasses(q, subgraphLimit);
    }
  }

  lemma WalkGoes(q: Query, limit: nat, black: set<nat>, decrefs: set<nat>, raising: set<nat>)
    requires q.f.Wf() && q.Covered(black, decrefs, raising) && q.Shallow([q.head])
    requires VisitAll(q, limit, [q.head], q.head, 0, 0).Passed?
    ensures Goes(q, limit)
  {
    VisitAllCounts(q, limit, [q.head], q.head, 0, 0);
    forall way ensures !q.BadWay(way) && !q.DeepWay(way) {
      CoveredNoBadWay(q, black, decrefs, raising, way);
      assert q.Through(way) ==> [q.head] <= way;
    }
  }

  // ----- what a successful walk means

  /** One step from the head or from a finished block. */
  lemma StepInside(q: Query, black: set<nat>, decrefs: set<nat>, raising: set<nat>, u: nat, v: nat)
    requires q.f.Wf() && q.Covered(black, decrefs, raising)
    requires (u == q.head || u in black) && q.f.Edge(u, v)
    ensures v in black + decrefs + raising && !q.Bad(v)
  {
    assert u in black ==> q.Done(u, black, {}, decrefs + raising);
    assert v in black ==> q.Done(v, black, {}, decrefs + raising);
  }

  lemma {:induction false} ThroughIsBlack(q: Query, black: set<nat>, decrefs: set<nat>, raising: set<nat>,
                                          path: seq<nat>, k: nat)
    requires q.f.Wf() && q.Covered(black, decrefs, raising) && q.Through(path) && 0 < k < |path|
    ensures path[k] in black
  {
    assert q.f.Step(path, k);
    if k > 1 {
      ThroughIsBlack(q, black, decrefs, raising, path, k - 1);
    }
    StepInside(q, black, decrefs, raising, path[k-1], path[k]);
  }

  /** A successful walk shows that no way from the head leads back to the head, to a decref
      of another pointer, or out of the function. */
  lemma CoveredNoBadWay(q: Query, black: set<nat>, decrefs: set<nat>, raising: set<nat>, way: seq<nat>)
    requires q.f.Wf() && q.Covered(black, decrefs, raising)
    ensures !q.BadWay(way)
  {
    if |way| >= 2 && q.f.Path(way) && q.Through(way[..|way| - 1]) {
      var n := |way| - 1;
      assert q.f.Step(way, n);
      if n > 1 {
        ThroughIsBlack(q, black, decrefs, raising, way[..n], n - 1);
      }
      StepInside(q, black, decrefs, raising, way[n-1], way[n]);
    }
  }

  /** A successful walk has collected exactly the blocks at which ways end. */
  lemma CoveredEnds(q: Query, black: set<nat>, decrefs: set<nat>, raising: set<nat>)
    requires q.f.Wf() && q.Covered(black, decrefs, raising)
    ensures forall v :: v in decrefs <==> q.DecrefEnd(v)
    ensures forall v :: v in raising <==> q.RaiseEnd(v)
  {
    forall v | q.DecrefEnd(v) || q.RaiseEnd(v) ensures v in decrefs + raising {
      var way :| q.Reaches(way, v);
      var n := |way| - 1;
      assert q.f.Step(way, n);
      if n > 1 {
        ThroughIsBlack(q, black, decrefs, raising, way[..n], n - 1);
      }
      StepInside(q, black, decrefs, raising, way[n-1], v);
      assert v in black ==> q.Done(v, black, {}, decrefs + raising);
    }
    forall v ensures v in decrefs ==> q.DecrefEnd(v) && !q.RaiseEnd(v) {
    }
    forall v ensures v in raising ==> q.RaiseEnd(v) && !q.DecrefEnd(v) {
    }
  }

  /** The blocks that runs of the query may not enter. */
  function Avoided(q: Query): set<nat> {
    if q.raise then RaisingBlocks(q.f) else {}
  }

  /** While the pair is open, a run is at the head or inside the region that was walked. */
  lemma {:induction false} OpenInRegion(q: Query, black: set<nat>, decrefs: set<nat>, raising: set<nat>, path: seq<nat>)
    requires q.f.Wf() && q.Covered(black, decrefs, raising)
    requires q.f.Run(path) && Avoids(path, Avoided(q)) && Open(path, q.head, decrefs)
    ensures path[|path| - 1] == q.head || path[|path| - 1] in black
  {
    var n := |path| - 1;
    if path[n] != q.head {
      RunRest(q.f, path, n, Avoided(q));
      OpenInRegion(q, black, decrefs, raising, path[..n]);
      assert q.f.Step(path, n);
      StepInside(q, black, decrefs, raising, path[n-1], path[n]);
      assert path[n] !in raising;
    }
  }

  /** The head is never entered again while the pair is open. */
  lemma HeadNotReentered(q: Query, black: set<nat>, decrefs: set<nat>, raising: set<nat>, path: seq<nat>)
    requires q.f.Wf() && q.Covered(black, decrefs, raising)
    requires q.f.Run(path + [q.head]) && Avoids(path + [q.head], Avoided(q))
    ensures !Open(path, q.head, decrefs)
  {
    if Open(path, q.head, decrefs) {
      var whole := path + [q.head];
      var n := |path|;
      RunRest(q.f, whole, n, Avoided(q));
      assert whole[..n] == path;
      OpenInRegion(q, black, decrefs, raising, path);
      assert q.f.Step(whole, n);
      StepInside(q, black, decrefs, raising, path[n-1], q.head);
    }
  }
}
