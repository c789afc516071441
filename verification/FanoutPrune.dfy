/** The fan-out prune: an incref goes with one decref in each block where the walks from
    it end. */
module FanoutPrune {
  import opened RefIr
  import opened Balance
  import opened PruneTheory
  import opened DiamondTheory
  import opened WindowTheory
  import opened RefNormalize
  import opened BlockTheory
  import opened BlockPrune
  import opened FanoutForward
  import opened FanoutBackward

  /** What the fan-out condition guarantees about the decref blocks it found. */
  ghost predicate FanoutOk(q: Query, decrefs: set<nat>) {
    && q.f.Wf() && q.head < |q.f.blocks| && q.head !in decrefs && decrefs != {}
    && (forall b :: b in decrefs ==> b < |q.f.blocks| && HasDecrefOf(q.f.blocks[b], q.p))
    && Alternates(q.f, q.head, decrefs, Avoided(q))
    && ClosedAtExits(q.f, q.head, decrefs, Avoided(q))
    && (!HasDecref(q.f.blocks[q.head]) ==> Quiet(q.f, q.head, decrefs, Avoided(q)))
  }

  lemma WalksAlternate(q: Query, black: set<nat>, decrefs: set<nat>, raising: set<nat>)
    requires q.f.Wf() && q.Covered(black, decrefs, raising) && HeadFirst(q.f, q.head, decrefs, Avoided(q))
    ensures Alternates(q.f, q.head, decrefs, Avoided(q))
  {
    forall path | q.f.Run(path) && path != [] && Avoids(path, Avoided(q)) && path[|path| - 1] == q.head
      ensures !Open(path[..|path| - 1], q.head, decrefs)
    {
      assert path == path[..|path| - 1] + [q.head];
      HeadNotReentered(q, black, decrefs, raising, path[..|path| - 1]);
    }
  }

  lemma OpenGoesOn(q: Query, black: set<nat>, decrefs: set<nat>, raising: set<nat>, path: seq<nat>)
    requires q.f.Wf() && q.Covered(black, decrefs, raising)
    requires q.f.Run(path) && path != [] && Avoids(path, Avoided(q)) && Open(path, q.head, decrefs)
    ensures !q.f.Exit(path[|path| - 1])
    ensures path[|path| - 1] == q.head || !HasDecref(q.f.blocks[path[|path| - 1]])
  {
    OpenInRegion(q, black, decrefs, raising, path);
    assert path[|path| - 1] in black ==> q.Done(path[|path| - 1], black, {}, decrefs + raising);
  }

  /** Both walks together: head and decref blocks alternate, pairs are closed at every
      exit, and no other decref runs while a pair is open. */
  lemma WalksMakeFanout(q: Query, black: set<nat>, decrefs: set<nat>, raising: set<nat>)
    requires q.f.Wf() && q.Covered(black, decrefs, raising) && decrefs != {}
    requires HeadFirst(q.f, q.head, decrefs, Avoided(q))
    ensures FanoutOk(q, decrefs)
  {
    WalksAlternate(q, black, decrefs, raising);
    forall path | q.f.Run(path) && path != [] && Avoids(path, Avoided(q)) && Open(path, q.head, decrefs)
      ensures !q.f.Exit(path[|path| - 1])
      ensures path[|path| - 1] == q.head || !HasDecref(q.f.blocks[path[|path| - 1]])
    {
      OpenGoesOn(q, black, decrefs, raising, path);
    }
  }

  /** The blocks with a decref of the pointer at which ways from the head end. */
  ghost function DecrefEnds(q: Query): set<nat> {
    set b | 0 <= b < |q.f.blocks| && q.DecrefEnd(b)
  }

  ghost function RaiseEnds(q: Query): set<nat> {
    set b | 0 <= b < |q.f.blocks| && q.RaiseEnd(b)
  }

  /** The fan-out condition, by ways forward from the head and trails back from where they end:
      every way ends soon at a decref of the pointer or, if asked for, at a raising block, there
      are both, and no trail leads back from there without the head to where it must not. */
  ghost predicate Fans(q: Query, limit: nat)
    requires q.f.Wf() && q.head < |q.f.blocks|
  {
    && Goes(q, limit) && DecrefEnds(q) != {} && (q.raise ==> RaiseEnds(q) != {})
    && forall trail :: !Tails(q.f, q.head, DecrefEnds(q) + RaiseEnds(q), Avoided(q)).BadTrail(trail)
  }

  lemma EndsCollected(q: Query, black: set<nat>, decrefs: set<nat>, raising: set<nat>)
    requires q.f.Wf() && q.Covered(black, decrefs, raising)
    ensures decrefs == DecrefEnds(q) && raising == RaiseEnds(q)
    ensures !q.raise ==> raising == {}
  {
    CoveredEnds(q, black, decrefs, raising);
  }

  method FindFanout(q: Query, subgraphLimit: nat, badBlocks: set<nat>)
    returns (found: bool, decrefBlocks: set<nat>, badBlocks': set<nat>)
    requires q.f.Wf() && q.head < |q.f.blocks|
    ensures found <==> Fans(q, subgraphLimit)
    ensures found ==> decrefBlocks == DecrefEnds(q) && FanoutOk(q, decrefBlocks)
    ensures badBlocks' == if Marks(q, subgraphLimit) then badBlocks + {q.head} else badBlocks
  {
    var raisingBlocks;
    ghost var black;
    found, decrefBlocks, raisingBlocks, badBlocks', black :=
      FindFanoutDecrefCandidates(q, subgraphLimit, badBlocks);
    if !found {
      return;
    }
    EndsCollected(q, black, decrefBlocks, raisingBlocks);
    if decrefBlocks == {} {
      return false, decrefBlocks, badBlocks';
    }
    ghost var tails := Tails(q.f, q.head, DecrefEnds(q) + RaiseEnds(q), Avoided(q));
    if q.raise {
      assert Tails(q.f, q.head, decrefBlocks + raisingBlocks, RaisingBlocks(q.f)) == tails;
      if raisingBlocks == {} {
        return false, decrefBlocks, badBlocks';
      }
      found := VerifyFanoutBackward(Tails(q.f, q.head, decrefBlocks + raisingBlocks, RaisingBlocks(q.f)));
      if found {
        assert raisingBlocks <= Avoided(q);
        HeadFirstFewer(q.f, q.head, decrefBlocks + raisingBlocks, decrefBlocks, Avoided(q));
      }
    } else {
      assert Tails(q.f, q.head, decrefBlocks, {}) == tails;
      found := VerifyFanoutBackward(Tails(q.f, q.head, decrefBlocks, {}));
    }
    if found {
      WalksMakeFanout(q, black, decrefBlocks, raisingBlocks);
    }
  }

  // ----- erasing what was found

  /** `id` is the first decref of `p` in the block. */
  ghost predicate FirstDecref(code: Code, p: Ptr, id: nat) {
    exists j: nat :: FirstDecrefAt(code, p, id, j)
  }

  ghost predicate FirstDecrefAt(code: Code, p: Ptr, id: nat, j: nat) {
    j < |code| && code[j] == Instr(id, Decref(p)) && forall i :: 0 <= i < j ==> code[i].op != Decref(p)
  }

  function FirstDecrefId(code: Code, p: Ptr): nat {
    if code == [] then 0 else if code[0].op == Decref(p) then code[0].id else FirstDecrefId(code[1..], p)
  }

  lemma {:induction false} FirstDecrefIs(code: Code, p: Ptr, id: nat, j: nat)
    requires FirstDecrefAt(code, p, id, j)
    ensures FirstDecrefId(code, p) == id
  {
    if j > 0 {
      assert code[0].op != Decref(p);
      FirstDecrefIs(code[1..], p, id, j - 1);
    }
  }

  /** The decrefs that go with the incref: the first of the pointer in each block. */
  ghost function FirstDecrefs(q: Query): map<nat, nat> {
    map b | b in DecrefEnds(q) :: FirstDecrefId(q.f.blocks[b], q.p)
  }

  lemma ChosenAre(q: Query, tails: map<nat, nat>)
    requires Chosen(q.f, q.p, tails) && tails.Keys == DecrefEnds(q)
    ensures tails == FirstDecrefs(q)
  {
    forall b | b in tails ensures tails[b] == FirstDecrefId(q.f.blocks[b], q.p) {
      var j: nat :| FirstDecrefAt(q.f.blocks[b], q.p, tails[b], j);
      FirstDecrefIs(q.f.blocks[b], q.p, tails[b], j);
    }
  }

  method FindFirstDecref(code: Code, p: Ptr) returns (id: nat)
    requires HasDecrefOf(code, p)
    ensures FirstDecref(code, p, id)
  {
    var i := 0;
    while code[i].op != Decref(p)
      invariant 0 <= i < |code|
      invariant forall k :: 0 <= k < i ==> code[k].op != Decref(p)
      decreases |code| - i
    {
      i := i + 1;
    }
    id := code[i].id;
    assert FirstDecrefAt(code, p, id, i);
  }

  ghost predicate Chosen(f: Func, p: Ptr, tails: map<nat, nat>) {
    forall b :: b in tails ==> b < |f.blocks| && FirstDecref(f.blocks[b], p, tails[b])
  }

  /** Erasing from other blocks leaves a block alone. */
  lemma OtherBlocksErased(f: Func, p: Ptr, tails: map<nat, nat>, b: nat)
    requires f.Wf() && Chosen(f, p, tails) && b < |f.blocks| && b !in tails
    ensures Erase(f, tails.Values).blocks[b] == f.blocks[b]
  {
    forall i | 0 <= i < |f.blocks[b]| ensures f.blocks[b][i].id !in tails.Values {
      if f.blocks[b][i].id in tails.Values {
        var c :| c in tails && tails[c] == f.blocks[b][i].id;
        var j: nat :| FirstDecrefAt(f.blocks[c], p, tails[c], j);
        assert f.Clash(b, i, c, j);
        assert false;
      }
    }
    EraseNone(f.blocks[b], tails.Values);
  }

  lemma ValuesExtended(tails: map<nat, nat>, b: nat, id: nat)
    requires b !in tails
    ensures tails[b := id].Values == tails.Values + {id}
  {
    var t := tails[b := id];
    assert t[b] == id;
    forall x | x in tails.Values ensures x in t.Values {
      var c :| c in tails && tails[c] == x;
      assert t[c] == x;
    }
  }

  /** Removes the first related decref of each decref block, then the incref. */
  method EraseFanout(F: IrFunction, head: nat, incref: Instr, decrefBlocks: set<nat>) returns (ghost m: Pairing)
    requires F.View().Wf() && incref.op.Incref?
    requires forall b :: b in decrefBlocks ==> b < |F.blocks| && HasDecrefOf(F.blocks[b], incref.op.p)
    modifies F
    ensures F.View() == Erase(old(F.View()), m.Ids())
    ensures m.head == head && m.inc == incref.id && m.ptr == incref.op.p && m.tails.Keys == decrefBlocks
    ensures Chosen(old(F.View()), m.ptr, m.tails)
  {
    ghost var f := F.View();
    ghost var tails: map<nat, nat> := map[];
    var p := incref.op.p;
    var rest := decrefBlocks;
    EraseAllNone(f);
    assert tails.Values == {};
    while rest != {}
      invariant rest <= decrefBlocks && tails.Keys == decrefBlocks - rest
      invariant Chosen(f, p, tails) && F.View() == Erase(f, tails.Values)
      decreases rest
    {
      var each :| each in rest;
      OtherBlocksErased(f, p, tails, each);
      var id := FindFirstDecref(F.blocks[each], p);
      EraseAllTwice(f, tails.Values, {id});
      ValuesExtended(tails, each, id);
      EraseFromParent(F, id);
      tails := tails[each := id];
      rest := rest - {each};
    }
    EraseAllTwice(f, tails.Values, {incref.id});
    EraseFromParent(F, incref.id);
    m := Pairing(head, incref.id, p, tails);
    assert tails.Values + {incref.id} == m.Ids();
  }

  lemma ChosenReady(q: Query, m: Pairing)
    requires q.f.Ssa() && FanoutOk(q, m.tails.Keys)
    requires m.head == q.head && m.ptr == q.p && Instr(m.inc, Incref(m.ptr)) in q.f.blocks[m.head]
    requires Chosen(q.f, m.ptr, m.tails)
    ensures Ready(q.f, m, Avoided(q))
  {
    forall b | b in m.tails ensures b < |q.f.blocks| && Instr(m.tails[b], Decref(m.ptr)) in q.f.blocks[b] {
      var j: nat :| FirstDecrefAt(q.f.blocks[b], m.ptr, m.tails[b], j);
    }
  }

  /** An accepted fan-out: on every run through no raising block (any run, without the
      raise variant) the pruned count is the original one, or one less exactly while the
      pair is open and only for the object its pointer denotes; and it is the original one
      again at every exit. */
  lemma FanoutPruneSound(q: Query, m: Pairing)
    requires q.f.Ssa() && FanoutOk(q, m.tails.Keys)
    requires m.head == q.head && m.ptr == q.p && Instr(m.inc, Incref(m.ptr)) in q.f.blocks[m.head]
    requires Chosen(q.f, m.ptr, m.tails)
    ensures SameNet(q.f, Erase(q.f, m.Ids()), Avoided(q))
    ensures forall path: seq<nat>, w: World, o: nat :: q.f.Run(path) && Avoids(path, Avoided(q)) ==>
              Count(TraceOf(Erase(q.f, m.Ids()), path), w, o) ==
              Count(TraceOf(q.f, path), w, o)
              - if Open(path, m.head, m.tails.Keys) && o != NIL && Denotes(TraceOf(q.f, path), w, m.ptr) == o then 1 else 0
  {
    ChosenReady(q, m);
    EraseKeepsNet(q.f, m, Avoided(q));
    forall path: seq<nat>, w: World, o: nat | q.f.Run(path) && Avoids(path, Avoided(q))
      ensures Count(TraceOf(Erase(q.f, m.Ids()), path), w, o) ==
              Count(TraceOf(q.f, path), w, o)
              - if Open(path, m.head, m.tails.Keys) && o != NIL && Denotes(TraceOf(q.f, path), w, m.ptr) == o then 1 else 0
    {
      PrunedCount(q.f, m, Avoided(q), path, w, o);
    }
  }

  /** An accepted fan-out whose head holds no decref (the pass checks this first): no count
      falls before an erased decref would have run, exactly if no tail runs another decref
      before it; and where such decrefs are on other objects, nothing dies early in all the tail. */
  lemma FanoutPruneSafe(q: Query, m: Pairing)
    requires q.f.Ssa() && FanoutOk(q, m.tails.Keys) && !HasDecref(q.f.blocks[q.head])
    requires m.head == q.head && m.ptr == q.p && Instr(m.inc, Incref(m.ptr)) in q.f.blocks[m.head]
    requires Chosen(q.f, m.ptr, m.tails)
    ensures NeverFalls(q.f, m, Avoided(q)) <==> TailsClean(q.f, m, Avoided(q))
    ensures TailsSafe(q.f, m, Avoided(q))
  {
    ChosenReady(q, m);
    AllTailsSafe(q.f, m, Avoided(q));
    NeverFallsExact(q.f, m, Avoided(q));
  }
}
