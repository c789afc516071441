/** The part of a compiled function that reference-count pruning looks at, and what
    running it does to the counts of the objects its pointers denote. */
module RefIr {

  /** A call argument: the constant null pointer, or a named value. */
  datatype Ptr = Null | Val(name: nat)

  /** `Def` binds a value to an existing object (a load, a phi, a cast), `Alloc` binds
      it to an object born with one reference, and `StoreExc` is the store that marks
      a raising block. */
  datatype Op = Incref(p: Ptr) | Decref(p: Ptr) | Def(v: nat) | Alloc(v: nat) | StoreExc | Other
  {
    predicate IsRefop() {
      Incref? || Decref?
    }

    predicate Defines(x: nat) {
      (Def? || Alloc?) && v == x
    }
  }

  /** `id` stands for the address of the instruction. */
  datatype Instr = Instr(id: nat, op: Op)

  type Code = seq<Instr>

  /** Block 0 is the entry block; `succs` lists the successors of each terminator. */
  datatype Func = Func(blocks: seq<Code>, succs: seq<seq<nat>>)
  {
    ghost predicate Wf() {
      && 0 < |blocks| == |succs|
      && (forall b, i :: 0 <= b < |succs| && 0 <= i < |succs[b]| ==> succs[b][i] < |blocks|)
      && (forall b, i, c, j ::
            && 0 <= b < |blocks| && 0 <= i < |blocks[b]|
            && 0 <= c < |blocks| && 0 <= j < |blocks[c]|
            ==> !Clash(b, i, c, j))
    }

    ghost predicate Clash(b: nat, i: nat, c: nat, j: nat)
      requires b < |blocks| && i < |blocks[b]| && c < |blocks| && j < |blocks[c]|
    {
      blocks[b][i].id == blocks[c][j].id && (b != c || i != j)
    }

    predicate Exit(b: nat)
      requires b < |succs|
    {
      succs[b] == []
    }

    ghost predicate Edge(a: nat, b: nat) {
      a < |succs| && b < |blocks| && b in succs[a]
    }

    ghost predicate Path(path: seq<nat>) {
      && (forall k :: 0 <= k < |path| ==> path[k] < |blocks|)
      && (forall k :: 0 < k < |path| ==> Step(path, k))
    }

    ghost predicate Step(path: seq<nat>, k: nat)
      requires 0 < k < |path|
    {
      Edge(path[k-1], path[k])
    }

    /** A run of the function, stopped after any number of blocks. */
    ghost predicate Run(path: seq<nat>) {
      Path(path) && (path != [] ==> path[0] == 0)
    }

    ghost predicate Complete(path: seq<nat>) {
      Wf() && Run(path) && path != [] && Exit(path[|path| - 1])
    }

    ghost predicate Dominates(a: nat, b: nat) {
      forall path :: Run(path) && path != [] && path[|path| - 1] == b ==> a in path
    }

    ghost predicate PostDominates(b: nat, a: nat)
      requires Wf()
    {
      forall path :: Path(path) && path != [] && path[0] == a && Exit(path[|path| - 1]) ==> b in path
    }

    /** Every definition of a value that a reference operation names comes before the
        operation: earlier in its block, or in a block that dominates it. */
    ghost predicate Ssa() {
      forall b, i, d, j ::
        && 0 <= b < |blocks| && 0 <= i < |blocks[b]|
        && 0 <= d < |blocks| && 0 <= j < |blocks[d]|
        ==> DefFirst(b, i, d, j)
    }

    /** If place `(d, j)` defines the value that the operation at `(b, i)` names, it comes first. */
    ghost predicate DefFirst(b: nat, i: nat, d: nat, j: nat)
      requires b < |blocks| && i < |blocks[b]| && d < |blocks| && j < |blocks[d]|
    {
      var use := blocks[b][i].op;
      use.IsRefop() && use.p.Val? && blocks[d][j].op.Defines(use.p.name) ==>
        (d == b ==> j < i) && Dominates(d, b)
    }

    /** No value is defined at two places. */
    ghost predicate DefinedOnce() {
      forall b, i, d, j ::
        && 0 <= b < |blocks| && 0 <= i < |blocks[b]|
        && 0 <= d < |blocks| && 0 <= j < |blocks[d]|
        ==> !DefinedTwice(b, i, d, j)
    }

    ghost predicate DefinedTwice(b: nat, i: nat, d: nat, j: nat)
      requires b < |blocks| && i < |blocks[b]| && d < |blocks| && j < |blocks[d]|
    {
      (b != d || i != j) && exists v :: blocks[b][i].op.Defines(v) && blocks[d][j].op.Defines(v)
    }
  }

  predicate Raises(code: Code) {
    exists i :: 0 <= i < |code| && code[i].op.StoreExc?
  }

  predicate HasDecref(code: Code) {
    exists i :: 0 <= i < |code| && code[i].op.Decref?
  }

  predicate HasDecrefOf(code: Code, p: Ptr) {
    exists i :: 0 <= i < |code| && code[i].op == Decref(p)
  }

  // ----- erasing instructions

  function EraseCode(code: Code, ids: set<nat>): Code {
    if code == [] then []
    else
      var last := code[|code| - 1];
      EraseCode(code[..|code| - 1], ids) + if last.id in ids then [] else [last]
  }

  lemma {:induction false} EraseMembers(code: Code, ids: set<nat>)
    ensures forall x :: x in EraseCode(code, ids) <==> x in code && x.id !in ids
  {
    if code != [] {
      var n := |code| - 1;
      EraseMembers(code[..n], ids);
      assert code == code[..n] + [code[n]];
    }
  }

  function EraseAll(blocks: seq<Code>, ids: set<nat>): (r: seq<Code>)
    ensures |r| == |blocks|
    ensures forall b :: 0 <= b < |r| ==> r[b] == EraseCode(blocks[b], ids)
  {
    seq(|blocks|, b requires 0 <= b < |blocks| => EraseCode(blocks[b], ids))
  }

  function Erase(f: Func, ids: set<nat>): Func {
    f.(blocks := EraseAll(f.blocks, ids))
  }

  // ----- running

  /** Object 0 is what a null pointer denotes: reference operations ignore it. */
  const NIL: nat := 0

  /** Everything the function does not decide: what its arguments denote, and what the
      definition `id` binds when block number `k` of the run executes it. Two names may
      denote one object, and a name may denote another object each time round a loop. */
  datatype World = World(init: nat -> nat, pick: (nat, nat) -> nat)

  /** Instruction `ins` executed by block number `k` of a run. */
  datatype Event = Event(k: nat, ins: Instr)

  type Trace = seq<Event>

  function Events(k: nat, code: Code): (r: Trace)
    ensures |r| == |code|
  {
    seq(|code|, i requires 0 <= i < |code| => Event(k, code[i]))
  }

  function TraceOf(f: Func, path: seq<nat>): Trace
    requires forall k :: 0 <= k < |path| ==> path[k] < |f.blocks|
  {
    if path == [] then []
    else
      var n := |path| - 1;
      TraceOf(f, path[..n]) + Events(n, f.blocks[path[n]])
  }

  /** The object value `v` denotes after `t`. */
  function ValueAfter(t: Trace, w: World, v: nat): nat {
    if t == [] then w.init(v)
    else
      var e := t[|t| - 1];
      if e.ins.op.Defines(v) then w.pick(e.k, e.ins.id) else ValueAfter(t[..|t| - 1], w, v)
  }

  function Denotes(t: Trace, w: World, p: Ptr): nat {
    match p
    case Null => NIL
    case Val(v) => ValueAfter(t, w, v)
  }

  /** What event `e`, run after `t`, adds to the count of object `o`. */
  function Effect(t: Trace, e: Event, w: World, o: nat): int {
    if o == NIL then 0
    else
      match e.ins.op
      case Incref(p) => if Denotes(t, w, p) == o then 1 else 0
      case Decref(p) => if Denotes(t, w, p) == o then -1 else 0
      case Alloc(_) => if w.pick(e.k, e.ins.id) == o then 1 else 0
      case _ => 0
  }

  /** How much `t` changes the reference count of object `o`. */
  function Count(t: Trace, w: World, o: nat): int {
    if t == [] then 0
    else
      var s := t[..|t| - 1];
      Count(s, w, o) + Effect(s, t[|t| - 1], w, o)
  }

  /** The part of `Count` owed to the instructions in `ids`. */
  function CountOf(t: Trace, ids: set<nat>, w: World, o: nat): int {
    if t == [] then 0
    else
      var s := t[..|t| - 1];
      var e := t[|t| - 1];
      CountOf(s, ids, w, o) + if e.ins.id in ids then Effect(s, e, w, o) else 0
  }

  function Keep(t: Trace, ids: set<nat>): Trace {
    if t == [] then []
    else
      var e := t[|t| - 1];
      Keep(t[..|t| - 1], ids) + if e.ins.id in ids then [] else [e]
  }

  ghost predicate OnlyRefops(t: Trace, ids: set<nat>) {
    forall i :: 0 <= i < |t| && t[i].ins.id in ids ==> t[i].ins.op.IsRefop()
  }

  lemma {:induction false} KeepConcat(s: Trace, t: Trace, ids: set<nat>)
    ensures Keep(s + t, ids) == Keep(s, ids) + Keep(t, ids)
  {
    if t == [] {
      assert s + t == s;
    } else {
      KeepConcat(s, t[..|t| - 1], ids);
      assert (s + t)[..|s + t| - 1] == s + t[..|t| - 1];
    }
  }

  lemma {:induction false} KeepEvents(k: nat, code: Code, ids: set<nat>)
    ensures Keep(Events(k, code), ids) == Events(k, EraseCode(code, ids))
  {
    if code != [] {
      var n := |code| - 1;
      KeepEvents(k, code[..n], ids);
      assert Events(k, code)[..n] == Events(k, code[..n]);
    }
  }

  /** Running the erased function is the run of the function without the erased events. */
  lemma {:induction false} TraceOfErase(f: Func, path: seq<nat>, ids: set<nat>)
    requires forall k :: 0 <= k < |path| ==> path[k] < |f.blocks|
    ensures TraceOf(Erase(f, ids), path) == Keep(TraceOf(f, path), ids)
  {
    if path != [] {
      var n := |path| - 1;
      TraceOfErase(f, path[..n], ids);
      KeepEvents(n, f.blocks[path[n]], ids);
      KeepConcat(TraceOf(f, path[..n]), Events(n, f.blocks[path[n]]), ids);
    }
  }

  lemma {:induction false} ValueAfterKeep(t: Trace, ids: set<nat>, w: World, v: nat)
    requires OnlyRefops(t, ids)
    ensures ValueAfter(Keep(t, ids), w, v) == ValueAfter(t, w, v)
  {
    if t != [] {
      ValueAfterKeep(t[..|t| - 1], ids, w, v);
      var e := t[|t| - 1];
      var s := Keep(t[..|t| - 1], ids);
      assert (s + [e])[..|s|] == s && s + [] == s;
    }
  }

  lemma EffectKeep(t: Trace, e: Event, ids: set<nat>, w: World, o: nat)
    requires OnlyRefops(t, ids)
    ensures Effect(Keep(t, ids), e, w, o) == Effect(t, e, w, o)
  {
    if e.ins.op.IsRefop() && e.ins.op.p.Val? {
      ValueAfterKeep(t, ids, w, e.ins.op.p.name);
    }
  }

  lemma CountSnoc(t: Trace, e: Event, w: World, o: nat)
    ensures Count(t + [e], w, o) == Count(t, w, o) + Effect(t, e, w, o)
  {
    assert (t + [e])[..|t|] == t;
  }

  /** Erasing reference operations changes every count by exactly what they contributed. */
  lemma {:induction false} CountKeep(t: Trace, ids: set<nat>, w: World, o: nat)
    requires OnlyRefops(t, ids)
    ensures Count(Keep(t, ids), w, o) == Count(t, w, o) - CountOf(t, ids, w, o)
  {
    if t != [] {
      var r, e := t[..|t| - 1], t[|t| - 1];
      CountKeep(r, ids, w, o);
      if e.ins.id in ids {
        assert Keep(t, ids) == Keep(r, ids);
      } else {
        CountSnoc(Keep(r, ids), e, w, o);
        EffectKeep(r, e, ids, w, o);
      }
    }
  }

  lemma {:induction false} ValueAfterNoDef(t: Trace, s: Trace, w: World, v: nat)
    requires forall i :: 0 <= i < |s| ==> !s[i].ins.op.Defines(v)
    ensures ValueAfter(t + s, w, v) == ValueAfter(t, w, v)
  {
    if s == [] {
      assert t + s == t;
    } else {
      var s' := s[..|s| - 1];
      ValueAfterNoDef(t, s', w, v);
      assert (t + s)[..|t + s| - 1] == t + s';
    }
  }

  lemma {:induction false} CountOfNone(t: Trace, s: Trace, ids: set<nat>, w: World, o: nat)
    requires forall i :: 0 <= i < |s| ==> s[i].ins.id !in ids
    ensures CountOf(t + s, ids, w, o) == CountOf(t, ids, w, o)
  {
    if s == [] {
      assert t + s == t;
    } else {
      var s' := s[..|s| - 1];
      CountOfNone(t, s', ids, w, o);
      assert (t + s)[..|t + s| - 1] == t + s';
    }
  }

  /** If exactly one event of `s` is in `ids`, `s` adds its effect and nothing else. */
  lemma CountOfOne(t: Trace, s: Trace, i: nat, ids: set<nat>, w: World, o: nat)
    requires i < |s| && s[i].ins.id in ids
    requires forall j :: 0 <= j < |s| && j != i ==> s[j].ins.id !in ids
    ensures CountOf(t + s, ids, w, o) == CountOf(t, ids, w, o) + Effect(t + s[..i], s[i], w, o)
  {
    CountOfNone(t, s[..i], ids, w, o);
    var a := t + s[..i];
    assert (a + [s[i]])[..|a|] == a;
    CountOfNone(a + [s[i]], s[i+1..], ids, w, o);
    assert t + s == a + [s[i]] + s[i+1..];
  }
}
