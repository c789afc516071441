/** Indented lines and the suites they stand for. */
module PyLines {
  import opened Options

  /** The text of a line without its indentation. */
  type Text = t: string | t != "" && t[0] != ' ' witness "pass"

  datatype Tree = Line(text: Text) | Suite(header: Text, body: seq<Tree>) | Blank

  function Spaces(n: nat): (s: string)
    ensures |s| == n && forall i :: 0 <= i < n ==> s[i] == ' '
  {
    seq(n, _ => ' ')
  }

  /** A line of text at an indentation level. */
  function Indented(text: Text, level: nat): string {
    Spaces(4 * level) + text
  }

  function Render(t: Tree, level: nat): seq<string> {
    match t
    case Blank => [""]
    case Line(text) => [Indented(text, level)]
    case Suite(header, body) => [Indented(header, level)] + RenderAll(body, level + 1)
  }

  function RenderAll(ts: seq<Tree>, level: nat): seq<string> {
    if ts == [] then [] else Render(ts[0], level) + RenderAll(ts[1..], level)
  }

  // ----- reading suites from indentation

  function Indentation(line: string): (n: nat)
    ensures n <= |line|
  {
    if line != "" && line[0] == ' ' then 1 + Indentation(line[1..]) else 0
  }

  function Deeper(ls: seq<string>, n: nat): bool {
    ls != [] && Indentation(ls[0]) > n
  }

  /** The suite at exactly this indentation, and the lines after it: a line followed by a deeper
      one is the header of the suite that starts there. A line indented to its end cannot occur. */
  function ReadSuite(ls: seq<string>, n: nat): (r: (seq<Tree>, seq<string>))
    ensures |r.1| <= |ls|
    ensures ls != [] && Indentation(ls[0]) == n < |ls[0]| ==> |r.1| < |ls|
    decreases |ls|
  {
    if ls == [] || Indentation(ls[0]) != n || n == |ls[0]| then ([], ls)
    else
      var text := ls[0][n..];
      NotIndented(ls[0]);
      if Deeper(ls[1..], n) then
        var (body, rest) := ReadSuite(ls[1..], Indentation(ls[1]));
        var (more, last) := ReadSuite(rest, n);
        ([Suite(text, body)] + more, last)
      else
        var (more, last) := ReadSuite(ls[1..], n);
        ([Line(text)] + more, last)
  }

  lemma {:induction false} NotIndented(line: string)
    ensures Indentation(line) < |line| ==> line[Indentation(line)] != ' '
  {
    if line != "" && line[0] == ' ' {
      NotIndented(line[1..]);
    }
  }

  function NonBlank(ls: seq<string>): seq<string> {
    if ls == [] then [] else (if ls[0] == "" then [] else [ls[0]]) + NonBlank(ls[1..])
  }

  /** The suites of a file; none if some line is indented as no suite is. */
  function Read(ls: seq<string>): Option<seq<Tree>> {
    var (ts, rest) := ReadSuite(NonBlank(ls), 0);
    if rest == [] then Some(ts) else None
  }

  // ----- reading undoes rendering

  function NoBlanks(ts: seq<Tree>): seq<Tree> {
    if ts == [] then [] else NoBlank(ts[0]) + NoBlanks(ts[1..])
  }

  function NoBlank(t: Tree): seq<Tree> {
    match t
    case Blank => []
    case Line(text) => [t]
    case Suite(header, body) => [Suite(header, NoBlanks(body))]
  }

  /** Has every header a line in its suite? */
  predicate Whole(ts: seq<Tree>) {
    forall i :: 0 <= i < |ts| ==> WholeTree(ts[i])
  }

  predicate WholeTree(t: Tree) {
    t.Suite? ==> HasLine(t.body) && Whole(t.body)
  }

  predicate HasLine(ts: seq<Tree>) {
    exists i :: 0 <= i < |ts| && !ts[i].Blank?
  }

  /** What a reader sees: no blanks, and a header without a suite is a line. */
  function Seen(ts: seq<Tree>): seq<Tree> {
    if ts == [] then []
    else SeenTree(ts[0]) + Seen(ts[1..])
  }

  function SeenTree(t: Tree): seq<Tree> {
    match t
    case Blank => []
    case Line(text) => [t]
    case Suite(header, body) => if Seen(body) == [] then [Line(header)] else [Suite(header, Seen(body))]
  }

  lemma {:induction false} IndentationOf(text: Text, n: nat)
    ensures Indentation(Spaces(n) + text) == n
    ensures (Spaces(n) + text)[n..] == text
  {
    if n > 0 {
      assert (Spaces(n) + text)[1..] == Spaces(n - 1) + text;
      IndentationOf(text, n - 1);
    } else {
      assert Spaces(n) + text == text;
    }
  }

  lemma {:induction false} NonBlankConcat(a: seq<string>, b: seq<string>)
    ensures NonBlank(a + b) == NonBlank(a) + NonBlank(b)
  {
    if a == [] {
      assert a + b == b;
    } else {
      assert (a + b)[1..] == a[1..] + b;
      NonBlankConcat(a[1..], b);
    }
  }

  /** Does no suite of this level or deeper go on here? */
  predicate Closes(ls: seq<string>, level: nat) {
    ls == [] || Indentation(ls[0]) < 4 * level
  }

  /** A line that no deeper one follows is read alone. */
  lemma HeaderAlone(text: Text, level: nat, tail: seq<string>)
    requires !Deeper(tail, 4 * level)
    ensures
      var (more, last) := ReadSuite(tail, 4 * level);
      ReadSuite([Indented(text, level)] + tail, 4 * level) == ([Line(text)] + more, last)
  {
    IndentationOf(text, 4 * level);
    assert ([Indented(text, level)] + tail)[1..] == tail;
  }

  /** A line is read with the suite under it. */
  lemma HeaderWith(text: Text, level: nat, inner: seq<string>, body: seq<Tree>, tail: seq<string>)
    requires inner != [] && Indentation(inner[0]) == 4 * (level + 1)
    requires ReadSuite(inner + tail, 4 * (level + 1)) == (body, tail)
    ensures
      var (more, last) := ReadSuite(tail, 4 * level);
      ReadSuite([Indented(text, level)] + (inner + tail), 4 * level) == ([Suite(text, body)] + more, last)
  {
    IndentationOf(text, 4 * level);
    assert ([Indented(text, level)] + (inner + tail))[1..] == inner + tail;
  }

  lemma {:induction false} SuitesSeen(ts: seq<Tree>, level: nat, rest: seq<string>)
    requires Closes(rest, level)
    ensures ReadSuite(NonBlank(RenderAll(ts, level)) + rest, 4 * level) == (Seen(ts), rest)
    ensures StartsAt(NonBlank(RenderAll(ts, level)), level, Seen(ts))
    decreases ts, 0
  {
    if ts == [] {
      assert NonBlank(RenderAll(ts, level)) + rest == rest;
    } else {
      var first := NonBlank(Render(ts[0], level));
      var later := NonBlank(RenderAll(ts[1..], level));
      assert first + later + rest == first + (later + rest);
      SuitesSeen(ts[1..], level, rest);
      assert !Deeper(later + rest, 4 * level) by {
        assert later == [] ==> later + rest == rest;
      }
      TreeSeen(ts[0], level, later + rest);
      assert NonBlank(RenderAll(ts, level)) == first + later by {
        NonBlankConcat(Render(ts[0], level), RenderAll(ts[1..], level));
      }
    }
  }

  /** Lines start at this level, unless there are none. */
  predicate StartsAt(ls: seq<string>, level: nat, seen: seq<Tree>) {
    (ls == [] <==> seen == []) && (ls != [] ==> Indentation(ls[0]) == 4 * level)
  }

  lemma TreeSeen(t: Tree, level: nat, tail: seq<string>)
    requires !Deeper(tail, 4 * level)
    ensures ReadSuite(NonBlank(Render(t, level)) + tail, 4 * level)
         == (SeenTree(t) + ReadSuite(tail, 4 * level).0, ReadSuite(tail, 4 * level).1)
    ensures StartsAt(NonBlank(Render(t, level)), level, SeenTree(t))
    decreases t, 1
  {
    match t
    case Blank =>
      assert NonBlank([""]) == [];
      assert NonBlank([""]) + tail == tail;
      assert SeenTree(t) + ReadSuite(tail, 4 * level).0 == ReadSuite(tail, 4 * level).0;
    case Line(text) =>
      IndentationOf(text, 4 * level);
      HeaderAlone(text, level, tail);
      assert NonBlank(Render(t, level)) == [Indented(text, level)];
    case Suite(_, _) =>
      SuiteSeen(t, level, tail);
  }

  lemma SuiteSeen(t: Tree, level: nat, tail: seq<string>)
    requires t.Suite? && !Deeper(tail, 4 * level)
    ensures ReadSuite(NonBlank(Render(t, level)) + tail, 4 * level)
         == (SeenTree(t) + ReadSuite(tail, 4 * level).0, ReadSuite(tail, 4 * level).1)
    ensures StartsAt(NonBlank(Render(t, level)), level, SeenTree(t))
    decreases t, 0
  {
    SuitesSeen(t.body, level + 1, tail);
    if NonBlank(RenderAll(t.body, level + 1)) == [] {
      EmptySuiteSeen(t, level, tail);
    } else {
      FullSuiteSeen(t, level, tail);
    }
  }

  lemma EmptySuiteSeen(t: Tree, level: nat, tail: seq<string>)
    requires t.Suite? && !Deeper(tail, 4 * level)
    requires NonBlank(RenderAll(t.body, level + 1)) == [] && Seen(t.body) == []
    ensures ReadSuite(NonBlank(Render(t, level)) + tail, 4 * level)
         == (SeenTree(t) + ReadSuite(tail, 4 * level).0, ReadSuite(tail, 4 * level).1)
    ensures StartsAt(NonBlank(Render(t, level)), level, SeenTree(t))
  {
    SuiteLines(t, level);
    IndentationOf(t.header, 4 * level);
    assert NonBlank(Render(t, level)) == [Indented(t.header, level)];
    HeaderAlone(t.header, level, tail);
  }

  lemma FullSuiteSeen(t: Tree, level: nat, tail: seq<string>)
    requires t.Suite? && !Deeper(tail, 4 * level)
    requires
      var inner := NonBlank(RenderAll(t.body, level + 1));
      && inner != [] && StartsAt(inner, level + 1, Seen(t.body))
      && ReadSuite(inner + tail, 4 * (level + 1)) == (Seen(t.body), tail)
    ensures ReadSuite(NonBlank(Render(t, level)) + tail, 4 * level)
         == (SeenTree(t) + ReadSuite(tail, 4 * level).0, ReadSuite(tail, 4 * level).1)
    ensures StartsAt(NonBlank(Render(t, level)), level, SeenTree(t))
  {
    var inner := NonBlank(RenderAll(t.body, level + 1));
    assert [Indented(t.header, level)] + inner + tail == [Indented(t.header, level)] + (inner + tail);
    SuiteLines(t, level);
    IndentationOf(t.header, 4 * level);
    HeaderWith(t.header, level, inner, Seen(t.body), tail);
  }

  lemma SuiteLines(t: Tree, level: nat)
    requires t.Suite?
    ensures NonBlank(Render(t, level)) == [Indented(t.header, level)] + NonBlank(RenderAll(t.body, level + 1))
  {
    NonBlankConcat([Indented(t.header, level)], RenderAll(t.body, level + 1));
    assert NonBlank([Indented(t.header, level)]) == [Indented(t.header, level)];
  }

  /** Reading what was rendered gives the trees, without blanks and with a header whose suite is
      empty seen as a line. */
  lemma ReadRendered(ts: seq<Tree>)
    ensures Read(RenderAll(ts, 0)) == Some(Seen(ts))
  {
    SuitesSeen(ts, 0, []);
    assert NonBlank(RenderAll(ts, 0)) + [] == NonBlank(RenderAll(ts, 0));
  }

  lemma {:induction false} SeenSome(ts: seq<Tree>)
    ensures Seen(ts) != [] <==> HasLine(ts)
    ensures NoBlanks(ts) != [] <==> HasLine(ts)
  {
    if ts != [] {
      SeenSome(ts[1..]);
      if HasLine(ts[1..]) {
        var i :| 0 <= i < |ts[1..]| && !ts[1..][i].Blank?;
        assert !ts[i + 1].Blank?;
      } else if HasLine(ts) {
        assert forall i :: 1 <= i < |ts| ==> ts[i] == ts[1..][i - 1];
        assert !ts[0].Blank?;
      }
    }
  }

  lemma SameHeads<T>(a: seq<T>, x: seq<T>, b: seq<T>, y: seq<T>)
    requires |a| == |b|
    ensures a + x == b + y <==> a == b && x == y
  {
    if a + x == b + y {
      assert a == (a + x)[..|a|] == b;
      assert x == (a + x)[|a|..] == y;
    }
  }

  /** The trees are read back exactly when every header has a line in its suite. */
  lemma {:induction false} SeenExactly(ts: seq<Tree>)
    ensures Seen(ts) == NoBlanks(ts) <==> Whole(ts)
    decreases ts
  {
    if ts != [] {
      var t, more := ts[0], ts[1..];
      SeenExactly(more);
      if t.Suite? {
        SeenExactly(t.body);
        SeenSome(t.body);
      }
      assert Whole(ts) <==> WholeTree(t) && Whole(more);
      SameHeads(SeenTree(t), Seen(more), NoBlank(t), NoBlanks(more));
    }
  }

  /** Reading gives back what was rendered, but for blanks, if and only if no suite is empty. */
  lemma ReadBackExactly(ts: seq<Tree>)
    ensures Read(RenderAll(ts, 0)) == Some(NoBlanks(ts)) <==> Whole(ts)
  {
    ReadRendered(ts);
    SeenExactly(ts);
  }
}
