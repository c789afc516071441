/** The lines of a program joined into one text, and when reading the text still gives the trees. */
module PyText {
  import opened Options
  import opened PyLines

  const LINE_END := '\n'

  predicate Plain(line: string) {
    LINE_END !in line
  }

  predicate AllPlain(ls: seq<string>) {
    forall i :: 0 <= i < |ls| ==> Plain(ls[i])
  }

  function Join(ls: seq<string>): string {
    if ls == [] then ""
    else if |ls| == 1 then ls[0]
    else ls[0] + ([LINE_END] + Join(ls[1..]))
  }

  /** The lines with a line end between them and one after the last. */
  function Joined(ls: seq<string>): string {
    Join(ls) + [LINE_END]
  }

  /** The lines that a reader finds in a text. */
  function LinesOf(text: string): (ls: seq<string>)
    ensures |ls| > 0 && AllPlain(ls)
  {
    if text == "" then [""]
    else
      var rest := LinesOf(text[1..]);
      if text[0] == LINE_END then [""] + rest else [[text[0]] + rest[0]] + rest[1..]
  }

  function ReadText(text: string): Option<seq<Tree>> {
    Read(LinesOf(text))
  }

  lemma {:induction false} FirstLine(line: string, rest: string)
    requires Plain(line)
    ensures LinesOf(line + ([LINE_END] + rest)) == [line] + LinesOf(rest)
  {
    var text := line + ([LINE_END] + rest);
    if line == "" {
      assert text == [LINE_END] + rest;
    } else {
      assert text[0] == line[0] && text[1..] == line[1..] + ([LINE_END] + rest);
      FirstLine(line[1..], rest);
      assert [line[0]] + line[1..] == line;
    }
  }

  lemma {:induction false} JoinedLines(ls: seq<string>)
    requires AllPlain(ls)
    ensures LinesOf(Joined(ls)) == (if ls == [] then [""] else ls) + [""]
  {
    if |ls| <= 1 {
      var line := if ls == [] then "" else ls[0];
      assert Joined(ls) == line + ([LINE_END] + "");
      FirstLine(line, "");
    } else {
      var more := Join(ls[1..]);
      assert Joined(ls) == ls[0] + ([LINE_END] + (more + [LINE_END]));
      JoinedLines(ls[1..]);
      FirstLine(ls[0], more + [LINE_END]);
      assert [ls[0]] + (ls[1..] + [""]) == ls + [""];
    }
  }

  /** Joining lines without line ends loses nothing that a reader looks at. */
  lemma JoinedRead(ls: seq<string>)
    requires AllPlain(ls)
    ensures ReadText(Joined(ls)) == Read(ls)
  {
    JoinedLines(ls);
    NonBlankEnd(ls);
  }

  lemma NonBlankEnd(ls: seq<string>)
    ensures NonBlank((if ls == [] then [""] else ls) + [""]) == NonBlank(ls)
  {
    NonBlankConcat(if ls == [] then [""] else ls, [""]);
    assert NonBlank([""]) == [];
  }

  // ----- texts without line ends

  predicate PlainTrees(ts: seq<Tree>) {
    forall i :: 0 <= i < |ts| ==> PlainTree(ts[i])
  }

  predicate PlainTree(t: Tree) {
    match t
    case Blank => true
    case Line(text) => Plain(text)
    case Suite(header, body) => Plain(header) && PlainTrees(body)
  }

  lemma PlainNext(ts: seq<Tree>)
    requires ts != []
    ensures PlainTrees(ts) <==> PlainTree(ts[0]) && PlainTrees(ts[1..])
  {
    assert forall i :: 1 <= i < |ts| ==> ts[i] == ts[1..][i - 1];
  }

  lemma PlainConcat(a: seq<Tree>, b: seq<Tree>)
    ensures PlainTrees(a + b) <==> PlainTrees(a) && PlainTrees(b)
  {
    assert forall i :: 0 <= i < |a| ==> (a + b)[i] == a[i];
    assert forall i :: 0 <= i < |b| ==> (a + b)[|a| + i] == b[i];
  }

  lemma {:induction false} RenderPlain(ts: seq<Tree>, level: nat)
    requires PlainTrees(ts)
    ensures AllPlain(RenderAll(ts, level))
  {
    if ts != [] {
      PlainNext(ts);
      RenderPlain(ts[1..], level);
      if ts[0].Suite? {
        RenderPlain(ts[0].body, level + 1);
      }
    }
  }

  lemma {:induction false} NonBlankPlain(ls: seq<string>)
    requires AllPlain(ls)
    ensures AllPlain(NonBlank(ls))
  {
    if ls != [] {
      NonBlankPlain(ls[1..]);
    }
  }

  /** What is read from lines without line ends has none either. */
  lemma {:induction false} SuitePlain(ls: seq<string>, n: nat)
    requires AllPlain(ls)
    ensures PlainTrees(ReadSuite(ls, n).0) && AllPlain(ReadSuite(ls, n).1)
    decreases |ls|
  {
    if ls != [] && Indentation(ls[0]) == n < |ls[0]| {
      var text := ls[0][n..];
      NotIndented(ls[0]);
      if Deeper(ls[1..], n) {
        var (body, rest) := ReadSuite(ls[1..], Indentation(ls[1]));
        SuitePlain(ls[1..], Indentation(ls[1]));
        SuitePlain(rest, n);
        PlainConcat([Suite(text, body)], ReadSuite(rest, n).0);
      } else {
        SuitePlain(ls[1..], n);
        PlainConcat([Line(text)], ReadSuite(ls[1..], n).0);
      }
    }
  }

  lemma {:induction false} NoBlanksPlain(ts: seq<Tree>)
    ensures PlainTrees(NoBlanks(ts)) <==> PlainTrees(ts)
    decreases ts, 0
  {
    if ts != [] {
      PlainNext(ts);
      NoBlankPlain(ts[0]);
      NoBlanksPlain(ts[1..]);
      PlainConcat(NoBlank(ts[0]), NoBlanks(ts[1..]));
    }
  }

  lemma NoBlankPlain(t: Tree)
    ensures PlainTrees(NoBlank(t)) <==> PlainTree(t)
    decreases t, 1
  {
    if t.Suite? {
      NoBlanksPlain(t.body);
      assert NoBlank(t)[0] == Suite(t.header, NoBlanks(t.body));
    } else if t.Line? {
      assert NoBlank(t)[0] == t;
    }
  }

  lemma ReadPlain(text: string)
    requires ReadText(text).Some?
    ensures PlainTrees(ReadText(text).value)
  {
    NonBlankPlain(LinesOf(text));
    SuitePlain(NonBlank(LinesOf(text)), 0);
  }

  /** Reading the joined text gives the trees back, but for blanks, if and only if no suite is
      empty and no text of theirs holds a line end. */
  lemma TextReadsBackExactly(ts: seq<Tree>)
    ensures ReadText(Joined(RenderAll(ts, 0))) == Some(NoBlanks(ts)) <==> Whole(ts) && PlainTrees(ts)
  {
    if PlainTrees(ts) {
      RenderPlain(ts, 0);
      JoinedRead(RenderAll(ts, 0));
      ReadBackExactly(ts);
    } else {
      NoBlanksPlain(ts);
      if ReadText(Joined(RenderAll(ts, 0))).Some? {
        ReadPlain(Joined(RenderAll(ts, 0)));
      }
    }
  }
}
