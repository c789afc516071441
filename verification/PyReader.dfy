/** Reading statements of Python from an indentation tree: which clauses belong together, and what
    decorates what. It has its own grammar and knows nothing of how statements are emitted. */
module PyReader {
  import opened Options
  import opened PyLines
  import opened PyParse

  datatype PyBranch = PyBranch(test: string, body: seq<Py>)

  datatype PyHandler = PyHandler(caught: Catch, body: seq<Py>)

  datatype Py =
    | PyIf(branches: seq<PyBranch>, otherwise: seq<Py>)
    | PyFor(isAsync: bool, loop: Loop, body: seq<Py>)
    | PyWhile(test: string, body: seq<Py>)
    | PyTry(body: seq<Py>, handlers: seq<PyHandler>, otherwise: seq<Py>, cleanup: seq<Py>)
    | PyMatch(subject: string, cases: seq<PyBranch>)
    | PyWith(isAsync: bool, items: string, body: seq<Py>)
    | PyDef(decorators: seq<string>, isAsync: bool, signature: Signature, body: seq<Py>)
    | PyClass(decorators: seq<string>, parts: ClassParts, body: seq<Py>)
    | PyLine(simple: Simple)
    | PyBad

  function Size(ts: seq<Tree>): nat {
    if ts == [] then 0 else 1 + (if ts[0].Suite? then Size(ts[0].body) else 0) + Size(ts[1..])
  }

  function HeadOf(t: Tree): Head {
    if t.Suite? then ReadHead(t.header) else NoHead
  }

  predicate Decorates(t: Tree) {
    t.Line? && t.text[0] == '@'
  }

  /** The statements of a suite. What fits no grammar is bad. */
  function ReadStmts(ts: seq<Tree>): (ps: seq<Py>)
    ensures ts != [] ==> ps != []
    decreases Size(ts), 1
  {
    if ts == [] then []
    else if Decorates(ts[0]) then ReadDecorated([], ts)
    else if ts[0].Line? then [PyLine(ReadLine(ts[0].text))] + ReadStmts(ts[1..])
    else
      match HeadOf(ts[0])
      case IfHead(test) =>
        var (elifs, rest) := ReadElifs(ts[1..]);
        var (otherwise, last) := ReadElse(rest);
        [PyIf([PyBranch(test, ReadStmts(ts[0].body))] + elifs, otherwise)] + ReadStmts(last)
      case ForHead(isAsync, loop) => [PyFor(isAsync, ReadFor(loop), ReadStmts(ts[0].body))] + ReadStmts(ts[1..])
      case WhileHead(test) => [PyWhile(test, ReadStmts(ts[0].body))] + ReadStmts(ts[1..])
      case TryHead =>
        var (handlers, rest) := ReadHandlers(ts[1..]);
        var (otherwise, more) := ReadElse(rest);
        var (cleanup, last) := ReadFinally(more);
        [PyTry(ReadStmts(ts[0].body), handlers, otherwise, cleanup)] + ReadStmts(last)
      case MatchHead(subject) => [PyMatch(subject, ReadCases(ts[0].body))] + ReadStmts(ts[1..])
      case WithHead(isAsync, items) => [PyWith(isAsync, items, ReadStmts(ts[0].body))] + ReadStmts(ts[1..])
      case DefHead(_, _) => ReadDecorated([], ts)
      case ClassHead(_) => ReadDecorated([], ts)
      case _ => [PyBad] + ReadStmts(ts[1..])
  }

  /** Decorators, and the function or class they are for. */
  function ReadDecorated(decorators: seq<string>, ts: seq<Tree>): (ps: seq<Py>)
    ensures ps != []
    decreases Size(ts), 0
  {
    if ts == [] then [PyBad]
    else if Decorates(ts[0]) then ReadDecorated(decorators + [ts[0].text[1..]], ts[1..])
    else
      match HeadOf(ts[0])
      case DefHead(isAsync, signature) =>
        [PyDef(decorators, isAsync, ReadDef(signature), ReadStmts(ts[0].body))] + ReadStmts(ts[1..])
      case ClassHead(signature) => [PyClass(decorators, ReadClass(signature), ReadStmts(ts[0].body))] + ReadStmts(ts[1..])
      case _ => [PyBad] + ReadStmts(ts[1..])
  }

  function ReadElifs(ts: seq<Tree>): (r: (seq<PyBranch>, seq<Tree>))
    ensures Size(r.1) <= Size(ts)
    decreases Size(ts), 0
  {
    if ts != [] && HeadOf(ts[0]).ElifHead? then
      var (more, rest) := ReadElifs(ts[1..]);
      ([PyBranch(HeadOf(ts[0]).test, ReadStmts(ts[0].body))] + more, rest)
    else ([], ts)
  }

  function ReadElse(ts: seq<Tree>): (r: (seq<Py>, seq<Tree>))
    ensures Size(r.1) <= Size(ts)
    decreases Size(ts), 0
  {
    if ts != [] && HeadOf(ts[0]).ElseHead? then (ReadStmts(ts[0].body), ts[1..]) else ([], ts)
  }

  function ReadFinally(ts: seq<Tree>): (r: (seq<Py>, seq<Tree>))
    ensures Size(r.1) <= Size(ts)
    decreases Size(ts), 0
  {
    if ts != [] && HeadOf(ts[0]).FinallyHead? then (ReadStmts(ts[0].body), ts[1..]) else ([], ts)
  }

  function ReadHandlers(ts: seq<Tree>): (r: (seq<PyHandler>, seq<Tree>))
    ensures Size(r.1) <= Size(ts)
    decreases Size(ts), 0
  {
    if ts != [] && HeadOf(ts[0]).ExceptHead? then
      var (more, rest) := ReadHandlers(ts[1..]);
      ([PyHandler(ReadExcept(HeadOf(ts[0]).caught), ReadStmts(ts[0].body))] + more, rest)
    else ([], ts)
  }

  /** All trees of a `match` are cases. */
  function ReadCases(ts: seq<Tree>): seq<PyBranch>
    decreases Size(ts), 0
  {
    if ts == [] then []
    else
      [if HeadOf(ts[0]).CaseHead? then PyBranch(HeadOf(ts[0]).pattern, ReadStmts(ts[0].body)) else PyBranch("", [PyBad])]
      + ReadCases(ts[1..])
  }

  /** A clause that goes on a statement before it. */
  predicate StartsClause(ts: seq<Tree>) {
    ts != [] && Continues(HeadOf(ts[0]))
  }

  predicate Continues(h: Head) {
    h.ElifHead? || h.ElseHead? || h.ExceptHead? || h.FinallyHead?
  }
}
