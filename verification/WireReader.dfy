/** Reading wires: what the reader answers on every list of tokens, the reader itself, and the
    proof that it undoes printing. */
module WireReader {
  import opened Options
  import opened WireSyntax

  /** A value and the tokens after it, or what was expected and what stood there. */
  datatype Outcome<T> = Ok(value: T, rest: seq<Token>) | Error(expected: Token, got: Token)

  // ----- what is read, on the tokens not yet taken

  /** The token at an offset, or "" past the end. */
  function Look(ts: seq<Token>, offset: nat): Token {
    if offset < |ts| then ts[offset] else ""
  }

  /** What is left after taking one token; nothing is left to take past the end. */
  function After(ts: seq<Token>): seq<Token> {
    if ts == [] then [] else ts[1..]
  }

  /** Is this the closing token, or the end of all tokens? */
  predicate Closes(t: Token, closing: Token) {
    t == closing || t == ""
  }

  function Strip(t: Token): Token {
    if t != "" && t[0] == '`' then Strip(t[1..]) else t
  }

  function Expect(ts: seq<Token>, expected: Token): Outcome<()> {
    if Look(ts, 0) == expected then Ok((), After(ts)) else Error(expected, Look(ts, 0))
  }

  function ReadParts(ts: seq<Token>): (r: (string, seq<Token>))
    ensures |r.1| <= |ts|
  {
    if Look(ts, 0) != "." then ("", ts)
    else
      var (text, rest) := ReadParts(After(After(ts)));
      ("." + Strip(Look(After(ts), 0)) + text, rest)
  }

  function ReadDotted(ts: seq<Token>): (r: (string, seq<Token>))
    ensures ts != [] ==> |r.1| < |ts|
    ensures |r.1| <= |ts|
  {
    var (text, rest) := ReadParts(After(ts));
    (Strip(Look(ts, 0)) + text, rest)
  }

  function ReadConsumers(scope: string, ts: seq<Token>): (r: (seq<string>, seq<Token>))
    ensures |r.1| <= |ts|
    decreases |ts|
  {
    if Look(ts, 0) != "|" then ([], ts)
    else
      var (name, rest) := ReadDotted(After(ts));
      var (names, last) := ReadConsumers(scope, rest);
      ([JoinScope(scope, name)] + names, last)
  }

  /** One imported name with its alias, and the comma after it if there is one. */
  function ReadItem(ts: seq<Token>): (r: (string, seq<Token>))
    ensures ts != [] ==> |r.1| < |ts|
  {
    var name := Strip(Look(ts, 0));
    var rest := After(ts);
    var (text, last) :=
      if Look(rest, 0) == "as" then (name + " as " + Strip(Look(After(rest), 0)), After(After(rest))) else (name, rest);
    (text, SkipOne(last, ","))
  }

  function SkipOne(ts: seq<Token>, t: Token): (r: seq<Token>)
    ensures |r| <= |ts|
  {
    if Look(ts, 0) == t then After(ts) else ts
  }

  function ReadItems(ts: seq<Token>): (r: (seq<string>, seq<Token>))
    ensures |r.1| <= |ts|
    decreases |ts|
  {
    if Closes(Look(ts, 0), "}") then ([], ts)
    else
      var (text, rest) := ReadItem(ts);
      var (texts, last) := ReadItems(rest);
      ([text] + texts, last)
  }

  function ReadNames(ts: seq<Token>): (r: Outcome<Option<seq<string>>>)
    ensures r.Ok? ==> |r.rest| <= |ts|
  {
    if Look(ts, 0) != "{" then Ok(None, ts)
    else
      var (texts, rest) := ReadItems(After(ts));
      match Expect(rest, "}")
      case Error(e, g) => Error(e, g)
      case Ok(_, last) => Ok(Some(texts), last)
  }

  function ReadTarget(s: Source, ts: seq<Token>): (r: Outcome<seq<Fact>>)
    ensures r.Ok? && ts != [] ==> |r.rest| < |ts|
    ensures r.Ok? ==> |r.rest| <= |ts|
  {
    var (first, rest) := ReadDotted(ts);
    var (others, last) := ReadConsumers(s.scope, rest);
    match ReadNames(last)
    case Error(e, g) => Error(e, g)
    case Ok(names, end) => Ok(FactsFor(s, [JoinScope(s.scope, first)] + others, names), end)
  }

  function FactsThen(facts: seq<Fact>, more: Outcome<seq<Fact>>): Outcome<seq<Fact>> {
    match more
    case Ok(value, rest) => Ok(facts + value, rest)
    case Error(e, g) => Error(e, g)
  }

  function ReadMany(s: Source, ts: seq<Token>): (r: Outcome<seq<Fact>>)
    ensures r.Ok? ==> |r.rest| <= |ts|
    decreases |ts|
  {
    if Closes(Look(ts, 0), "]") then Ok([], ts)
    else
      match ReadTarget(s, ts)
      case Error(e, g) => Error(e, g)
      case Ok(facts, rest) => FactsThen(facts, ReadMany(s, SkipOne(rest, ",")))
  }

  function ReadTargets(s: Source, ts: seq<Token>): (r: Outcome<seq<Fact>>)
    ensures r.Ok? ==> |r.rest| <= |ts|
  {
    if Look(ts, 0) != "[" then
      match ReadTarget(s, ts)
      case Error(e, g) => Error(e, g)
      case Ok(facts, rest) => Ok(facts, SkipOne(rest, ";"))
    else
      match ReadMany(s, After(ts))
      case Error(e, g) => Error(e, g)
      case Ok(facts, rest) =>
        match Expect(rest, "]")
        case Error(e, g) => Error(e, g)
        case Ok(_, last) => Ok(facts, last)
  }

  /** Does this follow a provider's first name, and so never a keyword? */
  predicate AfterProvider(t: Token) {
    t == "-->" || t == "++>" || t == "." || t == "as" || t == "|"
  }

  /** A keyword is one only if it is not itself the provider's name. */
  predicate AtKeyword(ts: seq<Token>) {
    Keyword(Look(ts, 0)) && !AfterProvider(Look(ts, 1))
  }

  function ReadKeywords(ts: seq<Token>): (r: (seq<Token>, seq<Token>))
    ensures |r.1| <= |ts|
  {
    if AtKeyword(ts) then
      var (words, rest) := ReadKeywords(After(ts));
      ([Look(ts, 0)] + words, rest)
    else ([], ts)
  }

  function ReadAlias(ts: seq<Token>): (r: (Token, seq<Token>))
    ensures |r.1| <= |ts|
  {
    if Look(ts, 0) == "as" then (Look(After(ts), 0), After(After(ts))) else ("", ts)
  }

  /** A wire up to its arrow, and the tokens from there. */
  datatype Head = Head(keywords: seq<Token>, provider: string, alias: Token, rest: seq<Token>)

  function ReadHead(ts: seq<Token>): (h: Head)
    requires ts != []
    ensures |h.rest| < |ts|
  {
    var (keywords, atProvider) := ReadKeywords(ts);
    var (provider, atAlias) := ReadDotted(atProvider);
    var (alias, rest) := ReadAlias(atAlias);
    Head(keywords, provider, alias, rest)
  }

  function ReadWire(scope: string, ts: seq<Token>): (r: Outcome<seq<Fact>>)
    requires ts != []
    ensures r.Ok? ==> |r.rest| < |ts|
  {
    var h := ReadHead(ts);
    var injected := Look(h.rest, 0) == "++>";
    match Expect(h.rest, if injected then "++>" else "-->")
    case Error(e, g) => Error(e, g)
    case Ok(_, rest) => ReadTargets(Source(scope, JoinScope(scope, h.provider), h.keywords, h.alias, injected), rest)
  }

  /** What is left after a rule: all up to a semicolon outside braces or the brace that closes
      the first one opened. */
  function PastRule(ts: seq<Token>, depth: int): (r: seq<Token>)
    ensures |r| <= |ts|
    ensures Look(ts, 0) != "" ==> |r| < |ts|
  {
    if Look(ts, 0) == "" then ts
    else if ts[0] == "{" then PastRule(ts[1..], depth + 1)
    else if ts[0] == "}" then if depth == 1 then ts[1..] else PastRule(ts[1..], depth - 1)
    else if ts[0] == ";" && depth == 0 then ts[1..]
    else PastRule(ts[1..], depth)
  }

  function ReadEntries(scope: string, ts: seq<Token>): (r: Outcome<seq<Fact>>)
    ensures r.Ok? ==> |r.rest| <= |ts|
    decreases |ts|
  {
    if Closes(Look(ts, 0), "}") then Ok([], ts)
    else if Look(ts, 0) == "edge" then ReadEntries(scope, PastRule(ts, 0))
    else
      match ReadWire(scope, ts)
      case Error(e, g) => Error(e, g)
      case Ok(facts, rest) => FactsThen(facts, ReadEntries(scope, rest))
  }

  function ReadScope(ts: seq<Token>): (r: (string, seq<Token>))
    ensures |r.1| <= |ts|
  {
    if Look(ts, 0) == "{" then ("", ts) else ReadDotted(ts)
  }

  /** The scope of a block, read up to its opening brace. */
  function ReadOpening(ts: seq<Token>): (r: Outcome<string>)
    ensures r.Ok? ==> |r.rest| < |ts|
  {
    match Expect(ts, "graph")
    case Error(e, g) => Error(e, g)
    case Ok(_, ts1) =>
      match Expect(ts1, "import")
      case Error(e, g) => Error(e, g)
      case Ok(_, ts2) =>
        var (scope, ts3) := ReadScope(ts2);
        match Expect(ts3, "{")
        case Error(e, g) => Error(e, g)
        case Ok(_, last) => Ok(scope, last)
  }

  function ReadBlock(ts: seq<Token>): (r: Outcome<seq<Fact>>)
    ensures r.Ok? ==> |r.rest| < |ts|
  {
    match ReadOpening(ts)
    case Error(e, g) => Error(e, g)
    case Ok(scope, inner) =>
      match ReadEntries(scope, inner)
      case Error(e, g) => Error(e, g)
      case Ok(facts, rest) =>
        match Expect(rest, "}")
        case Error(e, g) => Error(e, g)
        case Ok(_, last) => Ok(facts, last)
  }

  function ReadFile(ts: seq<Token>): Outcome<seq<Fact>>
    decreases |ts|
  {
    if Look(ts, 0) == "" then Ok([], ts)
    else
      match ReadBlock(ts)
      case Error(e, g) => Error(e, g)
      case Ok(facts, rest) => FactsThen(facts, ReadFile(rest))
  }

  // ----- the reader

  /** What a reading step answers: nothing, or a parse error. */
  datatype Step = Done | Failed(expected: Token, got: Token)

  lemma FactsThenTwice(a: seq<Fact>, b: seq<Fact>, more: Outcome<seq<Fact>>)
    ensures FactsThen(a, FactsThen(b, more)) == FactsThen(a + b, more)
  {
    if more.Ok? {
      assert a + b + more.value == a + (b + more.value);
    }
  }

  lemma OneMore<T>(a: seq<T>, x: T, b: seq<T>, more: seq<T>)
    requires b == [x] + more
    ensures a + b == a + [x] + more
  {
  }

  lemma MorePart(name: string, part: string, text: string, more: string)
    requires text == "." + part + more
    ensures name + text == name + "." + part + more
  {
  }

  class Reader {
    const toks: seq<Token>
    var pos: nat
    var facts: seq<Fact>

    constructor (toks: seq<Token>)
      ensures Rest() == toks && facts == []
    {
      this.toks := toks;
      pos := 0;
      facts := [];
    }

    /** The tokens not yet taken. */
    ghost function Rest(): seq<Token>
      reads `pos
    {
      if pos <= |toks| then toks[pos..] else []
    }

    /** Did a step that started with `before` gathered end as the outcome says? */
    ghost predicate Reads(r: Step, o: Outcome<seq<Fact>>, before: seq<Fact>)
      reads this
    {
      match o
      case Ok(read, rest) => r == Done && facts == before + read && Rest() == rest
      case Error(expected, got) => r == Failed(expected, got)
    }

    method Peek(offset: nat) returns (t: Token)
      ensures t == Look(Rest(), offset)
    {
      var at := pos + offset;
      t := if at < |toks| then toks[at] else "";
    }

    method Take() returns (t: Token)
      modifies this`pos
      ensures t == Look(old(Rest()), 0) && Rest() == After(old(Rest()))
    {
      t := Peek(0);
      pos := pos + 1;
    }

    method TakeExpected(expected: Token) returns (r: Step)
      modifies this`pos
      ensures match Expect(old(Rest()), expected)
              case Ok(_, rest) => r == Done && Rest() == rest
              case Error(e, g) => r == Failed(e, g)
    {
      var t := Peek(0);
      if t != expected {
        return Failed(expected, t);
      }
      pos := pos + 1;
      return Done;
    }

    method DottedName() returns (name: string)
      modifies this`pos
      ensures (name, Rest()) == ReadDotted(old(Rest()))
    {
      var t := Take();
      name := Strip(t);
      ghost var first, from := name, Rest();
      t := Peek(0);
      while t == "."
        invariant t == Look(Rest(), 0)
        invariant first + ReadParts(from).0 == name + ReadParts(Rest()).0
        invariant ReadParts(from).1 == ReadParts(Rest()).1
        decreases |Rest()|
      {
        ghost var text := ReadParts(Rest()).0;
        t := Take();
        t := Take();
        MorePart(name, Strip(t), text, ReadParts(Rest()).0);
        name := name + "." + Strip(t);
        t := Peek(0);
      }
      assert name + "" == name;
    }

    method Consumers(scope: string) returns (consumers: seq<string>)
      modifies this`pos
      ensures
        var (first, rest) := ReadDotted(old(Rest()));
        var (others, last) := ReadConsumers(scope, rest);
        consumers == [JoinScope(scope, first)] + others && Rest() == last
    {
      var name := DottedName();
      consumers := [JoinScope(scope, name)];
      ghost var whole := consumers + ReadConsumers(scope, Rest()).0;
      ghost var last := ReadConsumers(scope, Rest()).1;
      var t := Peek(0);
      while t == "|"
        invariant t == Look(Rest(), 0)
        invariant consumers + ReadConsumers(scope, Rest()).0 == whole
        invariant ReadConsumers(scope, Rest()).1 == last
        decreases |Rest()|
      {
        ghost var others := ReadConsumers(scope, Rest()).0;
        t := Take();
        name := DottedName();
        OneMore(consumers, JoinScope(scope, name), others, ReadConsumers(scope, Rest()).0);
        consumers := consumers + [JoinScope(scope, name)];
        t := Peek(0);
      }
      assert consumers + [] == consumers;
    }

    method Item() returns (text: string)
      modifies this`pos
      ensures (text, Rest()) == ReadItem(old(Rest()))
    {
      var t := Take();
      text := Strip(t);
      t := Peek(0);
      if t == "as" {
        t := Take();
        t := Take();
        text := text + " as " + Strip(t);
      }
      t := Peek(0);
      if t == "," {
        t := Take();
      }
    }

    method Names() returns (r: Step, names: Option<seq<string>>)
      modifies this`pos
      ensures match ReadNames(old(Rest()))
              case Ok(v, rest) => r == Done && names == v && Rest() == rest
              case Error(e, g) => r == Failed(e, g)
    {
      var t := Peek(0);
      if t != "{" {
        return Done, None;
      }
      t := Take();
      var texts := [];
      ghost var from := Rest();
      assert [] + ReadItems(from).0 == ReadItems(from).0;
      t := Peek(0);
      while !Closes(t, "}")
        invariant t == Look(Rest(), 0)
        invariant ReadItems(from) == (texts + ReadItems(Rest()).0, ReadItems(Rest()).1)
        decreases |Rest()|
      {
        ghost var items := ReadItems(Rest()).0;
        var text := Item();
        OneMore(texts, text, items, ReadItems(Rest()).0);
        texts := texts + [text];
        t := Peek(0);
      }
      assert texts + [] == texts;
      r := TakeExpected("}");
      names := Some(texts);
    }

    method AddFacts(s: Source, consumers: seq<string>, names: Option<seq<string>>)
      modifies this`facts
      ensures facts == old(facts) + FactsFor(s, consumers, names)
    {
      assert consumers[0..] == consumers;
      var i := 0;
      while i < |consumers|
        invariant 0 <= i <= |consumers|
        invariant facts + FactsFor(s, consumers[i..], names) == old(facts) + FactsFor(s, consumers, names)
      {
        ghost var left := FactsFor(s, consumers[i + 1..], names);
        assert consumers[i..][1..] == consumers[i + 1..];
        var fact := MakeFact(s, consumers[i], names);
        assert facts + ([fact] + left) == facts + [fact] + left;
        facts := facts + [fact];
        i := i + 1;
      }
    }

    method Target(s: Source) returns (r: Step)
      modifies this`pos, this`facts
      ensures Reads(r, ReadTarget(s, old(Rest())), old(facts))
    {
      var consumers := Consumers(s.scope);
      var names;
      r, names := Names();
      if r.Done? {
        AddFacts(s, consumers, names);
      }
    }

    method Many(s: Source) returns (r: Step)
      modifies this`pos, this`facts
      ensures Reads(r, ReadMany(s, old(Rest())), old(facts))
    {
      ghost var whole := FactsThen(facts, ReadMany(s, Rest()));
      var t := Peek(0);
      while !Closes(t, "]")
        invariant t == Look(Rest(), 0)
        invariant whole == FactsThen(facts, ReadMany(s, Rest()))
        decreases |Rest()|
      {
        ghost var earlier, read := facts, ReadTarget(s, Rest());
        r := Target(s);
        if r.Failed? {
          return;
        }
        t := Peek(0);
        if t == "," {
          t := Take();
        }
        FactsThenTwice(earlier, read.value, ReadMany(s, Rest()));
        t := Peek(0);
      }
      r := Done;
      assert facts + [] == facts;
    }

    method Targets(s: Source) returns (r: Step)
      modifies this`pos, this`facts
      ensures Reads(r, ReadTargets(s, old(Rest())), old(facts))
    {
      var t := Peek(0);
      if t == "[" {
        t := Take();
        r := Many(s);
        if r.Done? {
          r := TakeExpected("]");
        }
      } else {
        r := Target(s);
        if r.Done? {
          t := Peek(0);
          if t == ";" {
            t := Take();
          }
        }
      }
    }

    method Keywords() returns (keywords: seq<Token>)
      modifies this`pos
      ensures (keywords, Rest()) == ReadKeywords(old(Rest()))
    {
      keywords := [];
      ghost var from := Rest();
      assert [] + ReadKeywords(from).0 == ReadKeywords(from).0;
      var t := Peek(0);
      var next := Peek(1);
      while Keyword(t) && !AfterProvider(next)
        invariant t == Look(Rest(), 0) && next == Look(Rest(), 1)
        invariant ReadKeywords(from).0 == keywords + ReadKeywords(Rest()).0
        invariant ReadKeywords(from).1 == ReadKeywords(Rest()).1
        decreases |Rest()|
      {
        ghost var words := ReadKeywords(Rest()).0;
        assert AtKeyword(Rest());
        t := Take();
        OneMore(keywords, t, words, ReadKeywords(Rest()).0);
        keywords := keywords + [t];
        t := Peek(0);
        next := Peek(1);
      }
      assert keywords + [] == keywords;
    }

    method Alias() returns (alias: Token)
      modifies this`pos
      ensures (alias, Rest()) == ReadAlias(old(Rest()))
    {
      alias := "";
      var t := Peek(0);
      if t == "as" {
        t := Take();
        alias := Take();
      }
    }

    method WireHead() returns (h: Head)
      requires Rest() != []
      modifies this`pos
      ensures h == ReadHead(old(Rest())) && Rest() == h.rest
    {
      var keywords := Keywords();
      var provider := DottedName();
      var alias := Alias();
      h := Head(keywords, provider, alias, if pos <= |toks| then toks[pos..] else []);
    }

    method WireEntry(scope: string) returns (r: Step)
      requires Rest() != []
      modifies this`pos, this`facts
      ensures Reads(r, ReadWire(scope, old(Rest())), old(facts))
    {
      var h := WireHead();
      var t := Peek(0);
      var injected := t == "++>";
      r := TakeExpected(if injected then "++>" else "-->");
      if r.Done? {
        r := Targets(Source(scope, JoinScope(scope, h.provider), h.keywords, h.alias, injected));
      }
    }

    method SkipRule()
      modifies this`pos
      ensures Rest() == PastRule(old(Rest()), 0)
    {
      var depth := 0;
      var t := Peek(0);
      while t != ""
        invariant t == Look(Rest(), 0)
        invariant PastRule(Rest(), depth) == PastRule(old(Rest()), 0)
        decreases |Rest()|
      {
        t := Take();
        if t == "{" {
          depth := depth + 1;
        } else if t == "}" {
          depth := depth - 1;
          if depth == 0 {
            return;
          }
        } else if t == ";" && depth == 0 {
          return;
        }
        t := Peek(0);
      }
    }

    method Entries(scope: string) returns (r: Step)
      modifies this`pos, this`facts
      ensures Reads(r, ReadEntries(scope, old(Rest())), old(facts))
    {
      ghost var whole := FactsThen(facts, ReadEntries(scope, Rest()));
      var t := Peek(0);
      while !Closes(t, "}")
        invariant t == Look(Rest(), 0)
        invariant whole == FactsThen(facts, ReadEntries(scope, Rest()))
        decreases |Rest()|
      {
        if t == "edge" {
          SkipRule();
        } else {
          ghost var earlier, read := facts, ReadWire(scope, Rest());
          r := WireEntry(scope);
          if r.Failed? {
            return;
          }
          FactsThenTwice(earlier, read.value, ReadEntries(scope, Rest()));
        }
        t := Peek(0);
      }
      r := Done;
      assert facts + [] == facts;
    }

    method Scope() returns (scope: string)
      modifies this`pos
      ensures (scope, Rest()) == ReadScope(old(Rest()))
    {
      var t := Peek(0);
      if t == "{" {
        scope := "";
      } else {
        scope := DottedName();
      }
    }

    method Opening() returns (r: Step, scope: string)
      modifies this`pos
      ensures match ReadOpening(old(Rest()))
              case Ok(read, rest) => r == Done && scope == read && Rest() == rest
              case Error(e, g) => r == Failed(e, g)
    {
      scope := "";
      r := TakeExpected("graph");
      if r.Failed? {
        return;
      }
      r := TakeExpected("import");
      if r.Failed? {
        return;
      }
      scope := Scope();
      r := TakeExpected("{");
    }

    method Block() returns (r: Step)
      modifies this`pos, this`facts
      ensures Reads(r, ReadBlock(old(Rest())), old(facts))
    {
      var scope;
      r, scope := Opening();
      if r.Failed? {
        return;
      }
      r := Entries(scope);
      if r.Done? {
        r := TakeExpected("}");
      }
    }

    method Read() returns (r: Step)
      modifies this`pos, this`facts
      ensures Reads(r, ReadFile(old(Rest())), old(facts))
    {
      ghost var whole := FactsThen(facts, ReadFile(Rest()));
      var t := Peek(0);
      while t != ""
        invariant t == Look(Rest(), 0)
        invariant whole == FactsThen(facts, ReadFile(Rest()))
        decreases |Rest()|
      {
        ghost var earlier, read := facts, ReadBlock(Rest());
        r := Block();
        if r.Failed? {
          return;
        }
        FactsThenTwice(earlier, read.value, ReadFile(Rest()));
        t := Peek(0);
      }
      r := Done;
      assert facts + [] == facts;
    }
  }
}
