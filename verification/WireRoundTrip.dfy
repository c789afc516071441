/** Reading what was printed gives back what the wires mean. */
module WireRoundTrip {
  import opened Options
  import opened WireSyntax
  import opened WireReader

  lemma Move<T>(a: seq<T>, b: seq<T>, c: seq<T>)
    ensures a + b + c == a + (b + c)
  {
  }

  lemma Regroup<T>(a: seq<T>, b: seq<T>, c: seq<T>, d: seq<T>)
    ensures a + b + c + d == a + (b + (c + d))
  {
  }

  /** A name's token is nothing but that name: no punctuation, and the quote comes off. */
  lemma NameBack(n: Name)
    requires NameOk(n)
    ensures Strip(NameToken(n)) == n.text
    ensures NameToken(n) != "" && (NameToken(n)[0] == '`' <==> n.quoted) && (n.quoted || Letter(NameToken(n)[0]))
  {
    if n.quoted {
      assert NameToken(n)[1..] == n.text;
    }
  }

  lemma {:induction false} PartsBack(names: seq<Name>, rest: seq<Token>)
    requires forall i :: 0 <= i < |names| ==> NameOk(names[i])
    requires Look(rest, 0) != "."
    ensures ReadParts(PrintParts(names) + rest) == (JoinParts(names), rest)
  {
    if names == [] {
      assert PrintParts(names) + rest == rest;
    } else {
      var tail := PrintParts(names[1..]) + rest;
      assert PrintParts(names) + rest == [".", NameToken(names[0])] + tail;
      assert After(After(PrintParts(names) + rest)) == tail;
      NameBack(names[0]);
      PartsBack(names[1..], rest);
    }
  }

  lemma DottedBack(d: Dotted, rest: seq<Token>)
    requires DottedOk(d) && Look(rest, 0) != "."
    ensures ReadDotted(PrintDotted(d) + rest) == (Join(d), rest)
    ensures Look(PrintDotted(d) + rest, 0) == NameToken(d.first)
  {
    assert After(PrintDotted(d) + rest) == PrintParts(d.rest) + rest;
    NameBack(d.first);
    PartsBack(d.rest, rest);
  }

  lemma ConsumerBack(scope: string, ts: seq<Token>, name: string, rest: seq<Token>)
    requires ReadDotted(ts) == (name, rest)
    ensures ReadConsumers(scope, ["|"] + ts)
         == ([JoinScope(scope, name)] + ReadConsumers(scope, rest).0, ReadConsumers(scope, rest).1)
  {
    assert After(["|"] + ts) == ts;
  }

  lemma {:induction false} ConsumersBack(scope: string, ds: seq<Dotted>, rest: seq<Token>)
    requires forall i :: 0 <= i < |ds| ==> DottedOk(ds[i])
    requires Look(rest, 0) != "." && Look(rest, 0) != "|"
    ensures ReadConsumers(scope, PrintAlternatives(ds) + rest) == (ConsumersOf(scope, ds), rest)
    ensures Look(PrintAlternatives(ds) + rest, 0) != "."
  {
    if ds == [] {
      assert PrintAlternatives(ds) + rest == rest;
    } else {
      var more := PrintAlternatives(ds[1..]);
      Regroup(["|"], PrintDotted(ds[0]), more, rest);
      ConsumersBack(scope, ds[1..], rest);
      DottedBack(ds[0], more + rest);
      ConsumerBack(scope, PrintDotted(ds[0]) + (more + rest), Join(ds[0]), more + rest);
    }
  }

  lemma ItemBack(i: Item, rest: seq<Token>)
    requires ItemOk(i)
    ensures ReadItem(PrintItem(i) + [","] + rest) == (ItemText(i), rest)
    ensures !Closes(Look(PrintItem(i) + [","] + rest, 0), "}")
  {
    var ts := PrintItem(i) + [","] + rest;
    NameBack(i.name);
    if i.alias.Some? {
      NameBack(i.alias.value);
      assert ts == [NameToken(i.name), "as", NameToken(i.alias.value), ","] + rest;
      assert After(ts) == ["as", NameToken(i.alias.value), ","] + rest;
      assert After(After(After(ts))) == [","] + rest;
    } else {
      assert ts == [NameToken(i.name), ","] + rest;
      assert After(ts) == [","] + rest;
    }
  }

  lemma {:induction false} ItemsBack(items: seq<Item>, rest: seq<Token>)
    requires forall i :: 0 <= i < |items| ==> ItemOk(items[i])
    ensures ReadItems(PrintItems(items) + ["}"] + rest) == (ItemTexts(items), ["}"] + rest)
  {
    if items == [] {
      assert PrintItems(items) + ["}"] + rest == ["}"] + rest;
    } else {
      var tail := PrintItems(items[1..]) + ["}"] + rest;
      assert PrintItems(items) + ["}"] + rest == PrintItem(items[0]) + [","] + tail;
      ItemBack(items[0], tail);
      ItemsBack(items[1..], rest);
    }
  }

  /** What may follow a target: a separator or the end of its list. */
  predicate Separates(t: Token) {
    t == ";" || t == "," || t == "]"
  }

  lemma NamesBack(t: Target, rest: seq<Token>)
    requires TargetOk(t) && Separates(Look(rest, 0))
    ensures ReadNames(PrintNames(t) + rest) == Ok(NamesOf(t), rest)
    ensures Look(PrintNames(t) + rest, 0) != "." && Look(PrintNames(t) + rest, 0) != "|"
  {
    if t.names.Some? {
      var body := PrintItems(t.names.value) + ["}"] + rest;
      assert PrintNames(t) + rest == ["{"] + body;
      assert After(PrintNames(t) + rest) == body;
      ItemsBack(t.names.value, rest);
      assert After(["}"] + rest) == rest;
    } else {
      assert PrintNames(t) + rest == rest;
    }
  }

  lemma TargetBack(s: Source, t: Target, rest: seq<Token>)
    requires TargetOk(t) && Separates(Look(rest, 0))
    ensures ReadTarget(s, PrintTarget(t) + rest) == Ok(TargetFacts(s, t), rest)
    ensures Look(PrintTarget(t) + rest, 0) == NameToken(t.first.first)
  {
    var names := PrintNames(t) + rest;
    var others := PrintAlternatives(t.others) + names;
    Regroup(PrintDotted(t.first), PrintAlternatives(t.others), PrintNames(t), rest);
    NamesBack(t, rest);
    ConsumersBack(s.scope, t.others, names);
    DottedBack(t.first, others);
  }

  lemma {:induction false} ManyBack(s: Source, ts: seq<Target>, rest: seq<Token>)
    requires forall i :: 0 <= i < |ts| ==> TargetOk(ts[i])
    ensures ReadMany(s, PrintMany(ts) + ["]"] + rest) == Ok(ManyFacts(s, ts), ["]"] + rest)
  {
    if ts == [] {
      assert PrintMany(ts) + ["]"] + rest == ["]"] + rest;
    } else {
      var tail := PrintMany(ts[1..]) + ["]"] + rest;
      assert PrintMany(ts) + ["]"] + rest == PrintTarget(ts[0]) + ([","] + tail);
      TargetBack(s, ts[0], [","] + tail);
      NameBack(ts[0].first.first);
      assert SkipOne([","] + tail, ",") == tail;
      ManyBack(s, ts[1..], rest);
    }
  }

  lemma TargetsBack(s: Source, t: Targets, rest: seq<Token>)
    requires TargetsOk(t)
    ensures ReadTargets(s, PrintTargets(t) + rest) == Ok(TargetsFacts(s, t), rest)
  {
    match t
    case One(x) =>
      assert PrintTargets(t) + rest == PrintTarget(x) + ([";"] + rest);
      TargetBack(s, x, [";"] + rest);
      NameBack(x.first.first);
      assert SkipOne([";"] + rest, ";") == rest;
    case Many(xs) =>
      var body := PrintMany(xs) + ["]"] + rest;
      assert PrintTargets(t) + rest == ["["] + body;
      assert After(["["] + body) == body;
      ManyBack(s, xs, rest);
      assert After(["]"] + rest) == rest;
  }

  /** Keywords end where the provider starts, even if the provider is named like one: what
      follows its first name is never what follows a keyword. */
  lemma {:induction false} KeywordsBack(keywords: seq<Token>, first: Name, rest: seq<Token>)
    requires forall i :: 0 <= i < |keywords| ==> Keyword(keywords[i])
    requires NameOk(first) && StartsWire(first, keywords)
    requires AfterProvider(Look(rest, 0))
    ensures ReadKeywords(keywords + ([NameToken(first)] + rest)) == (keywords, [NameToken(first)] + rest)
  {
    var tail := [NameToken(first)] + rest;
    assert Look(tail, 1) == Look(rest, 0);
    if keywords != [] {
      NameBack(first);
      KeywordsKept(keywords, tail);
    } else {
      assert keywords + tail == tail;
    }
  }

  lemma {:induction false} KeywordsKept(keywords: seq<Token>, tail: seq<Token>)
    requires forall i :: 0 <= i < |keywords| ==> Keyword(keywords[i])
    requires keywords == [] || !AfterProvider(Look(tail, 0))
    requires !AtKeyword(tail)
    ensures ReadKeywords(keywords + tail) == (keywords, tail)
  {
    if keywords == [] {
      assert keywords + tail == tail;
    } else {
      var ts := keywords + tail;
      var more := keywords[1..];
      assert After(ts) == more + tail;
      assert Look(ts, 1) == if more == [] then Look(tail, 0) else more[0];
      KeywordsKept(more, tail);
      assert AtKeyword(ts);
      assert keywords == [keywords[0]] + more;
    }
  }

  lemma AliasBack(alias: Option<Name>, arrow: Token, rest: seq<Token>)
    requires arrow == "-->" || arrow == "++>"
    ensures ReadAlias(PrintAlias(alias) + [arrow] + rest) == (AliasText(alias), [arrow] + rest)
    ensures Look(PrintAlias(alias) + [arrow] + rest, 0) == if alias.Some? then "as" else arrow
  {
    var ts := PrintAlias(alias) + [arrow] + rest;
    if alias.Some? {
      assert ts == ["as", NameToken(alias.value)] + ([arrow] + rest);
      assert After(After(ts)) == [arrow] + rest;
    } else {
      assert ts == [arrow] + rest;
    }
  }

  lemma NamedBack(e: Entry, atAlias: seq<Token>)
    requires e.Wire? && EntryOk(e)
    requires Look(atAlias, 0) == if e.alias.Some? then "as" else Arrow(e.injected)
    ensures
      var atProvider := PrintDotted(e.provider) + atAlias;
      && ReadKeywords(e.keywords + atProvider) == (e.keywords, atProvider)
      && ReadDotted(atProvider) == (Join(e.provider), atAlias)
  {
    var parts := PrintParts(e.provider.rest) + atAlias;
    assert [NameToken(e.provider.first)] + parts == PrintDotted(e.provider) + atAlias;
    assert Look(parts, 0) == if e.provider.rest == [] then Look(atAlias, 0) else "." by {
      assert e.provider.rest == [] ==> parts == atAlias;
    }
    KeywordsBack(e.keywords, e.provider.first, parts);
    DottedBack(e.provider, atAlias);
  }

  lemma HeadBack(e: Entry, targets: seq<Token>)
    requires e.Wire? && EntryOk(e)
    ensures
      var atArrow := [Arrow(e.injected)] + targets;
      var ts := e.keywords + (PrintDotted(e.provider) + (PrintAlias(e.alias) + atArrow));
      ts != [] && ReadHead(ts) == Head(e.keywords, Join(e.provider), AliasText(e.alias), atArrow)
  {
    var atArrow := [Arrow(e.injected)] + targets;
    var atAlias := PrintAlias(e.alias) + atArrow;
    assert atAlias == PrintAlias(e.alias) + [Arrow(e.injected)] + targets;
    AliasBack(e.alias, Arrow(e.injected), targets);
    NamedBack(e, atAlias);
    assert PrintDotted(e.provider) != [];
  }

  lemma WireBack(scope: string, e: Entry, rest: seq<Token>)
    requires e.Wire? && EntryOk(e)
    ensures PrintEntry(e) + rest != []
    ensures ReadWire(scope, PrintEntry(e) + rest) == Ok(EntryFacts(scope, e), rest)
  {
    var targets := PrintTargets(e.targets) + rest;
    var ts := e.keywords + (PrintDotted(e.provider) + (PrintAlias(e.alias) + ([Arrow(e.injected)] + targets)));
    WireTokens(e, rest);
    HeadBack(e, targets);
    ArrowBack(scope, ts, e, targets);
    TargetsBack(SourceOf(scope, e), e.targets, rest);
  }

  lemma WireTokens(e: Entry, rest: seq<Token>)
    requires e.Wire?
    ensures
      var targets := PrintTargets(e.targets) + rest;
      var ts := e.keywords + (PrintDotted(e.provider) + (PrintAlias(e.alias) + ([Arrow(e.injected)] + targets)));
      PrintEntry(e) + rest == ts != []
  {
    var arrow, targets := [Arrow(e.injected)], PrintTargets(e.targets);
    Regroup(e.keywords, PrintDotted(e.provider), PrintAlias(e.alias), arrow + (targets + rest));
    Regroup(e.keywords + PrintDotted(e.provider) + PrintAlias(e.alias), arrow, targets, rest);
  }

  lemma ArrowBack(scope: string, ts: seq<Token>, e: Entry, targets: seq<Token>)
    requires e.Wire? && ts != []
    requires ReadHead(ts) == Head(e.keywords, Join(e.provider), AliasText(e.alias), [Arrow(e.injected)] + targets)
    ensures ReadWire(scope, ts) == ReadTargets(SourceOf(scope, e), targets)
  {
    assert After([Arrow(e.injected)] + targets) == targets;
    assert Look([Arrow(e.injected)] + targets, 0) == Arrow(e.injected);
    assert "++>" != "-->";
  }

  lemma {:induction false} RuleBack(ts: seq<Token>, depth: int, rest: seq<Token>)
    requires RuleEnds(ts, depth)
    ensures PastRule(ts + rest, depth) == rest
  {
    assert (ts + rest)[1..] == ts[1..] + rest;
    if ts[0] == "{" {
      RuleBack(ts[1..], depth + 1, rest);
    } else if ts[0] == "}" && depth != 1 {
      RuleBack(ts[1..], depth - 1, rest);
    } else if ts[0] != "}" && !(ts[0] == ";" && depth == 0) {
      RuleBack(ts[1..], depth, rest);
    }
  }

  lemma StartsWithName(e: Entry, rest: seq<Token>)
    requires e.Wire? && EntryOk(e)
    ensures PrintEntry(e) + rest != [] && !Closes(Look(PrintEntry(e) + rest, 0), "}") && Look(PrintEntry(e) + rest, 0) != "edge"
  {
    var ts := PrintEntry(e) + rest;
    NameBack(e.provider.first);
    if e.keywords == [] {
      assert ts[0] == NameToken(e.provider.first);
    } else {
      assert ts[0] == e.keywords[0];
    }
  }

  lemma EntryBack(scope: string, e: Entry, tail: seq<Token>)
    requires EntryOk(e)
    ensures ReadEntries(scope, PrintEntry(e) + tail) == FactsThen(EntryFacts(scope, e), ReadEntries(scope, tail))
  {
    if e.Rule? {
      RuleBack(e.tokens, 0, tail);
      var read := ReadEntries(scope, tail);
      assert ReadEntries(scope, PrintEntry(e) + tail) == read;
      assert read.Ok? ==> [] + read.value == read.value;
    } else {
      StartsWithName(e, tail);
      WireBack(scope, e, tail);
    }
  }

  lemma {:induction false} EntriesBack(scope: string, es: seq<Entry>, rest: seq<Token>)
    requires forall i :: 0 <= i < |es| ==> EntryOk(es[i])
    ensures ReadEntries(scope, PrintEntries(es) + ["}"] + rest) == Ok(EntriesFacts(scope, es), ["}"] + rest)
  {
    if es == [] {
      assert PrintEntries(es) + ["}"] + rest == ["}"] + rest;
    } else {
      var tail := PrintEntries(es[1..]) + ["}"] + rest;
      assert PrintEntries(es) + ["}"] + rest == PrintEntry(es[0]) + tail;
      EntriesBack(scope, es[1..], rest);
      EntryBack(scope, es[0], tail);
    }
  }

  lemma ScopeBack(scope: Option<Dotted>, rest: seq<Token>)
    requires (scope.Some? ==> DottedOk(scope.value)) && Look(rest, 0) == "{"
    ensures ReadScope(PrintScope(scope) + rest) == (ScopeText(scope), rest)
  {
    if scope.Some? {
      DottedBack(scope.value, rest);
      NameBack(scope.value.first);
    } else {
      assert PrintScope(scope) + rest == rest;
    }
  }

  lemma OpeningBack(b: Block, inner: seq<Token>)
    requires BlockFormed(b)
    ensures ReadOpening(["graph", "import"] + (PrintScope(b.scope) + (["{"] + inner))) == Ok(ScopeText(b.scope), inner)
  {
    var ts3 := ["{"] + inner;
    var ts2 := PrintScope(b.scope) + ts3;
    var ts := ["graph", "import"] + ts2;
    assert After(ts) == ["import"] + ts2 && After(After(ts)) == ts2 && After(ts3) == inner;
    ScopeBack(b.scope, ts3);
  }

  lemma BlockTokens(b: Block, rest: seq<Token>)
    ensures PrintBlock(b) + rest
      == ["graph", "import"] + (PrintScope(b.scope) + (["{"] + (PrintEntries(b.entries) + ["}"] + rest)))
  {
    var start, scope, entries := ["graph", "import"], PrintScope(b.scope), PrintEntries(b.entries);
    Regroup(start + scope + ["{"], entries, ["}"], rest);
    Regroup(start, scope, ["{"], entries + (["}"] + rest));
    Move(entries, ["}"], rest);
  }

  lemma BlockBack(b: Block, rest: seq<Token>)
    requires BlockOk(b)
    ensures ReadBlock(PrintBlock(b) + rest) == Ok(EntriesFacts(ScopeText(b.scope), b.entries), rest)
    ensures Look(PrintBlock(b) + rest, 0) == "graph"
  {
    var inner := PrintEntries(b.entries) + ["}"] + rest;
    BlockTokens(b, rest);
    OpeningBack(b, inner);
    EntriesBack(ScopeText(b.scope), b.entries, rest);
    assert After(["}"] + rest) == rest;
  }

  /** Reading the tokens of a printed wire file gives exactly what its wires mean: the cross
      product of targets and alternatives, scopes joined, rules skipped. */
  lemma {:induction false} ReadingUndoesPrinting(bs: seq<Block>)
    requires forall i :: 0 <= i < |bs| ==> BlockOk(bs[i])
    ensures ReadFile(PrintFile(bs)) == Ok(FileFacts(bs), [])
  {
    if bs != [] {
      BlockBack(bs[0], PrintFile(bs[1..]));
      ReadingUndoesPrinting(bs[1..]);
    }
  }

  /** A keyword before `as` is read as a provider, and what stands after `as` as its alias. */
  lemma AsHead(keyword: Token, targets: seq<Token>)
    requires Keyword(keyword)
    ensures ReadHead([keyword, "as", "-->"] + targets) == Head([], keyword, "-->", targets)
  {
    var ts := [keyword, "as", "-->"] + targets;
    assert After(ts) == ["as", "-->"] + targets;
    assert After(After(After(ts))) == targets;
    assert !AtKeyword(ts);
    assert Strip(keyword) + "" == keyword;
    assert ReadDotted(ts) == (keyword, After(ts));
  }

  /** Without the condition on a provider's first name the reader sees something else: in a
      wire from a provider named `as`, a keyword before it becomes the provider, and what is
      left is no wire, whatever the targets. */
  lemma ProviderNamedAs(scope: string, keyword: Token, target: Target, rest: seq<Token>)
    requires Keyword(keyword) && TargetOk(target)
    ensures
      var e := Wire([keyword], Dotted(Name("as", false), []), None, false, One(target));
      ReadWire(scope, PrintEntry(e) + rest) == Error("-->", NameToken(target.first.first))
  {
    var e := Wire([keyword], Dotted(Name("as", false), []), None, false, One(target));
    var targets := PrintTargets(One(target)) + rest;
    assert PrintEntry(e) + rest == [keyword, "as", "-->"] + targets;
    AsHead(keyword, targets);
    NameBack(target.first.first);
    assert Look(targets, 0) == NameToken(target.first.first);
  }
}
