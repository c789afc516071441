/** Which printed wire files are read back, exactly: those in which no wire's provider starts
    like something else. */
module WireExact {
  import opened Options
  import opened WireSyntax
  import opened WireReader
  import opened WireRoundTrip

  // ----- how many facts a file means

  function CountTargets(t: Targets): nat {
    match t
    case One(x) => 1 + |x.others|
    case Many(xs) => CountMany(xs)
  }

  function CountMany(ts: seq<Target>): nat {
    if ts == [] then 0 else 1 + |ts[0].others| + CountMany(ts[1..])
  }

  function Count(e: Entry): nat {
    if e.Rule? then 0 else CountTargets(e.targets)
  }

  function CountAll(es: seq<Entry>): nat {
    if es == [] then 0 else Count(es[0]) + CountAll(es[1..])
  }

  function CountFile(bs: seq<Block>): nat {
    if bs == [] then 0 else CountAll(bs[0].entries) + CountFile(bs[1..])
  }

  lemma {:induction false} FactsForCount(s: Source, consumers: seq<string>, names: Option<seq<string>>)
    ensures |FactsFor(s, consumers, names)| == |consumers|
  {
    if consumers != [] {
      FactsForCount(s, consumers[1..], names);
    }
  }

  lemma {:induction false} ConsumersCount(scope: string, ds: seq<Dotted>)
    ensures |ConsumersOf(scope, ds)| == |ds|
  {
    if ds != [] {
      ConsumersCount(scope, ds[1..]);
    }
  }

  lemma TargetCount(s: Source, t: Target)
    ensures |TargetFacts(s, t)| == 1 + |t.others|
  {
    ConsumersCount(s.scope, t.others);
    FactsForCount(s, [JoinScope(s.scope, Join(t.first))] + ConsumersOf(s.scope, t.others), NamesOf(t));
  }

  lemma {:induction false} ManyCount(s: Source, ts: seq<Target>)
    ensures |ManyFacts(s, ts)| == CountMany(ts)
  {
    if ts != [] {
      TargetCount(s, ts[0]);
      ManyCount(s, ts[1..]);
    }
  }

  lemma EntryCount(scope: string, e: Entry)
    ensures |EntryFacts(scope, e)| == Count(e)
  {
    if e.Wire? {
      match e.targets
      case One(x) => TargetCount(SourceOf(scope, e), x);
      case Many(xs) => ManyCount(SourceOf(scope, e), xs);
    }
  }

  lemma {:induction false} EntriesCount(scope: string, es: seq<Entry>)
    ensures |EntriesFacts(scope, es)| == CountAll(es)
  {
    if es != [] {
      EntryCount(scope, es[0]);
      EntriesCount(scope, es[1..]);
    }
  }

  lemma {:induction false} FileCount(bs: seq<Block>)
    ensures |FileFacts(bs)| == CountFile(bs)
  {
    if bs != [] {
      EntriesCount(ScopeText(bs[0].scope), bs[0].entries);
      FileCount(bs[1..]);
    }
  }

  // ----- what skipping a rule passes over

  /** Does a token neither end a rule nor change its depth? */
  predicate Passed(t: Token) {
    t != "" && t[0] != '{' && t[0] != '}' && t[0] != ';'
  }

  ghost predicate AllPassed(ts: seq<Token>) {
    forall t :: t in ts ==> Passed(t)
  }

  lemma {:induction false} SkipPassed(ts: seq<Token>, rest: seq<Token>, depth: int)
    requires AllPassed(ts)
    ensures PastRule(ts + rest, depth) == PastRule(rest, depth)
  {
    if ts == [] {
      assert ts + rest == rest;
    } else {
      assert (ts + rest)[1..] == ts[1..] + rest;
      assert ts[0] in ts && ts[0] != "{" && ts[0] != "}" && ts[0] != ";";
      SkipPassed(ts[1..], rest, depth);
    }
  }

  lemma NamePassed(n: Name)
    requires NameOk(n)
    ensures Passed(NameToken(n))
  {
    NameBack(n);
  }

  lemma {:induction false} PartsPassed(names: seq<Name>)
    requires forall i :: 0 <= i < |names| ==> NameOk(names[i])
    ensures AllPassed(PrintParts(names))
  {
    if names != [] {
      NamePassed(names[0]);
      PartsPassed(names[1..]);
    }
  }

  lemma DottedPassed(d: Dotted)
    requires DottedOk(d)
    ensures AllPassed(PrintDotted(d))
  {
    NamePassed(d.first);
    PartsPassed(d.rest);
  }

  lemma {:induction false} AlternativesPassed(ds: seq<Dotted>)
    requires forall i :: 0 <= i < |ds| ==> DottedOk(ds[i])
    ensures AllPassed(PrintAlternatives(ds))
  {
    if ds != [] {
      DottedPassed(ds[0]);
      AlternativesPassed(ds[1..]);
    }
  }

  lemma {:induction false} ItemsPassed(items: seq<Item>)
    requires forall i :: 0 <= i < |items| ==> ItemOk(items[i])
    ensures AllPassed(PrintItems(items))
  {
    if items != [] {
      NamePassed(items[0].name);
      if items[0].alias.Some? {
        NamePassed(items[0].alias.value);
      }
      ItemsPassed(items[1..]);
    }
  }

  lemma SkipNames(t: Target, rest: seq<Token>)
    requires TargetOk(t) && t.names.Some?
    ensures PastRule(PrintNames(t) + rest, 0) == rest
  {
    var names, items := PrintNames(t) + rest, PrintItems(t.names.value);
    assert names == ["{"] + (items + (["}"] + rest));
    ItemsPassed(t.names.value);
    assert names[1..] == items + (["}"] + rest);
    SkipPassed(items, ["}"] + rest, 1);
    assert (["}"] + rest)[1..] == rest;
  }

  /** A target is passed over, or the skip ends with its names. */
  lemma SkipTarget(t: Target, rest: seq<Token>)
    requires TargetOk(t)
    ensures PastRule(PrintTarget(t) + rest, 0) == if t.names.Some? then rest else PastRule(rest, 0)
  {
    var names := PrintNames(t) + rest;
    DottedPassed(t.first);
    AlternativesPassed(t.others);
    SkipPassed(PrintDotted(t.first) + PrintAlternatives(t.others), names, 0);
    assert PrintTarget(t) + rest == PrintDotted(t.first) + PrintAlternatives(t.others) + names;
    if t.names.Some? {
      SkipNames(t, rest);
    } else {
      assert names == rest;
    }
  }

  /** A wire up to its targets is passed over. */
  lemma SkipHead(e: Entry, rest: seq<Token>)
    requires e.Wire? && EntryFormed(e)
    ensures PastRule(PrintEntry(e) + rest, 0) == PastRule(PrintTargets(e.targets) + rest, 0)
  {
    var head := e.keywords + PrintDotted(e.provider) + PrintAlias(e.alias) + [Arrow(e.injected)];
    DottedPassed(e.provider);
    if e.alias.Some? {
      NamePassed(e.alias.value);
    }
    assert PrintEntry(e) + rest == head + (PrintTargets(e.targets) + rest);
    assert AllPassed(e.keywords);
    SkipPassed(head, PrintTargets(e.targets) + rest, 0);
  }

  // ----- where a skip that began at a wire comes to rest

  predicate IsArrow(t: Token) {
    t == "-->" || t == "++>"
  }

  /** Tokens before which a stray separator makes no wire: neither the first of them nor, if it
      is `as`, the third is an arrow. */
  predicate NoWireAfterOne(ts: seq<Token>) {
    && Look(ts, 0) != "." && !IsArrow(Look(ts, 0))
    && (Look(ts, 0) == "as" ==> !IsArrow(Look(ts, 2)))
  }

  /** A separator where an entry should start. */
  predicate Stray(ts: seq<Token>) {
    ts != [] && (ts[0] == ";" || ts[0] == ",") && NoWireAfterOne(ts[1..])
  }

  lemma StrayRefused(scope: string, ts: seq<Token>)
    requires Stray(ts)
    ensures ReadEntries(scope, ts).Error?
  {
    var rest := ts[1..];
    assert Strip(ts[0]) + "" == ts[0];
    assert ReadKeywords(ts) == ([], ts);
    assert ReadDotted(ts) == (ts[0], rest);
    if Look(rest, 0) == "as" {
      assert Look(After(After(rest)), 0) == Look(rest, 2);
    }
  }

  /** The tokens of what is left of a block and of the blocks after it. */
  function Left(es: seq<Entry>, bs: seq<Block>): seq<Token> {
    PrintEntries(es) + ["}"] + PrintFile(bs)
  }

  ghost predicate Formed(es: seq<Entry>, bs: seq<Block>) {
    (forall i :: 0 <= i < |es| ==> EntryFormed(es[i])) && (forall i :: 0 <= i < |bs| ==> BlockFormed(bs[i]))
  }

  /** A name, and what may follow it, is no arrow. */
  lemma NameNoArrow(n: Name)
    requires NameOk(n)
    ensures !IsArrow(NameToken(n)) && NameToken(n) != "."
  {
    NameBack(n);
  }

  lemma TargetsNoArrow(t: Targets, rest: seq<Token>)
    requires TargetsOk(t)
    ensures !IsArrow(Look(PrintTargets(t) + rest, 0))
  {
    if t.One? {
      NameNoArrow(t.target.first.first);
      assert Look(PrintTargets(t) + rest, 0) == NameToken(t.target.first.first);
    }
  }

  /** What follows a provider's first name: what follows that in turn is no arrow. */
  lemma AfterFirstName(e: Entry, rest: seq<Token>)
    requires e.Wire? && EntryFormed(e)
    ensures
      var ts := PrintParts(e.provider.rest) + (PrintAlias(e.alias) + ([Arrow(e.injected)] + (PrintTargets(e.targets) + rest)));
      Look(ts, 0) in [".", "as", "-->", "++>"] && !IsArrow(Look(ts, 1))
  {
    var targets := PrintTargets(e.targets) + rest;
    TargetsNoArrow(e.targets, rest);
    if e.provider.rest != [] {
      NameNoArrow(e.provider.rest[0]);
    } else if e.alias.Some? {
      NameNoArrow(e.alias.value);
      assert PrintParts([]) + (PrintAlias(e.alias) + ([Arrow(e.injected)] + targets))
        == ["as", NameToken(e.alias.value)] + ([Arrow(e.injected)] + targets);
    } else {
      assert PrintParts([]) + (PrintAlias(None) + ([Arrow(e.injected)] + targets)) == [Arrow(e.injected)] + targets;
    }
  }

  /** A first name and what follows it. */
  lemma NameStart(n: Name, more: seq<Token>)
    requires NameOk(n) && !IsArrow(Look(more, 1))
    ensures NoWireAfterOne([NameToken(n)] + more)
  {
    NameNoArrow(n);
    assert Look([NameToken(n)] + more, 2) == Look(more, 1);
  }

  lemma KeywordStart(keywords: seq<Token>, more: seq<Token>)
    requires keywords != [] && Keyword(keywords[0])
    ensures NoWireAfterOne(keywords + more)
  {
    assert (keywords + more)[0] == keywords[0];
  }

  lemma EntryStart(e: Entry, rest: seq<Token>)
    requires EntryFormed(e)
    ensures NoWireAfterOne(PrintEntry(e) + rest)
  {
    if e.Wire? {
      WireTokens(e, rest);
      var tail := PrintAlias(e.alias) + ([Arrow(e.injected)] + (PrintTargets(e.targets) + rest));
      if e.keywords == [] {
        AfterFirstName(e, rest);
        NameStart(e.provider.first, PrintParts(e.provider.rest) + tail);
        assert e.keywords + (PrintDotted(e.provider) + tail) == PrintDotted(e.provider) + tail;
        Move([NameToken(e.provider.first)], PrintParts(e.provider.rest), tail);
      } else {
        KeywordStart(e.keywords, PrintDotted(e.provider) + tail);
      }
    }
  }

  lemma LeftStart(es: seq<Entry>, bs: seq<Block>)
    requires Formed(es, bs)
    ensures NoWireAfterOne(Left(es, bs))
  {
    if es != [] {
      EntryStart(es[0], Left(es[1..], bs));
      assert Left(es, bs) == PrintEntry(es[0]) + Left(es[1..], bs);
    }
  }

  lemma TargetsStart(ts: seq<Target>, rest: seq<Token>)
    requires forall i :: 0 <= i < |ts| ==> TargetOk(ts[i])
    ensures NoWireAfterOne(PrintMany(ts) + (["]"] + rest))
  {
    if ts == [] {
      assert PrintMany(ts) + (["]"] + rest) == ["]"] + rest;
    } else {
      var t, next := ts[0], PrintMany(ts[1..]) + (["]"] + rest);
      var more := PrintParts(t.first.rest) + (PrintAlternatives(t.others) + (PrintNames(t) + ([","] + next)));
      ManyTokens(ts, rest);
      TargetTokens(t, [","] + next);
      AfterTargetName(ts, rest);
      NameStart(t.first.first, more);
    }
  }

  lemma TargetTokens(t: Target, rest: seq<Token>)
    ensures PrintTarget(t) + rest
      == [NameToken(t.first.first)] + (PrintParts(t.first.rest) + (PrintAlternatives(t.others) + (PrintNames(t) + rest)))
  {
    var more := PrintAlternatives(t.others) + (PrintNames(t) + rest);
    Regroup(PrintDotted(t.first), PrintAlternatives(t.others), PrintNames(t), rest);
    Move([NameToken(t.first.first)], PrintParts(t.first.rest), more);
  }

  lemma ManyTokens(ts: seq<Target>, rest: seq<Token>)
    requires ts != []
    ensures PrintMany(ts) + (["]"] + rest) == PrintTarget(ts[0]) + ([","] + (PrintMany(ts[1..]) + (["]"] + rest)))
  {
    Regroup(PrintTarget(ts[0]), [","], PrintMany(ts[1..]), ["]"] + rest);
  }

  lemma AfterTargetName(ts: seq<Target>, rest: seq<Token>)
    requires ts != [] && forall i :: 0 <= i < |ts| ==> TargetOk(ts[i])
    ensures
      var t := ts[0];
      var more := PrintParts(t.first.rest) + (PrintAlternatives(t.others)
        + (PrintNames(t) + ([","] + (PrintMany(ts[1..]) + (["]"] + rest)))));
      !IsArrow(Look(more, 1))
  {
    var t, next := ts[0], PrintMany(ts[1..]) + (["]"] + rest);
    if t.first.rest != [] {
      NameNoArrow(t.first.rest[0]);
    } else if t.others != [] {
      NameNoArrow(t.others[0].first);
    } else if t.names.Some? {
      if t.names.value != [] {
        NameNoArrow(t.names.value[0].name);
      }
    } else if |ts| > 1 {
      NameNoArrow(ts[1].first.first);
      assert Look(next, 0) == NameToken(ts[1].first.first);
      assert PrintParts([]) + (PrintAlternatives([]) + (PrintNames(t) + ([","] + next))) == [","] + next;
    } else {
      assert PrintParts([]) + (PrintAlternatives([]) + (PrintNames(t) + ([","] + next))) == [",", "]"] + rest;
    }
  }

  /** Where a skip comes to rest: before an entry, in a wire, or at the end of all tokens. */
  datatype Rest = AtEntry(es: seq<Entry>, bs: seq<Block>) | InWire | AtEnd

  ghost predicate Lands(l: Rest, ts: seq<Token>) {
    match l
    case AtEntry(es, bs) => Formed(es, bs) && ts == Left(es, bs)
    case InWire => Stray(ts)
    case AtEnd => ts == []
  }

  /** Every wire has at least one target. */
  ghost predicate Targeted(es: seq<Entry>) {
    forall i :: 0 <= i < |es| ==> es[i].Wire? ==> Count(es[i]) > 0
  }

  ghost predicate FileTargeted(bs: seq<Block>) {
    forall i :: 0 <= i < |bs| ==> Targeted(bs[i].entries)
  }

  /** A rest before an entry that is no earlier, leaves no more facts, and only wires with
      targets if there were no others. */
  ghost predicate NoMore(l: Rest, es: seq<Entry>, bs: seq<Block>) {
    l.AtEntry? ==>
      && (|l.bs| < |bs| || (|l.bs| == |bs| && |l.es| <= |es|))
      && CountAll(l.es) + CountFile(l.bs) <= CountAll(es) + CountFile(bs)
      && (Targeted(es) && FileTargeted(bs) ==> Targeted(l.es) && FileTargeted(l.bs))
  }

  /** In a list of targets the skip ends with the first names, if there are any. */
  lemma {:induction false} SkipMany(ts: seq<Target>, rest: seq<Token>) returns (stopped: bool)
    requires forall i :: 0 <= i < |ts| ==> TargetOk(ts[i])
    ensures
      var left := PastRule(PrintMany(ts) + (["]"] + rest), 0);
      if stopped then Stray(left) else left == PastRule(rest, 0)
  {
    if ts == [] {
      assert PrintMany(ts) + (["]"] + rest) == ["]"] + rest;
      SkipPassed(["]"], rest, 0);
      return false;
    }
    var next := PrintMany(ts[1..]) + (["]"] + rest);
    ManyTokens(ts, rest);
    SkipTarget(ts[0], [","] + next);
    if ts[0].names.Some? {
      TargetsStart(ts[1..], rest);
      assert ([","] + next)[1..] == next;
      return true;
    }
    SkipPassed([","], next, 0);
    stopped := SkipMany(ts[1..], rest);
  }

  /** A wire with one target is skipped, unless the target has names. */
  lemma SkipOne(e: Entry, rest: seq<Token>)
    requires e.Wire? && EntryFormed(e) && e.targets.One? && NoWireAfterOne(rest)
    ensures
      var left := PastRule(PrintEntry(e) + rest, 0);
      if e.targets.target.names.Some? then Stray(left) else left == rest
  {
    var x := e.targets.target;
    SkipHead(e, rest);
    Move(PrintTarget(x), [";"], rest);
    SkipTarget(x, [";"] + rest);
    assert ([";"] + rest)[1..] == rest;
  }

  /** A wire with a list of targets is skipped with what follows it, unless a target has
      names. */
  lemma SkipList(e: Entry, rest: seq<Token>) returns (stopped: bool)
    requires e.Wire? && EntryFormed(e) && e.targets.Many?
    ensures
      var left := PastRule(PrintEntry(e) + rest, 0);
      if stopped then Stray(left) else left == PastRule(rest, 0)
  {
    var list := PrintMany(e.targets.targets) + (["]"] + rest);
    SkipHead(e, rest);
    Regroup(["["], PrintMany(e.targets.targets), ["]"], rest);
    SkipPassed(["["], list, 0);
    stopped := SkipMany(e.targets.targets, rest);
  }

  /** A skip that began at a wire or a rule. */
  lemma {:induction false} SkipFrom(es: seq<Entry>, bs: seq<Block>) returns (l: Rest)
    requires Formed(es, bs)
    ensures Lands(l, PastRule(Left(es, bs), 0))
    ensures NoMore(l, if es == [] then [] else es[1..], bs)
    ensures es == [] && l.AtEntry? ==> |l.bs| < |bs|
    decreases |bs|, |es|, 1
  {
    if es == [] {
      l := SkipBlockEnd(bs);
    } else {
      var e, more := es[0], es[1..];
      LeftNext(es, bs);
      if e.Rule? {
        RuleBack(e.tokens, 0, Left(more, bs));
        l := AtEntry(more, bs);
      } else if e.targets.One? {
        LeftStart(more, bs);
        SkipOne(e, Left(more, bs));
        l := if e.targets.target.names.Some? then InWire else AtEntry(more, bs);
      } else {
        var stopped := SkipList(e, Left(more, bs));
        if stopped {
          l := InWire;
        } else {
          l := SkipFrom(more, bs);
          FewerLeft(l, more, bs);
        }
      }
    }
  }

  lemma FewerLeft(l: Rest, es: seq<Entry>, bs: seq<Block>)
    requires NoMore(l, if es == [] then [] else es[1..], bs)
    ensures NoMore(l, es, bs)
  {
    FewerTargeted(es);
  }

  lemma FewerTargeted(es: seq<Entry>)
    ensures Targeted(es) ==> Targeted(if es == [] then [] else es[1..])
  {
  }

  lemma LeftNext(es: seq<Entry>, bs: seq<Block>)
    requires es != []
    ensures Left(es, bs) == PrintEntry(es[0]) + Left(es[1..], bs)
  {
    Regroup(PrintEntry(es[0]), PrintEntries(es[1..]), ["}"], PrintFile(bs));
  }

  lemma OpeningTokens(bs: seq<Block>)
    requires bs != []
    ensures
      var head := ["graph", "import"] + PrintScope(bs[0].scope);
      PrintFile(bs) == head + (["{"] + Left(bs[0].entries, bs[1..]))
  {
    var b, inner := bs[0], Left(bs[0].entries, bs[1..]);
    BlockTokens(b, PrintFile(bs[1..]));
    Move(["graph", "import"], PrintScope(b.scope), ["{"] + inner);
  }

  /** The end of a block and the start of the next one are passed over. */
  lemma SkipBlockEnd(bs: seq<Block>) returns (l: Rest)
    requires Formed([], bs)
    ensures Lands(l, PastRule(Left([], bs), 0))
    ensures NoMore(l, [], bs) && (l.AtEntry? ==> |l.bs| < |bs|)
    decreases |bs|, 0, 0
  {
    if bs == [] {
      assert Left([], bs) == ["}"];
      l := AtEnd;
    } else {
      var es, more := bs[0].entries, bs[1..];
      EndPassed(bs);
      l := SkipFrom(es, more);
      FewerLeft(l, es, more);
      NextBlockNoMore(l, bs);
    }
  }

  lemma EndPassed(bs: seq<Block>)
    requires bs != [] && Formed([], bs)
    ensures PastRule(Left([], bs), 0) == PastRule(Left(bs[0].entries, bs[1..]), 0)
    ensures Formed(bs[0].entries, bs[1..])
  {
    assert Left([], bs) == ["}"] + PrintFile(bs);
    assert (["}"] + PrintFile(bs))[1..] == PrintFile(bs);
    OpeningTokens(bs);
    SkipOpening(bs[0], Left(bs[0].entries, bs[1..]));
  }

  lemma NextBlockNoMore(l: Rest, bs: seq<Block>)
    requires bs != [] && NoMore(l, bs[0].entries, bs[1..])
    ensures NoMore(l, [], bs) && (l.AtEntry? ==> |l.bs| < |bs|)
  {
    assert FileTargeted(bs) ==> Targeted(bs[0].entries) && FileTargeted(bs[1..]);
  }

  lemma SkipOpening(b: Block, inner: seq<Token>)
    requires BlockFormed(b)
    ensures PastRule(["graph", "import"] + PrintScope(b.scope) + (["{"] + inner), -1) == PastRule(inner, 0)
  {
    if b.scope.Some? {
      DottedPassed(b.scope.value);
    }
    SkipPassed(["graph", "import"] + PrintScope(b.scope), ["{"] + inner, -1);
    assert (["{"] + inner)[1..] == inner;
  }

  // ----- a provider named `as`, and one named `edge`

  /** After a keyword an unquoted provider whose name starts with `as` is never read: the
      keyword is taken for the provider, and what follows is no wire, whatever its dots, alias,
      arrow and targets. */
  lemma AsRefused(scope: string, e: Entry, rest: seq<Token>)
    requires e.Wire? && EntryFormed(e) && !Starts(e) && e.keywords != []
    ensures PrintEntry(e) + rest != [] && ReadWire(scope, PrintEntry(e) + rest).Error?
  {
    var tail := PrintAlias(e.alias) + ([Arrow(e.injected)] + (PrintTargets(e.targets) + rest));
    var more := PrintParts(e.provider.rest) + tail;
    var before, last := e.keywords[..|e.keywords| - 1], e.keywords[|e.keywords| - 1];
    AsTokens(e, rest);
    AfterFirstName(e, rest);
    AsHeadRead(before, last, more);
    assert Look(After(more), 0) == Look(more, 1);
  }

  lemma AsTokens(e: Entry, rest: seq<Token>)
    requires e.Wire? && EntryFormed(e) && !Starts(e) && e.keywords != []
    ensures
      var tail := PrintAlias(e.alias) + ([Arrow(e.injected)] + (PrintTargets(e.targets) + rest));
      var before, last := e.keywords[..|e.keywords| - 1], e.keywords[|e.keywords| - 1];
      PrintEntry(e) + rest == before + ([last] + (["as"] + (PrintParts(e.provider.rest) + tail)))
  {
    var tail := PrintAlias(e.alias) + ([Arrow(e.injected)] + (PrintTargets(e.targets) + rest));
    var before, last := e.keywords[..|e.keywords| - 1], e.keywords[|e.keywords| - 1];
    WireTokens(e, rest);
    Move(["as"], PrintParts(e.provider.rest), tail);
    assert e.keywords == before + [last];
    Move(before, [last], ["as"] + (PrintParts(e.provider.rest) + tail));
  }

  lemma AsHeadRead(before: seq<Token>, last: Token, more: seq<Token>)
    requires Keyword(last) && forall i :: 0 <= i < |before| ==> Keyword(before[i])
    ensures ReadHead(before + ([last] + (["as"] + more))) == Head(before, last, Look(more, 0), After(more))
  {
    LastKeywordRead(before, last, more);
    AsAlias(last, more);
  }

  lemma LastKeywordRead(before: seq<Token>, last: Token, more: seq<Token>)
    requires Keyword(last) && forall i :: 0 <= i < |before| ==> Keyword(before[i])
    ensures ReadKeywords(before + ([last] + (["as"] + more))) == (before, [last] + (["as"] + more))
  {
    var tail := [last] + (["as"] + more);
    assert Look(tail, 1) == "as" && Look(tail, 0) == last;
    NoProviderFollows(last);
    assert !AtKeyword(tail);
    KeywordsKept(before, tail);
  }

  lemma NoProviderFollows(t: Token)
    requires Keyword(t)
    ensures !AfterProvider(t)
  {
  }

  lemma AsAlias(last: Token, more: seq<Token>)
    requires Keyword(last)
    ensures ReadDotted([last] + (["as"] + more)) == (last, ["as"] + more)
    ensures ReadAlias(["as"] + more) == (Look(more, 0), After(more))
  {
    assert After([last] + (["as"] + more)) == ["as"] + more;
    assert After(["as"] + more) == more;
    assert Strip(last) + "" == last;
  }

  /** Without keywords a wire whose unquoted provider is named `edge` is taken for a rule. With
      one target without names it is dropped in silence, and with names it is refused. */
  lemma EdgeSkipped(scope: string, e: Entry, rest: seq<Token>)
    requires e.Wire? && EntryFormed(e) && !Starts(e) && e.keywords == []
    requires e.targets.One? && NoWireAfterOne(rest)
    ensures ReadEntries(scope, PrintEntry(e) + rest).Error? ||
            ReadEntries(scope, PrintEntry(e) + rest) == ReadEntries(scope, rest)
    ensures e.targets.target.names.None? ==> ReadEntries(scope, PrintEntry(e) + rest) == ReadEntries(scope, rest)
    ensures e.targets.target.names.Some? ==> ReadEntries(scope, PrintEntry(e) + rest).Error?
  {
    EdgeIsRule(scope, e, rest);
    SkipOne(e, rest);
    if e.targets.target.names.Some? {
      StrayRefused(scope, PastRule(PrintEntry(e) + rest, 0));
    }
  }

  lemma EdgeIsRule(scope: string, e: Entry, rest: seq<Token>)
    requires e.Wire? && EntryFormed(e) && !Starts(e) && e.keywords == []
    ensures ReadEntries(scope, PrintEntry(e) + rest) == ReadEntries(scope, PastRule(PrintEntry(e) + rest, 0))
  {
    assert (PrintEntry(e) + rest)[0] == "edge";
  }

  // ----- exactly which files are read back

  /** What is read from within a block to the end of the file. */
  function ReadOn(scope: string, ts: seq<Token>): Outcome<seq<Fact>> {
    match ReadEntries(scope, ts)
    case Error(e, g) => Error(e, g)
    case Ok(facts, rest) =>
      match Expect(rest, "}")
      case Error(e, g) => Error(e, g)
      case Ok(_, last) => FactsThen(facts, ReadFile(last))
  }

  ghost predicate AllStart(es: seq<Entry>) {
    forall i :: 0 <= i < |es| ==> Starts(es[i])
  }

  ghost predicate FileStarts(bs: seq<Block>) {
    forall i :: 0 <= i < |bs| ==> AllStart(bs[i].entries)
  }

  lemma AllStartNext(es: seq<Entry>)
    requires es != []
    ensures AllStart(es) <==> Starts(es[0]) && AllStart(es[1..])
  {
    assert forall i :: 1 <= i < |es| ==> es[i] == es[1..][i - 1];
  }

  lemma FileStartsNext(bs: seq<Block>)
    requires bs != []
    ensures FileStarts(bs) <==> AllStart(bs[0].entries) && FileStarts(bs[1..])
  {
    assert forall i :: 1 <= i < |bs| ==> bs[i] == bs[1..][i - 1];
  }

  /** The outcome is an error or has no more facts than this, and fewer if something is lost. */
  ghost predicate Within(r: Outcome<seq<Fact>>, count: nat, lost: bool) {
    r.Ok? ==> |r.value| <= count && (lost ==> |r.value| < count)
  }

  lemma ReadOnAfter(scope: string, ts: seq<Token>, rest: seq<Token>, facts: seq<Fact>)
    requires ReadEntries(scope, ts) == FactsThen(facts, ReadEntries(scope, rest))
    ensures ReadOn(scope, ts) == FactsThen(facts, ReadOn(scope, rest))
  {
    var more := ReadEntries(scope, rest);
    if more.Ok? {
      var end := Expect(more.rest, "}");
      if end.Ok? {
        FactsThenTwice(facts, more.value, ReadFile(end.rest));
      }
    }
  }

  /** Where a skip has come to rest decides what is read on. */
  lemma LandedWithin(scope: string, l: Rest, ts: seq<Token>, count: nat)
    requires Lands(l, ts)
    requires l.AtEntry? ==> Within(ReadOn(scope, ts), count, false)
    ensures Within(ReadOn(scope, ts), count, false)
  {
    match l
    case AtEntry(_, _) =>
    case InWire => StrayRefused(scope, ts);
    case AtEnd => assert ReadEntries(scope, ts) == Ok([], []);
  }

  /** From any entry on, no more facts are read than the wires mean, and fewer if some
      provider starts like something else. */
  lemma {:induction false} ReadOnWithin(scope: string, es: seq<Entry>, bs: seq<Block>)
    requires Formed(es, bs) && Targeted(es) && FileTargeted(bs)
    ensures Within(ReadOn(scope, Left(es, bs)), CountAll(es) + CountFile(bs), !AllStart(es) || !FileStarts(bs))
    decreases |bs|, |es|, 2
  {
    if es == [] {
      EndWithin(scope, bs);
    } else {
      var e, more := es[0], es[1..];
      var ts, rest := Left(es, bs), Left(more, bs);
      LeftNext(es, bs);
      AllStartNext(es);
      if Starts(e) {
        EntryBack(scope, e, rest);
        EntryCount(scope, e);
        ReadOnAfter(scope, ts, rest, EntryFacts(scope, e));
        ReadOnWithin(scope, more, bs);
      } else if e.keywords != [] {
        AsRefused(scope, e, rest);
        AsEntriesRefused(scope, e, rest);
      } else {
        EdgeWithin(scope, es, bs);
      }
    }
  }

  lemma AsEntriesRefused(scope: string, e: Entry, rest: seq<Token>)
    requires e.Wire? && EntryFormed(e) && e.keywords != []
    requires PrintEntry(e) + rest != [] && ReadWire(scope, PrintEntry(e) + rest).Error?
    ensures ReadEntries(scope, PrintEntry(e) + rest).Error?
  {
    assert (PrintEntry(e) + rest)[0] == e.keywords[0];
  }

  lemma EdgeWithin(scope: string, es: seq<Entry>, bs: seq<Block>)
    requires Formed(es, bs) && Targeted(es) && FileTargeted(bs)
    requires es != [] && !Starts(es[0]) && es[0].keywords == []
    ensures Within(ReadOn(scope, Left(es, bs)), CountAll(es) + CountFile(bs), true)
    decreases |bs|, |es|, 1
  {
    var l := SkipFrom(es, bs);
    var left := PastRule(Left(es, bs), 0);
    EdgeReadOn(scope, es, bs);
    if l.AtEntry? {
      FewerTargeted(es);
      ReadOnWithin(scope, l.es, l.bs);
    }
    LandedWithin(scope, l, left, CountAll(es[1..]) + CountFile(bs));
    assert Count(es[0]) > 0;
  }

  lemma EdgeReadOn(scope: string, es: seq<Entry>, bs: seq<Block>)
    requires Formed(es, bs) && es != [] && !Starts(es[0]) && es[0].keywords == []
    ensures ReadOn(scope, Left(es, bs)) == ReadOn(scope, PastRule(Left(es, bs), 0))
  {
    LeftNext(es, bs);
    EdgeIsRule(scope, es[0], Left(es[1..], bs));
  }

  lemma EndWithin(scope: string, bs: seq<Block>)
    requires Formed([], bs) && FileTargeted(bs)
    ensures Within(ReadOn(scope, Left([], bs)), CountFile(bs), !FileStarts(bs))
    decreases |bs|, 0, 1
  {
    assert Left([], bs) == ["}"] + PrintFile(bs);
    assert After(Left([], bs)) == PrintFile(bs);
    FileWithin(bs);
    var more := ReadFile(PrintFile(bs));
    assert more.Ok? ==> [] + more.value == more.value;
  }

  lemma OpeningRead(b: Block, inner: seq<Token>)
    requires BlockFormed(b)
    ensures
      var ts := ["graph", "import"] + (PrintScope(b.scope) + (["{"] + inner));
      ReadFile(ts) == ReadOn(ScopeText(b.scope), inner)
  {
    OpeningBack(b, inner);
  }

  /** A file is read as no more facts than it means, and fewer if some provider starts like
      something else. */
  lemma {:induction false} FileWithin(bs: seq<Block>)
    requires Formed([], bs) && FileTargeted(bs)
    ensures Within(ReadFile(PrintFile(bs)), CountFile(bs), !FileStarts(bs))
    decreases |bs|, 0, 0
  {
    if bs != [] {
      var b, inner := bs[0], Left(bs[0].entries, bs[1..]);
      OpeningTokens(bs);
      Move(["graph", "import"], PrintScope(b.scope), ["{"] + inner);
      OpeningRead(b, inner);
      assert ReadFile(PrintFile(bs)) == ReadOn(ScopeText(b.scope), inner);
      ReadOnWithin(ScopeText(b.scope), b.entries, bs[1..]);
      FileStartsNext(bs);
    }
  }

  /** A printed file whose wires all have a target is read back as what it means if and only if
      no provider starts like something else. */
  lemma ReadBackExactly(bs: seq<Block>)
    requires (forall i :: 0 <= i < |bs| ==> BlockFormed(bs[i])) && FileTargeted(bs)
    ensures ReadFile(PrintFile(bs)) == Ok(FileFacts(bs), []) <==> FileStarts(bs)
  {
    if FileStarts(bs) {
      forall i | 0 <= i < |bs| ensures BlockOk(bs[i]) {
        assert AllStart(bs[i].entries);
      }
      ReadingUndoesPrinting(bs);
    } else {
      FileWithin(bs);
      FileCount(bs);
    }
  }
}
