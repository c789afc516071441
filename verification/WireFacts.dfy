/** Wire files written from the facts they are to mean, and wires to several consumers taken apart:
    what is read is settled without saying how a reader makes facts. */
module WireFacts {
  import opened Options
  import opened WireSyntax
  import opened WireReader
  import opened WireRoundTrip

  // ----- texts and their parts

  /** The parts of a text between separators. */
  function Split(text: string, sep: char): (parts: seq<string>)
    ensures |parts| > 0
  {
    if text == "" then [""]
    else
      var rest := Split(text[1..], sep);
      if text[0] == sep then [""] + rest else [[text[0]] + rest[0]] + rest[1..]
  }

  function WithPoints(parts: seq<string>): seq<Token> {
    if parts == [] then [] else [".", parts[0]] + WithPoints(parts[1..])
  }

  /** The tokens of a dotted text: its parts with points between them. */
  function DottedTokens(text: string): seq<Token> {
    var parts := Split(text, '.');
    [parts[0]] + WithPoints(parts[1..])
  }

  predicate Identifier(s: string) {
    s != "" && Letter(s[0])
  }

  predicate DottedText(text: string) {
    forall i :: 0 <= i < |Split(text, '.')| ==> Identifier(Split(text, '.')[i])
  }

  /** An imported name, or one with the name it is imported as. */
  predicate ItemWords(text: string) {
    var words := Split(text, ' ');
    && (|words| == 1 || (|words| == 3 && words[1] == "as" && Identifier(words[2])))
    && Identifier(words[0])
  }

  function WithCommas(items: seq<string>): seq<Token> {
    if items == [] then [] else Split(items[0], ' ') + [","] + WithCommas(items[1..])
  }

  // ----- facts as tokens

  /** A fact to be written: its parts are names, and its provider starts a wire. */
  predicate FactFormed(f: Fact) {
    && (forall i :: 0 <= i < |f.keywords| ==> f.keywords[i] in {"comptime", "include", "type"})
    && DottedText(f.provider) && DottedText(f.consumer)
    && Split(f.provider, '.')[0] != (if f.keywords == [] then "edge" else "as")
    && (f.alias == "" || Identifier(f.alias))
    && (f.names.Some? ==> forall i :: 0 <= i < |f.names.value| ==> ItemWords(f.names.value[i]))
  }

  /** The wire for a fact: keywords, provider, alias, arrow, consumer, names. */
  function FactTokens(f: Fact): seq<Token> {
    f.keywords + DottedTokens(f.provider) + (if f.alias == "" then [] else ["as", f.alias])
    + [if f.injected then "++>" else "-->"] + DottedTokens(f.consumer)
    + (if f.names.Some? then ["{"] + WithCommas(f.names.value) + ["}"] else []) + [";"]
  }

  function FactsTokens(fs: seq<Fact>): seq<Token> {
    if fs == [] then [] else FactTokens(fs[0]) + FactsTokens(fs[1..])
  }

  /** A block of wires, one for each fact, inside a scope if there is one. */
  function BlockOfFacts(scope: string, fs: seq<Fact>): seq<Token> {
    ["graph", "import"] + (if scope == "" then [] else DottedTokens(scope)) + ["{"] + FactsTokens(fs) + ["}"]
  }

  /** The fact as it is read: no alias beside names. */
  function Settled(f: Fact): Fact {
    if f.names.Some? then f.(alias := "") else f
  }

  /** The fact inside a scope: both ends are names of the scope. */
  function InScope(scope: string, f: Fact): Fact {
    if scope == "" then Settled(f)
    else Settled(f).(provider := scope + "." + f.provider, consumer := scope + "." + f.consumer)
  }

  function AllInScope(scope: string, fs: seq<Fact>): seq<Fact> {
    if fs == [] then [] else [InScope(scope, fs[0])] + AllInScope(scope, fs[1..])
  }

  // ----- the wires that print so

  function Plain(parts: seq<string>): seq<Name> {
    if parts == [] then [] else [Name(parts[0], false)] + Plain(parts[1..])
  }

  function ToDotted(text: string): Dotted {
    var parts := Split(text, '.');
    Dotted(Name(parts[0], false), Plain(parts[1..]))
  }

  function ToItem(text: string): Item
    requires ItemWords(text)
  {
    var words := Split(text, ' ');
    Item(Name(words[0], false), if |words| == 1 then None else Some(Name(words[2], false)))
  }

  function ToItems(items: seq<string>): seq<Item>
    requires forall i :: 0 <= i < |items| ==> ItemWords(items[i])
  {
    if items == [] then [] else [ToItem(items[0])] + ToItems(items[1..])
  }

  function ToTarget(f: Fact): Target
    requires FactFormed(f)
  {
    Target(ToDotted(f.consumer), [], if f.names.Some? then Some(ToItems(f.names.value)) else None)
  }

  function ToWire(f: Fact): Entry
    requires FactFormed(f)
  {
    Wire(f.keywords, ToDotted(f.provider), if f.alias == "" then None else Some(Name(f.alias, false)), f.injected,
         One(ToTarget(f)))
  }

  function ToWires(fs: seq<Fact>): seq<Entry>
    requires forall i :: 0 <= i < |fs| ==> FactFormed(fs[i])
  {
    if fs == [] then [] else [ToWire(fs[0])] + ToWires(fs[1..])
  }

  lemma {:induction false} PlainPrints(parts: seq<string>)
    ensures PrintParts(Plain(parts)) == WithPoints(parts)
    ensures |Plain(parts)| == |parts| && forall i :: 0 <= i < |parts| ==> Plain(parts)[i] == Name(parts[i], false)
  {
    if parts != [] {
      PlainPrints(parts[1..]);
    }
  }

  function Glued(parts: seq<string>, sep: char): string {
    if parts == [] then "" else [sep] + (parts[0] + Glued(parts[1..], sep))
  }

  /** Nothing is lost by splitting. */
  lemma {:induction false} SplitGlued(text: string, sep: char)
    ensures text == Split(text, sep)[0] + Glued(Split(text, sep)[1..], sep)
  {
    if text != "" {
      SplitGlued(text[1..], sep);
      var rest, all := Split(text[1..], sep), Split(text, sep);
      assert text == [text[0]] + text[1..];
      if text[0] == sep {
        assert all[1..] == rest;
        assert Glued(rest, sep) == [sep] + text[1..];
      } else {
        assert all[1..] == rest[1..];
      }
    }
  }

  lemma {:induction false} PlainJoins(parts: seq<string>)
    ensures JoinParts(Plain(parts)) == Glued(parts, '.')
  {
    if parts != [] {
      PlainJoins(parts[1..]);
      assert "." + parts[0] + JoinParts(Plain(parts[1..])) == ['.'] + (parts[0] + JoinParts(Plain(parts[1..])));
    }
  }

  lemma ToDottedIs(text: string)
    ensures PrintDotted(ToDotted(text)) == DottedTokens(text) && Join(ToDotted(text)) == text
    ensures DottedText(text) ==> DottedOk(ToDotted(text))
  {
    PlainPrints(Split(text, '.')[1..]);
    PlainJoins(Split(text, '.')[1..]);
    SplitGlued(text, '.');
  }

  /** The words of a text with spaces between them are the text. */
  lemma SpacedWords(text: string)
    ensures
      var words := Split(text, ' ');
      && (|words| == 1 ==> text == words[0])
      && (|words| == 3 ==> text == words[0] + ([' '] + (words[1] + ([' '] + words[2]))))
  {
    var words := Split(text, ' ');
    SplitGlued(text, ' ');
    assert Glued([], ' ') == "";
    if |words| == 1 {
      assert words[1..] == [];
      assert words[0] + "" == words[0];
    } else if |words| == 3 {
      GluedTwo(words[1], words[2]);
      assert words[1..] == [words[1], words[2]];
    }
  }

  lemma GluedTwo(a: string, b: string)
    ensures Glued([a, b], ' ') == [' '] + (a + ([' '] + b))
  {
    assert b + Glued([], ' ') == b;
    assert Glued([b], ' ') == [' '] + b;
    assert [a, b][1..] == [b];
  }

  lemma ToItemIs(text: string)
    requires ItemWords(text)
    ensures PrintItem(ToItem(text)) == Split(text, ' ') && ItemText(ToItem(text)) == text && ItemOk(ToItem(text))
  {
    SpacedWords(text);
    var words := Split(text, ' ');
    if |words| == 3 {
      AsText(words[0], words[2]);
    }
  }

  lemma AsText(name: string, alias: string)
    ensures name + " as " + alias == name + ([' '] + ("as" + ([' '] + alias)))
  {
  }

  lemma {:induction false} ToItemsAre(items: seq<string>)
    requires forall i :: 0 <= i < |items| ==> ItemWords(items[i])
    ensures PrintItems(ToItems(items)) == WithCommas(items) && ItemTexts(ToItems(items)) == items
    ensures forall i :: 0 <= i < |ToItems(items)| ==> ItemOk(ToItems(items)[i])
  {
    if items != [] {
      ToItemIs(items[0]);
      ToItemsAre(items[1..]);
    }
  }

  lemma ToTargetIs(f: Fact)
    requires FactFormed(f)
    ensures TargetOk(ToTarget(f))
    ensures PrintTarget(ToTarget(f)) ==
            DottedTokens(f.consumer) + if f.names.Some? then ["{"] + WithCommas(f.names.value) + ["}"] else []
    ensures NamesOf(ToTarget(f)) == f.names
  {
    var t := ToTarget(f);
    ToDottedIs(f.consumer);
    assert PrintAlternatives([]) == [];
    assert PrintDotted(t.first) + [] == PrintDotted(t.first);
    if f.names.Some? {
      ToItemsAre(f.names.value);
    }
  }

  lemma ToWireIs(f: Fact)
    requires FactFormed(f)
    ensures EntryOk(ToWire(f)) && PrintEntry(ToWire(f)) == FactTokens(f)
  {
    var e := ToWire(f);
    ToDottedIs(f.provider);
    ToTargetIs(f);
    var head := e.keywords + PrintDotted(e.provider) + PrintAlias(e.alias) + [Arrow(e.injected)];
    assert PrintEntry(e) == head + PrintTargets(e.targets);
    var names := if f.names.Some? then ["{"] + WithCommas(f.names.value) + ["}"] else [];
    assert PrintTargets(e.targets) == DottedTokens(f.consumer) + names + [";"];
    Regroup(head, DottedTokens(f.consumer), names, [";"]);
  }

  lemma ToWireMeans(scope: string, f: Fact)
    requires FactFormed(f)
    ensures EntryFacts(scope, ToWire(f)) == [InScope(scope, f)]
  {
    ToDottedIs(f.provider);
    ToDottedIs(f.consumer);
    ToTargetIs(f);
    var s := SourceOf(scope, ToWire(f));
    assert FactsFor(s, [JoinScope(scope, f.consumer)] + [], f.names) == [InScope(scope, f)];
  }

  lemma {:induction false} ToWiresAre(scope: string, fs: seq<Fact>)
    requires forall i :: 0 <= i < |fs| ==> FactFormed(fs[i])
    ensures PrintEntries(ToWires(fs)) == FactsTokens(fs)
    ensures EntriesFacts(scope, ToWires(fs)) == AllInScope(scope, fs)
    ensures forall i :: 0 <= i < |ToWires(fs)| ==> EntryOk(ToWires(fs)[i])
  {
    if fs != [] {
      ToWireIs(fs[0]);
      ToWireMeans(scope, fs[0]);
      ToWiresAre(scope, fs[1..]);
    }
  }

  /** Facts written as wires, in a scope or not, are read back: exactly these facts, in order, with
      both ends of each inside the scope, and no alias where there are names. */
  lemma FactsComeBack(scope: string, fs: seq<Fact>)
    requires scope == "" || DottedText(scope)
    requires forall i :: 0 <= i < |fs| ==> FactFormed(fs[i])
    ensures ReadFile(BlockOfFacts(scope, fs)) == Ok(AllInScope(scope, fs), [])
  {
    var b := Block(if scope == "" then None else Some(ToDotted(scope)), ToWires(fs));
    ToDottedIs(scope);
    ToWiresAre(scope, fs);
    assert PrintBlock(b) == BlockOfFacts(scope, fs);
    assert PrintFile([b]) == PrintBlock(b);
    assert FileFacts([b]) == AllInScope(scope, fs);
    ReadingUndoesPrinting([b]);
  }

  // ----- several consumers

  /** The wire from the same provider to one consumer. */
  function WireTo(e: Entry, consumer: Dotted, names: Option<seq<Item>>): Entry
    requires e.Wire?
  {
    e.(targets := One(Target(consumer, [], names)))
  }

  function WiresTo(e: Entry, consumers: seq<Dotted>, names: Option<seq<Item>>): seq<Entry>
    requires e.Wire?
  {
    if consumers == [] then [] else [WireTo(e, consumers[0], names)] + WiresTo(e, consumers[1..], names)
  }

  function WiresOver(e: Entry, ts: seq<Target>): seq<Entry>
    requires e.Wire?
  {
    if ts == [] then [] else WiresTo(e, [ts[0].first] + ts[0].others, ts[0].names) + WiresOver(e, ts[1..])
  }

  /** A wire taken apart: one for each alternative of each target, in order. A rule says nothing. */
  function Apart(e: Entry): seq<Entry> {
    if e.Rule? then []
    else if e.targets.One? then WiresOver(e, [e.targets.target])
    else WiresOver(e, e.targets.targets)
  }

  function AllApart(es: seq<Entry>): seq<Entry> {
    if es == [] then [] else Apart(es[0]) + AllApart(es[1..])
  }

  function FileApart(bs: seq<Block>): seq<Block> {
    if bs == [] then [] else [bs[0].(entries := AllApart(bs[0].entries))] + FileApart(bs[1..])
  }

  lemma {:induction false} EntriesConcat(scope: string, a: seq<Entry>, b: seq<Entry>)
    ensures EntriesFacts(scope, a + b) == EntriesFacts(scope, a) + EntriesFacts(scope, b)
  {
    if a == [] {
      assert a + b == b;
    } else {
      assert (a + b)[1..] == a[1..] + b;
      EntriesConcat(scope, a[1..], b);
    }
  }

  lemma {:induction false} WiresToMean(scope: string, e: Entry, consumers: seq<Dotted>, names: Option<seq<Item>>)
    requires e.Wire?
    ensures EntriesFacts(scope, WiresTo(e, consumers, names)) ==
            FactsFor(SourceOf(scope, e), ConsumersOf(scope, consumers), if names.Some? then Some(ItemTexts(names.value)) else None)
  {
    if consumers != [] {
      WiresToMean(scope, e, consumers[1..], names);
      WireToMeans(scope, e, consumers[0], names);
    }
  }

  lemma WireToMeans(scope: string, e: Entry, consumer: Dotted, names: Option<seq<Item>>)
    requires e.Wire?
    ensures EntryFacts(scope, WireTo(e, consumer, names)) ==
            [MakeFact(SourceOf(scope, e), JoinScope(scope, Join(consumer)), if names.Some? then Some(ItemTexts(names.value)) else None)]
  {
    var s, name := SourceOf(scope, e), JoinScope(scope, Join(consumer));
    var texts := if names.Some? then Some(ItemTexts(names.value)) else None;
    assert SourceOf(scope, WireTo(e, consumer, names)) == s;
    assert [name] + ConsumersOf(scope, []) == [name];
    assert FactsFor(s, [name], texts) == [MakeFact(s, name, texts)] + FactsFor(s, [], texts);
  }

  lemma {:induction false} WiresOverMean(scope: string, e: Entry, ts: seq<Target>)
    requires e.Wire?
    ensures EntriesFacts(scope, WiresOver(e, ts)) == ManyFacts(SourceOf(scope, e), ts)
  {
    if ts != [] {
      var consumers := [ts[0].first] + ts[0].others;
      WiresToMean(scope, e, consumers, ts[0].names);
      assert consumers[1..] == ts[0].others;
      WiresOverMean(scope, e, ts[1..]);
      EntriesConcat(scope, WiresTo(e, consumers, ts[0].names), WiresOver(e, ts[1..]));
    }
  }

  lemma ApartMeans(scope: string, e: Entry)
    ensures EntriesFacts(scope, Apart(e)) == EntryFacts(scope, e)
  {
    if e.Wire? {
      if e.targets.One? {
        WiresOverMean(scope, e, [e.targets.target]);
        assert ManyFacts(SourceOf(scope, e), []) == [];
      } else {
        WiresOverMean(scope, e, e.targets.targets);
      }
    }
  }

  lemma {:induction false} AllApartMean(scope: string, es: seq<Entry>)
    ensures EntriesFacts(scope, AllApart(es)) == EntriesFacts(scope, es)
  {
    if es != [] {
      ApartMeans(scope, es[0]);
      AllApartMean(scope, es[1..]);
      EntriesConcat(scope, Apart(es[0]), AllApart(es[1..]));
    }
  }

  lemma {:induction false} WiresToOk(e: Entry, consumers: seq<Dotted>, names: Option<seq<Item>>)
    requires e.Wire? && EntryOk(e)
    requires forall i :: 0 <= i < |consumers| ==> TargetOk(Target(consumers[i], [], names))
    ensures forall i :: 0 <= i < |WiresTo(e, consumers, names)| ==> EntryOk(WiresTo(e, consumers, names)[i])
  {
    if consumers != [] {
      WiresToOk(e, consumers[1..], names);
    }
  }

  lemma {:induction false} WiresOverOk(e: Entry, ts: seq<Target>)
    requires e.Wire? && EntryOk(e) && forall i :: 0 <= i < |ts| ==> TargetOk(ts[i])
    ensures forall i :: 0 <= i < |WiresOver(e, ts)| ==> EntryOk(WiresOver(e, ts)[i])
  {
    if ts != [] {
      WiresToOk(e, [ts[0].first] + ts[0].others, ts[0].names);
      WiresOverOk(e, ts[1..]);
    }
  }

  lemma {:induction false} AllApartOk(es: seq<Entry>)
    requires forall i :: 0 <= i < |es| ==> EntryOk(es[i])
    ensures forall i :: 0 <= i < |AllApart(es)| ==> EntryOk(AllApart(es)[i])
  {
    if es != [] {
      var e := es[0];
      if e.Wire? {
        WiresOverOk(e, if e.targets.One? then [e.targets.target] else e.targets.targets);
      }
      AllApartOk(es[1..]);
    }
  }

  lemma {:induction false} FileApartIs(bs: seq<Block>)
    requires forall i :: 0 <= i < |bs| ==> BlockOk(bs[i])
    ensures FileFacts(FileApart(bs)) == FileFacts(bs)
    ensures forall i :: 0 <= i < |FileApart(bs)| ==> BlockOk(FileApart(bs)[i])
  {
    if bs != [] {
      AllApartMean(ScopeText(bs[0].scope), bs[0].entries);
      AllApartOk(bs[0].entries);
      FileApartIs(bs[1..]);
    }
  }

  /** A file is read as the one in which every wire to several consumers is written out as one wire
      for each, and every rule is left out. */
  lemma ReadApart(bs: seq<Block>)
    requires forall i :: 0 <= i < |bs| ==> BlockOk(bs[i])
    ensures ReadFile(PrintFile(bs)) == ReadFile(PrintFile(FileApart(bs)))
  {
    FileApartIs(bs);
    ReadingUndoesPrinting(bs);
    ReadingUndoesPrinting(FileApart(bs));
  }
}
