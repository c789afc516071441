/** The wires of an archwire file: what they say, how they are written as tokens, and the
    imports they mean. */
module WireSyntax {
  import opened Options

  type Token = string

  /** A name as written; `quoted` names carry a leading backtick. */
  datatype Name = Name(text: string, quoted: bool)

  /** A dotted name: its first part and the parts after a dot. */
  datatype Dotted = Dotted(first: Name, rest: seq<Name>)

  /** An imported name and the name it is imported as. */
  datatype Item = Item(name: Name, alias: Option<Name>)

  /** Alternative consumers and, perhaps, what each imports by name. */
  datatype Target = Target(first: Dotted, others: seq<Dotted>, names: Option<seq<Item>>)

  datatype Targets = One(target: Target) | Many(targets: seq<Target>)

  /** A wire from one provider, or a rule, which imports nothing. */
  datatype Entry =
    | Wire(keywords: seq<Token>, provider: Dotted, alias: Option<Name>, injected: bool, targets: Targets)
    | Rule(tokens: seq<Token>)

  datatype Block = Block(scope: Option<Dotted>, entries: seq<Entry>)

  predicate Keyword(t: Token) {
    t == "comptime" || t == "include" || t == "type"
  }

  // ----- what is well formed

  predicate Letter(c: char) {
    'a' <= c <= 'z' || 'A' <= c <= 'Z' || c == '_'
  }

  predicate NameOk(n: Name) {
    n.text != "" && Letter(n.text[0])
  }

  predicate DottedOk(d: Dotted) {
    NameOk(d.first) && forall i :: 0 <= i < |d.rest| ==> NameOk(d.rest[i])
  }

  predicate ItemOk(i: Item) {
    NameOk(i.name) && (i.alias.Some? ==> NameOk(i.alias.value))
  }

  predicate TargetOk(t: Target) {
    && DottedOk(t.first) && (forall i :: 0 <= i < |t.others| ==> DottedOk(t.others[i]))
    && (t.names.Some? ==> forall i :: 0 <= i < |t.names.value| ==> ItemOk(t.names.value[i]))
  }

  predicate TargetsOk(t: Targets) {
    match t
    case One(x) => TargetOk(x)
    case Many(xs) => forall i :: 0 <= i < |xs| ==> TargetOk(xs[i])
  }

  /** Do the tokens of a rule end at the last one: a semicolon outside braces, or the brace
      that closes the first one opened? */
  predicate RuleEnds(ts: seq<Token>, depth: int) {
    if ts == [] then false
    else if ts[0] == "" then false
    else if ts[0] == "{" then RuleEnds(ts[1..], depth + 1)
    else if ts[0] == "}" then if depth == 1 then |ts| == 1 else RuleEnds(ts[1..], depth - 1)
    else if ts[0] == ";" && depth == 0 then |ts| == 1
    else RuleEnds(ts[1..], depth)
  }

  /** A provider's first name, unless quoted, must not be read as something else: `edge` opens a
      rule, and `as` after a keyword makes that keyword the provider. */
  predicate StartsWire(n: Name, keywords: seq<Token>) {
    n.quoted || n.text != if keywords == [] then "edge" else "as"
  }

  /** An entry that is well formed, but for how its provider starts. */
  predicate EntryFormed(e: Entry) {
    match e
    case Wire(keywords, provider, alias, _, targets) =>
      && (forall i :: 0 <= i < |keywords| ==> Keyword(keywords[i]))
      && DottedOk(provider) && (alias.Some? ==> NameOk(alias.value)) && TargetsOk(targets)
    case Rule(tokens) => tokens != [] && tokens[0] == "edge" && RuleEnds(tokens, 0)
  }

  predicate EntryOk(e: Entry) {
    EntryFormed(e) && Starts(e)
  }

  predicate Starts(e: Entry) {
    e.Wire? ==> StartsWire(e.provider.first, e.keywords)
  }

  predicate BlockFormed(b: Block) {
    (b.scope.Some? ==> DottedOk(b.scope.value)) && forall i :: 0 <= i < |b.entries| ==> EntryFormed(b.entries[i])
  }

  predicate BlockOk(b: Block) {
    (b.scope.Some? ==> DottedOk(b.scope.value)) && forall i :: 0 <= i < |b.entries| ==> EntryOk(b.entries[i])
  }

  // ----- printing

  function NameToken(n: Name): Token {
    if n.quoted then "`" + n.text else n.text
  }

  function PrintParts(names: seq<Name>): seq<Token> {
    if names == [] then [] else [".", NameToken(names[0])] + PrintParts(names[1..])
  }

  function PrintDotted(d: Dotted): seq<Token> {
    [NameToken(d.first)] + PrintParts(d.rest)
  }

  function PrintAlternatives(ds: seq<Dotted>): seq<Token> {
    if ds == [] then [] else ["|"] + PrintDotted(ds[0]) + PrintAlternatives(ds[1..])
  }

  function PrintItem(i: Item): seq<Token> {
    [NameToken(i.name)] + if i.alias.Some? then ["as", NameToken(i.alias.value)] else []
  }

  function PrintItems(items: seq<Item>): seq<Token> {
    if items == [] then [] else PrintItem(items[0]) + [","] + PrintItems(items[1..])
  }

  function PrintNames(t: Target): seq<Token> {
    if t.names.Some? then ["{"] + PrintItems(t.names.value) + ["}"] else []
  }

  function PrintTarget(t: Target): seq<Token> {
    PrintDotted(t.first) + PrintAlternatives(t.others) + PrintNames(t)
  }

  function PrintMany(ts: seq<Target>): seq<Token> {
    if ts == [] then [] else PrintTarget(ts[0]) + [","] + PrintMany(ts[1..])
  }

  function PrintTargets(t: Targets): seq<Token> {
    match t
    case One(x) => PrintTarget(x) + [";"]
    case Many(xs) => ["["] + PrintMany(xs) + ["]"]
  }

  function PrintAlias(alias: Option<Name>): seq<Token> {
    if alias.Some? then ["as", NameToken(alias.value)] else []
  }

  function Arrow(injected: bool): Token {
    if injected then "++>" else "-->"
  }

  function PrintEntry(e: Entry): seq<Token> {
    match e
    case Wire(keywords, provider, alias, injected, targets) =>
      keywords + PrintDotted(provider) + PrintAlias(alias) + [Arrow(injected)] + PrintTargets(targets)
    case Rule(tokens) => tokens
  }

  function PrintEntries(es: seq<Entry>): seq<Token> {
    if es == [] then [] else PrintEntry(es[0]) + PrintEntries(es[1..])
  }

  function PrintScope(scope: Option<Dotted>): seq<Token> {
    if scope.Some? then PrintDotted(scope.value) else []
  }

  function PrintBlock(b: Block): seq<Token> {
    ["graph", "import"] + PrintScope(b.scope) + ["{"] + PrintEntries(b.entries) + ["}"]
  }

  function PrintFile(bs: seq<Block>): seq<Token> {
    if bs == [] then [] else PrintBlock(bs[0]) + PrintFile(bs[1..])
  }

  // ----- meaning

  /** One consumer's import from one provider. `names` is None for the module form. */
  datatype Fact = Fact(provider: string, consumer: string, keywords: seq<Token>, alias: string,
                       names: Option<seq<string>>, injected: bool)

  function JoinParts(names: seq<Name>): string {
    if names == [] then "" else "." + names[0].text + JoinParts(names[1..])
  }

  function Join(d: Dotted): string {
    d.first.text + JoinParts(d.rest)
  }

  function JoinScope(scope: string, name: string): string {
    if scope != "" then scope + "." + name else name
  }

  function ItemText(i: Item): string {
    if i.alias.Some? then i.name.text + " as " + i.alias.value.text else i.name.text
  }

  function ItemTexts(items: seq<Item>): seq<string> {
    if items == [] then [] else [ItemText(items[0])] + ItemTexts(items[1..])
  }

  /** What all wires of one provider share. */
  datatype Source = Source(scope: string, provider: string, keywords: seq<Token>, alias: string, injected: bool)

  function MakeFact(s: Source, consumer: string, names: Option<seq<string>>): Fact {
    Fact(s.provider, consumer, s.keywords, if names.None? then s.alias else "", names, s.injected)
  }

  function ConsumersOf(scope: string, ds: seq<Dotted>): seq<string> {
    if ds == [] then [] else [JoinScope(scope, Join(ds[0]))] + ConsumersOf(scope, ds[1..])
  }

  function FactsFor(s: Source, consumers: seq<string>, names: Option<seq<string>>): seq<Fact> {
    if consumers == [] then [] else [MakeFact(s, consumers[0], names)] + FactsFor(s, consumers[1..], names)
  }

  function NamesOf(t: Target): Option<seq<string>> {
    if t.names.Some? then Some(ItemTexts(t.names.value)) else None
  }

  function TargetFacts(s: Source, t: Target): seq<Fact> {
    FactsFor(s, [JoinScope(s.scope, Join(t.first))] + ConsumersOf(s.scope, t.others), NamesOf(t))
  }

  function ManyFacts(s: Source, ts: seq<Target>): seq<Fact> {
    if ts == [] then [] else TargetFacts(s, ts[0]) + ManyFacts(s, ts[1..])
  }

  /** A provider's alias keeps its quote. */
  function AliasText(alias: Option<Name>): Token {
    if alias.Some? then NameToken(alias.value) else ""
  }

  function SourceOf(scope: string, e: Entry): Source
    requires e.Wire?
  {
    Source(scope, JoinScope(scope, Join(e.provider)), e.keywords, AliasText(e.alias), e.injected)
  }

  function TargetsFacts(s: Source, t: Targets): seq<Fact> {
    match t
    case One(x) => TargetFacts(s, x)
    case Many(xs) => ManyFacts(s, xs)
  }

  /** The cross product of the targets and their alternatives; nothing for a rule. */
  function EntryFacts(scope: string, e: Entry): seq<Fact> {
    if e.Rule? then [] else TargetsFacts(SourceOf(scope, e), e.targets)
  }

  function EntriesFacts(scope: string, es: seq<Entry>): seq<Fact> {
    if es == [] then [] else EntryFacts(scope, es[0]) + EntriesFacts(scope, es[1..])
  }

  function ScopeText(scope: Option<Dotted>): string {
    if scope.Some? then Join(scope.value) else ""
  }

  function FileFacts(bs: seq<Block>): seq<Fact> {
    if bs == [] then []
    else EntriesFacts(ScopeText(bs[0].scope), bs[0].entries) + FileFacts(bs[1..])
  }
}
