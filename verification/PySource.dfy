/** Statements of the seed language and the lines they stand for, as an indentation tree. */
module PySource {
  import opened Options
  import opened PyLines

  datatype Param = Param(name: string, typeAnn: string, init: string, isStar: bool, isDstar: bool, starSep: bool)

  datatype AccessorKind = Getter | Setter | Deleter

  /** A property accessor; a stub's body is elsewhere. */
  datatype Accessor = Accessor(kind: AccessorKind, params: seq<Param>, returnType: string, isStub: bool, body: seq<Stmt>)

  /** A declared field: its name, its whole line, and its accessors if it is a property. */
  datatype Field = Field(name: string, line: Text, accessors: seq<Accessor>)

  datatype Branch = Branch(test: string, body: seq<Stmt>)

  datatype Handler = Handler(excType: string, excName: string, body: seq<Stmt>)

  /** A `case`; the default has no pattern. */
  datatype Case = Case(pattern: Option<string>, body: seq<Stmt>)

  datatype FuncHead = FuncHead(
    decorators: seq<string>, event: string, trigger: string, isClassmethod: bool, isStatic: bool, isAbstract: bool,
    isAsync: bool, name: string, params: seq<Param>, returnType: string)

  datatype ClassHead = ClassHead(
    decorators: seq<string>, isObject: bool, archKind: string, name: string, typeParams: string, bases: string,
    isProtocol: bool)

  datatype Stmt =
    | Import(isTyped: bool, line: Text)
    | Class(cls: ClassHead, body: seq<Stmt>)
    | Enum(decorators: seq<string>, name: string, bases: string, body: seq<Stmt>)
    | TypeAlias(line: Text)
    | Func(func: FuncHead, body: seq<Stmt>)
    | Has(isStatic: bool, fields: seq<Field>)
    | Glob(lines: seq<Text>)
    | Impl
    | WithEntry(body: seq<Stmt>)
    | If(test: string, body: seq<Stmt>, elifs: seq<Branch>, otherwise: seq<Stmt>)
    | For(isAsync: bool, target: string, iter: string, body: seq<Stmt>)
    | While(test: string, body: seq<Stmt>)
    | Try(body: seq<Stmt>, handlers: seq<Handler>, otherwise: seq<Stmt>, cleanup: seq<Stmt>)
    | Match(subject: string, cases: seq<Branch>)
    | Switch(subject: string, choices: seq<Case>)
    | With(isAsync: bool, items: string, body: seq<Stmt>)
    | Return(expr: string) | Yield(expr: string) | Raise(expr: string) | Assert(expr: string)
    | Delete(expr: string, clear: Option<Text>)
    | Visit(expr: string, place: Option<string>)
    | Disengage
    | Expr(text: Option<Text>)
    | Pass | Break | Continue

  /** Where a statement stands: directly in a class, and in which kind of archetype. */
  datatype Context = Context(inClass: bool, archKind: string)

  // ----- lines

  /** The line that opens a suite. */
  function Header(word: Text, text: string): Text {
    word + " " + text + ":"
  }

  function WithValue(word: Text, value: string): Text {
    if value != "" then word + " " + value else word
  }

  function Decorators(names: seq<string>): seq<Tree> {
    if names == [] then [] else [Line("@" + names[0])] + Decorators(names[1..])
  }

  function EventDecorators(event: string, trigger: string): seq<Tree> {
    if event == "" then []
    else [Line("@_jac_osp.on_" + event)]
         + if trigger != "" then [Line("@_jac_osp.set_trigger(lambda: " + trigger + ")")] else []
  }

  function FlagDecorators(f: FuncHead): seq<Tree> {
    (if f.isClassmethod then [Line("@classmethod")] else [])
    + (if f.isStatic then [Line("@staticmethod")] else [])
    + if f.isAbstract then [Line("@_jac_abc.abstractmethod")] else []
  }

  function EventParam(c: Context): string {
    if c.archKind == "walker" then "here" else "visitor"
  }

  function WalkerReceiver(c: Context): string {
    if c.archKind == "node" || c.archKind == "edge" then "visitor" else "self"
  }

  predicate NamesReceiver(params: seq<Param>) {
    params != [] && (params[0].name == "self" || params[0].name == "cls")
  }

  function Plain(name: string): Param {
    Param(name, "", "", false, false, false)
  }

  /** A method directly in a class is given its receiver, unless it names one or is static. */
  function ReceiverAdded(f: FuncHead, inClass: bool): seq<Param> {
    if !inClass || NamesReceiver(f.params) then f.params
    else if f.isClassmethod then [Plain("cls")] + f.params
    else if f.isStatic then f.params
    else [Plain("self")] + f.params
  }

  function FuncParams(f: FuncHead, c: Context): seq<Param> {
    ReceiverAdded(f, c.inClass)
    + if f.event != "" then [Param(EventParam(c), f.trigger, "", false, false, false)] else []
  }

  function FormatParam(p: Param): string {
    if p.starSep then "*"
    else
      (if p.isDstar then "**" else if p.isStar then "*" else "") + p.name
      + (if p.typeAnn != "" && p.name != "self" && p.name != "cls" then ": " + p.typeAnn else "")
      + if p.init != "" then " = " + p.init else ""
  }

  function FormatParams(params: seq<Param>): string {
    if params == [] then ""
    else if |params| == 1 then FormatParam(params[0])
    else FormatParam(params[0]) + ", " + FormatParams(params[1..])
  }

  function Returns(returnType: string): string {
    if returnType != "" then " -> " + returnType else ""
  }

  function RuntimeName(name: string): string {
    if name == "init" then "__init__" else if name == "postinit" then "__post_init__" else name
  }

  function FuncLine(f: FuncHead, c: Context): Text {
    Header(if f.isAsync then "async def" else "def",
           RuntimeName(f.name) + "(" + FormatParams(FuncParams(f, c)) + ")" + Returns(f.returnType))
  }

  function Capitalized(kind: string): string {
    match kind
    case "node" => "Node"
    case "edge" => "Edge"
    case "walker" => "Walker"
    case _ => kind
  }

  function Listed(bases: string, base: string): string {
    if bases != "" then bases + ", " + base else base
  }

  predicate HasAbstract(body: seq<Stmt>) {
    exists i :: 0 <= i < |body| && body[i].Func? && body[i].func.isAbstract
  }

  function ClassBases(k: ClassHead, body: seq<Stmt>): string {
    var withArch := if k.archKind != "" then Listed(k.bases, "_jac_osp." + Capitalized(k.archKind)) else k.bases;
    if !k.isProtocol && HasAbstract(body) then Listed(withArch, "_jac_abc.ABC") else withArch
  }

  function ClassLine(k: ClassHead, body: seq<Stmt>): Text {
    var bases := ClassBases(k, body);
    Header("class", k.name + (if k.typeParams != "" then "[" + k.typeParams + "]" else "")
                    + if bases != "" then "(" + bases + ")" else "")
  }

  function AccessorDecorator(kind: AccessorKind, name: string): Text {
    match kind
    case Getter => "@property"
    case Setter => "@" + name + ".setter"
    case Deleter => "@" + name + ".deleter"
  }

  function AccessorLine(name: string, a: Accessor): Text {
    var params := if NamesReceiver(a.params) then a.params else [Plain("self")] + a.params;
    Header("def", name + "(" + FormatParams(params) + ")" + Returns(a.returnType))
  }

  function EnumLine(name: string, bases: string): Text {
    Header("class", name + "(" + bases + ")")
  }

  /** The line that opens a statement with one body. */
  function LoopLine(s: Stmt): Text
    requires s.For? || s.While? || s.With?
  {
    match s
    case For(isAsync, target, iter, _) => Header(if isAsync then "async for" else "for", target + " in " + iter)
    case While(test, _) => Header("while", test)
    case With(isAsync, items, _) => Header(if isAsync then "async with" else "with", items)
  }

  function HandlerLine(h: Handler): Text {
    if h.excType != "" && h.excName != "" then "except " + h.excType + " as " + h.excName + ":"
    else if h.excType != "" then "except " + h.excType + ":"
    else "except:"
  }

  /** A switch becomes a chain of comparisons. */
  function CaseLine(subject: string, pattern: Option<string>, first: bool): Text {
    match pattern
    case None => "else:"
    case Some(p) => (if first then "if (" else "elif (") + subject + ") == (" + p + "):"
  }

  // ----- the tree of a statement

  /** A body, which is `pass` when it has no statement. */
  function Body(body: seq<Stmt>, c: Context): seq<Tree>
    decreases body, 1
  {
    if body == [] then [Line("pass")] else Outlines(body, c)
  }

  function Outlines(body: seq<Stmt>, c: Context): seq<Tree>
    decreases body, 0
  {
    if body == [] then [] else Outline(body[0], c) + Outlines(body[1..], c)
  }

  /** A clause that is left out when it has no statement. */
  function Clause(header: Text, body: seq<Stmt>, c: Context): seq<Tree>
    decreases body, 2
  {
    if body == [] then [] else [Suite(header, Body(body, c))]
  }

  function Elifs(branches: seq<Branch>, c: Context): seq<Tree> {
    if branches == [] then []
    else [Suite(Header("elif", branches[0].test), Body(branches[0].body, c))] + Elifs(branches[1..], c)
  }

  function Handlers(handlers: seq<Handler>, c: Context): seq<Tree> {
    if handlers == [] then []
    else [Suite(HandlerLine(handlers[0]), Body(handlers[0].body, c))] + Handlers(handlers[1..], c)
  }

  function Cases(cases: seq<Branch>, c: Context): seq<Tree> {
    if cases == [] then []
    else [Suite(Header("case", cases[0].test), Body(cases[0].body, c))] + Cases(cases[1..], c)
  }

  function Choices(subject: string, choices: seq<Case>, first: bool, c: Context): seq<Tree>
    decreases choices
  {
    if choices == [] then []
    else
      [Suite(CaseLine(subject, choices[0].pattern, first), Body(choices[0].body, c))]
      + Choices(subject, choices[1..], first && choices[0].pattern.None?, c)
  }

  function AccessorOutline(name: string, a: Accessor, c: Context): seq<Tree>
    decreases a
  {
    if a.isStub then []
    else [Line(AccessorDecorator(a.kind, name)),
          Suite(AccessorLine(name, a), Body(a.body, c.(inClass := false))), Blank]
  }

  function Accessors(name: string, accessors: seq<Accessor>, c: Context): seq<Tree>
    decreases accessors
  {
    if accessors == [] then [] else AccessorOutline(name, accessors[0], c) + Accessors(name, accessors[1..], c)
  }

  /** A property is its accessors; any other field is one line. */
  function FieldOutline(isStatic: bool, f: Field, c: Context): seq<Tree>
    decreases f
  {
    if isStatic || f.accessors == [] then [Line(f.line)] else Accessors(f.name, f.accessors, c)
  }

  function Fields(isStatic: bool, fields: seq<Field>, c: Context): seq<Tree>
    decreases fields
  {
    if fields == [] then [] else FieldOutline(isStatic, fields[0], c) + Fields(isStatic, fields[1..], c)
  }

  function Lines(lines: seq<Text>): seq<Tree> {
    if lines == [] then [] else [Line(lines[0])] + Lines(lines[1..])
  }

  function DestroyLine(expr: string): Text {
    "_jac_osp.destroy0(" + expr + ")"
  }

  function VisitLine(expr: string, place: Option<string>, c: Context): Text {
    "_jac_osp.visit0(" + WalkerReceiver(c) + ", " + expr + (if place.Some? then ", " + place.value else "") + ")"
  }

  function DisengageLine(c: Context): Text {
    "_jac_osp.disengage0(" + WalkerReceiver(c) + ")"
  }

  function DeleteOutline(expr: string, clear: Option<Text>): seq<Tree> {
    if clear.Some? then [Line(clear.value)]
    else if "_jac_osp." <= expr then [Line(DestroyLine(expr))]
    else [Line(DestroyLine(expr)), Line("del " + expr)]
  }

  /** The line of a statement that stands for at most one. */
  function OneLine(s: Stmt, c: Context): Option<Text> {
    match s
    case TypeAlias(line) => Option<Text>.Some(line)
    case Return(expr) => Option<Text>.Some(WithValue("return", expr))
    case Yield(expr) => Option<Text>.Some(WithValue("yield", expr))
    case Raise(expr) => Option<Text>.Some(WithValue("raise", expr))
    case Assert(expr) => Option<Text>.Some("assert " + expr)
    case Visit(expr, place) => Option<Text>.Some(VisitLine(expr, place, c))
    case Expr(text) => text
    case Pass => Option<Text>.Some("pass")
    case Break => Option<Text>.Some("break")
    case Continue => Option<Text>.Some("continue")
    case _ => Option<Text>.None
  }

  /** The lines of a statement that holds no other. */
  function SimpleOutline(s: Stmt, c: Context): seq<Tree> {
    match s
    case Import(isTyped, line) => if isTyped then [Suite("if TYPE_CHECKING:", [Line(line)])] else [Line(line)]
    case Glob(lines) => Lines(lines)
    case Delete(expr, clear) => DeleteOutline(expr, clear)
    case Disengage => [Line(DisengageLine(c)), Line("return")]
    case _ => if OneLine(s, c).Some? then [Line(OneLine(s, c).value)] else []
  }

  function ClassDecorators(k: ClassHead): seq<Tree> {
    Decorators(k.decorators) + if k.isObject && k.archKind == "" then [Line("@_jac_make_object")] else []
  }

  function FuncDecorators(f: FuncHead): seq<Tree> {
    Decorators(f.decorators) + EventDecorators(f.event, f.trigger) + FlagDecorators(f)
  }

  function Outline(s: Stmt, c: Context): seq<Tree>
    decreases s, 3
  {
    match s
    case Class(k, body) =>
      ClassDecorators(k) + [Suite(ClassLine(k, body), Body(body, Context(true, k.archKind))), Blank]
    case Enum(decorators, name, bases, body) =>
      Decorators(decorators) + [Suite(EnumLine(name, bases), Body(body, c)), Blank]
    case Func(f, body) =>
      FuncDecorators(f) + [Suite(FuncLine(f, c), Body(body, c.(inClass := false))), Blank]
    case Has(isStatic, fields) => Fields(isStatic, fields, c)
    case WithEntry(body) => Outlines(body, c)
    case If(test, body, elifs, otherwise) =>
      [Suite(Header("if", test), Body(body, c))] + Elifs(elifs, c) + Clause("else:", otherwise, c)
    case For(_, _, _, body) => [Suite(LoopLine(s), Body(body, c))]
    case While(_, body) => [Suite(LoopLine(s), Body(body, c))]
    case Try(body, handlers, otherwise, cleanup) =>
      [Suite("try:", Body(body, c))] + Handlers(handlers, c)
      + Clause("else:", otherwise, c) + Clause("finally:", cleanup, c)
    case Match(subject, cases) => [Suite(Header("match", subject), Cases(cases, c))]
    case Switch(subject, choices) => Choices(subject, choices, true, c)
    case With(_, _, body) => [Suite(LoopLine(s), Body(body, c))]
    case _ => SimpleOutline(s, c)
  }
}
