/** Which statements of Python the statements of the seed language mean, and that their lines are
    read as exactly those. */
module PyMeaning {
  import opened Options
  import opened PyLines
  import opened PyParse
  import opened PyReader
  import opened PySource
  import PySolid

  // ----- what statements mean

  function ParamMeaning(p: Param): PyParam {
    if p.starSep then PyParam(1, "", "", "")
    else
      PyParam(if p.isDstar then 2 else if p.isStar then 1 else 0, p.name,
              if p.name == "self" || p.name == "cls" then "" else p.typeAnn, p.init)
  }

  function ParamMeanings(params: seq<Param>): seq<PyParam> {
    if params == [] then [] else [ParamMeaning(params[0])] + ParamMeanings(params[1..])
  }

  predicate HasReceiver(params: seq<Param>) {
    params != [] && params[0].name in ["self", "cls"]
  }

  /** Directly in a class a function that names no receiver gets one: none if it is static, the
      class if it is a class method, and the object otherwise. */
  function Receiver(f: FuncHead, inClass: bool): seq<PyParam> {
    if !inClass || HasReceiver(f.params) then []
    else if f.isClassmethod then [PyParam(0, "cls", "", "")]
    else if f.isStatic then []
    else [PyParam(0, "self", "", "")]
  }

  /** An ability on an event is passed the other side: a walker where it is, anyone else the walker. */
  function EventMeaning(f: FuncHead, kind: string): seq<PyParam> {
    if f.event == "" then [] else [PyParam(0, if kind == "walker" then "here" else "visitor", f.trigger, "")]
  }

  function FuncMarks(f: FuncHead): seq<string> {
    f.decorators
    + (if f.event == "" then [] else ["_jac_osp.on_" + f.event])
    + (if f.event == "" || f.trigger == "" then [] else ["_jac_osp.set_trigger(lambda: " + f.trigger + ")"])
    + (if f.isClassmethod then ["classmethod"] else []) + (if f.isStatic then ["staticmethod"] else [])
    + (if f.isAbstract then ["_jac_abc.abstractmethod"] else [])
  }

  function PyName(name: string): string {
    if name == "init" then "__init__" else if name == "postinit" then "__post_init__" else name
  }

  function ClassMarks(k: ClassHead): seq<string> {
    k.decorators + if k.isObject && k.archKind == "" then ["_jac_make_object"] else []
  }

  function ArchBase(kind: string): string {
    "_jac_osp." + if kind == "node" then "Node" else if kind == "edge" then "Edge" else if kind == "walker" then "Walker" else kind
  }

  /** The bases given, that of the archetype, and the abstract one if a method is abstract and the
      class is no protocol. */
  function BasesMeaning(k: ClassHead, body: seq<Stmt>): seq<string> {
    Parts(k.bases) + (if k.archKind == "" then [] else [ArchBase(k.archKind)])
    + if !k.isProtocol && SomeAbstract(body) then ["_jac_abc.ABC"] else []
  }

  predicate SomeAbstract(body: seq<Stmt>) {
    exists i :: 0 <= i < |body| && body[i].Func? && body[i].func.isAbstract
  }

  function WalkerName(kind: string): string {
    if kind == "node" || kind == "edge" then "visitor" else "self"
  }

  function LineMeaning(line: Text): Py {
    PyLine(ReadLine(line))
  }

  function LineMeanings(lines: seq<Text>): seq<Py> {
    if lines == [] then [] else [LineMeaning(lines[0])] + LineMeanings(lines[1..])
  }

  function Meanings(body: seq<Stmt>, c: Context): seq<Py>
    decreases body, 0
  {
    if body == [] then [] else Meaning(body[0], c) + Meanings(body[1..], c)
  }

  /** No statement is `pass`. */
  function BodyMeaning(body: seq<Stmt>, c: Context): seq<Py>
    decreases body, 1
  {
    if body == [] then [PyLine(Simple.Pass)] else Meanings(body, c)
  }

  function Branches(branches: seq<Branch>, c: Context): seq<PyBranch>
    decreases branches
  {
    if branches == [] then []
    else [PyBranch(branches[0].test, BodyMeaning(branches[0].body, c))] + Branches(branches[1..], c)
  }

  function HandlerMeanings(handlers: seq<Handler>, c: Context): seq<PyHandler>
    decreases handlers
  {
    if handlers == [] then []
    else
      var h := handlers[0];
      [PyHandler(Catch(h.excType, if h.excType == "" then "" else h.excName), BodyMeaning(h.body, c))]
      + HandlerMeanings(handlers[1..], c)
  }

  function Comparison(subject: string, pattern: string): string {
    "(" + subject + ") == (" + pattern + ")"
  }

  /** The cases of a switch that have a pattern, each a comparison with the subject. */
  function Comparisons(subject: string, choices: seq<Case>, c: Context): seq<PyBranch>
    decreases choices
  {
    if choices == [] then []
    else
      (if choices[0].pattern.None? then []
       else [PyBranch(Comparison(subject, choices[0].pattern.value), BodyMeaning(choices[0].body, c))])
      + Comparisons(subject, choices[1..], c)
  }

  function Default(choices: seq<Case>, c: Context): seq<Py>
    decreases choices
  {
    if choices == [] then []
    else if choices[0].pattern.None? then BodyMeaning(choices[0].body, c)
    else Default(choices[1..], c)
  }

  function AccessorMark(kind: AccessorKind, name: string): string {
    match kind
    case Getter => "property"
    case Setter => name + ".setter"
    case Deleter => name + ".deleter"
  }

  function AccessorSignature(name: string, a: Accessor): Signature {
    Signature(name, (if HasReceiver(a.params) then [] else [PyParam(0, "self", "", "")]) + ParamMeanings(a.params), a.returnType)
  }

  function FuncSignature(f: FuncHead, c: Context): Signature {
    Signature(PyName(f.name), Receiver(f, c.inClass) + ParamMeanings(f.params) + EventMeaning(f, c.archKind), f.returnType)
  }

  function AccessorMeanings(name: string, accessors: seq<Accessor>, c: Context): seq<Py>
    decreases accessors
  {
    if accessors == [] then []
    else
      (if accessors[0].isStub then [] else [AccessorMeaning(name, accessors[0], c)])
      + AccessorMeanings(name, accessors[1..], c)
  }

  function AccessorMeaning(name: string, a: Accessor, c: Context): Py
    decreases a, 0
  {
    PyDef([AccessorMark(a.kind, name)], false, AccessorSignature(name, a), BodyMeaning(a.body, Context(false, c.archKind)))
  }

  function FieldMeanings(isStatic: bool, fields: seq<Field>, c: Context): seq<Py>
    decreases fields
  {
    if fields == [] then []
    else
      (if isStatic || fields[0].accessors == [] then [LineMeaning(fields[0].line)]
       else AccessorMeanings(fields[0].name, fields[0].accessors, c))
      + FieldMeanings(isStatic, fields[1..], c)
  }

  function Meaning(s: Stmt, c: Context): seq<Py>
    decreases s, 2
  {
    match s
    case Import(isTyped, line) =>
      if isTyped then [PyIf([PyBranch("TYPE_CHECKING", [LineMeaning(line)])], [])] else [LineMeaning(line)]
    case Class(k, body) =>
      [PyClass(ClassMarks(k), ClassParts(k.name, k.typeParams, BasesMeaning(k, body)), BodyMeaning(body, Context(true, k.archKind)))]
    case Enum(decorators, name, bases, body) => [PyClass(decorators, ClassParts(name, "", Parts(bases)), BodyMeaning(body, c))]
    case TypeAlias(line) => [LineMeaning(line)]
    case Func(f, body) =>
      [PyDef(FuncMarks(f), f.isAsync, FuncSignature(f, c), BodyMeaning(body, Context(false, c.archKind)))]
    case Has(isStatic, fields) => FieldMeanings(isStatic, fields, c)
    case Glob(lines) => LineMeanings(lines)
    case Impl => []
    case WithEntry(body) => Meanings(body, c)
    case If(test, body, elifs, otherwise) =>
      [PyIf([PyBranch(test, BodyMeaning(body, c))] + Branches(elifs, c), Meanings(otherwise, c))]
    case For(isAsync, target, iter, body) => [PyFor(isAsync, Loop(target, iter), BodyMeaning(body, c))]
    case While(test, body) => [PyWhile(test, BodyMeaning(body, c))]
    case Try(body, handlers, otherwise, cleanup) =>
      [PyTry(BodyMeaning(body, c), HandlerMeanings(handlers, c), Meanings(otherwise, c), Meanings(cleanup, c))]
    case Match(subject, cases) => [PyMatch(subject, Branches(cases, c))]
    case Switch(subject, choices) =>
      if choices == [] then [] else [PyIf(Comparisons(subject, choices, c), Default(choices, c))]
    case With(isAsync, items, body) => [PyWith(isAsync, items, BodyMeaning(body, c))]
    case Return(expr) => [PyLine(Simple.Return(expr))]
    case Yield(expr) => [PyLine(Simple.Yield(expr))]
    case Raise(expr) => [PyLine(Simple.Raise(expr))]
    case Assert(expr) => [PyLine(Simple.Assert(expr))]
    case Delete(expr, clear) =>
      if clear.Some? then [LineMeaning(clear.value)]
      else [PyLine(Run("destroy0", Parts(expr)))] + if "_jac_osp." <= expr then [] else [PyLine(Del(expr))]
    case Visit(expr, place) =>
      [PyLine(Run("visit0", [WalkerName(c.archKind)] + if place.None? then Parts(expr) else [expr] + Parts(place.value)))]
    case Disengage => [PyLine(Run("disengage0", [WalkerName(c.archKind)])), PyLine(Simple.Return(""))]
    case Expr(text) => if text.Some? then [LineMeaning(text.value)] else []
    case Pass => [PyLine(Simple.Pass)]
    case Break => [PyLine(Simple.Break)]
    case Continue => [PyLine(Simple.Continue)]
  }

  // ----- what can be read back

  predicate PlainLine(line: Text) {
    line[0] != '@'
  }

  /** A type or a trigger: one part of a list, without a spaced equals sign. */
  predicate TypeText(s: string) {
    Sealed(s) && Absent(s, " = ")
  }

  predicate ParamReadable(p: Param) {
    p.starSep || (NameText(p.name) && TypeText(p.typeAnn) && Sealed(p.init))
  }

  predicate ParamsReadable(params: seq<Param>) {
    forall i :: 0 <= i < |params| ==> ParamReadable(params[i])
  }

  predicate FuncReadable(f: FuncHead) {
    NameText(f.name) && ParamsReadable(f.params) && (f.event != "" ==> TypeText(f.trigger))
  }

  predicate ClassReadable(k: ClassHead) {
    NameText(k.name) && Balanced(k.typeParams) && ListText(k.bases) && Sealed(k.archKind)
  }

  /** A default comes last, and not alone: before an `else` there is an `if`. */
  predicate DefaultLast(choices: seq<Case>) {
    forall i :: 0 <= i < |choices| && choices[i].pattern.None? ==> 0 < i == |choices| - 1
  }

  predicate AllReadable(body: seq<Stmt>)
    decreases body, 0
  {
    forall i :: 0 <= i < |body| ==> Readable(body[i])
  }

  predicate FieldReadable(isStatic: bool, f: Field)
    decreases f
  {
    if isStatic || f.accessors == [] then PlainLine(f.line)
    else NameText(f.name) && forall i :: 0 <= i < |f.accessors| ==> AccessorReadable(f.accessors[i])
  }

  predicate AccessorReadable(a: Accessor)
    decreases a
  {
    a.isStub || (ParamsReadable(a.params) && AllReadable(a.body))
  }

  predicate Readable(s: Stmt)
    decreases s, 1
  {
    match s
    case Import(_, line) => PlainLine(line)
    case Class(k, body) => ClassReadable(k) && AllReadable(body)
    case Enum(_, name, _, body) => NameText(name) && AllReadable(body)
    case TypeAlias(line) => PlainLine(line)
    case Func(f, body) => FuncReadable(f) && AllReadable(body)
    case Has(isStatic, fields) => forall i :: 0 <= i < |fields| ==> FieldReadable(isStatic, fields[i])
    case Glob(lines) => forall i :: 0 <= i < |lines| ==> PlainLine(lines[i])
    case WithEntry(body) => AllReadable(body)
    case If(_, body, elifs, otherwise) =>
      AllReadable(body) && AllReadable(otherwise) && forall i :: 0 <= i < |elifs| ==> AllReadable(elifs[i].body)
    case For(_, target, _, body) => Absent(target, " in ") && AllReadable(body)
    case While(_, body) => AllReadable(body)
    case Try(body, handlers, otherwise, cleanup) =>
      && AllReadable(body) && AllReadable(otherwise) && AllReadable(cleanup)
      && forall i :: 0 <= i < |handlers| ==> Absent(handlers[i].excType, " as ") && AllReadable(handlers[i].body)
    case Match(_, cases) => forall i :: 0 <= i < |cases| ==> AllReadable(cases[i].body)
    case Switch(_, choices) =>
      DefaultLast(choices) && forall i :: 0 <= i < |choices| ==> AllReadable(choices[i].body)
    case With(_, _, body) => AllReadable(body)
    case Delete(_, clear) => clear.Some? ==> PlainLine(clear.value)
    case Visit(expr, place) => place.Some? ==> Sealed(expr)
    case Expr(text) => text.Some? ==> PlainLine(text.value)
    case _ => true
  }
}
