/** The code generator: it appends indented lines and moves its indentation and context as it
    goes. Every emit appends exactly its statement's tree and puts all else back. */
module CodeGen {
  import opened Options
  import opened PyLines
  import opened PySource
  import PySolid
  import PyText
  import PyMeaning
  import PyBack

  lemma {:induction false} RenderConcat(a: seq<Tree>, b: seq<Tree>, level: nat)
    ensures RenderAll(a + b, level) == RenderAll(a, level) + RenderAll(b, level)
  {
    if a == [] {
      assert a + b == b;
    } else {
      assert (a + b)[1..] == a[1..] + b;
      RenderConcat(a[1..], b, level);
    }
  }

  lemma RenderOne(t: Tree, level: nat)
    ensures RenderAll([t], level) == Render(t, level)
  {
    assert RenderAll([], level) == [];
  }

  class CodeGen {
    var lines: seq<string>
    var indent: nat
    var inClass: bool
    var archKind: string

    constructor ()
      ensures lines == [] && indent == 0 && Where() == Context(false, "")
    {
      lines := [];
      indent := 0;
      inClass := false;
      archKind := "";
    }

    function Where(): Context
      reads this
    {
      Context(inClass, archKind)
    }

    /** Trees were appended at this level, and indentation and context are these. */
    ghost predicate Emitted(before: seq<string>, ts: seq<Tree>, level: nat, c: Context)
      reads this
    {
      lines == before + RenderAll(ts, level) && indent == level && Where() == c
    }

    /** These trees are still to come before the lines are as they should be. */
    ghost predicate Owes(whole: seq<string>, rest: seq<Tree>, level: nat, c: Context)
      reads this
    {
      lines + RenderAll(rest, level) == whole && indent == level && Where() == c
    }

    lemma Also(before: seq<string>, a: seq<Tree>, b: seq<Tree>, level: nat, c: Context)
      requires Emitted(before + RenderAll(a, level), b, level, c)
      ensures Emitted(before, a + b, level, c)
    {
      RenderConcat(a, b, level);
    }

    lemma Paid(before: seq<string>, a: seq<Tree>, b: seq<Tree>, whole: seq<string>, level: nat, c: Context)
      requires Emitted(before, a, level, c) && before + RenderAll(a + b, level) == whole
      ensures Owes(whole, b, level, c)
    {
      RenderConcat(a, b, level);
      assert before + (RenderAll(a, level) + RenderAll(b, level)) == before + RenderAll(a, level) + RenderAll(b, level);
    }

    method Line(text: Text)
      modifies this
      ensures Emitted(old(lines), [Tree.Line(text)], old(indent), old(Where()))
    {
      lines := lines + [Indented(text, indent)];
      RenderOne(Tree.Line(text), indent);
    }

    method BlankLine()
      modifies this
      ensures Emitted(old(lines), [Blank], old(indent), old(Where()))
    {
      lines := lines + [""];
      RenderOne(Blank, indent);
    }

    method EmitDecorators(names: seq<string>)
      modifies this
      ensures Emitted(old(lines), Decorators(names), old(indent), old(Where()))
    {
      ghost var whole := lines + RenderAll(Decorators(names), indent);
      assert names[0..] == names;
      var i := 0;
      while i < |names|
        invariant 0 <= i <= |names|
        invariant Owes(whole, Decorators(names[i..]), old(indent), old(Where()))
      {
        ghost var before := lines;
        assert names[i..][1..] == names[i + 1..];
        Line("@" + names[i]);
        Paid(before, [Tree.Line("@" + names[i])], Decorators(names[i + 1..]), whole, indent, Where());
        i := i + 1;
      }
    }

    method EmitEventDecorators(event: string, trigger: string)
      modifies this
      ensures Emitted(old(lines), EventDecorators(event, trigger), old(indent), old(Where()))
    {
      if event == "" {
        return;
      }
      Line("@_jac_osp.on_" + event);
      if trigger != "" {
        Line("@_jac_osp.set_trigger(lambda: " + trigger + ")");
        Also(old(lines), [Tree.Line("@_jac_osp.on_" + event)],
             [Tree.Line("@_jac_osp.set_trigger(lambda: " + trigger + ")")], indent, Where());
      } else {
        assert [Tree.Line("@_jac_osp.on_" + event)] + [] == [Tree.Line("@_jac_osp.on_" + event)];
      }
    }

    /** A line that is there under a condition. */
    method LineIf(on: bool, text: Text)
      modifies this
      ensures Emitted(old(lines), if on then [Tree.Line(text)] else [], old(indent), old(Where()))
    {
      if on {
        Line(text);
      }
    }

    method EmitFlagDecorators(f: FuncHead)
      modifies this
      ensures Emitted(old(lines), FlagDecorators(f), old(indent), old(Where()))
    {
      ghost var a := if f.isClassmethod then [Tree.Line("@classmethod")] else [];
      ghost var b := if f.isStatic then [Tree.Line("@staticmethod")] else [];
      ghost var d := if f.isAbstract then [Tree.Line("@_jac_abc.abstractmethod")] else [];
      LineIf(f.isClassmethod, "@classmethod");
      LineIf(f.isStatic, "@staticmethod");
      Also(old(lines), a, b, indent, Where());
      LineIf(f.isAbstract, "@_jac_abc.abstractmethod");
      Also(old(lines), a + b, d, indent, Where());
    }

    method EmitFuncDecorators(f: FuncHead)
      modifies this
      ensures Emitted(old(lines), FuncDecorators(f), old(indent), old(Where()))
    {
      ghost var a, b := Decorators(f.decorators), EventDecorators(f.event, f.trigger);
      EmitDecorators(f.decorators);
      EmitEventDecorators(f.event, f.trigger);
      Also(old(lines), a, b, indent, Where());
      EmitFlagDecorators(f);
      Also(old(lines), a + b, FlagDecorators(f), indent, Where());
    }

    // ----- bodies

    method EmitAll(body: seq<Stmt>)
      modifies this
      ensures Emitted(old(lines), Outlines(body, old(Where())), old(indent), old(Where()))
      decreases body, 0
    {
      ghost var c := Where();
      ghost var whole := lines + RenderAll(Outlines(body, c), indent);
      assert body[0..] == body;
      var i := 0;
      while i < |body|
        invariant 0 <= i <= |body|
        invariant Owes(whole, Outlines(body[i..], c), old(indent), c)
      {
        ghost var before := lines;
        assert body[i..][1..] == body[i + 1..];
        Emit(body[i]);
        Paid(before, Outline(body[i], c), Outlines(body[i + 1..], c), whole, indent, c);
        i := i + 1;
      }
    }

    method EmitBody(body: seq<Stmt>)
      modifies this
      ensures Emitted(old(lines), Body(body, old(Where())), old(indent), old(Where()))
      decreases body, 1
    {
      if body == [] {
        Line("pass");
      } else {
        EmitAll(body);
      }
    }

    lemma SuiteEmitted(before: seq<string>, header: Text, body: seq<Tree>, level: nat, c: Context)
      requires lines == before + RenderAll([Tree.Line(header)], level) + RenderAll(body, level + 1)
      requires indent == level && Where() == c
      ensures Emitted(before, [Suite(header, body)], level, c)
    {
      RenderOne(Tree.Line(header), level);
      RenderOne(Suite(header, body), level);
    }

    /** A header and, one level deeper, its body. */
    method EmitSuite(header: Text, body: seq<Stmt>)
      modifies this
      ensures Emitted(old(lines), [Suite(header, Body(body, old(Where())))], old(indent), old(Where()))
      decreases body, 2
    {
      Line(header);
      indent := indent + 1;
      EmitBody(body);
      indent := indent - 1;
      SuiteEmitted(old(lines), header, Body(body, Where()), indent, Where());
    }

    method EmitClause(header: Text, body: seq<Stmt>)
      modifies this
      ensures Emitted(old(lines), Clause(header, body, old(Where())), old(indent), old(Where()))
      decreases body, 3
    {
      if body != [] {
        EmitSuite(header, body);
      }
    }

    /** A suite in another context, and a blank line. */
    method EmitScope(header: Text, body: seq<Stmt>, c: Context)
      modifies this
      ensures Emitted(old(lines), [Suite(header, Body(body, c)), Blank], old(indent), old(Where()))
      decreases body, 3
    {
      Line(header);
      indent := indent + 1;
      var prevInClass, prevArchKind := inClass, archKind;
      inClass := c.inClass;
      archKind := c.archKind;
      EmitBody(body);
      inClass := prevInClass;
      archKind := prevArchKind;
      indent := indent - 1;
      SuiteEmitted(old(lines), header, Body(body, c), indent, Where());
      BlankLine();
      Also(old(lines), [Suite(header, Body(body, c))], [Blank], indent, Where());
      assert [Suite(header, Body(body, c))] + [Blank] == [Suite(header, Body(body, c)), Blank];
    }

    // ----- clauses

    method EmitElifs(branches: seq<Branch>)
      modifies this
      ensures Emitted(old(lines), Elifs(branches, old(Where())), old(indent), old(Where()))
      decreases branches
    {
      ghost var c := Where();
      ghost var whole := lines + RenderAll(Elifs(branches, c), indent);
      assert branches[0..] == branches;
      var i := 0;
      while i < |branches|
        invariant 0 <= i <= |branches|
        invariant Owes(whole, Elifs(branches[i..], c), old(indent), c)
      {
        ghost var before := lines;
        assert branches[i..][1..] == branches[i + 1..];
        EmitSuite(Header("elif", branches[i].test), branches[i].body);
        Paid(before, [Suite(Header("elif", branches[i].test), Body(branches[i].body, c))],
             Elifs(branches[i + 1..], c), whole, indent, c);
        i := i + 1;
      }
    }

    method EmitHandlers(handlers: seq<Handler>)
      modifies this
      ensures Emitted(old(lines), Handlers(handlers, old(Where())), old(indent), old(Where()))
      decreases handlers
    {
      ghost var c := Where();
      ghost var whole := lines + RenderAll(Handlers(handlers, c), indent);
      assert handlers[0..] == handlers;
      var i := 0;
      while i < |handlers|
        invariant 0 <= i <= |handlers|
        invariant Owes(whole, Handlers(handlers[i..], c), old(indent), c)
      {
        ghost var before := lines;
        assert handlers[i..][1..] == handlers[i + 1..];
        EmitSuite(HandlerLine(handlers[i]), handlers[i].body);
        Paid(before, [Suite(HandlerLine(handlers[i]), Body(handlers[i].body, c))],
             Handlers(handlers[i + 1..], c), whole, indent, c);
        i := i + 1;
      }
    }

    method EmitCases(cases: seq<Branch>)
      modifies this
      ensures Emitted(old(lines), Cases(cases, old(Where())), old(indent), old(Where()))
      decreases cases, 0
    {
      ghost var c := Where();
      ghost var whole := lines + RenderAll(Cases(cases, c), indent);
      assert cases[0..] == cases;
      var i := 0;
      while i < |cases|
        invariant 0 <= i <= |cases|
        invariant Owes(whole, Cases(cases[i..], c), old(indent), c)
      {
        ghost var before := lines;
        assert cases[i..][1..] == cases[i + 1..];
        EmitSuite(Header("case", cases[i].test), cases[i].body);
        Paid(before, [Suite(Header("case", cases[i].test), Body(cases[i].body, c))],
             Cases(cases[i + 1..], c), whole, indent, c);
        i := i + 1;
      }
    }

    method EmitChoices(subject: string, choices: seq<Case>)
      modifies this
      ensures Emitted(old(lines), Choices(subject, choices, true, old(Where())), old(indent), old(Where()))
      decreases choices
    {
      ghost var c := Where();
      ghost var whole := lines + RenderAll(Choices(subject, choices, true, c), indent);
      assert choices[0..] == choices;
      var first := true;
      var i := 0;
      while i < |choices|
        invariant 0 <= i <= |choices|
        invariant Owes(whole, Choices(subject, choices[i..], first, c), old(indent), c)
      {
        ghost var before, wasFirst := lines, first;
        assert choices[i..][1..] == choices[i + 1..];
        var header := CaseLine(subject, choices[i].pattern, first);
        if choices[i].pattern.Some? {
          first := false;
        }
        EmitSuite(header, choices[i].body);
        Paid(before, [Suite(header, Body(choices[i].body, c))],
             Choices(subject, choices[i + 1..], first, c), whole, indent, c);
        i := i + 1;
      }
    }

    // ----- fields

    method EmitAccessor(name: string, a: Accessor)
      modifies this
      ensures Emitted(old(lines), AccessorOutline(name, a, old(Where())), old(indent), old(Where()))
      decreases a
    {
      if a.isStub {
        return;
      }
      ghost var c := Where();
      Line(AccessorDecorator(a.kind, name));
      EmitScope(AccessorLine(name, a), a.body, Context(false, archKind));
      ghost var suite := [Suite(AccessorLine(name, a), Body(a.body, c.(inClass := false))), Blank];
      Also(old(lines), [Tree.Line(AccessorDecorator(a.kind, name))], suite, indent, c);
      assert [Tree.Line(AccessorDecorator(a.kind, name))] + suite == AccessorOutline(name, a, c);
    }

    method EmitAccessors(name: string, accessors: seq<Accessor>)
      modifies this
      ensures Emitted(old(lines), Accessors(name, accessors, old(Where())), old(indent), old(Where()))
      decreases accessors
    {
      ghost var c := Where();
      ghost var whole := lines + RenderAll(Accessors(name, accessors, c), indent);
      assert accessors[0..] == accessors;
      var i := 0;
      while i < |accessors|
        invariant 0 <= i <= |accessors|
        invariant Owes(whole, Accessors(name, accessors[i..], c), old(indent), c)
      {
        ghost var before := lines;
        assert accessors[i..][1..] == accessors[i + 1..];
        EmitAccessor(name, accessors[i]);
        Paid(before, AccessorOutline(name, accessors[i], c), Accessors(name, accessors[i + 1..], c), whole, indent, c);
        i := i + 1;
      }
    }

    method EmitFields(isStatic: bool, fields: seq<Field>)
      modifies this
      ensures Emitted(old(lines), Fields(isStatic, fields, old(Where())), old(indent), old(Where()))
      decreases fields
    {
      ghost var c := Where();
      ghost var whole := lines + RenderAll(Fields(isStatic, fields, c), indent);
      assert fields[0..] == fields;
      var i := 0;
      while i < |fields|
        invariant 0 <= i <= |fields|
        invariant Owes(whole, Fields(isStatic, fields[i..], c), old(indent), c)
      {
        ghost var before := lines;
        assert fields[i..][1..] == fields[i + 1..];
        if isStatic || fields[i].accessors == [] {
          Line(fields[i].line);
        } else {
          EmitAccessors(fields[i].name, fields[i].accessors);
        }
        Paid(before, FieldOutline(isStatic, fields[i], c), Fields(isStatic, fields[i + 1..], c), whole, indent, c);
        i := i + 1;
      }
    }

    method EmitLines(texts: seq<Text>)
      modifies this
      ensures Emitted(old(lines), Lines(texts), old(indent), old(Where()))
    {
      ghost var whole := lines + RenderAll(Lines(texts), indent);
      assert texts[0..] == texts;
      var i := 0;
      while i < |texts|
        invariant 0 <= i <= |texts|
        invariant Owes(whole, Lines(texts[i..]), old(indent), old(Where()))
      {
        ghost var before := lines;
        assert texts[i..][1..] == texts[i + 1..];
        Line(texts[i]);
        Paid(before, [Tree.Line(texts[i])], Lines(texts[i + 1..]), whole, indent, Where());
        i := i + 1;
      }
    }

    // ----- statements

    method EmitImport(isTyped: bool, line: Text)
      modifies this
      ensures Emitted(old(lines), SimpleOutline(Import(isTyped, line), old(Where())), old(indent), old(Where()))
    {
      if isTyped {
        Line("if TYPE_CHECKING:");
        indent := indent + 1;
        Line(line);
        indent := indent - 1;
        SuiteEmitted(old(lines), "if TYPE_CHECKING:", [Tree.Line(line)], indent, Where());
      } else {
        Line(line);
      }
    }

    method EmitTwo(first: Text, second: Text)
      modifies this
      ensures Emitted(old(lines), [Tree.Line(first), Tree.Line(second)], old(indent), old(Where()))
    {
      Line(first);
      Line(second);
      Also(old(lines), [Tree.Line(first)], [Tree.Line(second)], indent, Where());
      assert [Tree.Line(first)] + [Tree.Line(second)] == [Tree.Line(first), Tree.Line(second)];
    }

    method EmitDelete(expr: string, clear: Option<Text>)
      modifies this
      ensures Emitted(old(lines), DeleteOutline(expr, clear), old(indent), old(Where()))
    {
      if clear.Some? {
        Line(clear.value);
      } else if "_jac_osp." <= expr {
        Line(DestroyLine(expr));
      } else {
        EmitTwo(DestroyLine(expr), "del " + expr);
      }
    }

    method EmitOneLine(text: Option<Text>)
      modifies this
      ensures Emitted(old(lines), if text.Some? then [Tree.Line(text.value)] else [], old(indent), old(Where()))
    {
      if text.Some? {
        Line(text.value);
      }
    }

    method EmitSimple(s: Stmt)
      modifies this
      ensures Emitted(old(lines), SimpleOutline(s, old(Where())), old(indent), old(Where()))
    {
      if s.Import? {
        EmitImport(s.isTyped, s.line);
      } else if s.Glob? {
        EmitLines(s.lines);
      } else if s.Delete? {
        EmitDelete(s.expr, s.clear);
      } else if s.Disengage? {
        EmitTwo(DisengageLine(Where()), "return");
      } else {
        EmitOneLine(OneLine(s, Where()));
      }
    }

    method EmitClass(k: ClassHead, body: seq<Stmt>)
      modifies this
      ensures Emitted(old(lines), Outline(Class(k, body), old(Where())), old(indent), old(Where()))
      decreases body, 4
    {
      ghost var mark: seq<Tree> := if k.isObject && k.archKind == "" then [Tree.Line("@_jac_make_object")] else [];
      ghost var inner := Context(true, k.archKind);
      EmitDecorators(k.decorators);
      LineIf(k.isObject && k.archKind == "", "@_jac_make_object");
      Also(old(lines), Decorators(k.decorators), mark, indent, Where());
      EmitScope(ClassLine(k, body), body, Context(true, k.archKind));
      Also(old(lines), ClassDecorators(k), [Suite(ClassLine(k, body), Body(body, inner)), Blank], indent, Where());
    }

    method EmitEnum(decorators: seq<string>, name: string, bases: string, body: seq<Stmt>)
      modifies this
      ensures Emitted(old(lines), Outline(Enum(decorators, name, bases, body), old(Where())), old(indent), old(Where()))
      decreases body, 4
    {
      EmitDecorators(decorators);
      EmitScope(EnumLine(name, bases), body, Where());
      Also(old(lines), Decorators(decorators), [Suite(EnumLine(name, bases), Body(body, Where())), Blank], indent, Where());
    }

    method EmitFunc(f: FuncHead, body: seq<Stmt>)
      modifies this
      ensures Emitted(old(lines), Outline(Func(f, body), old(Where())), old(indent), old(Where()))
      decreases body, 4
    {
      ghost var inner := Where().(inClass := false);
      EmitFuncDecorators(f);
      EmitScope(FuncLine(f, Where()), body, Context(false, archKind));
      Also(old(lines), FuncDecorators(f), [Suite(FuncLine(f, Where()), Body(body, inner)), Blank], indent, Where());
    }

    method EmitIf(s: Stmt)
      requires s.If?
      modifies this
      ensures Emitted(old(lines), Outline(s, old(Where())), old(indent), old(Where()))
      decreases s, 0
    {
      ghost var first := [Suite(Header("if", s.test), Body(s.body, Where()))];
      EmitSuite(Header("if", s.test), s.body);
      EmitElifs(s.elifs);
      Also(old(lines), first, Elifs(s.elifs, Where()), indent, Where());
      EmitClause("else:", s.otherwise);
      Also(old(lines), first + Elifs(s.elifs, Where()), Clause("else:", s.otherwise, Where()), indent, Where());
    }

    method EmitTry(s: Stmt)
      requires s.Try?
      modifies this
      ensures Emitted(old(lines), Outline(s, old(Where())), old(indent), old(Where()))
      decreases s, 0
    {
      ghost var c := Where();
      ghost var first := [Suite("try:", Body(s.body, c))];
      EmitSuite("try:", s.body);
      EmitHandlers(s.handlers);
      Also(old(lines), first, Handlers(s.handlers, c), indent, c);
      EmitClause("else:", s.otherwise);
      Also(old(lines), first + Handlers(s.handlers, c), Clause("else:", s.otherwise, c), indent, c);
      EmitClause("finally:", s.cleanup);
      Also(old(lines), first + Handlers(s.handlers, c) + Clause("else:", s.otherwise, c),
           Clause("finally:", s.cleanup, c), indent, c);
    }

    method EmitMatch(subject: string, cases: seq<Branch>)
      modifies this
      ensures Emitted(old(lines), Outline(Match(subject, cases), old(Where())), old(indent), old(Where()))
      decreases cases, 1
    {
      Line(Header("match", subject));
      indent := indent + 1;
      EmitCases(cases);
      indent := indent - 1;
      SuiteEmitted(old(lines), Header("match", subject), Cases(cases, Where()), indent, Where());
    }

    /** Emitting a statement appends its tree and leaves indentation and context as they were. */
    method Emit(s: Stmt)
      modifies this
      ensures Emitted(old(lines), Outline(s, old(Where())), old(indent), old(Where()))
      decreases s, 1
    {
      if s.Class? {
        EmitClass(s.cls, s.body);
      } else if s.Enum? {
        EmitEnum(s.decorators, s.name, s.bases, s.body);
      } else if s.Func? {
        EmitFunc(s.func, s.body);
      } else if s.Has? {
        EmitFields(s.isStatic, s.fields);
      } else if s.WithEntry? {
        EmitAll(s.body);
      } else if s.If? {
        EmitIf(s);
      } else if s.For? || s.While? || s.With? {
        EmitSuite(LoopLine(s), s.body);
      } else if s.Try? {
        EmitTry(s);
      } else if s.Match? {
        EmitMatch(s.subject, s.cases);
      } else if s.Switch? {
        EmitChoices(s.subject, s.choices);
      } else {
        EmitSimple(s);
      }
    }
  }

  /** The lines of a module's statements, from a new generator, are read back exactly when every
      body with statements stands for a line; their text, if also no text of a statement holds a
      line end. They are then read as the statements that these mean. */
  method Generate(body: seq<Stmt>) returns (text: string, ghost lines: seq<string>)
    ensures lines == RenderAll(Outlines(body, Context(false, "")), 0)
    ensures Read(lines) == Some(NoBlanks(Outlines(body, Context(false, "")))) <==> PySolid.AllSolid(body)
    ensures text == PyText.Joined(RenderAll(Outlines(body, Context(false, "")), 0))
    ensures PyText.ReadText(text) == Some(NoBlanks(Outlines(body, Context(false, ""))))
            <==> PySolid.AllSolid(body) && PyText.PlainTrees(Outlines(body, Context(false, "")))
    ensures PySolid.AllSolid(body) && PyMeaning.AllReadable(body) ==>
              PyBack.ReadProgram(lines) == Some(PyMeaning.Meanings(body, Context(false, "")))
    ensures PySolid.AllSolid(body) && PyMeaning.AllReadable(body) && PyText.PlainTrees(Outlines(body, Context(false, ""))) ==>
              PyBack.ReadProgramText(text) == Some(PyMeaning.Meanings(body, Context(false, "")))
  {
    var gen := new CodeGen();
    gen.EmitAll(body);
    lines := gen.lines;
    text := PyText.Joined(gen.lines);
    PySolid.ReadsBackExactly(body, Context(false, ""));
    PySolid.TextReadsBackExactly(body, Context(false, ""));
    if PySolid.AllSolid(body) && PyMeaning.AllReadable(body) {
      PyBack.ProgramBack(body, Context(false, ""));
    }
  }
}
