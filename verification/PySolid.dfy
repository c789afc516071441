/** When the suites of emitted statements can be read back. */
module PySolid {
  import opened Options
  import opened PyLines
  import opened PySource
  import PyText

  // ----- a condition on statements

  predicate EmitsField(isStatic: bool, f: Field) {
    isStatic || f.accessors == [] || exists i :: 0 <= i < |f.accessors| && !f.accessors[i].isStub
  }

  /** Does a statement stand for any line at all? */
  predicate EmitsLine(s: Stmt)
    decreases s
  {
    match s
    case Impl => false
    case Expr(text) => text.Some?
    case Glob(lines) => lines != []
    case Has(isStatic, fields) => exists i :: 0 <= i < |fields| && EmitsField(isStatic, fields[i])
    case WithEntry(body) => EmitsSome(body)
    case Switch(_, choices) => choices != []
    case _ => true
  }

  predicate EmitsSome(body: seq<Stmt>)
    decreases body
  {
    exists i :: 0 <= i < |body| && EmitsLine(body[i])
  }

  predicate AllSolid(body: seq<Stmt>)
    decreases body, 0
  {
    forall i :: 0 <= i < |body| ==> Solid(body[i])
  }

  /** A body with statements has one that stands for a line. */
  predicate SolidBody(body: seq<Stmt>)
    decreases body, 1
  {
    body == [] || (EmitsSome(body) && AllSolid(body))
  }

  predicate Solid(s: Stmt)
    decreases s, 2
  {
    match s
    case Class(_, body) => SolidBody(body)
    case Enum(_, _, _, body) => SolidBody(body)
    case Func(_, body) => SolidBody(body)
    case Has(isStatic, fields) =>
      forall i :: 0 <= i < |fields| ==> SolidField(isStatic, fields[i])
    case WithEntry(body) => AllSolid(body)
    case If(_, body, elifs, otherwise) =>
      SolidBody(body) && (forall i :: 0 <= i < |elifs| ==> SolidBody(elifs[i].body)) && SolidBody(otherwise)
    case For(_, _, _, body) => SolidBody(body)
    case While(_, body) => SolidBody(body)
    case Try(body, handlers, otherwise, cleanup) =>
      && SolidBody(body) && (forall i :: 0 <= i < |handlers| ==> SolidBody(handlers[i].body))
      && SolidBody(otherwise) && SolidBody(cleanup)
    case Match(_, cases) => cases != [] && forall i :: 0 <= i < |cases| ==> SolidBody(cases[i].body)
    case Switch(_, choices) => forall i :: 0 <= i < |choices| ==> SolidBody(choices[i].body)
    case With(_, _, body) => SolidBody(body)
    case _ => true
  }

  predicate SolidField(isStatic: bool, f: Field)
    decreases f
  {
    isStatic || forall i :: 0 <= i < |f.accessors| ==> f.accessors[i].isStub || SolidBody(f.accessors[i].body)
  }

  // ----- it is the condition on their trees

  lemma WholeConcat(a: seq<Tree>, b: seq<Tree>)
    ensures Whole(a + b) <==> Whole(a) && Whole(b)
    ensures HasLine(a + b) <==> HasLine(a) || HasLine(b)
  {
    var ab := a + b;
    assert forall i :: 0 <= i < |a| ==> ab[i] == a[i];
    assert forall i :: 0 <= i < |b| ==> ab[|a| + i] == b[i];
    if Whole(ab) {
      forall i | 0 <= i < |b| ensures WholeTree(b[i]) {
        assert WholeTree(ab[|a| + i]);
      }
    }
    if HasLine(b) {
      var i :| 0 <= i < |b| && !b[i].Blank?;
      assert !ab[|a| + i].Blank?;
    }
  }

  /** Every tree is a line or a blank, so all is whole. */
  predicate Flat(ts: seq<Tree>) {
    forall i :: 0 <= i < |ts| ==> !ts[i].Suite?
  }

  lemma {:induction false} DecoratorsFlat(names: seq<string>)
    ensures Flat(Decorators(names))
  {
    if names != [] {
      DecoratorsFlat(names[1..]);
    }
  }

  lemma {:induction false} LinesFlat(lines: seq<Text>)
    ensures Flat(Lines(lines)) && |Lines(lines)| == |lines|
  {
    if lines != [] {
      LinesFlat(lines[1..]);
    }
  }

  /** One suite after some decorators, before a blank. */
  lemma DecoratedWhole(before: seq<Tree>, header: Text, body: seq<Tree>)
    requires Flat(before)
    ensures
      var ts := before + [Suite(header, body), Blank];
      (Whole(ts) <==> Whole(body) && HasLine(body)) && HasLine(ts)
  {
    WholeConcat(before, [Suite(header, body), Blank]);
    SuiteWhole(header, body);
    WholeConcat([Suite(header, body)], [Blank]);
    assert [Suite(header, body)] + [Blank] == [Suite(header, body), Blank];
    assert Whole([Blank]);
  }

  lemma SuiteWhole(header: Text, body: seq<Tree>)
    ensures Whole([Suite(header, body)]) <==> Whole(body) && HasLine(body)
    ensures HasLine([Suite(header, body)])
  {
    var t := Suite(header, body);
    assert WholeTree(t) <==> Whole(body) && HasLine(body);
    assert [t][0] == t;
  }

  lemma BodyWhole(body: seq<Stmt>, c: Context)
    ensures Whole(Body(body, c)) && HasLine(Body(body, c)) <==> SolidBody(body)
    decreases body, 4
  {
    if body == [] {
      assert [Line("pass")][0] == Line("pass");
    } else {
      OutlinesWhole(body, c);
    }
  }

  lemma {:induction false} OutlinesWhole(body: seq<Stmt>, c: Context)
    ensures Whole(Outlines(body, c)) <==> AllSolid(body)
    ensures HasLine(Outlines(body, c)) <==> EmitsSome(body)
    decreases body, 3
  {
    if body != [] {
      var more := body[1..];
      OutlineWhole(body[0], c);
      OutlinesWhole(more, c);
      WholeConcat(Outline(body[0], c), Outlines(more, c));
      AllButFirst(body);
    }
  }

  lemma AllButFirst(body: seq<Stmt>)
    requires body != []
    ensures AllSolid(body) <==> Solid(body[0]) && AllSolid(body[1..])
    ensures EmitsSome(body) <==> EmitsLine(body[0]) || EmitsSome(body[1..])
  {
    var more := body[1..];
    assert forall i :: 0 <= i < |more| ==> body[i + 1] == more[i];
    if AllSolid(body) {
      forall i | 0 <= i < |more| ensures Solid(more[i]) {
        assert Solid(body[i + 1]);
      }
    }
    if EmitsSome(more) {
      var i :| 0 <= i < |more| && EmitsLine(more[i]);
      assert EmitsLine(body[i + 1]);
    }
    if EmitsSome(body) && !EmitsLine(body[0]) {
      var i :| 0 <= i < |body| && EmitsLine(body[i]);
      assert EmitsLine(more[i - 1]);
    }
  }

  lemma ClauseWhole(header: Text, body: seq<Stmt>, c: Context)
    ensures Whole(Clause(header, body, c)) <==> SolidBody(body)
    decreases body, 5
  {
    if body != [] {
      BodyWhole(body, c);
      SuiteWhole(header, Body(body, c));
    }
  }

  lemma {:induction false} ElifsWhole(bs: seq<Branch>, c: Context)
    ensures Whole(Elifs(bs, c)) <==> forall i :: 0 <= i < |bs| ==> SolidBody(bs[i].body)
    decreases bs
  {
    if bs != [] {
      var header, body := Header("elif", bs[0].test), Body(bs[0].body, c);
      BodyWhole(bs[0].body, c);
      SuiteWhole(header, body);
      ElifsWhole(bs[1..], c);
      WholeConcat([Suite(header, body)], Elifs(bs[1..], c));
      assert forall i :: 1 <= i < |bs| ==> bs[i] == bs[1..][i - 1];
    }
  }

  lemma {:induction false} HandlersWhole(hs: seq<Handler>, c: Context)
    ensures Whole(Handlers(hs, c)) <==> forall i :: 0 <= i < |hs| ==> SolidBody(hs[i].body)
    decreases hs
  {
    if hs != [] {
      var header, body := HandlerLine(hs[0]), Body(hs[0].body, c);
      BodyWhole(hs[0].body, c);
      SuiteWhole(header, body);
      HandlersWhole(hs[1..], c);
      WholeConcat([Suite(header, body)], Handlers(hs[1..], c));
      assert forall i :: 1 <= i < |hs| ==> hs[i] == hs[1..][i - 1];
    }
  }

  lemma {:induction false} CasesWhole(bs: seq<Branch>, c: Context)
    ensures Whole(Cases(bs, c)) <==> forall i :: 0 <= i < |bs| ==> SolidBody(bs[i].body)
    ensures HasLine(Cases(bs, c)) <==> bs != []
    decreases bs
  {
    if bs != [] {
      var header, body := Header("case", bs[0].test), Body(bs[0].body, c);
      BodyWhole(bs[0].body, c);
      SuiteWhole(header, body);
      CasesWhole(bs[1..], c);
      WholeConcat([Suite(header, body)], Cases(bs[1..], c));
      assert forall i :: 1 <= i < |bs| ==> bs[i] == bs[1..][i - 1];
    }
  }

  lemma {:induction false} ChoicesWhole(subject: string, cs: seq<Case>, first: bool, c: Context)
    ensures Whole(Choices(subject, cs, first, c)) <==> forall i :: 0 <= i < |cs| ==> SolidBody(cs[i].body)
    ensures HasLine(Choices(subject, cs, first, c)) <==> cs != []
    decreases cs
  {
    if cs != [] {
      var header, body := CaseLine(subject, cs[0].pattern, first), Body(cs[0].body, c);
      var next := first && cs[0].pattern.None?;
      BodyWhole(cs[0].body, c);
      SuiteWhole(header, body);
      ChoicesWhole(subject, cs[1..], next, c);
      WholeConcat([Suite(header, body)], Choices(subject, cs[1..], next, c));
      assert forall i :: 1 <= i < |cs| ==> cs[i] == cs[1..][i - 1];
    }
  }

  lemma AccessorWhole(name: string, a: Accessor, c: Context)
    ensures Whole(AccessorOutline(name, a, c)) <==> a.isStub || SolidBody(a.body)
    ensures HasLine(AccessorOutline(name, a, c)) <==> !a.isStub
    decreases a
  {
    if !a.isStub {
      var before := [Line(AccessorDecorator(a.kind, name))];
      var body := Body(a.body, c.(inClass := false));
      BodyWhole(a.body, c.(inClass := false));
      DecoratedWhole(before, AccessorLine(name, a), body);
      assert AccessorOutline(name, a, c) == before + [Suite(AccessorLine(name, a), body), Blank];
    }
  }

  lemma {:induction false} AccessorsWhole(name: string, accs: seq<Accessor>, c: Context)
    ensures Whole(Accessors(name, accs, c)) <==> forall i :: 0 <= i < |accs| ==> accs[i].isStub || SolidBody(accs[i].body)
    ensures HasLine(Accessors(name, accs, c)) <==> exists i :: 0 <= i < |accs| && !accs[i].isStub
    decreases accs
  {
    if accs != [] {
      AccessorWhole(name, accs[0], c);
      AccessorsWhole(name, accs[1..], c);
      WholeConcat(AccessorOutline(name, accs[0], c), Accessors(name, accs[1..], c));
      assert forall i :: 1 <= i < |accs| ==> accs[i] == accs[1..][i - 1];
    }
  }

  lemma FieldWhole(isStatic: bool, f: Field, c: Context)
    ensures Whole(FieldOutline(isStatic, f, c)) <==> SolidField(isStatic, f)
    ensures HasLine(FieldOutline(isStatic, f, c)) <==> EmitsField(isStatic, f)
    decreases f
  {
    if isStatic || f.accessors == [] {
      assert FieldOutline(isStatic, f, c)[0] == Line(f.line);
    } else {
      AccessorsWhole(f.name, f.accessors, c);
    }
  }

  lemma {:induction false} FieldsWhole(isStatic: bool, fs: seq<Field>, c: Context)
    ensures Whole(Fields(isStatic, fs, c)) <==> forall i :: 0 <= i < |fs| ==> SolidField(isStatic, fs[i])
    ensures HasLine(Fields(isStatic, fs, c)) <==> exists i :: 0 <= i < |fs| && EmitsField(isStatic, fs[i])
    decreases fs
  {
    if fs != [] {
      FieldWhole(isStatic, fs[0], c);
      FieldsWhole(isStatic, fs[1..], c);
      WholeConcat(FieldOutline(isStatic, fs[0], c), Fields(isStatic, fs[1..], c));
      assert forall i :: 1 <= i < |fs| ==> fs[i] == fs[1..][i - 1];
      assert EmitsField(isStatic, fs[0]) || (exists i :: 0 <= i < |fs[1..]| && EmitsField(isStatic, fs[1..][i]))
        <==> exists i :: 0 <= i < |fs| && EmitsField(isStatic, fs[i]);
    }
  }

  lemma IfWhole(s: Stmt, c: Context)
    requires s.If?
    ensures Whole(Outline(s, c)) <==> Solid(s)
    ensures HasLine(Outline(s, c))
    decreases s, 0
  {
    var body := Body(s.body, c);
    BodyWhole(s.body, c);
    SuiteWhole(Header("if", s.test), body);
    ElifsWhole(s.elifs, c);
    ClauseWhole("else:", s.otherwise, c);
    WholeConcat([Suite(Header("if", s.test), body)], Elifs(s.elifs, c));
    WholeConcat([Suite(Header("if", s.test), body)] + Elifs(s.elifs, c), Clause("else:", s.otherwise, c));
  }

  lemma TryWhole(s: Stmt, c: Context)
    requires s.Try?
    ensures Whole(Outline(s, c)) <==> Solid(s)
    ensures HasLine(Outline(s, c))
    decreases s, 0
  {
    var first, handlers := [Suite("try:", Body(s.body, c))], Handlers(s.handlers, c);
    var otherwise, cleanup := Clause("else:", s.otherwise, c), Clause("finally:", s.cleanup, c);
    BodyWhole(s.body, c);
    SuiteWhole("try:", Body(s.body, c));
    HandlersWhole(s.handlers, c);
    ClauseWhole("else:", s.otherwise, c);
    ClauseWhole("finally:", s.cleanup, c);
    WholeConcat4(first, handlers, otherwise, cleanup);
    assert Outline(s, c) == first + handlers + otherwise + cleanup;
  }

  lemma WholeConcat4(a: seq<Tree>, b: seq<Tree>, c: seq<Tree>, d: seq<Tree>)
    ensures Whole(a + b + c + d) <==> Whole(a) && Whole(b) && Whole(c) && Whole(d)
    ensures HasLine(a) ==> HasLine(a + b + c + d)
  {
    WholeConcat(a, b);
    WholeConcat(a + b, c);
    WholeConcat(a + b + c, d);
  }

  lemma SimpleWhole(s: Stmt, c: Context)
    ensures Whole(SimpleOutline(s, c))
    ensures HasLine(SimpleOutline(s, c)) ==> EmitsLine(s)
    ensures !HasLine(SimpleOutline(s, c)) ==> !EmitsLine(s) || Holds(s)
  {
    if s.Import? && s.isTyped {
      SuiteWhole("if TYPE_CHECKING:", [Line(s.line)]);
      assert [Line(s.line)][0] == Line(s.line);
    } else {
      if s.Glob? {
        LinesFlat(s.lines);
        assert s.lines != [] ==> !Lines(s.lines)[0].Blank?;
      }
      assert Flat(SimpleOutline(s, c));
      assert SimpleOutline(s, c) != [] ==> !SimpleOutline(s, c)[0].Blank?;
    }
  }

  /** Can a statement hold others? */
  predicate Holds(s: Stmt) {
    s.Class? || s.Enum? || s.Func? || s.Has? || s.WithEntry? || s.If? || s.For? || s.While? || s.Try? || s.Match?
    || s.Switch? || s.With?
  }

  lemma FuncDecoratorsFlat(f: FuncHead)
    ensures Flat(FuncDecorators(f))
  {
    DecoratorsFlat(f.decorators);
    assert Flat(EventDecorators(f.event, f.trigger)) && Flat(FlagDecorators(f));
  }

  lemma ClassWhole(s: Stmt, c: Context)
    requires s.Class? || s.Enum? || s.Func?
    ensures Whole(Outline(s, c)) <==> Solid(s)
    ensures HasLine(Outline(s, c))
    decreases s, 0
  {
    match s
    case Class(k, body) =>
      DecoratorsFlat(k.decorators);
      BodyWhole(body, Context(true, k.archKind));
      DecoratedWhole(ClassDecorators(k), ClassLine(k, body), Body(body, Context(true, k.archKind)));
    case Enum(decorators, name, bases, body) =>
      DecoratorsFlat(decorators);
      BodyWhole(body, c);
      DecoratedWhole(Decorators(decorators), EnumLine(name, bases), Body(body, c));
    case Func(f, body) =>
      FuncDecoratorsFlat(f);
      BodyWhole(body, c.(inClass := false));
      DecoratedWhole(FuncDecorators(f), FuncLine(f, c), Body(body, c.(inClass := false)));
  }

  lemma LoopWhole(s: Stmt, c: Context)
    requires s.For? || s.While? || s.With?
    ensures Whole(Outline(s, c)) <==> Solid(s)
    ensures HasLine(Outline(s, c))
    decreases s, 0
  {
    BodyWhole(s.body, c);
    SuiteWhole(LoopLine(s), Body(s.body, c));
  }

  lemma MatchWhole(s: Stmt, c: Context)
    requires s.Match?
    ensures Whole(Outline(s, c)) <==> Solid(s)
    ensures HasLine(Outline(s, c))
    decreases s, 0
  {
    CasesWhole(s.cases, c);
    SuiteWhole(Header("match", s.subject), Cases(s.cases, c));
  }

  /** A statement's tree is whole exactly when the statement is solid, wherever it stands. */
  lemma OutlineWhole(s: Stmt, c: Context)
    ensures Whole(Outline(s, c)) <==> Solid(s)
    ensures HasLine(Outline(s, c)) <==> EmitsLine(s)
    decreases s, 1
  {
    if s.Class? || s.Enum? || s.Func? {
      ClassWhole(s, c);
    } else if s.Has? {
      FieldsWhole(s.isStatic, s.fields, c);
    } else if s.WithEntry? {
      OutlinesWhole(s.body, c);
    } else if s.If? {
      IfWhole(s, c);
    } else if s.For? || s.While? || s.With? {
      LoopWhole(s, c);
    } else if s.Try? {
      TryWhole(s, c);
    } else if s.Match? {
      MatchWhole(s, c);
    } else if s.Switch? {
      ChoicesWhole(s.subject, s.choices, true, c);
    } else {
      SimpleWhole(s, c);
    }
  }

  /** What is emitted for statements is read back as their trees, blanks aside and with `pass` for
      an empty body, if and only if every body with statements stands for a line. */
  lemma ReadsBackExactly(body: seq<Stmt>, c: Context)
    ensures Read(RenderAll(Outlines(body, c), 0)) == Some(NoBlanks(Outlines(body, c))) <==> AllSolid(body)
  {
    OutlinesWhole(body, c);
    ReadBackExactly(Outlines(body, c));
  }

  /** The same of the joined text, if also no text in it holds a line end. */
  lemma TextReadsBackExactly(body: seq<Stmt>, c: Context)
    ensures PyText.ReadText(PyText.Joined(RenderAll(Outlines(body, c), 0))) == Some(NoBlanks(Outlines(body, c)))
            <==> AllSolid(body) && PyText.PlainTrees(Outlines(body, c))
  {
    OutlinesWhole(body, c);
    PyText.TextReadsBackExactly(Outlines(body, c));
  }
}
