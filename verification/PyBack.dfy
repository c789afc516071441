/** The lines that statements stand for are read as the statements they mean. */
module PyBack {
  import opened Options
  import opened PyLines
  import opened PyParse
  import opened PyReader
  import opened PySource
  import opened PyMeaning
  import PySolid
  import PyText

  // ----- parameters

  lemma LiteralsSealed()
    ensures Sealed("*") && Sealed("**") && Sealed(": ") && Sealed(" = ") && Sealed("")
  {
  }

  /** What follows the name of a parameter. */
  function ParamTail(annotation: string, init: string): string {
    (if annotation != "" then ": " + annotation else "") + if init != "" then " = " + init else ""
  }

  lemma TailSealed(annotation: string, init: string)
    requires TypeText(annotation) && Sealed(init)
    ensures Sealed(ParamTail(annotation, init))
  {
    LiteralsSealed();
    SealedConcat(": ", annotation);
    SealedConcat(" = ", init);
    SealedConcat(if annotation != "" then ": " + annotation else "", if init != "" then " = " + init else "");
  }

  function Stars(n: nat): string
    requires n <= 2
  {
    if n == 0 then "" else if n == 1 then "*" else "**"
  }

  predicate TailSays(tail: string, annotation: string, init: string) {
    if annotation != "" then ": " <= tail && TypeSays(tail[2..], annotation, init)
    else if init != "" then !(": " <= tail) && " = " <= tail && tail[3..] == init
    else tail == ""
  }

  predicate TypeSays(s: string, annotation: string, init: string) {
    var k := Find(s, " = ");
    if init == "" then k == |s| && s == annotation else k + 3 <= |s| && s[..k] == annotation && s[k + 3..] == init
  }

  lemma TailRead(annotation: string, init: string)
    requires TypeText(annotation)
    ensures TailSays(ParamTail(annotation, init), annotation, init)
  {
    var tail := ParamTail(annotation, init);
    if annotation != "" {
      if init == "" {
        assert tail == ": " + annotation;
        assert tail[2..] == annotation;
        NotFound(annotation, " = ");
      } else {
        assert tail[2..] == annotation + (" = " + init);
        FoundAfter(annotation, " = ", init);
        assert tail[2..][|annotation| + 3..] == init;
      }
    } else if init != "" {
      assert tail == " = " + init;
      assert tail[0] == ' ' && ": "[0] == ':';
    }
  }

  lemma NamedRead(stars: nat, name: string, annotation: string, init: string)
    requires stars <= 2 && NameText(name) && TypeText(annotation)
    ensures ReadParam(Stars(stars) + (name + ParamTail(annotation, init))) == PyParam(stars, name, annotation, init)
  {
    var tail := ParamTail(annotation, init);
    NameThenTail(stars, name, tail);
    TailRead(annotation, init);
    SaidTail(stars, name, tail, annotation, init);
  }

  lemma NameThenTail(stars: nat, name: string, tail: string)
    requires stars <= 2 && NameText(name) && (tail == "" || tail[0] == ':' || tail[0] == ' ')
    ensures ReadParam(Stars(stars) + (name + tail)) == ReadTail(stars, name, tail)
  {
    var rest := name + tail;
    var p := Stars(stars) + rest;
    assert rest[0] == name[0] && NameChar(name[0]);
    assert p[stars..] == rest;
    StarsCounted(stars, rest);
    NameEnds(name, tail);
    assert rest[..|name|] == name && rest[|name|..] == tail;
  }

  lemma SaidTail(stars: nat, name: string, tail: string, annotation: string, init: string)
    requires TailSays(tail, annotation, init)
    ensures ReadTail(stars, name, tail) == PyParam(stars, name, annotation, init)
  {
  }

  lemma StarsCounted(stars: nat, rest: string)
    requires stars <= 2 && rest != "" && rest[0] != '*'
    ensures ("**" <= Stars(stars) + rest) == (stars == 2) && ("*" <= Stars(stars) + rest) == (stars >= 1)
  {
    var p := Stars(stars) + rest;
    assert p[stars] == rest[0];
    if stars == 1 {
      assert "**"[1] == '*';
    } else if stars == 0 {
      assert "*"[0] == '*' && "**"[0] == '*';
    }
  }

  lemma FormatText(p: Param)
    requires !p.starSep
    ensures
      var m := ParamMeaning(p);
      m.stars <= 2 && FormatParam(p) == Stars(m.stars) + (p.name + ParamTail(m.annotation, m.init))
  {
    var m := ParamMeaning(p);
    var a := if m.annotation != "" then ": " + m.annotation else "";
    var b := if m.init != "" then " = " + m.init else "";
    Prepended(Stars(m.stars), p.name, a, b, "");
    assert p.name + a + b + "" == p.name + (a + b) && Stars(m.stars) + p.name + a + b + "" == Stars(m.stars) + p.name + a + b;
  }

  lemma ParamRead(p: Param)
    requires ParamReadable(p)
    ensures ReadParam(FormatParam(p)) == ParamMeaning(p)
    ensures FormatParam(p) != "" && Sealed(FormatParam(p))
  {
    LiteralsSealed();
    if p.starSep {
      assert "*"[1..] == "";
    } else {
      var m := ParamMeaning(p);
      var tail := ParamTail(m.annotation, m.init);
      FormatText(p);
      NamedRead(m.stars, p.name, m.annotation, m.init);
      NameIsSealed(p.name);
      TailSealed(m.annotation, m.init);
      SealedConcat(p.name, tail);
      SealedConcat(Stars(m.stars), p.name + tail);
    }
  }

  lemma {:induction false} ParamsRead(params: seq<Param>)
    requires ParamsReadable(params)
    ensures ReadParams(Parts(FormatParams(params))) == ParamMeanings(params)
    ensures Balanced(FormatParams(params))
  {
    if params != [] {
      ParamRead(params[0]);
      var first, rest := FormatParam(params[0]), FormatParams(params[1..]);
      if |params| == 1 {
        PartsOne(first);
        ReadParamsNext(first, []);
        assert [first] + [] == [first];
      } else {
        ParamsRead(params[1..]);
        PartsNext(first, rest);
        ReadParamsNext(first, Parts(rest));
        ListBalanced(first, rest);
      }
    }
  }

  lemma ReadParamsNext(first: string, parts: seq<string>)
    ensures ReadParams([first] + parts) == [ReadParam(first)] + ReadParams(parts)
  {
    assert ([first] + parts)[1..] == parts;
  }

  lemma ListBalanced(a: string, b: string)
    requires Balanced(a) && Balanced(b)
    ensures Balanced(a + ", " + b)
  {
    assert a + ", " + b == a + (", " + b);
    DepthAfter(a, ", " + b, 0);
    assert Balanced(", ");
    DepthAfter(", ", b, 0);
  }

  lemma {:induction false} ParamsConcat(a: seq<Param>, b: seq<Param>)
    ensures ParamMeanings(a + b) == ParamMeanings(a) + ParamMeanings(b)
  {
    if a == [] {
      assert a + b == b;
    } else {
      assert (a + b)[1..] == a[1..] + b;
      ParamsConcat(a[1..], b);
    }
  }

  lemma ReceiverWord(params: seq<Param>)
    ensures HasReceiver(params) == NamesReceiver(params)
  {
  }

  lemma PlainParam(name: string)
    requires NameText(name)
    ensures ParamReadable(Plain(name)) && ParamMeanings([Plain(name)]) == [PyParam(0, name, "", "")]
  {
  }

  lemma WordsAreNames()
    ensures NameText("self") && NameText("cls") && NameText("here") && NameText("visitor")
    ensures NameText("__init__") && NameText("__post_init__")
  {
  }

  /** The parameters of a function, with its receiver and the other side of its event. */
  lemma FuncParamsMean(f: FuncHead, c: Context)
    requires FuncReadable(f)
    ensures ParamsReadable(FuncParams(f, c))
    ensures ParamMeanings(FuncParams(f, c)) == Receiver(f, c.inClass) + ParamMeanings(f.params) + EventMeaning(f, c.archKind)
  {
    WordsAreNames();
    ReceiverWord(f.params);
    PlainParam("self");
    PlainParam("cls");
    ParamsConcat([Plain("cls")], f.params);
    ParamsConcat([Plain("self")], f.params);
    ReceiverMeans(f, c);
    EventMeans(f, c);
    var event := if f.event != "" then [Param(EventParam(c), f.trigger, "", false, false, false)] else [];
    ParamsConcat(ReceiverAdded(f, c.inClass), event);
  }

  lemma ReceiverMeans(f: FuncHead, c: Context)
    requires FuncReadable(f)
    ensures ParamsReadable(ReceiverAdded(f, c.inClass))
    ensures ParamMeanings(ReceiverAdded(f, c.inClass)) == Receiver(f, c.inClass) + ParamMeanings(f.params)
  {
    WordsAreNames();
    ReceiverWord(f.params);
    PlainParam("self");
    PlainParam("cls");
    ParamsConcat([Plain("cls")], f.params);
    ParamsConcat([Plain("self")], f.params);
    assert [] + ParamMeanings(f.params) == ParamMeanings(f.params);
  }

  lemma EventMeans(f: FuncHead, c: Context)
    requires FuncReadable(f)
    ensures
      var event := if f.event != "" then [Param(EventParam(c), f.trigger, "", false, false, false)] else [];
      ParamsReadable(event) && ParamMeanings(event) == EventMeaning(f, c.archKind)
  {
    WordsAreNames();
    if f.event != "" {
      var p := Param(EventParam(c), f.trigger, "", false, false, false);
      assert EventParam(c) == "here" || EventParam(c) == "visitor";
      assert ParamReadable(p);
      assert ParamMeanings([p]) == [ParamMeaning(p)];
    }
  }

  // ----- headers

  lemma SmallWords()
    ensures AllSmall("if") && AllSmall("elif") && AllSmall("else") && AllSmall("for") && AllSmall("while") && AllSmall("try")
    ensures AllSmall("except") && AllSmall("finally") && AllSmall("match") && AllSmall("case") && AllSmall("with")
    ensures AllSmall("def") && AllSmall("class")
  {
  }

  lemma TestsRead(test: string)
    ensures ReadHead(Header("if", test)) == IfHead(test)
    ensures ReadHead(Header("elif", test)) == ElifHead(test)
    ensures ReadHead(Header("while", test)) == WhileHead(test)
  {
    IfRead(test);
    ElifRead(test);
    WhileRead(test);
  }

  lemma IfRead(test: string)
    ensures ReadHead(Header("if", test)) == IfHead(test)
  {
    assert AllSmall("if") && KeywordOf("if") == IfWord;
    HeadRead("if", test);
  }

  lemma ElifRead(test: string)
    ensures ReadHead(Header("elif", test)) == ElifHead(test)
  {
    assert AllSmall("elif") && KeywordOf("elif") == ElifWord;
    HeadRead("elif", test);
  }

  lemma WhileRead(test: string)
    ensures ReadHead(Header("while", test)) == WhileHead(test)
  {
    assert AllSmall("while") && KeywordOf("while") == WhileWord;
    HeadRead("while", test);
  }

  lemma MatchRead(test: string)
    ensures ReadHead(Header("match", test)) == MatchHead(test)
    ensures ReadHead(Header("case", test)) == CaseHead(test)
  {
    SmallWords();
    HeadRead("match", test);
    HeadRead("case", test);
  }

  lemma ElseRead()
    ensures ReadHead("else:") == ElseHead
  {
    assert AllSmall("else");
    BareRead("else");
    assert "else" + ":" == "else:";
  }

  lemma TryRead()
    ensures ReadHead("try:") == TryHead
  {
    assert AllSmall("try");
    BareRead("try");
    assert "try" + ":" == "try:";
  }

  lemma FinallyRead()
    ensures ReadHead("finally:") == FinallyHead
  {
    assert AllSmall("finally");
    BareRead("finally");
    assert "finally" + ":" == "finally:";
  }

  lemma BareExceptRead()
    ensures ReadHead("except:") == ExceptHead("")
  {
    assert AllSmall("except");
    BareRead("except");
    assert "except" + ":" == "except:";
  }

  lemma ForLineRead(s: Stmt)
    requires s.For? && Absent(s.target, " in ")
    ensures ReadHead(LoopLine(s)) == ForHead(s.isAsync, s.target + " in " + s.iter)
    ensures ReadFor(s.target + " in " + s.iter) == Loop(s.target, s.iter)
  {
    ForRead(s.target, s.iter);
    AsyncFor();
    EitherRead("for", "async for", s.isAsync, s.target + " in " + s.iter);
  }

  /** A header with a word that may come after `async`. */
  lemma EitherRead(word: string, full: string, isAsync: bool, arg: string)
    requires AllSmall(word) && word != "" && full == "async " + word
    requires KeywordOf(word) == ForWord || KeywordOf(word) == WithWord || KeywordOf(word) == DefWord
    ensures ReadHead((if isAsync then full else word) + " " + arg + ":") == EitherHead(KeywordOf(word), isAsync, arg)
  {
    if isAsync {
      AsyncRead(word, arg);
    } else {
      HeadRead(word, arg);
    }
  }

  lemma AsyncFor()
    ensures AllSmall("for") && KeywordOf("for") == ForWord && "async for" == "async " + "for"
  {
  }

  lemma AsyncWith()
    ensures AllSmall("with") && KeywordOf("with") == WithWord && "async with" == "async " + "with"
  {
  }

  lemma AsyncDef()
    ensures AllSmall("def") && KeywordOf("def") == DefWord && "async def" == "async " + "def"
  {
  }

  lemma WithLineRead(s: Stmt)
    requires s.With?
    ensures ReadHead(LoopLine(s)) == WithHead(s.isAsync, s.items)
  {
    AsyncWith();
    EitherRead("with", "async with", s.isAsync, s.items);
  }

  lemma HandlerRead(h: Handler)
    requires Absent(h.excType, " as ")
    ensures ReadHead(HandlerLine(h)).ExceptHead?
    ensures ReadExcept(ReadHead(HandlerLine(h)).caught) == Catch(h.excType, if h.excType == "" then "" else h.excName)
  {
    if h.excType == "" {
      BareExceptRead();
      assert ReadExcept("") == Catch("", "");
    } else {
      ExceptRead(h.excType, h.excName);
      ExceptHeadRead(h.excType);
      ExceptHeadRead(h.excType + " as " + h.excName);
      Joined5("except ", h.excType, " as ", h.excName, ":");
    }
  }

  lemma ExceptHeadRead(arg: string)
    ensures ReadHead("except " + arg + ":") == ExceptHead(arg)
  {
    assert AllSmall("except") && KeywordOf("except") == ExceptWord;
    assert "except " == "except" + " ";
    HeadRead("except", arg);
  }

  lemma Joined5(a: string, b: string, c: string, d: string, e: string)
    ensures a + b + c + d + e == a + (b + c + d) + e
  {
  }

  lemma CaseRead(subject: string, pattern: string, first: bool)
    ensures ReadHead(CaseLine(subject, Some(pattern), first)) ==
            if first then IfHead(Comparison(subject, pattern)) else ElifHead(Comparison(subject, pattern))
  {
    var word := if first then "if" else "elif";
    TestsRead(Comparison(subject, pattern));
    CaseText(word, subject, pattern);
    assert (if first then "if (" else "elif (") == word + " (";
  }

  lemma CaseText(word: string, subject: string, pattern: string)
    ensures word + " (" + subject + ") == (" + pattern + "):" == word + " " + Comparison(subject, pattern) + ":"
  {
    assert " (" == " " + "(" && "):" == ")" + ":";
    Joined5("(", subject, ") == (", pattern, ")");
    var a := word + " ";
    assert word + " (" == a + "(";
    assert a + "(" + subject + ") == (" + pattern + (")" + ":") == a + ("(" + subject + ") == (" + pattern + ")") + ":";
  }

  lemma SignatureRead(name: string, params: seq<Param>, result: string)
    requires NameText(name) && ParamsReadable(params)
    ensures ReadDef(name + "(" + FormatParams(params) + ")" + Returns(result)) == Signature(name, ParamMeanings(params), result)
  {
    ParamsRead(params);
    DefRead(name, FormatParams(params), result);
  }

  lemma DefHeadRead(isAsync: bool, arg: string)
    ensures ReadHead(Header(if isAsync then "async def" else "def", arg)) == DefHead(isAsync, arg)
  {
    AsyncDef();
    EitherRead("def", "async def", isAsync, arg);
  }

  lemma FuncLineRead(f: FuncHead, c: Context)
    requires FuncReadable(f)
    ensures ReadHead(FuncLine(f, c)).DefHead? && ReadHead(FuncLine(f, c)).isAsync == f.isAsync
    ensures ReadDef(ReadHead(FuncLine(f, c)).signature) == FuncSignature(f, c)
  {
    WordsAreNames();
    FuncParamsMean(f, c);
    SignatureRead(PyName(f.name), FuncParams(f, c), f.returnType);
    assert PyName(f.name) == RuntimeName(f.name);
    DefHeadRead(f.isAsync, RuntimeName(f.name) + "(" + FormatParams(FuncParams(f, c)) + ")" + Returns(f.returnType));
  }

  lemma AccessorLineRead(name: string, a: Accessor)
    requires NameText(name) && ParamsReadable(a.params)
    ensures ReadHead(AccessorLine(name, a)).DefHead? && !ReadHead(AccessorLine(name, a)).isAsync
    ensures ReadDef(ReadHead(AccessorLine(name, a)).signature) == AccessorSignature(name, a)
  {
    WordsAreNames();
    ReceiverWord(a.params);
    PlainParam("self");
    ParamsConcat([Plain("self")], a.params);
    assert [] + ParamMeanings(a.params) == ParamMeanings(a.params);
    var params := if NamesReceiver(a.params) then a.params else [Plain("self")] + a.params;
    SignatureRead(name, params, a.returnType);
    DefHeadRead(false, name + "(" + FormatParams(params) + ")" + Returns(a.returnType));
  }

  lemma ArchBaseIs(kind: string)
    ensures "_jac_osp." + Capitalized(kind) == ArchBase(kind)
    ensures Sealed(kind) ==> Sealed(ArchBase(kind)) && ArchBase(kind) != ""
  {
    if Sealed(kind) {
      var name := Capitalized(kind);
      assert Sealed(name) by {
        KindsSealed();
      }
      RuntimeSealed();
      SealedConcat("_jac_osp.", name);
    }
  }

  lemma KindsSealed()
    ensures Sealed("Node") && Sealed("Edge") && Sealed("Walker")
  {
    NameIsSealed("Node");
    NameIsSealed("Edge");
    NameIsSealed("Walker");
  }

  lemma RuntimeSealed()
    ensures Sealed("_jac_osp.")
  {
    NameIsSealed("_jac_osp.");
  }

  lemma AbcSealed()
    ensures Sealed("_jac_abc.ABC")
  {
    NameIsSealed("_jac_abc.ABC");
  }

  /** One more base at the end of the list. */
  lemma BaseAdded(bases: string, base: string)
    requires ListText(bases) && Sealed(base) && base != ""
    ensures ListText(Listed(bases, base)) && Parts(Listed(bases, base)) == Parts(bases) + [base]
  {
    var parts := Parts(bases);
    ListingSnoc(parts, base);
    assert bases == "" <==> parts == [];
    PartsOfListing(parts + [base]);
    assert Listing(parts + [base]) == Listed(bases, base);
  }

  lemma BasesMean(k: ClassHead, body: seq<Stmt>)
    requires ClassReadable(k)
    ensures Parts(ClassBases(k, body)) == BasesMeaning(k, body)
  {
    ArchBaseMeans(k);
    AbcSealed();
    var withArch := if k.archKind != "" then Listed(k.bases, "_jac_osp." + Capitalized(k.archKind)) else k.bases;
    BaseAdded(withArch, "_jac_abc.ABC");
    AbstractSame(body);
    EndedBases(Parts(k.bases) + if k.archKind == "" then [] else [ArchBase(k.archKind)], Parts(withArch));
  }

  lemma AbstractSame(body: seq<Stmt>)
    ensures HasAbstract(body) == SomeAbstract(body)
  {
  }

  lemma EndedBases(a: seq<string>, b: seq<string>)
    requires a == b
    ensures a + [] == b
  {
  }

  lemma ArchBaseMeans(k: ClassHead)
    requires ClassReadable(k)
    ensures
      var withArch := if k.archKind != "" then Listed(k.bases, "_jac_osp." + Capitalized(k.archKind)) else k.bases;
      ListText(withArch) && Parts(withArch) == Parts(k.bases) + if k.archKind == "" then [] else [ArchBase(k.archKind)]
  {
    if k.archKind != "" {
      ArchBaseIs(k.archKind);
      BaseAdded(k.bases, ArchBase(k.archKind));
    } else {
      assert Parts(k.bases) + [] == Parts(k.bases);
    }
  }

  lemma ClassLineRead(k: ClassHead, body: seq<Stmt>)
    requires ClassReadable(k)
    ensures ReadHead(ClassLine(k, body)).ClassHead?
    ensures ReadClass(ReadHead(ClassLine(k, body)).signature) == ClassParts(k.name, k.typeParams, BasesMeaning(k, body))
  {
    var bases := ClassBases(k, body);
    BasesMean(k, body);
    ClassRead(k.name, k.typeParams, bases);
    ClassLineIs(k, body);
    ClassHeadRead(ClassArg(k, bases));
  }

  function ClassArg(k: ClassHead, bases: string): string {
    k.name + (if k.typeParams == "" then "" else "[" + k.typeParams + "]") + if bases == "" then "" else "(" + bases + ")"
  }

  lemma ClassLineIs(k: ClassHead, body: seq<Stmt>)
    ensures ClassLine(k, body) == Header("class", ClassArg(k, ClassBases(k, body)))
  {
  }

  lemma ClassHeadRead(arg: string)
    ensures ReadHead(Header("class", arg)) == Head.ClassHead(arg)
  {
    ClassKeyword();
    HeadRead("class", arg);
  }

  lemma ClassKeyword()
    ensures AllSmall("class") && KeywordOf("class") == ClassWord
  {
  }

  lemma EnumLineRead(name: string, bases: string)
    requires NameText(name)
    ensures ReadHead(EnumLine(name, bases)).ClassHead?
    ensures ReadClass(ReadHead(EnumLine(name, bases)).signature) == ClassParts(name, "", Parts(bases))
  {
    PlainClassRead(name, bases);
    ClassHeadRead(name + "(" + bases + ")");
  }

  // ----- lines

  /** A line that is a word and something after a space. */
  lemma ArgLine(line: string, arg: string)
    requires AfterWord(line) == " " + arg
    ensures FirstKeyword(line) == ReturnWord ==> ReadLine(line) == Simple.Return(arg)
    ensures FirstKeyword(line) == YieldWord ==> ReadLine(line) == Simple.Yield(arg)
    ensures FirstKeyword(line) == RaiseWord ==> ReadLine(line) == Simple.Raise(arg)
    ensures FirstKeyword(line) == AssertWord ==> ReadLine(line) == Simple.Assert(arg)
    ensures FirstKeyword(line) == DelWord ==> ReadLine(line) == Simple.Del(arg)
  {
    assert (" " + arg)[1..] == arg;
  }

  lemma BareLine(line: string)
    requires AfterWord(line) == ""
    ensures FirstKeyword(line) == PassWord ==> ReadLine(line) == Simple.Pass
    ensures FirstKeyword(line) == BreakWord ==> ReadLine(line) == Simple.Break
    ensures FirstKeyword(line) == ContinueWord ==> ReadLine(line) == Simple.Continue
    ensures FirstKeyword(line) == ReturnWord ==> ReadLine(line) == Simple.Return("")
    ensures FirstKeyword(line) == YieldWord ==> ReadLine(line) == Simple.Yield("")
    ensures FirstKeyword(line) == RaiseWord ==> ReadLine(line) == Simple.Raise("")
  {
  }

  lemma ReturnIs()
    ensures AllSmall("return") && KeywordOf("return") == ReturnWord
  {
  }

  lemma YieldIs()
    ensures AllSmall("yield") && KeywordOf("yield") == YieldWord
  {
  }

  lemma RaiseIs()
    ensures AllSmall("raise") && KeywordOf("raise") == RaiseWord
  {
  }

  lemma AssertIs()
    ensures AllSmall("assert") && KeywordOf("assert") == AssertWord && "assert " == "assert" + " "
  {
  }

  lemma DelIs()
    ensures AllSmall("del") && KeywordOf("del") == DelWord && "del " == "del" + " "
  {
  }

  lemma PassIs()
    ensures AllSmall("pass") && KeywordOf("pass") == PassWord
  {
  }

  lemma BreakIs()
    ensures AllSmall("break") && KeywordOf("break") == BreakWord
  {
  }

  lemma ContinueIs()
    ensures AllSmall("continue") && KeywordOf("continue") == ContinueWord
  {
  }

  lemma WordLine(w: string, arg: string)
    requires AllSmall(w)
    ensures FirstKeyword(w + " " + arg) == KeywordOf(w) && AfterWord(w + " " + arg) == " " + arg
    ensures FirstKeyword(w) == KeywordOf(w) && AfterWord(w) == ""
  {
    WordThen(w, arg);
    WordOnly(w);
  }

  lemma ReturnRead(value: string)
    ensures ReadLine(WithValue("return", value)) == Simple.Return(value)
  {
    ReturnIs();
    WordLine("return", value);
    ArgLine("return" + " " + value, value);
    BareLine("return");
  }

  lemma YieldRead(value: string)
    ensures ReadLine(WithValue("yield", value)) == Simple.Yield(value)
  {
    YieldIs();
    WordLine("yield", value);
    ArgLine("yield" + " " + value, value);
    BareLine("yield");
  }

  lemma RaiseRead(value: string)
    ensures ReadLine(WithValue("raise", value)) == Simple.Raise(value)
  {
    RaiseIs();
    WordLine("raise", value);
    ArgLine("raise" + " " + value, value);
    BareLine("raise");
  }

  lemma AssertRead(expr: string)
    ensures ReadLine("assert " + expr) == Simple.Assert(expr)
  {
    AssertIs();
    WordLine("assert", expr);
    ArgLine("assert " + expr, expr);
  }

  lemma DelRead(expr: string)
    ensures ReadLine("del " + expr) == Simple.Del(expr)
  {
    DelIs();
    WordLine("del", expr);
    ArgLine("del " + expr, expr);
  }

  lemma PassRead()
    ensures ReadLine("pass") == Simple.Pass
  {
    PassIs();
    WordOnly("pass");
    BareLine("pass");
  }

  lemma BreakRead()
    ensures ReadLine("break") == Simple.Break
  {
    BreakIs();
    WordOnly("break");
    BareLine("break");
  }

  lemma ContinueRead()
    ensures ReadLine("continue") == Simple.Continue
  {
    ContinueIs();
    WordOnly("continue");
    BareLine("continue");
  }

  lemma RunRead(name: string, args: string)
    requires NameText(name)
    ensures ReadLine("_jac_osp." + (name + ("(" + args + ")"))) == Run(name, Parts(args))
  {
    RunLine("_jac_osp." + (name + ("(" + args + ")")));
    RunCall(name, args);
  }

  lemma RunLine(line: string)
    requires line != "" && line[0] == '_'
    ensures ReadLine(line) == ReadRun(line)
  {
    assert WordEnd(line) == 0 && line[..0] == "";
  }

  lemma RunCall(name: string, args: string)
    requires NameText(name)
    ensures ReadRun("_jac_osp." + (name + ("(" + args + ")"))) == Run(name, Parts(args))
  {
    var call := name + ("(" + args + ")");
    RunRest(call);
    CallIs("_jac_osp." + call, name, args);
  }

  lemma CallIs(line: string, name: string, args: string)
    requires NameText(name)
    ensures ReadCall(line, name + ("(" + args + ")")) == Run(name, Parts(args))
  {
    CallParts(name, args);
  }

  lemma RunRest(call: string)
    ensures ReadRun("_jac_osp." + call) == ReadCall("_jac_osp." + call, call)
  {
    assert ("_jac_osp." + call)[9..] == call;
  }

  lemma CallParts(name: string, args: string)
    requires NameText(name)
    ensures
      var call := name + ("(" + args + ")");
      && ToBracket(call) == |name| && call[|name|] == '(' && call[|call| - 1] == ')'
      && call[..|name|] == name && call[|name| + 1..|call| - 1] == args
  {
    BracketAfter(name, "(" + args + ")");
  }

  /** A call of the runtime as it is written: its name up to the bracket, arguments, bracket. */
  lemma CallRead(name: string, before: string, args: string)
    requires NameText(name) && before == "_jac_osp." + (name + "(")
    ensures ReadLine(before + args + ")") == Run(name, Parts(args))
  {
    RunRead(name, args);
    CallText("_jac_osp.", name, "(", args, ")");
  }

  lemma CallText(a: string, b: string, c: string, d: string, e: string)
    ensures a + (b + c) + d + e == a + (b + (c + d + e))
  {
  }

  lemma DestroyWord()
    ensures NameText("destroy0") && "_jac_osp.destroy0(" == "_jac_osp." + ("destroy0" + "(")
  {
  }

  lemma DisengageWord()
    ensures NameText("disengage0") && "_jac_osp.disengage0(" == "_jac_osp." + ("disengage0" + "(")
  {
  }

  lemma VisitWord()
    ensures NameText("visit0") && "_jac_osp.visit0(" == "_jac_osp." + ("visit0" + "(")
  {
  }

  lemma DestroyRead(expr: string)
    ensures ReadLine(DestroyLine(expr)) == Run("destroy0", Parts(expr))
  {
    DestroyWord();
    CallRead("destroy0", "_jac_osp.destroy0(", expr);
  }

  lemma WalkersSame(c: Context)
    ensures WalkerReceiver(c) == WalkerName(c.archKind) && Sealed(WalkerName(c.archKind)) && WalkerName(c.archKind) != ""
  {
    NameIsSealed("visitor");
    NameIsSealed("self");
  }

  lemma DisengageRead(c: Context)
    ensures ReadLine(DisengageLine(c)) == Run("disengage0", [WalkerName(c.archKind)])
  {
    WalkersSame(c);
    PartsOne(WalkerName(c.archKind));
    DisengageWord();
    CallRead("disengage0", "_jac_osp.disengage0(", WalkerName(c.archKind));
  }

  lemma VisitRead(expr: string, place: Option<string>, c: Context)
    requires place.Some? ==> Sealed(expr)
    ensures ReadLine(VisitLine(expr, place, c)) ==
            Run("visit0", [WalkerName(c.archKind)] + if place.None? then Parts(expr) else [expr] + Parts(place.value))
  {
    var name, end := WalkerName(c.archKind), if place.Some? then ", " + place.value else "";
    WalkersSame(c);
    VisitArgs(name, expr, place);
    VisitWord();
    CallRead("visit0", "_jac_osp.visit0(", name + ", " + (expr + end));
    VisitText("_jac_osp.visit0(", name, ", ", expr, end);
  }

  lemma VisitArgs(name: string, expr: string, place: Option<string>)
    requires Sealed(name) && (place.Some? ==> Sealed(expr))
    ensures Parts(name + ", " + (expr + if place.Some? then ", " + place.value else ""))
         == [name] + if place.None? then Parts(expr) else [expr] + Parts(place.value)
  {
    if place.Some? {
      TwoListed(name, expr, place.value);
    } else {
      PartsNext(name, expr);
      assert expr + "" == expr;
    }
  }

  lemma TwoListed(a: string, b: string, c: string)
    requires Sealed(a) && Sealed(b)
    ensures Parts(a + ", " + (b + (", " + c))) == [a] + ([b] + Parts(c))
  {
    PartsNext(b, c);
    assert b + (", " + c) == b + ", " + c;
    PartsNext(a, b + ", " + c);
  }

  lemma VisitText(a: string, b: string, c: string, d: string, e: string)
    ensures a + b + c + d + e == a + (b + c + (d + e))
  {
  }

  lemma Prepended(a: string, b: string, c: string, d: string, e: string)
    ensures a + b + c + d + e == a + (b + c + d + e)
  {
  }

  // ----- trees

  lemma {:induction false} NoBlanksConcat(a: seq<Tree>, b: seq<Tree>)
    ensures NoBlanks(a + b) == NoBlanks(a) + NoBlanks(b)
  {
    if a == [] {
      assert a + b == b;
    } else {
      assert (a + b)[1..] == a[1..] + b;
      NoBlanksConcat(a[1..], b);
    }
  }

  lemma OneTree(t: Tree)
    ensures NoBlanks([t]) == NoBlank(t)
  {
    assert NoBlanks([]) == [];
  }

  lemma LineNext(line: Text, rest: seq<Tree>)
    requires PlainLine(line)
    ensures ReadStmts([Line(line)] + rest) == [LineMeaning(line)] + ReadStmts(rest)
    ensures !StartsClause([Line(line)] + rest)
  {
    var ts := [Line(line)] + rest;
    assert ts[0] == Line(line) && ts[1..] == rest;
  }

  predicate OneSuite(h: Head) {
    h.ForHead? || h.WhileHead? || h.WithHead? || h.MatchHead?
  }

  /** The statement of one header and its suite. */
  function OneStmt(h: Head, body: seq<Tree>): Py
    requires OneSuite(h)
  {
    if h.ForHead? then PyFor(h.isAsync, ReadFor(h.loop), ReadStmts(body))
    else if h.WhileHead? then PyWhile(h.test, ReadStmts(body))
    else if h.WithHead? then PyWith(h.isAsync, h.items, ReadStmts(body))
    else PyMatch(h.subject, ReadCases(body))
  }

  lemma LoopNext(header: Text, body: seq<Tree>, rest: seq<Tree>)
    requires OneSuite(ReadHead(header))
    ensures ReadStmts([Suite(header, body)] + rest) == [OneStmt(ReadHead(header), body)] + ReadStmts(rest)
    ensures !StartsClause([Suite(header, body)] + rest)
  {
    var ts := [Suite(header, body)] + rest;
    assert ts[0] == Suite(header, body) && ts[1..] == rest;
  }

  lemma IfNext(header: Text, body: seq<Tree>, rest: seq<Tree>, elifs: seq<PyBranch>, middle: seq<Tree>,
               otherwise: seq<Py>, last: seq<Tree>)
    requires ReadHead(header).IfHead? && ReadElifs(rest) == (elifs, middle) && ReadElse(middle) == (otherwise, last)
    ensures
      var ts := [Suite(header, body)] + rest;
      ReadStmts(ts) == [PyIf([PyBranch(ReadHead(header).test, ReadStmts(body))] + elifs, otherwise)] + ReadStmts(last)
      && !StartsClause(ts)
  {
    var ts := [Suite(header, body)] + rest;
    assert ts[0] == Suite(header, body) && ts[1..] == rest;
  }

  lemma TryNext(header: Text, body: seq<Tree>, rest: seq<Tree>, handlers: seq<PyHandler>, middle: seq<Tree>,
                otherwise: seq<Py>, more: seq<Tree>, cleanup: seq<Py>, last: seq<Tree>)
    requires ReadHead(header).TryHead? && ReadHandlers(rest) == (handlers, middle)
    requires ReadElse(middle) == (otherwise, more) && ReadFinally(more) == (cleanup, last)
    ensures
      var ts := [Suite(header, body)] + rest;
      ReadStmts(ts) == [PyTry(ReadStmts(body), handlers, otherwise, cleanup)] + ReadStmts(last) && !StartsClause(ts)
  {
    var ts := [Suite(header, body)] + rest;
    assert ts[0] == Suite(header, body) && ts[1..] == rest;
  }

  /** Decorators are collected until what they decorate. */
  lemma {:induction false} MarksRead(before: seq<string>, marks: seq<string>, rest: seq<Tree>)
    ensures ReadDecorated(before, Decorators(marks) + rest) == ReadDecorated(before + marks, rest)
    decreases |marks|
  {
    if marks == [] {
      assert Decorators(marks) + rest == rest && before + marks == before;
    } else {
      var t := Line("@" + marks[0]);
      var ts := Decorators(marks) + rest;
      assert ts[0] == t && ts[1..] == Decorators(marks[1..]) + rest;
      assert t.text[1..] == marks[0];
      MarksRead(before + [marks[0]], marks[1..], rest);
      FirstMoved(before, marks);
    }
  }

  lemma FirstMoved(before: seq<string>, marks: seq<string>)
    requires marks != []
    ensures before + [marks[0]] + marks[1..] == before + marks
  {
  }

  lemma MarkedRead(marks: seq<string>, header: Text, body: seq<Tree>, rest: seq<Tree>)
    requires ReadHead(header).DefHead? || ReadHead(header).ClassHead?
    ensures
      var ts := Decorators(marks) + ([Suite(header, body)] + rest);
      ReadStmts(ts) == ReadDecorated(marks, [Suite(header, body)] + rest) && !StartsClause(ts)
  {
    var one := [Suite(header, body)] + rest;
    var ts := Decorators(marks) + one;
    assert one[0] == Suite(header, body);
    MarksRead([], marks, one);
    assert [] + marks == marks;
    if marks == [] {
      assert ts == one;
    } else {
      assert ts[0] == Line("@" + marks[0]);
    }
  }

  lemma DefNext(marks: seq<string>, header: Text, body: seq<Tree>, rest: seq<Tree>)
    requires ReadHead(header).DefHead?
    ensures
      var ts, h := Decorators(marks) + ([Suite(header, body)] + rest), ReadHead(header);
      ReadStmts(ts) == [PyDef(marks, h.isAsync, ReadDef(h.signature), ReadStmts(body))] + ReadStmts(rest)
      && !StartsClause(ts)
  {
    MarkedRead(marks, header, body, rest);
    var one := [Suite(header, body)] + rest;
    assert one[0] == Suite(header, body) && one[1..] == rest;
  }

  lemma ClassNext(marks: seq<string>, header: Text, body: seq<Tree>, rest: seq<Tree>)
    requires ReadHead(header).ClassHead?
    ensures
      var ts, h := Decorators(marks) + ([Suite(header, body)] + rest), ReadHead(header);
      ReadStmts(ts) == [PyClass(marks, ReadClass(h.signature), ReadStmts(body))] + ReadStmts(rest)
      && !StartsClause(ts)
  {
    MarkedRead(marks, header, body, rest);
    var one := [Suite(header, body)] + rest;
    assert one[0] == Suite(header, body) && one[1..] == rest;
  }

  lemma {:induction false} DecoratorsConcat(a: seq<string>, b: seq<string>)
    ensures Decorators(a + b) == Decorators(a) + Decorators(b)
  {
    if a == [] {
      assert a + b == b;
    } else {
      assert (a + b)[1..] == a[1..] + b;
      DecoratorsConcat(a[1..], b);
    }
  }

  lemma OneDecorator(mark: string)
    ensures Decorators([mark]) == [Line("@" + mark)]
  {
    assert Decorators([]) == [];
  }

  lemma {:induction false} DecoratorsKept(marks: seq<string>)
    ensures NoBlanks(Decorators(marks)) == Decorators(marks)
  {
    if marks != [] {
      DecoratorsKept(marks[1..]);
    }
  }

  lemma ClassMarksAre(k: ClassHead)
    ensures ClassDecorators(k) == Decorators(ClassMarks(k))
  {
    OneDecorator("_jac_make_object");
    assert "@" + "_jac_make_object" == "@_jac_make_object";
    DecoratorsConcat(k.decorators, ["_jac_make_object"]);
    assert k.decorators + [] == k.decorators;
  }

  lemma EventMarksAre(f: FuncHead)
    ensures EventDecorators(f.event, f.trigger) ==
            Decorators((if f.event == "" then [] else ["_jac_osp.on_" + f.event])
                       + if f.event == "" || f.trigger == "" then [] else ["_jac_osp.set_trigger(lambda: " + f.trigger + ")"])
  {
    var on, when := "_jac_osp.on_" + f.event, "_jac_osp.set_trigger(lambda: " + f.trigger + ")";
    OneDecorator(on);
    OneDecorator(when);
    DecoratorsConcat([on], [when]);
    assert "@" + "_jac_osp.on_" == "@_jac_osp.on_";
    assert "@" + ("_jac_osp.on_" + f.event) == "@_jac_osp.on_" + f.event;
    SetTriggerText(f.trigger);
  }

  lemma SetTriggerText(trigger: string)
    ensures "@" + ("_jac_osp.set_trigger(lambda: " + trigger + ")") == "@_jac_osp.set_trigger(lambda: " + trigger + ")"
  {
    var word := "_jac_osp.set_trigger(lambda: ";
    assert "@" + word == "@_jac_osp.set_trigger(lambda: ";
    assert "@" + (word + trigger + ")") == "@" + word + trigger + ")";
  }

  lemma FlagMarksAre(f: FuncHead)
    ensures FlagDecorators(f) ==
            Decorators((if f.isClassmethod then ["classmethod"] else []) + (if f.isStatic then ["staticmethod"] else [])
                       + (if f.isAbstract then ["_jac_abc.abstractmethod"] else []))
  {
    var a := if f.isClassmethod then ["classmethod"] else [];
    var b := if f.isStatic then ["staticmethod"] else [];
    var d := if f.isAbstract then ["_jac_abc.abstractmethod"] else [];
    ClassmethodText();
    StaticText();
    AbstractText();
    assert Decorators([]) == [];
    DecoratorsConcat(a, b);
    DecoratorsConcat(a + b, d);
  }

  lemma ClassmethodText()
    ensures Decorators(["classmethod"]) == [Line("@classmethod")]
  {
    OneDecorator("classmethod");
    assert "@" + "classmethod" == "@classmethod";
  }

  lemma StaticText()
    ensures Decorators(["staticmethod"]) == [Line("@staticmethod")]
  {
    OneDecorator("staticmethod");
    assert "@" + "staticmethod" == "@staticmethod";
  }

  lemma AbstractText()
    ensures Decorators(["_jac_abc.abstractmethod"]) == [Line("@_jac_abc.abstractmethod")]
  {
    OneDecorator("_jac_abc.abstractmethod");
    assert "@" + "_jac_abc.abstractmethod" == "@_jac_abc.abstractmethod";
  }

  function EventMarks(f: FuncHead): seq<string> {
    (if f.event == "" then [] else ["_jac_osp.on_" + f.event])
    + if f.event == "" || f.trigger == "" then [] else ["_jac_osp.set_trigger(lambda: " + f.trigger + ")"]
  }

  function FlagMarks(f: FuncHead): seq<string> {
    (if f.isClassmethod then ["classmethod"] else []) + (if f.isStatic then ["staticmethod"] else [])
    + (if f.isAbstract then ["_jac_abc.abstractmethod"] else [])
  }

  lemma Regrouped<T>(a: seq<T>, b: seq<T>, c: seq<T>, d: seq<T>, e: seq<T>, f: seq<T>)
    ensures a + b + c + d + e + f == a + (b + c) + (d + e + f)
  {
  }

  lemma FuncMarksAre(f: FuncHead)
    ensures FuncDecorators(f) == Decorators(FuncMarks(f))
  {
    EventMarksAre(f);
    FlagMarksAre(f);
    DecoratorsConcat(f.decorators, EventMarks(f));
    DecoratorsConcat(f.decorators + EventMarks(f), FlagMarks(f));
    Regrouped(f.decorators, if f.event == "" then [] else ["_jac_osp.on_" + f.event],
              if f.event == "" || f.trigger == "" then [] else ["_jac_osp.set_trigger(lambda: " + f.trigger + ")"],
              if f.isClassmethod then ["classmethod"] else [], if f.isStatic then ["staticmethod"] else [],
              if f.isAbstract then ["_jac_abc.abstractmethod"] else []);
  }

  // ----- statements

  /** What has been read of some trees, before others that go on nothing. */
  ghost predicate Reads(ts: seq<Tree>, rest: seq<Tree>, ps: seq<Py>) {
    ReadStmts(NoBlanks(ts) + rest) == ps + ReadStmts(rest) && !StartsClause(NoBlanks(ts) + rest)
  }

  lemma ReadsNothing(rest: seq<Tree>)
    requires !StartsClause(rest)
    ensures Reads([], rest, [])
  {
    assert NoBlanks([]) + rest == rest;
    assert [] + ReadStmts(rest) == ReadStmts(rest);
  }

  lemma ReadsThen(a: seq<Tree>, b: seq<Tree>, rest: seq<Tree>, ps: seq<Py>, qs: seq<Py>)
    requires Reads(a, NoBlanks(b) + rest, ps) && Reads(b, rest, qs)
    ensures Reads(a + b, rest, ps + qs)
  {
    NoBlanksConcat(a, b);
    Grouped(NoBlanks(a), NoBlanks(b), rest);
    Grouped(ps, qs, ReadStmts(rest));
  }

  lemma Grouped<T>(a: seq<T>, b: seq<T>, c: seq<T>)
    ensures a + b + c == a + (b + c)
  {
  }

  lemma LineReads(line: Text, rest: seq<Tree>)
    requires PlainLine(line)
    ensures Reads([Line(line)], rest, [LineMeaning(line)])
  {
    OneTree(Line(line));
    LineNext(line, rest);
  }

  lemma {:induction false} LinesRead(lines: seq<Text>, rest: seq<Tree>)
    requires !StartsClause(rest) && forall i :: 0 <= i < |lines| ==> PlainLine(lines[i])
    ensures Reads(Lines(lines), rest, LineMeanings(lines))
  {
    if lines == [] {
      ReadsNothing(rest);
    } else {
      LinesRead(lines[1..], rest);
      LineReads(lines[0], NoBlanks(Lines(lines[1..])) + rest);
      ReadsThen([Line(lines[0])], Lines(lines[1..]), rest, [LineMeaning(lines[0])], LineMeanings(lines[1..]));
    }
  }

  lemma ImportReads(s: Stmt, c: Context, rest: seq<Tree>)
    requires s.Import? && PlainLine(s.line) && !StartsClause(rest)
    ensures Reads(Outline(s, c), rest, Meaning(s, c))
  {
    if s.isTyped {
      TypedReads(s.line, rest);
    } else {
      LineReads(s.line, rest);
    }
  }

  lemma TypedReads(line: Text, rest: seq<Tree>)
    requires PlainLine(line) && !StartsClause(rest)
    ensures Reads([Suite("if TYPE_CHECKING:", [Line(line)])], rest, [PyIf([PyBranch("TYPE_CHECKING", [LineMeaning(line)])], [])])
  {
    TypeCheckingRead();
    LineIf("if TYPE_CHECKING:", "TYPE_CHECKING", line, rest);
  }

  lemma LineIf(header: Text, test: string, line: Text, rest: seq<Tree>)
    requires ReadHead(header) == IfHead(test) && PlainLine(line) && !StartsClause(rest)
    ensures Reads([Suite(header, [Line(line)])], rest, [PyIf([PyBranch(test, [LineMeaning(line)])], [])])
  {
    LineSuite(line);
    LoneIf(header, [Line(line)], rest);
  }

  lemma LineSuite(line: Text)
    requires PlainLine(line)
    ensures ReadStmts(NoBlanks([Line(line)])) == [LineMeaning(line)]
  {
    LineReads(line, []);
    EndReads([Line(line)], [LineMeaning(line)]);
  }

  /** An `if` without more branches. */
  lemma LoneIf(header: Text, body: seq<Tree>, rest: seq<Tree>)
    requires ReadHead(header).IfHead? && !StartsClause(rest)
    ensures Reads([Suite(header, body)], rest, [PyIf([PyBranch(ReadHead(header).test, ReadStmts(NoBlanks(body)))], [])])
  {
    SuiteKept(header, body);
    NothingMore(rest);
    IfNext(header, NoBlanks(body), rest, [], rest, [], rest);
    var branch := PyBranch(ReadHead(header).test, ReadStmts(NoBlanks(body)));
    assert [branch] + [] == [branch];
  }

  lemma TypeCheckingRead()
    ensures ReadHead("if TYPE_CHECKING:") == IfHead("TYPE_CHECKING")
  {
    TestsRead("TYPE_CHECKING");
    TypeCheckingText();
  }

  lemma TypeCheckingText()
    ensures Header("if", "TYPE_CHECKING") == "if TYPE_CHECKING:"
  {
    var a, b, c := "if" + " ", "TYPE_CHECKING", ":";
    assert a == "if " && b + c == "TYPE_CHECKING:";
    assert "if " + "TYPE_CHECKING:" == "if TYPE_CHECKING:";
    Grouped(a, b, c);
  }

  lemma NothingMore(rest: seq<Tree>)
    requires !StartsClause(rest)
    ensures ReadElifs(rest) == ([], rest) && ReadElse(rest) == ([], rest)
    ensures ReadFinally(rest) == ([], rest) && ReadHandlers(rest) == ([], rest)
  {
  }

  lemma SimpleReads(s: Stmt, c: Context, rest: seq<Tree>)
    requires Readable(s) && !StartsClause(rest)
    requires s.Return? || s.Yield? || s.Raise? || s.Assert? || s.Visit? || s.Pass? || s.Break? || s.Continue?
    ensures Reads(Outline(s, c), rest, Meaning(s, c))
  {
    LinePlain(s, c);
    LineReads(OneLine(s, c).value, rest);
    SimpleMeans(s, c);
  }

  lemma SimpleMeans(s: Stmt, c: Context)
    requires Readable(s) && OneLine(s, c).Some?
    requires s.Return? || s.Yield? || s.Raise? || s.Assert? || s.Visit? || s.Pass? || s.Break? || s.Continue?
    ensures Meaning(s, c) == [LineMeaning(OneLine(s, c).value)]
  {
    if s.Return? {
      ReturnRead(s.expr);
    } else if s.Yield? {
      YieldRead(s.expr);
    } else if s.Raise? {
      RaiseRead(s.expr);
    } else if s.Assert? {
      AssertRead(s.expr);
    } else if s.Visit? {
      VisitRead(s.expr, s.place, c);
    } else {
      BareMeans(s, c);
    }
  }

  lemma BareMeans(s: Stmt, c: Context)
    requires s.Pass? || s.Break? || s.Continue?
    ensures OneLine(s, c).Some? && Meaning(s, c) == [LineMeaning(OneLine(s, c).value)]
  {
    BareLineIs(s, c);
    PassRead();
    BreakRead();
    ContinueRead();
    BareMeaningIs(s, c);
  }

  lemma BareMeaningIs(s: Stmt, c: Context)
    requires s.Pass? || s.Break? || s.Continue?
    ensures Meaning(s, c) == [PyLine(if s.Pass? then Simple.Pass else if s.Break? then Simple.Break else Simple.Continue)]
  {
  }

  lemma BareLineIs(s: Stmt, c: Context)
    requires s.Pass? || s.Break? || s.Continue?
    ensures OneLine(s, c) == Option<Text>.Some(if s.Pass? then "pass" else if s.Break? then "break" else "continue")
  {
  }

  lemma LinePlain(s: Stmt, c: Context)
    requires s.Return? || s.Yield? || s.Raise? || s.Assert? || s.Visit? || s.Pass? || s.Break? || s.Continue?
    ensures OneLine(s, c).Some? && PlainLine(OneLine(s, c).value) && Outline(s, c) == [Line(OneLine(s, c).value)]
  {
  }

  lemma TwoLinesRead(a: Text, b: Text, rest: seq<Tree>)
    requires PlainLine(a) && PlainLine(b)
    ensures Reads([Line(a), Line(b)], rest, [LineMeaning(a), LineMeaning(b)])
  {
    LineReads(b, rest);
    LineReads(a, NoBlanks([Line(b)]) + rest);
    ReadsThen([Line(a)], [Line(b)], rest, [LineMeaning(a)], [LineMeaning(b)]);
    assert [Line(a)] + [Line(b)] == [Line(a), Line(b)];
  }

  lemma DeleteReads(s: Stmt, c: Context, rest: seq<Tree>)
    requires s.Delete? && Readable(s) && !StartsClause(rest)
    ensures Reads(Outline(s, c), rest, Meaning(s, c))
  {
    if s.clear.Some? {
      LineReads(s.clear.value, rest);
    } else {
      DestroyReads(s.expr, rest);
      DeleteMeans(s.expr, c);
    }
  }

  lemma DeleteMeans(expr: string, c: Context)
    ensures
      var run, s := PyLine(Run("destroy0", Parts(expr))), Delete(expr, None);
      if "_jac_osp." <= expr then Outline(s, c) == [Line(DestroyLine(expr))] && Meaning(s, c) == [run]
      else Outline(s, c) == [Line(DestroyLine(expr)), Line("del " + expr)] && Meaning(s, c) == [run, PyLine(Del(expr))]
  {
  }

  lemma DestroyReads(expr: string, rest: seq<Tree>)
    ensures Reads([Line(DestroyLine(expr))], rest, [PyLine(Run("destroy0", Parts(expr)))])
    ensures Reads([Line(DestroyLine(expr)), Line("del " + expr)], rest, [PyLine(Run("destroy0", Parts(expr))), PyLine(Del(expr))])
  {
    DestroyRead(expr);
    DelRead(expr);
    LinesArePlain(expr);
    LineReads(DestroyLine(expr), rest);
    TwoLinesRead(DestroyLine(expr), "del " + expr, rest);
  }

  lemma LinesArePlain(expr: string)
    ensures PlainLine(DestroyLine(expr)) && PlainLine("del " + expr)
  {
  }

  lemma DisengageReads(c: Context, rest: seq<Tree>)
    requires !StartsClause(rest)
    ensures Reads(Outline(Disengage, c), rest, Meaning(Disengage, c))
  {
    ReturnPlain(c);
    TwoLinesRead(DisengageLine(c), "return", rest);
    DisengageRead(c);
    BareReturnRead();
    DisengageMeans(c);
  }

  lemma BareReturnRead()
    ensures ReadLine("return") == Simple.Return("")
  {
    ReturnRead("");
  }

  lemma DisengageMeans(c: Context)
    ensures Meaning(Disengage, c) == [PyLine(Run("disengage0", [WalkerName(c.archKind)])), PyLine(Simple.Return(""))]
    ensures Outline(Disengage, c) == [Line(DisengageLine(c)), Line("return")]
  {
  }

  lemma ReturnPlain(c: Context)
    ensures PlainLine(DisengageLine(c)) && PlainLine("return") && WithValue("return", "") == "return"
  {
  }

  lemma SuiteKept(header: Text, body: seq<Tree>)
    ensures NoBlanks([Suite(header, body)]) == [Suite(header, NoBlanks(body))]
  {
    OneTree(Suite(header, body));
  }

  /** Decorators, a suite and a blank, as for functions and classes. */
  lemma MarkedKept(marks: seq<string>, header: Text, body: seq<Tree>, rest: seq<Tree>)
    ensures NoBlanks(Decorators(marks) + [Suite(header, body), Blank]) + rest
         == Decorators(marks) + ([Suite(header, NoBlanks(body))] + rest)
  {
    DecoratorsKept(marks);
    SuiteKept(header, body);
    OneTree(Blank);
    NoBlanksConcat(Decorators(marks), [Suite(header, body), Blank]);
    NoBlanksConcat([Suite(header, body)], [Blank]);
    assert [Suite(header, body)] + [Blank] == [Suite(header, body), Blank];
    assert NoBlanks([Suite(header, body), Blank]) == [Suite(header, NoBlanks(body))];
  }

  lemma ClassReads(s: Stmt, c: Context, rest: seq<Tree>)
    requires s.Class? && Readable(s) && !StartsClause(rest)
    ensures Reads(Outline(s, c), rest, Meaning(s, c))
    decreases s, 0
  {
    var inner := Context(true, s.cls.archKind);
    var line, body := ClassLine(s.cls, s.body), Body(s.body, inner);
    ClassMarksAre(s.cls);
    ClassLineRead(s.cls, s.body);
    BodyBack(s.body, inner);
    MarkedKept(ClassMarks(s.cls), line, body, rest);
    ClassNext(ClassMarks(s.cls), line, NoBlanks(body), rest);
  }

  lemma EnumReads(s: Stmt, c: Context, rest: seq<Tree>)
    requires s.Enum? && Readable(s) && !StartsClause(rest)
    ensures Reads(Outline(s, c), rest, Meaning(s, c))
    decreases s, 0
  {
    var line, body := EnumLine(s.name, s.bases), Body(s.body, c);
    EnumLineRead(s.name, s.bases);
    BodyBack(s.body, c);
    MarkedKept(s.decorators, line, body, rest);
    ClassNext(s.decorators, line, NoBlanks(body), rest);
  }

  lemma FuncReads(s: Stmt, c: Context, rest: seq<Tree>)
    requires s.Func? && Readable(s) && !StartsClause(rest)
    ensures Reads(Outline(s, c), rest, Meaning(s, c))
    decreases s, 0
  {
    var inner := c.(inClass := false);
    var line, body := FuncLine(s.func, c), Body(s.body, inner);
    FuncMarksAre(s.func);
    FuncLineRead(s.func, c);
    BodyBack(s.body, inner);
    MarkedKept(FuncMarks(s.func), line, body, rest);
    DefNext(FuncMarks(s.func), line, NoBlanks(body), rest);
  }

  lemma AccessorReads(name: string, a: Accessor, c: Context, rest: seq<Tree>)
    requires NameText(name) && AccessorReadable(a) && !a.isStub && !StartsClause(rest)
    ensures Reads(AccessorOutline(name, a, c), rest,
                  [AccessorMeaning(name, a, c)])
    decreases a, 0
  {
    var inner := c.(inClass := false);
    var line, body, mark := AccessorLine(name, a), Body(a.body, inner), AccessorMark(a.kind, name);
    AccessorLineRead(name, a);
    BodyBack(a.body, inner);
    AccessorMarkIs(a.kind, name);
    MarkedKept([mark], line, body, rest);
    assert AccessorOutline(name, a, c) == Decorators([mark]) + [Suite(line, body), Blank];
    DefNext([mark], line, NoBlanks(body), rest);
  }

  lemma AccessorMarkIs(kind: AccessorKind, name: string)
    ensures Decorators([AccessorMark(kind, name)]) == [Line(AccessorDecorator(kind, name))]
  {
    OneDecorator(AccessorMark(kind, name));
    assert "@" + "property" == "@property";
    assert "@" + (name + ".setter") == "@" + name + ".setter" && "@" + (name + ".deleter") == "@" + name + ".deleter";
  }

  lemma {:induction false} AccessorsRead(name: string, accessors: seq<Accessor>, c: Context, rest: seq<Tree>)
    requires NameText(name) && !StartsClause(rest) && forall i :: 0 <= i < |accessors| ==> AccessorReadable(accessors[i])
    ensures Reads(Accessors(name, accessors, c), rest, AccessorMeanings(name, accessors, c))
    decreases accessors, 1
  {
    if accessors == [] {
      ReadsNothing(rest);
    } else {
      var a, more := accessors[0], Accessors(name, accessors[1..], c);
      AccessorsRead(name, accessors[1..], c, rest);
      if a.isStub {
        assert [] + more == more && [] + AccessorMeanings(name, accessors[1..], c) == AccessorMeanings(name, accessors[1..], c);
      } else {
        AccessorReads(name, a, c, NoBlanks(more) + rest);
        ReadsThen(AccessorOutline(name, a, c), more, rest,
                  [AccessorMeaning(name, a, c)],
                  AccessorMeanings(name, accessors[1..], c));
      }
    }
  }

  lemma {:induction false} FieldsRead(isStatic: bool, fields: seq<Field>, c: Context, rest: seq<Tree>)
    requires !StartsClause(rest) && forall i :: 0 <= i < |fields| ==> FieldReadable(isStatic, fields[i])
    ensures Reads(Fields(isStatic, fields, c), rest, FieldMeanings(isStatic, fields, c))
    decreases fields
  {
    if fields == [] {
      ReadsNothing(rest);
    } else {
      var f, more := fields[0], Fields(isStatic, fields[1..], c);
      FieldsRead(isStatic, fields[1..], c, rest);
      if isStatic || f.accessors == [] {
        LineReads(f.line, NoBlanks(more) + rest);
      } else {
        AccessorsRead(f.name, f.accessors, c, NoBlanks(more) + rest);
      }
      ReadsThen(FieldOutline(isStatic, f, c), more, rest,
                if isStatic || f.accessors == [] then [LineMeaning(f.line)] else AccessorMeanings(f.name, f.accessors, c),
                FieldMeanings(isStatic, fields[1..], c));
    }
  }

  lemma OneSuiteReads(header: Text, body: seq<Tree>, rest: seq<Tree>)
    requires OneSuite(ReadHead(header))
    ensures Reads([Suite(header, body)], rest, [OneStmt(ReadHead(header), NoBlanks(body))])
  {
    SuiteKept(header, body);
    LoopNext(header, NoBlanks(body), rest);
  }

  lemma LoopReads(s: Stmt, c: Context, rest: seq<Tree>)
    requires (s.For? || s.While? || s.With?) && Readable(s)
    ensures Reads(Outline(s, c), rest, Meaning(s, c))
    decreases s, 0
  {
    BodyBack(s.body, c);
    if s.For? {
      ForLineRead(s);
    } else if s.While? {
      TestsRead(s.test);
    } else {
      WithLineRead(s);
    }
    OneSuiteReads(LoopLine(s), Body(s.body, c), rest);
  }

  lemma {:induction false} CasesRead(cases: seq<Branch>, c: Context)
    requires forall i :: 0 <= i < |cases| ==> AllReadable(cases[i].body)
    ensures ReadCases(NoBlanks(Cases(cases, c))) == Branches(cases, c)
    decreases cases
  {
    if cases != [] {
      var header, body, more := Header("case", cases[0].test), Body(cases[0].body, c), Cases(cases[1..], c);
      MatchRead(cases[0].test);
      BodyBack(cases[0].body, c);
      CasesRead(cases[1..], c);
      SuiteKept(header, body);
      NoBlanksConcat([Suite(header, body)], more);
      var ts := [Suite(header, NoBlanks(body))] + NoBlanks(more);
      assert ts[0] == Suite(header, NoBlanks(body)) && ts[1..] == NoBlanks(more);
    }
  }

  lemma MatchReads(s: Stmt, c: Context, rest: seq<Tree>)
    requires s.Match? && Readable(s)
    ensures Reads(Outline(s, c), rest, Meaning(s, c))
    decreases s, 0
  {
    MatchRead(s.subject);
    CasesRead(s.cases, c);
    OneSuiteReads(Header("match", s.subject), Cases(s.cases, c), rest);
  }

  lemma {:induction false} ElifsRead(branches: seq<Branch>, c: Context, rest: seq<Tree>)
    requires forall i :: 0 <= i < |branches| ==> AllReadable(branches[i].body)
    requires rest != [] ==> !HeadOf(rest[0]).ElifHead?
    ensures ReadElifs(NoBlanks(Elifs(branches, c)) + rest) == (Branches(branches, c), rest)
    decreases branches
  {
    if branches == [] {
      assert NoBlanks([]) + rest == rest;
    } else {
      var header, body, more := Header("elif", branches[0].test), Body(branches[0].body, c), Elifs(branches[1..], c);
      TestsRead(branches[0].test);
      BodyBack(branches[0].body, c);
      ElifsRead(branches[1..], c, rest);
      SuiteFirst(header, body, more, rest);
      ElifNext(NoBlanks([Suite(header, body)] + more) + rest, Suite(header, NoBlanks(body)), NoBlanks(more) + rest);
    }
  }

  lemma ElifNext(ts: seq<Tree>, first: Tree, more: seq<Tree>)
    requires ts != [] && ts[0] == first && ts[1..] == more && first.Suite? && ReadHead(first.header).ElifHead?
    ensures
      var (elifs, rest) := ReadElifs(more);
      ReadElifs(ts) == ([PyBranch(ReadHead(first.header).test, ReadStmts(first.body))] + elifs, rest)
  {
  }

  /** The first suite of several trees. */
  lemma SuiteFirst(header: Text, body: seq<Tree>, more: seq<Tree>, rest: seq<Tree>)
    ensures
      var ts := NoBlanks([Suite(header, body)] + more) + rest;
      ts != [] && ts[0] == Suite(header, NoBlanks(body)) && ts[1..] == NoBlanks(more) + rest
  {
    SuiteKept(header, body);
    NoBlanksConcat([Suite(header, body)], more);
  }

  lemma ClauseRead(header: Text, body: seq<Stmt>, c: Context, rest: seq<Tree>)
    requires AllReadable(body) && body != []
    ensures
      var ts := NoBlanks(Clause(header, body, c)) + rest;
      ts != [] && HeadOf(ts[0]) == ReadHead(header) && ts[1..] == rest && ts[0].Suite? && ReadStmts(ts[0].body) == Meanings(body, c)
    decreases body, 2
  {
    BodyBack(body, c);
    SuiteFirst(header, Body(body, c), [], rest);
    assert [Suite(header, Body(body, c))] + [] == Clause(header, body, c);
    assert NoBlanks([]) + rest == rest;
  }

  lemma ElseReads(body: seq<Stmt>, c: Context, rest: seq<Tree>)
    requires AllReadable(body) && (rest != [] ==> !HeadOf(rest[0]).ElseHead?)
    ensures ReadElse(NoBlanks(Clause("else:", body, c)) + rest) == (Meanings(body, c), rest)
    ensures
      var ts := NoBlanks(Clause("else:", body, c)) + rest;
      if body == [] then ts == rest else ts != [] && HeadOf(ts[0]).ElseHead?
    decreases body, 3
  {
    if body == [] {
      assert NoBlanks([]) + rest == rest;
    } else {
      ElseRead();
      ClauseRead("else:", body, c, rest);
    }
  }

  lemma FinallyReads(body: seq<Stmt>, c: Context, rest: seq<Tree>)
    requires AllReadable(body) && !StartsClause(rest)
    ensures ReadFinally(NoBlanks(Clause("finally:", body, c)) + rest) == (Meanings(body, c), rest)
    ensures
      var ts := NoBlanks(Clause("finally:", body, c)) + rest;
      if body == [] then ts == rest else ts != [] && HeadOf(ts[0]).FinallyHead?
    decreases body, 3
  {
    if body == [] {
      assert NoBlanks([]) + rest == rest;
    } else {
      FinallyRead();
      ClauseRead("finally:", body, c, rest);
    }
  }

  lemma {:induction false} HandlersRead(handlers: seq<Handler>, c: Context, rest: seq<Tree>)
    requires forall i :: 0 <= i < |handlers| ==> Absent(handlers[i].excType, " as ") && AllReadable(handlers[i].body)
    requires rest != [] ==> !HeadOf(rest[0]).ExceptHead?
    ensures ReadHandlers(NoBlanks(Handlers(handlers, c)) + rest) == (HandlerMeanings(handlers, c), rest)
    decreases handlers
  {
    if handlers == [] {
      assert NoBlanks([]) + rest == rest;
    } else {
      var header, body, more := HandlerLine(handlers[0]), Body(handlers[0].body, c), Handlers(handlers[1..], c);
      HandlerRead(handlers[0]);
      BodyBack(handlers[0].body, c);
      HandlersRead(handlers[1..], c, rest);
      SuiteFirst(header, body, more, rest);
    }
  }

  lemma IfReads(s: Stmt, c: Context, rest: seq<Tree>)
    requires s.If? && Readable(s) && !StartsClause(rest)
    ensures Reads(Outline(s, c), rest, Meaning(s, c))
    decreases s, 0
  {
    var first, elifs, otherwise := [Suite(Header("if", s.test), Body(s.body, c))], Elifs(s.elifs, c), Clause("else:", s.otherwise, c);
    var middle := NoBlanks(otherwise) + rest;
    TestsRead(s.test);
    BodyBack(s.body, c);
    ElseReads(s.otherwise, c, rest);
    ElifsRead(s.elifs, c, middle);
    SuiteKept(Header("if", s.test), Body(s.body, c));
    IfNext(Header("if", s.test), NoBlanks(Body(s.body, c)), NoBlanks(elifs) + middle, Branches(s.elifs, c), middle,
           Meanings(s.otherwise, c), rest);
    KeptThree(first, elifs, otherwise, rest);
  }

  lemma KeptThree(a: seq<Tree>, b: seq<Tree>, d: seq<Tree>, rest: seq<Tree>)
    ensures NoBlanks(a + b + d) + rest == NoBlanks(a) + (NoBlanks(b) + (NoBlanks(d) + rest))
  {
    NoBlanksConcat(a + b, d);
    NoBlanksConcat(a, b);
    Grouped(NoBlanks(a) + NoBlanks(b), NoBlanks(d), rest);
    Grouped(NoBlanks(a), NoBlanks(b), NoBlanks(d) + rest);
  }

  lemma TryReads(s: Stmt, c: Context, rest: seq<Tree>)
    requires s.Try? && Readable(s) && !StartsClause(rest)
    ensures Reads(Outline(s, c), rest, Meaning(s, c))
    decreases s, 0
  {
    var first, handlers := [Suite("try:", Body(s.body, c))], Handlers(s.handlers, c);
    var otherwise, cleanup := Clause("else:", s.otherwise, c), Clause("finally:", s.cleanup, c);
    var more := NoBlanks(cleanup) + rest;
    var middle := NoBlanks(otherwise) + more;
    TryRead();
    BodyBack(s.body, c);
    FinallyReads(s.cleanup, c, rest);
    ElseReads(s.otherwise, c, more);
    HandlersRead(s.handlers, c, middle);
    SuiteKept("try:", Body(s.body, c));
    TryNext("try:", NoBlanks(Body(s.body, c)), NoBlanks(handlers) + middle, HandlerMeanings(s.handlers, c), middle,
            Meanings(s.otherwise, c), more, Meanings(s.cleanup, c), rest);
    KeptFour(first, handlers, otherwise, cleanup, rest);
  }

  lemma KeptFour(a: seq<Tree>, b: seq<Tree>, d: seq<Tree>, e: seq<Tree>, rest: seq<Tree>)
    ensures NoBlanks(a + b + d + e) + rest == NoBlanks(a) + (NoBlanks(b) + (NoBlanks(d) + (NoBlanks(e) + rest)))
  {
    NoBlanksConcat(a + b + d, e);
    Grouped(NoBlanks(a + b + d), NoBlanks(e), rest);
    KeptThree(a, b, d, NoBlanks(e) + rest);
  }

  /** The cases of a switch after the first are `elif`s, and the default its `else`. */
  lemma {:induction false} ChoicesRead(subject: string, choices: seq<Case>, c: Context, rest: seq<Tree>)
    requires (forall i :: 0 <= i < |choices| ==> AllReadable(choices[i].body)) && !StartsClause(rest)
    requires forall i :: 0 <= i < |choices| && choices[i].pattern.None? ==> i == |choices| - 1
    ensures
      var (elifs, middle) := ReadElifs(NoBlanks(Choices(subject, choices, false, c)) + rest);
      elifs == Comparisons(subject, choices, c) && ReadElse(middle) == (Default(choices, c), rest)
    decreases choices
  {
    if choices == [] {
      NothingMore(rest);
      assert NoBlanks([]) + rest == rest;
    } else {
      BodyBack(choices[0].body, c);
      ChoicesRead(subject, choices[1..], c, rest);
      if choices[0].pattern.None? {
        assert choices[1..] == [];
        DefaultRead(subject, choices, c, rest);
      } else {
        ChoiceRead(subject, choices, c, rest);
      }
    }
  }

  lemma DefaultRead(subject: string, choices: seq<Case>, c: Context, rest: seq<Tree>)
    requires |choices| == 1 && choices[0].pattern.None?
    requires ReadStmts(NoBlanks(Body(choices[0].body, c))) == BodyMeaning(choices[0].body, c)
    ensures
      var (elifs, middle) := ReadElifs(NoBlanks(Choices(subject, choices, false, c)) + rest);
      elifs == [] && ReadElse(middle) == (BodyMeaning(choices[0].body, c), rest)
  {
    ElseRead();
    SuiteFirst("else:", Body(choices[0].body, c), Choices(subject, choices[1..], false, c), rest);
    assert NoBlanks([]) + rest == rest;
  }

  lemma ChoiceRead(subject: string, choices: seq<Case>, c: Context, rest: seq<Tree>)
    requires choices != [] && choices[0].pattern.Some?
    requires ReadStmts(NoBlanks(Body(choices[0].body, c))) == BodyMeaning(choices[0].body, c)
    ensures
      var (elifs, middle) := ReadElifs(NoBlanks(Choices(subject, choices, false, c)) + rest);
      var (more, others) := ReadElifs(NoBlanks(Choices(subject, choices[1..], false, c)) + rest);
      && elifs == [PyBranch(Comparison(subject, choices[0].pattern.value), BodyMeaning(choices[0].body, c))] + more
      && middle == others
  {
    CaseRead(subject, choices[0].pattern.value, false);
    SuiteFirst(CaseLine(subject, choices[0].pattern, false), Body(choices[0].body, c), Choices(subject, choices[1..], false, c), rest);
  }

  lemma SwitchReads(s: Stmt, c: Context, rest: seq<Tree>)
    requires s.Switch? && Readable(s) && !StartsClause(rest)
    ensures Reads(Outline(s, c), rest, Meaning(s, c))
    decreases s, 0
  {
    if s.choices == [] {
      ReadsNothing(rest);
    } else {
      var first, others := s.choices[0], s.choices[1..];
      assert first.pattern.Some?;
      BodyBack(first.body, c);
      ChoicesRead(s.subject, others, c, rest);
      ChainReads(s.subject, first, others, c, rest);
    }
  }

  /** A comparison and the `elif`s and `else` after it are one statement. */
  lemma ChainReads(subject: string, first: Case, others: seq<Case>, c: Context, rest: seq<Tree>)
    requires first.pattern.Some? && !StartsClause(rest) && ReadStmts(NoBlanks(Body(first.body, c))) == BodyMeaning(first.body, c)
    requires
      var (elifs, middle) := ReadElifs(NoBlanks(Choices(subject, others, false, c)) + rest);
      elifs == Comparisons(subject, others, c) && ReadElse(middle) == (Default(others, c), rest)
    ensures Reads(Choices(subject, [first] + others, true, c), rest,
                  [PyIf(Comparisons(subject, [first] + others, c), Default([first] + others, c))])
  {
    var header, body := CaseLine(subject, first.pattern, true), Body(first.body, c);
    var more := Choices(subject, others, false, c);
    CaseRead(subject, first.pattern.value, true);
    ChainIs(subject, first, others, c);
    SuiteKept(header, body);
    NoBlanksConcat([Suite(header, body)], more);
    Grouped([Suite(header, NoBlanks(body))], NoBlanks(more), rest);
    var (elifs, middle) := ReadElifs(NoBlanks(more) + rest);
    IfNext(header, NoBlanks(body), NoBlanks(more) + rest, elifs, middle, Default(others, c), rest);
  }

  lemma ChainIs(subject: string, first: Case, others: seq<Case>, c: Context)
    requires first.pattern.Some?
    ensures
      var choices := [first] + others;
      && Choices(subject, choices, true, c)
         == [Suite(CaseLine(subject, first.pattern, true), Body(first.body, c))] + Choices(subject, others, false, c)
      && Comparisons(subject, choices, c)
         == [PyBranch(Comparison(subject, first.pattern.value), BodyMeaning(first.body, c))] + Comparisons(subject, others, c)
      && Default(choices, c) == Default(others, c)
  {
    var choices := [first] + others;
    assert choices[0] == first && choices[1..] == others;
  }

  lemma StmtBack(s: Stmt, c: Context, rest: seq<Tree>)
    requires Readable(s) && !StartsClause(rest)
    ensures Reads(Outline(s, c), rest, Meaning(s, c))
    decreases s, 1
  {
    match s
    case Import(_, _) => ImportReads(s, c, rest);
    case Class(_, _) => ClassReads(s, c, rest);
    case Enum(_, _, _, _) => EnumReads(s, c, rest);
    case TypeAlias(line) => LineReads(line, rest);
    case Func(_, _) => FuncReads(s, c, rest);
    case Has(isStatic, fields) => FieldsRead(isStatic, fields, c, rest);
    case Glob(lines) => LinesRead(lines, rest);
    case Impl => ReadsNothing(rest);
    case WithEntry(body) => StmtsBack(body, c, rest);
    case If(_, _, _, _) => IfReads(s, c, rest);
    case For(_, _, _, _) => LoopReads(s, c, rest);
    case While(_, _) => LoopReads(s, c, rest);
    case Try(_, _, _, _) => TryReads(s, c, rest);
    case Match(_, _) => MatchReads(s, c, rest);
    case Switch(_, _) => SwitchReads(s, c, rest);
    case With(_, _, _) => LoopReads(s, c, rest);
    case Delete(_, _) => DeleteReads(s, c, rest);
    case Disengage => DisengageReads(c, rest);
    case Expr(text) =>
      if text.Some? {
        LineReads(text.value, rest);
      } else {
        ReadsNothing(rest);
      }
    case _ => SimpleReads(s, c, rest);
  }

  lemma {:induction false} StmtsBack(body: seq<Stmt>, c: Context, rest: seq<Tree>)
    requires AllReadable(body) && !StartsClause(rest)
    ensures Reads(Outlines(body, c), rest, Meanings(body, c))
    decreases body, 0
  {
    if body == [] {
      ReadsNothing(rest);
    } else {
      StmtsBack(body[1..], c, rest);
      StmtBack(body[0], c, NoBlanks(Outlines(body[1..], c)) + rest);
      ReadsThen(Outline(body[0], c), Outlines(body[1..], c), rest, Meaning(body[0], c), Meanings(body[1..], c));
    }
  }

  lemma BodyBack(body: seq<Stmt>, c: Context)
    requires AllReadable(body)
    ensures ReadStmts(NoBlanks(Body(body, c))) == BodyMeaning(body, c)
    decreases body, 1
  {
    if body == [] {
      PassRead();
      LineReads("pass", []);
      EndReads([Line("pass")], [LineMeaning("pass")]);
    } else {
      StmtsBack(body, c, []);
      EndReads(Outlines(body, c), Meanings(body, c));
    }
  }

  lemma EndReads(ts: seq<Tree>, ps: seq<Py>)
    requires Reads(ts, [], ps)
    ensures ReadStmts(NoBlanks(ts)) == ps
  {
    assert NoBlanks(ts) + [] == NoBlanks(ts);
    assert ps + [] == ps;
  }

  // ----- programs

  /** The statements that lines of Python are, if their indentation makes sense. */
  function ReadProgram(lines: seq<string>): Option<seq<Py>> {
    var trees := Read(lines);
    if trees.Some? then Some(ReadStmts(trees.value)) else None
  }

  function ReadProgramText(text: string): Option<seq<Py>> {
    var trees := PyText.ReadText(text);
    if trees.Some? then Some(ReadStmts(trees.value)) else None
  }

  /** The lines of statements are read as the statements they mean, if every body with statements
      stands for a line and texts can be told apart. */
  lemma ProgramBack(body: seq<Stmt>, c: Context)
    requires PySolid.AllSolid(body) && AllReadable(body)
    ensures ReadProgram(RenderAll(Outlines(body, c), 0)) == Some(Meanings(body, c))
    ensures PyText.PlainTrees(Outlines(body, c)) ==>
              ReadProgramText(PyText.Joined(RenderAll(Outlines(body, c), 0))) == Some(Meanings(body, c))
  {
    PySolid.ReadsBackExactly(body, c);
    PySolid.TextReadsBackExactly(body, c);
    StmtsBack(body, c, []);
    EndReads(Outlines(body, c), Meanings(body, c));
  }

  // ----- a default that is not last

  /** Cases after a default are left over when its `else` has been read. */
  lemma {:induction false} ChoicesLeft(subject: string, choices: seq<Case>, c: Context)
    requires exists i :: 0 <= i < |choices| - 1 && choices[i].pattern.None?
    ensures
      var (elifs, middle) := ReadElifs(NoBlanks(Choices(subject, choices, false, c)));
      ReadElse(middle).1 != []
    decreases |choices|
  {
    var header, body := CaseLine(subject, choices[0].pattern, false), Body(choices[0].body, c);
    var others := choices[1..];
    var more := Choices(subject, others, false, c);
    FirstSuite(header, body, more);
    if choices[0].pattern.None? {
      ElseRead();
      var next := others[0];
      FirstSuite(CaseLine(subject, next.pattern, false), Body(next.body, c), Choices(subject, others[1..], false, c));
    } else {
      CaseRead(subject, choices[0].pattern.value, false);
      var i :| 0 <= i < |choices| - 1 && choices[i].pattern.None?;
      assert others[i - 1] == choices[i];
      ChoicesLeft(subject, others, c);
    }
  }

  lemma FirstSuite(header: Text, body: seq<Tree>, more: seq<Tree>)
    ensures
      var ts := NoBlanks([Suite(header, body)] + more);
      ts != [] && ts[0] == Suite(header, NoBlanks(body)) && ts[1..] == NoBlanks(more)
  {
    SuiteFirst(header, body, more, []);
    var ts := NoBlanks([Suite(header, body)] + more);
    assert ts + [] == ts && NoBlanks(more) + [] == NoBlanks(more);
  }

  /** A switch by itself is one chain of comparisons if and only if its default, if it has one, is
      the last of several cases. */
  lemma SwitchExactly(subject: string, choices: seq<Case>, c: Context)
    requires choices != [] && forall i :: 0 <= i < |choices| ==> AllReadable(choices[i].body)
    ensures
      ReadStmts(NoBlanks(Outline(Switch(subject, choices), c))) == [PyIf(Comparisons(subject, choices, c), Default(choices, c))]
      <==> DefaultLast(choices)
  {
    if DefaultLast(choices) {
      SwitchReads(Switch(subject, choices), c, []);
      EndReads(Outline(Switch(subject, choices), c), [PyIf(Comparisons(subject, choices, c), Default(choices, c))]);
    } else {
      MisplacedDefault(subject, choices, c);
    }
  }

  lemma MisplacedDefault(subject: string, choices: seq<Case>, c: Context)
    requires choices != [] && !DefaultLast(choices)
    ensures
      var ps := ReadStmts(NoBlanks(Outline(Switch(subject, choices), c)));
      |ps| != 1 || !ps[0].PyIf?
  {
    SwitchIs(subject, choices, c);
    if choices[0].pattern.None? {
      DefaultFirst(subject, choices, c);
    } else {
      DefaultLate(subject, choices, c);
    }
  }

  lemma SwitchIs(subject: string, choices: seq<Case>, c: Context)
    ensures Outline(Switch(subject, choices), c) == Choices(subject, choices, true, c)
  {
  }

  lemma DefaultLate(subject: string, choices: seq<Case>, c: Context)
    requires choices != [] && choices[0].pattern.Some? && !DefaultLast(choices)
    ensures |ReadStmts(NoBlanks(Choices(subject, choices, true, c)))| > 1
  {
    var first, others := choices[0], choices[1..];
    DefaultEarly(choices);
    ChoicesLeft(subject, others, c);
    LeftOver(subject, first, others, c);
    assert [first] + others == choices;
  }

  lemma DefaultEarly(choices: seq<Case>)
    requires choices != [] && choices[0].pattern.Some? && !DefaultLast(choices)
    ensures exists i :: 0 <= i < |choices[1..]| - 1 && choices[1..][i].pattern.None?
  {
    var i :| 0 <= i < |choices| && choices[i].pattern.None? && !(0 < i == |choices| - 1);
    assert choices[1..][i - 1] == choices[i];
  }

  lemma DefaultFirst(subject: string, choices: seq<Case>, c: Context)
    requires choices != [] && choices[0].pattern.None?
    ensures
      var ps := ReadStmts(NoBlanks(Choices(subject, choices, true, c)));
      ps != [] && ps[0] == PyBad
  {
    ElseRead();
    FirstSuite("else:", Body(choices[0].body, c), Choices(subject, choices[1..], true, c));
  }

  lemma LeftOver(subject: string, first: Case, others: seq<Case>, c: Context)
    requires first.pattern.Some?
    requires
      var (elifs, middle) := ReadElifs(NoBlanks(Choices(subject, others, false, c)));
      ReadElse(middle).1 != []
    ensures |ReadStmts(NoBlanks(Choices(subject, [first] + others, true, c)))| > 1
  {
    var header, body := CaseLine(subject, first.pattern, true), Body(first.body, c);
    var more := Choices(subject, others, false, c);
    ChainIs(subject, first, others, c);
    CaseRead(subject, first.pattern.value, true);
    SuiteKept(header, body);
    NoBlanksConcat([Suite(header, body)], more);
    var (elifs, middle) := ReadElifs(NoBlanks(more));
    var (otherwise, last) := ReadElse(middle);
    IfNext(header, NoBlanks(body), NoBlanks(more), elifs, middle, otherwise, last);
  }

  /** A switch with nothing but a default, after an `if`: its body is read as the `else` of that. */
  lemma StrayDefault(test: string, body: seq<Stmt>, subject: string, other: seq<Stmt>, c: Context)
    requires AllReadable(body) && AllReadable(other)
    ensures ReadStmts(NoBlanks(Outlines([If(test, body, [], []), Switch(subject, [Case(None, other)])], c)))
         == [PyIf([PyBranch(test, BodyMeaning(body, c))], BodyMeaning(other, c))]
  {
    BodyBack(body, c);
    BodyBack(other, c);
    IfRead(test);
    StrayOutline(test, body, subject, other, c);
    IfElseRead(Header("if", test), test, Body(body, c), Body(other, c));
  }

  lemma IfElseRead(header: Text, test: string, suite: seq<Tree>, other: seq<Tree>)
    requires ReadHead(header) == IfHead(test)
    ensures ReadStmts(NoBlanks([Suite(header, suite)] + [Suite("else:", other)])) ==
            [PyIf([PyBranch(test, ReadStmts(NoBlanks(suite)))], ReadStmts(NoBlanks(other)))]
  {
    var rest := [Suite("else:", NoBlanks(other))];
    ElseRead();
    SuiteKept(header, suite);
    SuiteKept("else:", other);
    NoBlanksConcat([Suite(header, suite)], [Suite("else:", other)]);
    assert rest[1..] == [];
    IfNext(header, NoBlanks(suite), rest, [], rest, ReadStmts(NoBlanks(other)), []);
    var branch := PyBranch(ReadHead(header).test, ReadStmts(NoBlanks(suite)));
    assert [branch] + [] == [branch];
  }

  lemma StrayOutline(test: string, body: seq<Stmt>, subject: string, other: seq<Stmt>, c: Context)
    ensures Outlines([If(test, body, [], []), Switch(subject, [Case(None, other)])], c)
         == [Suite(Header("if", test), Body(body, c))] + [Suite("else:", Body(other, c))]
  {
    var a, b := If(test, body, [], []), Switch(subject, [Case(None, other)]);
    assert [a, b][1..] == [b] && [b][1..] == [];
    assert Outlines([], c) == [] && Choices(subject, [], true, c) == [] && Elifs([], c) == [];
    assert [Case(None, other)][1..] == [];
    assert Outline(b, c) == [Suite("else:", Body(other, c))] + [];
    assert Outline(a, c) == [Suite(Header("if", test), Body(body, c))] + [] + [];
  }
}
