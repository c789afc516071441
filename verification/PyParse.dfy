/** Reading lines of Python: which statement a line or a header is, and its parts. It has its own
    table of keywords and knows nothing of how lines are written. */
module PyParse {
  import opened Options

  // ----- brackets and lists

  predicate Opening(c: char) {
    c == '(' || c == '[' || c == '{'
  }

  predicate Closing(c: char) {
    c == ')' || c == ']' || c == '}'
  }

  /** How deep in brackets the end of a text is, unless it closes one that it has not opened. */
  function Depth(s: string, d: nat): Option<nat> {
    if s == "" then Some(d)
    else if Opening(s[0]) then Depth(s[1..], d + 1)
    else if Closing(s[0]) then if d == 0 then None else Depth(s[1..], d - 1)
    else Depth(s[1..], d)
  }

  predicate Balanced(s: string) {
    Depth(s, 0) == Some(0)
  }

  /** How many characters come before the first bracket that closes one not opened here. */
  function ToCloser(s: string, d: nat): (n: nat)
    ensures n <= |s|
  {
    if s == "" then 0
    else if Opening(s[0]) then 1 + ToCloser(s[1..], d + 1)
    else if Closing(s[0]) then if d == 0 then 0 else 1 + ToCloser(s[1..], d - 1)
    else 1 + ToCloser(s[1..], d)
  }

  /** How many characters come before the first comma outside brackets. */
  function ToComma(s: string, d: nat): (n: nat)
    ensures n <= |s|
  {
    if s == "" then 0
    else if Opening(s[0]) then 1 + ToComma(s[1..], d + 1)
    else if Closing(s[0]) then 1 + ToComma(s[1..], if d == 0 then 0 else d - 1)
    else if s[0] == ',' && d == 0 then 0
    else 1 + ToComma(s[1..], d)
  }

  /** A text with no comma outside brackets, which are balanced. */
  predicate Sealed(s: string) {
    Balanced(s) && ToComma(s, 0) == |s|
  }

  /** The parts of a list, with a comma and a space between them. */
  function Parts(s: string): seq<string>
    decreases |s|
  {
    if s == "" then []
    else
      var n := ToComma(s, 0);
      [s[..n]] + if n + 2 <= |s| then Parts(s[n + 2..]) else []
  }

  function Listing(parts: seq<string>): string {
    if parts == [] then "" else if |parts| == 1 then parts[0] else parts[0] + ", " + Listing(parts[1..])
  }

  /** A list written in the usual way. */
  predicate ListText(s: string) {
    Listing(Parts(s)) == s && AllSealed(Parts(s))
  }

  predicate AllSealed(parts: seq<string>) {
    forall i :: 0 <= i < |parts| ==> parts[i] != "" && Sealed(parts[i])
  }

  lemma {:induction false} ToCloserAfter(a: string, b: string, d: nat)
    requires Depth(a, d).Some?
    ensures ToCloser(a + b, d) == |a| + ToCloser(b, Depth(a, d).value)
  {
    if a == "" {
      assert a + b == b;
    } else {
      assert (a + b)[1..] == a[1..] + b;
      ToCloserAfter(a[1..], b, if Opening(a[0]) then d + 1 else if Closing(a[0]) then d - 1 else d);
    }
  }

  lemma {:induction false} DepthAfter(a: string, b: string, d: nat)
    requires Depth(a, d).Some?
    ensures Depth(a + b, d) == Depth(b, Depth(a, d).value)
  {
    if a == "" {
      assert a + b == b;
    } else {
      assert (a + b)[1..] == a[1..] + b;
      DepthAfter(a[1..], b, if Opening(a[0]) then d + 1 else if Closing(a[0]) then d - 1 else d);
    }
  }

  lemma {:induction false} ToCommaAfter(a: string, b: string, d: nat)
    requires Depth(a, d).Some? && ToComma(a, d) == |a|
    ensures ToComma(a + b, d) == |a| + ToComma(b, Depth(a, d).value)
  {
    if a == "" {
      assert a + b == b;
    } else {
      assert (a + b)[1..] == a[1..] + b;
      ToCommaAfter(a[1..], b, if Opening(a[0]) then d + 1 else if Closing(a[0]) then d - 1 else d);
    }
  }

  lemma SealedConcat(a: string, b: string)
    requires Sealed(a) && Sealed(b)
    ensures Sealed(a + b)
  {
    DepthAfter(a, b, 0);
    ToCommaAfter(a, b, 0);
  }

  /** The first of several parts. */
  lemma PartsNext(a: string, b: string)
    requires Sealed(a)
    ensures Parts(a + ", " + b) == [a] + Parts(b)
  {
    var s := a + ", " + b;
    assert s == a + (", " + b);
    ToCommaAfter(a, ", " + b, 0);
    assert s[..|a|] == a && s[|a| + 2..] == b;
  }

  lemma PartsOne(a: string)
    requires Sealed(a) && a != ""
    ensures Parts(a) == [a]
  {
    assert a[..|a|] == a;
  }

  lemma {:induction false} PartsOfListing(parts: seq<string>)
    requires AllSealed(parts)
    ensures Parts(Listing(parts)) == parts
  {
    if |parts| == 1 {
      PartsOne(parts[0]);
    } else if |parts| > 1 {
      PartsNext(parts[0], Listing(parts[1..]));
      PartsOfListing(parts[1..]);
    }
  }

  lemma {:induction false} ListingSnoc(parts: seq<string>, last: string)
    ensures Listing(parts + [last]) == if parts == [] then last else Listing(parts) + ", " + last
  {
    if parts == [] {
      assert parts + [last] == [last];
    } else {
      assert (parts + [last])[1..] == parts[1..] + [last];
      ListingSnoc(parts[1..], last);
      if |parts| > 1 {
        assert parts[0] + ", " + (Listing(parts[1..]) + ", " + last) == parts[0] + ", " + Listing(parts[1..]) + ", " + last;
      }
    }
  }

  // ----- finding a word

  /** Where `what` first occurs, or the end. */
  function Find(s: string, what: string): (n: nat)
    ensures n <= |s| && (n < |s| ==> what <= s[n..])
  {
    if s == "" || what <= s then 0 else 1 + Find(s[1..], what)
  }

  /** It does not occur in this text, nor where it ends and `what` begins. */
  predicate Absent(s: string, what: string) {
    forall k :: 0 <= k < |s| ==> !(what <= (s + what)[k..])
  }

  lemma AbsentRest(s: string, what: string)
    requires s != "" && Absent(s, what)
    ensures Absent(s[1..], what)
  {
    forall k | 0 <= k < |s[1..]| ensures !(what <= (s[1..] + what)[k..]) {
      assert (s + what)[k + 1..] == (s[1..] + what)[k..];
    }
  }

  lemma {:induction false} FoundAfter(s: string, what: string, rest: string)
    requires what != "" && Absent(s, what)
    ensures Find(s + (what + rest), what) == |s|
  {
    var all := s + (what + rest);
    if s == "" {
      assert all == what + rest;
    } else {
      AbsentRest(s, what);
      FoundAfter(s[1..], what, rest);
      assert all[1..] == s[1..] + (what + rest);
      NotAtStart(s, what, rest);
    }
  }

  lemma NotAtStart(s: string, what: string, rest: string)
    requires s != "" && Absent(s, what)
    ensures !(what <= s + (what + rest))
  {
    assert !(what <= (s + what)[0..]);
    PrefixWithin(s, what, rest);
  }

  lemma PrefixWithin(s: string, what: string, rest: string)
    ensures what <= s + (what + rest) ==> what <= s + what
  {
    var long, short := s + (what + rest), s + what;
    if what <= long {
      assert forall i :: 0 <= i < |what| ==> what[i] == long[i] && long[i] == short[i];
    }
  }

  lemma {:induction false} NotFound(s: string, what: string)
    requires what != "" && Absent(s, what)
    ensures Find(s, what) == |s|
  {
    if s != "" {
      AbsentRest(s, what);
      NotFound(s[1..], what);
      assert !(what <= (s + what)[0..]);
      assert what <= s ==> what <= s + what;
    }
  }

  // ----- parameters

  /** `stars` is 1 for `*args` or a bare `*`, and 2 for `**kwargs`. */
  datatype PyParam = PyParam(stars: nat, name: string, annotation: string, init: string)

  /** How many characters come before the first colon or space. */
  function NameEnd(s: string): (n: nat)
    ensures n <= |s|
  {
    if s == "" || s[0] == ':' || s[0] == ' ' then 0 else 1 + NameEnd(s[1..])
  }

  function ReadParam(p: string): PyParam {
    var stars := if "**" <= p then 2 else if "*" <= p then 1 else 0;
    var rest := p[stars..];
    ReadTail(stars, rest[..NameEnd(rest)], rest[NameEnd(rest)..])
  }

  function ReadTail(stars: nat, name: string, tail: string): PyParam {
    if ": " <= tail then
      var k := Find(tail[2..], " = ");
      if k == |tail[2..]| then PyParam(stars, name, tail[2..], "")
      else PyParam(stars, name, tail[2..][..k], tail[2..][k + 3..])
    else PyParam(stars, name, "", if " = " <= tail then tail[3..] else "")
  }

  function ReadParams(parts: seq<string>): seq<PyParam> {
    if parts == [] then [] else [ReadParam(parts[0])] + ReadParams(parts[1..])
  }

  // ----- headers

  datatype Head =
    | IfHead(test: string) | ElifHead(test: string) | ElseHead
    | ForHead(isAsync: bool, loop: string) | WhileHead(test: string)
    | TryHead | ExceptHead(caught: string) | FinallyHead
    | MatchHead(subject: string) | CaseHead(pattern: string)
    | WithHead(isAsync: bool, items: string)
    | DefHead(isAsync: bool, signature: string)
    | ClassHead(signature: string)
    | NoHead

  datatype Loop = Loop(target: string, iter: string) | NoLoop

  datatype Catch = Catch(what: string, name: string)

  datatype Signature = Signature(name: string, params: seq<PyParam>, result: string) | NoSignature

  datatype ClassParts = ClassParts(name: string, typeParams: string, bases: seq<string>) | NoClass

  datatype Keyword =
    | IfWord | ElifWord | ElseWord | ForWord | WhileWord | TryWord | ExceptWord | FinallyWord | MatchWord | CaseWord
    | WithWord | DefWord | ClassWord | AsyncWord | ReturnWord | YieldWord | RaiseWord | AssertWord | DelWord | PassWord
    | BreakWord | ContinueWord | NoWord

  predicate Three(w: string, a: char, b: char, c: char)
    requires |w| >= 3
  {
    w[0] == a && w[1] == b && w[2] == c
  }

  /** The rest of a word of five letters or more. */
  predicate Then(w: string, d: char, e: char)
    requires |w| >= 5
  {
    w[3] == d && w[4] == e
  }

  function ShortKeyword(w: string): Keyword
    requires 2 <= |w| <= 4
  {
    if |w| == 2 then if w[0] == 'i' && w[1] == 'f' then IfWord else NoWord
    else if |w| == 3 then
      if Three(w, 'f', 'o', 'r') then ForWord
      else if Three(w, 't', 'r', 'y') then TryWord
      else if Three(w, 'd', 'e', 'f') then DefWord
      else if Three(w, 'd', 'e', 'l') then DelWord
      else NoWord
    else
      if Three(w, 'e', 'l', 'i') && w[3] == 'f' then ElifWord
      else if Three(w, 'e', 'l', 's') && w[3] == 'e' then ElseWord
      else if Three(w, 'c', 'a', 's') && w[3] == 'e' then CaseWord
      else if Three(w, 'w', 'i', 't') && w[3] == 'h' then WithWord
      else if Three(w, 'p', 'a', 's') && w[3] == 's' then PassWord
      else NoWord
  }

  function FiveKeyword(w: string): Keyword
    requires |w| == 5
  {
    if Three(w, 'w', 'h', 'i') && Then(w, 'l', 'e') then WhileWord
    else if Three(w, 'm', 'a', 't') && Then(w, 'c', 'h') then MatchWord
    else if Three(w, 'c', 'l', 'a') && Then(w, 's', 's') then ClassWord
    else if Three(w, 'a', 's', 'y') && Then(w, 'n', 'c') then AsyncWord
    else if Three(w, 'y', 'i', 'e') && Then(w, 'l', 'd') then YieldWord
    else if Three(w, 'r', 'a', 'i') && Then(w, 's', 'e') then RaiseWord
    else if Three(w, 'b', 'r', 'e') && Then(w, 'a', 'k') then BreakWord
    else NoWord
  }

  function LongKeyword(w: string): Keyword
    requires |w| >= 6
  {
    if |w| == 6 then
      if Three(w, 'e', 'x', 'c') && Then(w, 'e', 'p') && w[5] == 't' then ExceptWord
      else if Three(w, 'r', 'e', 't') && Then(w, 'u', 'r') && w[5] == 'n' then ReturnWord
      else if Three(w, 'a', 's', 's') && Then(w, 'e', 'r') && w[5] == 't' then AssertWord
      else NoWord
    else if |w| == 7 then
      if Three(w, 'f', 'i', 'n') && Then(w, 'a', 'l') && w[5] == 'l' && w[6] == 'y' then FinallyWord else NoWord
    else if |w| == 8 then
      if Three(w, 'c', 'o', 'n') && Then(w, 't', 'i') && w[5] == 'n' && w[6] == 'u' && w[7] == 'e' then ContinueWord
      else NoWord
    else NoWord
  }

  /** The keyword that a word is, letter by letter. */
  function KeywordOf(w: string): Keyword {
    if |w| < 2 then NoWord
    else if |w| <= 4 then ShortKeyword(w)
    else if |w| == 5 then FiveKeyword(w)
    else LongKeyword(w)
  }

  predicate SmallLetter(c: char) {
    'a' <= c <= 'z'
  }

  /** How long the word at the beginning is. */
  function WordEnd(s: string): (n: nat)
    ensures n <= |s|
  {
    if s == "" || !SmallLetter(s[0]) then 0 else 1 + WordEnd(s[1..])
  }

  function FirstKeyword(s: string): Keyword {
    KeywordOf(s[..WordEnd(s)])
  }

  function AfterWord(s: string): string {
    s[WordEnd(s)..]
  }

  function ReadFor(arg: string): Loop {
    var n := Find(arg, " in ");
    if n == |arg| then NoLoop else Loop(arg[..n], arg[n + 4..])
  }

  function ReadExcept(arg: string): Catch {
    var n := Find(arg, " as ");
    if n == |arg| then Catch(arg, "") else Catch(arg[..n], arg[n + 4..])
  }

  /** How many characters come before the first bracket. */
  function ToBracket(s: string): (n: nat)
    ensures n <= |s| && (n < |s| ==> Opening(s[n]))
  {
    if s == "" || Opening(s[0]) then 0 else 1 + ToBracket(s[1..])
  }

  function ReadDef(arg: string): Signature {
    var n := ToBracket(arg);
    if n == |arg| then NoSignature
    else
      var inner := arg[n + 1..];
      var k := ToCloser(inner, 0);
      if k == |inner| then NoSignature else ReadResult(arg[..n], ReadParams(Parts(inner[..k])), inner[k + 1..])
  }

  function ReadResult(name: string, params: seq<PyParam>, tail: string): Signature {
    if tail == "" then Signature(name, params, "")
    else if " -> " <= tail then Signature(name, params, tail[4..])
    else NoSignature
  }

  function ReadBases(name: string, typeParams: string, s: string): ClassParts {
    if s == "" then ClassParts(name, typeParams, [])
    else if |s| >= 2 && s[0] == '(' && s[|s| - 1] == ')' then ClassParts(name, typeParams, Parts(s[1..|s| - 1]))
    else NoClass
  }

  function ReadClass(arg: string): ClassParts {
    var n := ToBracket(arg);
    var name, rest := arg[..n], arg[n..];
    if rest != "" && rest[0] == '[' then
      var k := ToCloser(rest[1..], 0);
      if k == |rest[1..]| then NoClass else ReadBases(name, rest[1..][..k], rest[1..][k + 1..])
    else ReadBases(name, "", rest)
  }

  /** A header that is nothing but its word. */
  function BareHead(word: Keyword): Head {
    match word
    case ElseWord => ElseHead
    case TryWord => TryHead
    case FinallyWord => FinallyHead
    case ExceptWord => ExceptHead("")
    case _ => NoHead
  }

  /** The headers that may be asynchronous. */
  function EitherHead(word: Keyword, isAsync: bool, arg: string): Head {
    match word
    case ForWord => ForHead(isAsync, arg)
    case WithWord => WithHead(isAsync, arg)
    case DefWord => DefHead(isAsync, arg)
    case _ => NoHead
  }

  function AsyncHead(arg: string): Head {
    var rest := AfterWord(arg);
    if rest == "" || rest[0] != ' ' then NoHead else EitherHead(FirstKeyword(arg), true, rest[1..])
  }

  function WordHead(word: Keyword, arg: string): Head {
    match word
    case IfWord => IfHead(arg)
    case ElifWord => ElifHead(arg)
    case WhileWord => WhileHead(arg)
    case MatchWord => MatchHead(arg)
    case CaseWord => CaseHead(arg)
    case ExceptWord => ExceptHead(arg)
    case ClassWord => ClassHead(arg)
    case AsyncWord => AsyncHead(arg)
    case _ => EitherHead(word, false, arg)
  }

  /** What a line before a suite opens. */
  function ReadHead(header: string): Head {
    if header == "" || header[|header| - 1] != ':' then NoHead
    else
      var text := header[..|header| - 1];
      var rest := AfterWord(text);
      if rest == "" then BareHead(FirstKeyword(text))
      else if rest[0] == ' ' then WordHead(FirstKeyword(text), rest[1..])
      else NoHead
  }

  // ----- lines

  datatype Simple =
    | Return(expr: string) | Yield(expr: string) | Raise(expr: string) | Assert(expr: string) | Del(expr: string)
    | Pass | Break | Continue
    | Run(name: string, args: seq<string>)
    | Other(text: string)

  /** A call of the runtime: what follows its name up to the closing bracket are the arguments. */
  function ReadRun(line: string): Simple {
    if "_jac_osp." <= line then ReadCall(line, line[9..]) else Other(line)
  }

  function ReadCall(line: string, call: string): Simple {
    var n := ToBracket(call);
    if n + 2 <= |call| && call[n] == '(' && call[|call| - 1] == ')' then Run(call[..n], Parts(call[n + 1..|call| - 1]))
    else Other(line)
  }

  function ReadLine(line: string): Simple {
    var word, rest := FirstKeyword(line), AfterWord(line);
    var spaced := rest != "" && rest[0] == ' ';
    var arg := if spaced then rest[1..] else "";
    if rest == "" && word == PassWord then Pass
    else if rest == "" && word == BreakWord then Break
    else if rest == "" && word == ContinueWord then Continue
    else if (rest == "" || spaced) && word == ReturnWord then Return(arg)
    else if (rest == "" || spaced) && word == YieldWord then Yield(arg)
    else if (rest == "" || spaced) && word == RaiseWord then Raise(arg)
    else if spaced && word == AssertWord then Assert(arg)
    else if spaced && word == DelWord then Del(arg)
    else ReadRun(line)
  }

  // ----- reading what was written from its parts

  predicate AllSmall(w: string) {
    forall i :: 0 <= i < |w| ==> SmallLetter(w[i])
  }

  lemma {:induction false} WordTaken(w: string, rest: string)
    requires AllSmall(w) && (rest == "" || !SmallLetter(rest[0]))
    ensures WordEnd(w + rest) == |w|
  {
    if w == "" {
      assert w + rest == rest;
    } else {
      assert (w + rest)[1..] == w[1..] + rest;
      WordTaken(w[1..], rest);
    }
  }

  /** A word, and what follows it after a space. */
  lemma WordThen(w: string, arg: string)
    requires AllSmall(w)
    ensures FirstKeyword(w + " " + arg) == KeywordOf(w) && AfterWord(w + " " + arg) == " " + arg
  {
    assert w + " " + arg == w + (" " + arg);
    WordTaken(w, " " + arg);
    assert (w + (" " + arg))[..|w|] == w;
  }

  lemma WordOnly(w: string)
    requires AllSmall(w)
    ensures FirstKeyword(w) == KeywordOf(w) && AfterWord(w) == ""
  {
    assert w + "" == w;
    WordTaken(w, "");
    assert w[..|w|] == w;
  }

  lemma HeadRead(w: string, arg: string)
    requires AllSmall(w)
    ensures ReadHead(w + " " + arg + ":") == WordHead(KeywordOf(w), arg)
  {
    var header := w + " " + arg + ":";
    assert header[..|header| - 1] == w + " " + arg;
    WordThen(w, arg);
    assert (" " + arg)[1..] == arg;
  }

  lemma AsyncRead(w: string, arg: string)
    requires AllSmall(w)
    ensures ReadHead("async " + w + " " + arg + ":") == EitherHead(KeywordOf(w), true, arg)
  {
    AsyncHeadRead(w + " " + arg);
    WordThen(w, arg);
    assert (" " + arg)[1..] == arg;
    Rejoined("async ", w, " ", arg, ":");
  }

  lemma AsyncHeadRead(rest: string)
    ensures ReadHead("async " + rest + ":") == AsyncHead(rest)
  {
    AsyncText();
    SpacedHead("async", "async ", rest);
    AsyncOpens(rest);
  }

  lemma AsyncOpens(rest: string)
    ensures WordHead(AsyncWord, rest) == AsyncHead(rest)
  {
  }

  lemma SpacedHead(w: string, spaced: string, rest: string)
    requires AllSmall(w) && spaced == w + " "
    ensures ReadHead(spaced + rest + ":") == WordHead(KeywordOf(w), rest)
  {
    HeadRead(w, rest);
  }

  lemma AsyncText()
    ensures AllSmall("async") && KeywordOf("async") == AsyncWord && "async " == "async" + " "
  {
  }

  lemma Rejoined(a: string, b: string, c: string, d: string, e: string)
    ensures a + b + c + d + e == a + (b + c + d) + e
  {
  }

  lemma BareRead(w: string)
    requires AllSmall(w)
    ensures ReadHead(w + ":") == BareHead(KeywordOf(w))
  {
    assert (w + ":")[..|w|] == w;
    WordOnly(w);
  }

  lemma ForRead(target: string, iter: string)
    requires Absent(target, " in ")
    ensures ReadFor(target + " in " + iter) == Loop(target, iter)
  {
    assert target + " in " + iter == target + (" in " + iter);
    FoundAfter(target, " in ", iter);
  }

  lemma ExceptRead(what: string, name: string)
    requires Absent(what, " as ")
    ensures ReadExcept(what + " as " + name) == Catch(what, name) && ReadExcept(what) == Catch(what, "")
  {
    assert what + " as " + name == what + (" as " + name);
    FoundAfter(what, " as ", name);
    NotFound(what, " as ");
  }

  // a name has no bracket, comma, colon, star, space or equals sign
  predicate NameChar(c: char) {
    !Opening(c) && !Closing(c) && c != ',' && c != ':' && c != '*' && c != ' ' && c != '='
  }

  predicate NameText(s: string) {
    s != "" && forall i :: 0 <= i < |s| ==> NameChar(s[i])
  }

  lemma {:induction false} NameIsSealed(s: string)
    requires forall i :: 0 <= i < |s| ==> NameChar(s[i])
    ensures Sealed(s)
  {
    if s != "" {
      NameIsSealed(s[1..]);
    }
  }

  lemma {:induction false} BracketAfter(name: string, rest: string)
    requires (forall i :: 0 <= i < |name| ==> NameChar(name[i])) && (rest == "" || Opening(rest[0]))
    ensures ToBracket(name + rest) == |name|
  {
    if name == "" {
      assert name + rest == rest;
    } else {
      assert (name + rest)[1..] == name[1..] + rest;
      BracketAfter(name[1..], rest);
    }
  }

  lemma {:induction false} NameEnds(name: string, rest: string)
    requires (forall i :: 0 <= i < |name| ==> NameChar(name[i])) && (rest == "" || rest[0] == ':' || rest[0] == ' ')
    ensures NameEnd(name + rest) == |name|
  {
    if name == "" {
      assert name + rest == rest;
    } else {
      assert (name + rest)[1..] == name[1..] + rest;
      NameEnds(name[1..], rest);
    }
  }

  lemma CloserAfter(inner: string, rest: string)
    requires Balanced(inner) && rest != "" && Closing(rest[0])
    ensures ToCloser(inner + rest, 0) == |inner|
  {
    ToCloserAfter(inner, rest, 0);
  }

  /** A signature: name, parameters in brackets, and what it result, if that is said. */
  lemma DefRead(name: string, inner: string, result: string)
    requires (forall i :: 0 <= i < |name| ==> NameChar(name[i])) && Balanced(inner)
    ensures ReadDef(name + "(" + inner + ")" + if result == "" then "" else " -> " + result)
         == Signature(name, ReadParams(Parts(inner)), result)
  {
    var tail := if result == "" then "" else " -> " + result;
    SignatureText(name, "(", inner, ")", tail);
    BracketedRead(name, inner, tail);
    ClosedRead(inner, tail);
    ResultRead(name, ReadParams(Parts(inner)), result);
  }

  lemma ResultRead(name: string, params: seq<PyParam>, result: string)
    ensures ReadResult(name, params, if result == "" then "" else " -> " + result) == Signature(name, params, result)
  {
    assert (" -> " + result)[4..] == result;
  }

  lemma SignatureText(a: string, b: string, c: string, d: string, e: string)
    ensures a + b + c + d + e == a + (b + (c + (d + e)))
  {
  }

  lemma BracketedRead(name: string, inner: string, tail: string)
    requires forall i :: 0 <= i < |name| ==> NameChar(name[i])
    ensures
      var arg := name + ("(" + (inner + (")" + tail)));
      ToBracket(arg) == |name| && arg[..|name|] == name && arg[|name| + 1..] == inner + (")" + tail)
  {
    BracketAfter(name, "(" + (inner + (")" + tail)));
  }

  lemma ClosedRead(inner: string, tail: string)
    requires Balanced(inner)
    ensures
      var s := inner + (")" + tail);
      ToCloser(s, 0) == |inner| && s[..|inner|] == inner && s[|inner| + 1..] == tail
  {
    CloserAfter(inner, ")" + tail);
  }

  lemma BasesRead(name: string, typeParams: string, bases: string)
    ensures ReadBases(name, typeParams, if bases == "" then "" else "(" + bases + ")") == ClassParts(name, typeParams, Parts(bases))
    ensures ReadBases(name, typeParams, "(" + bases + ")") == ClassParts(name, typeParams, Parts(bases))
  {
    var s := "(" + bases + ")";
    assert s[1..|s| - 1] == bases;
  }

  lemma ClassRead(name: string, typeParams: string, bases: string)
    requires NameText(name) && Balanced(typeParams)
    ensures ReadClass(name + (if typeParams == "" then "" else "[" + typeParams + "]") + if bases == "" then "" else "(" + bases + ")")
         == ClassParts(name, typeParams, Parts(bases))
  {
    var end := if bases == "" then "" else "(" + bases + ")";
    BasesRead(name, typeParams, bases);
    if typeParams == "" {
      assert name + "" + end == name + end;
      UntypedClass(name, end);
    } else {
      TypedText(name, "[", typeParams, "]", end);
      TypedClass(name, typeParams, end);
    }
  }

  lemma UntypedClass(name: string, end: string)
    requires NameText(name) && (end == "" || end[0] == '(')
    ensures ReadClass(name + end) == ReadBases(name, "", end)
  {
    NameFirst(name, end);
  }

  lemma TypedClass(name: string, typeParams: string, end: string)
    requires NameText(name) && Balanced(typeParams)
    ensures ReadClass(name + ("[" + (typeParams + ("]" + end)))) == ReadBases(name, typeParams, end)
  {
    NameFirst(name, "[" + (typeParams + ("]" + end)));
    TypeParamsRead(typeParams, end);
    ClassWithTypes(name + ("[" + (typeParams + ("]" + end))), name, "[" + (typeParams + ("]" + end)), typeParams, end);
  }

  lemma ClassWithTypes(arg: string, name: string, rest: string, typeParams: string, end: string)
    requires ToBracket(arg) == |name| && arg[..|name|] == name && arg[|name|..] == rest && rest != "" && rest[0] == '['
    requires ToCloser(rest[1..], 0) == |typeParams| < |rest[1..]|
    requires rest[1..][..|typeParams|] == typeParams && rest[1..][|typeParams| + 1..] == end
    ensures ReadClass(arg) == ReadBases(name, typeParams, end)
  {
  }

  lemma TypedText(a: string, b: string, c: string, d: string, e: string)
    ensures a + (b + c + d) + e == a + (b + (c + (d + e)))
  {
  }

  lemma NameFirst(name: string, rest: string)
    requires NameText(name) && (rest == "" || Opening(rest[0]))
    ensures ToBracket(name + rest) == |name| && (name + rest)[..|name|] == name && (name + rest)[|name|..] == rest
  {
    BracketAfter(name, rest);
  }

  lemma TypeParamsRead(typeParams: string, end: string)
    requires Balanced(typeParams)
    ensures
      var rest := "[" + (typeParams + ("]" + end));
      && rest[0] == '[' && ToCloser(rest[1..], 0) == |typeParams| < |rest[1..]|
      && rest[1..][..|typeParams|] == typeParams && rest[1..][|typeParams| + 1..] == end
  {
    var rest := "[" + (typeParams + ("]" + end));
    CloserAfter(typeParams, "]" + end);
    assert rest[1..] == typeParams + ("]" + end);
  }

  lemma PlainClassRead(name: string, bases: string)
    requires NameText(name)
    ensures ReadClass(name + "(" + bases + ")") == ClassParts(name, "", Parts(bases))
  {
    var end := "(" + bases + ")";
    assert name + "(" + bases + ")" == name + end;
    UntypedClass(name, end);
    BasesRead(name, "", bases);
  }
}
