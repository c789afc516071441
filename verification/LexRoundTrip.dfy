/** Printing tokens and lexing them again: when exactly the same tokens come back. */
module LexRoundTrip {
  import opened Options
  import opened LexSyntax

  // ----- printing

  /** Is a value this one character? */
  predicate Is(v: string, c: char) {
    |v| == 1 && v[0] == c
  }

  predicate NoSpaceBefore(v: string) {
    Is(v, '.') || Is(v, ')') || Is(v, ']') || Is(v, ',') || Is(v, ':') || Is(v, ';')
  }

  predicate NoSpaceAfter(v: string) {
    Is(v, '.') || Is(v, '(') || Is(v, '[') || Is(v, '~')
  }

  predicate Opens(v: string) {
    Is(v, '(') || Is(v, '[')
  }

  predicate Joined(prev: Lexeme, cur: Lexeme) {
    || NoSpaceBefore(cur.value)
    || NoSpaceAfter(prev.value)
    || (prev.kind == Name && Opens(cur.value))
    || (prev.kind == Str && (Is(cur.value, '.') || Opens(cur.value)))
    || (prev.kind == Number && Is(cur.value, '.'))
    || ((Is(prev.value, ')') || Is(prev.value, ']')) && (Is(cur.value, '.') || Opens(cur.value)))
    || (Is(prev.value, ')') && Is(cur.value, ')'))
    || (Is(prev.value, ']') && Is(cur.value, ']'))
  }

  function Space(prev: Lexeme, cur: Lexeme): string {
    if Joined(prev, cur) then "" else " "
  }

  /** What follows a token in the printed text. */
  function Rest(ts: seq<Lexeme>): string
    requires ts != []
  {
    if |ts| == 1 then "" else Space(ts[0], ts[1]) + ts[1].value + Rest(ts[1..])
  }

  function Print(ts: seq<Lexeme>): string {
    if ts == [] then "" else ts[0].value + Rest(ts)
  }

  // ----- lexemes

  predicate ClosesShort(s: string, q: char)
    decreases |s|
  {
    if s == "" then false
    else if s[0] == '\\' then ClosesShort(Drop(s, 2), q)
    else if s[0] == q then |s| == 1
    else ClosesShort(s[1..], q)
  }

  predicate ClosesLong(s: string, q: char)
    decreases |s|
  {
    if s == "" then false
    else if s[0] == '\\' then ClosesLong(Drop(s, 2), q)
    else if AtThree(s, q) then |s| == 3
    else ClosesLong(s[1..], q)
  }

  /** A string that ends with its closing quote, and on its first line unless it is a long one. */
  predicate IsStr(w: string) {
    AtString(w) &&
    var body := AfterPrefix(w);
    if IsLong(body[1..], body[0]) then ClosesLong(Drop(body, 3), body[0])
    else '\n' !in w && ClosesShort(body[1..], body[0])
  }

  predicate IsNumber(w: string) {
    AtNumber(w) && AfterNumber(w) == ""
  }

  predicate IsName(w: string) {
    w != "" && (IsAlpha(w[0]) || w[0] == '_') && forall i :: 0 <= i < |w| ==> InName(w[i])
  }

  predicate IsOp(w: string) {
    || (|w| == 3 && IsThreeOp(w[0], w[1], w[2]))
    || (|w| == 2 && IsTwoOp(w[0], w[1]))
    || (|w| == 1 && IsOpChar(w[0]))
  }

  /** A lexeme whose value has its kind's form. */
  predicate IsLexeme(t: Lexeme) {
    match t.kind
    case Name => IsName(t.value)
    case Number => IsNumber(t.value)
    case Str => IsStr(t.value)
    case Eof => false
    case Ellipsis => t.value == "..."
    case Arrow => t.value == "->"
    case QDot => t.value == "?."
    case Op => IsOp(t.value)
    case _ => |t.value| == 1 && Punctuation(t.value[0]) == Some(t.kind)
  }

  // ----- where printing loses tokens

  predicate StartsWithPoint(ts: seq<Lexeme>) {
    ts != [] && ts[0].value != "" && ts[0].value[0] == '.'
  }

  /** Digits only: a point after them is read as part of the number, unless another point follows. */
  predicate IsDigits(w: string) {
    AfterDigits(w) == ""
  }

  /** Digits and a point: it is given up if another point follows. */
  predicate EndsInPoint(w: string) {
    AfterDigits(w) == "."
  }

  /** Does the first token fail to come back because of the one or two after it? */
  predicate Clash(ts: seq<Lexeme>) {
    |ts| > 1 &&
    var t, next := ts[0], ts[1];
    match t.kind
    case Op => Is(t.value, '?') && next.kind == Dot
    case Dot =>
      || next.kind == Ellipsis
      || (next.kind == Number && next.value != "" && IsDigit(next.value[0]))
      || (next.kind == Dot && StartsWithPoint(ts[2..]))
    case Number =>
      next.kind == Dot && (EndsInPoint(t.value) || (IsDigits(t.value) && !StartsWithPoint(ts[2..])))
    case _ => false
  }

  predicate NoClash(ts: seq<Lexeme>) {
    forall i :: 0 <= i < |ts| ==> !Clash(ts[i..])
  }

  // ----- strings

  lemma {:induction false} ShortKept(s: string, q: char, r: string)
    requires ClosesShort(s, q)
    ensures AfterShort(s + r, q) == r
    decreases |s|
  {
    if s[0] == '\\' {
      assert |s| >= 2;
      assert Drop(s + r, 2) == Drop(s, 2) + r;
      ShortKept(Drop(s, 2), q, r);
    } else if s[0] == q {
      assert (s + r)[1..] == r;
    } else {
      assert (s + r)[1..] == s[1..] + r;
      ShortKept(s[1..], q, r);
    }
  }

  lemma {:induction false} LongKept(s: string, q: char, r: string)
    requires ClosesLong(s, q)
    ensures AfterLong(s + r, q) == r
    ensures |s| >= 3
    decreases |s|
  {
    if s[0] == '\\' {
      assert |s| >= 2;
      assert Drop(s + r, 2) == Drop(s, 2) + r;
      LongKept(Drop(s, 2), q, r);
    } else if AtThree(s, q) {
      assert Drop(s + r, 3) == r;
    } else {
      assert (s + r)[1..] == s[1..] + r;
      LongKept(s[1..], q, r);
      assert |s| >= 3;
    }
  }

  lemma {:induction false} PrefixKept(w: string, r: string)
    requires AfterPrefix(w) != ""
    ensures AfterPrefix(w + r) == AfterPrefix(w) + r
  {
    if IsPrefix(w[0]) {
      assert (w + r)[1..] == w[1..] + r;
      PrefixKept(w[1..], r);
    }
  }

  lemma OpeningKept(s: string, q: char, r: string)
    requires if IsLong(s, q) then ClosesLong(Drop(s, 2), q) else ClosesShort(s, q)
    requires r == "" || !IsQuote(r[0])
    requires IsQuote(q)
    ensures IsLong(s + r, q) == IsLong(s, q) && AfterOpening(s + r, q) == r
  {
    if IsLong(s, q) {
      assert Drop(s + r, 2) == Drop(s, 2) + r;
      LongKept(Drop(s, 2), q, r);
    } else {
      ShortKept(s, q, r);
    }
  }

  lemma StrKept(w: string, r: string)
    requires IsStr(w) && (r == "" || !IsQuote(r[0]))
    ensures AtString(w + r) && AfterString(w + r) == r && StringValue(w + r) == w
  {
    var body := AfterPrefix(w);
    PrefixKept(w, r);
    assert (body + r)[1..] == body[1..] + r;
    assert Drop(body, 3) == Drop(body[1..], 2);
    OpeningKept(body[1..], body[0], r);
    assert Taken(w + r, r) == w;
  }

  // ----- numbers

  /** What can follow a number in printed text. */
  predicate EndsNumber(r: string) {
    r == "" || r[0] == ' ' || r[0] == ')' || r[0] == ']' || r[0] == ',' || r[0] == ':' || r[0] == ';' || r[0] == '.'
  }

  predicate BeforeOnePoint(r: string) {
    Has(r, 0, '.') && !Has(r, 1, '.')
  }

  lemma {:induction false} DigitsKept(w: string, r: string)
    requires r == "" || !InDigits(r[0])
    ensures AfterDigits(w + r) == AfterDigits(w) + r
  {
    if w != "" && InDigits(w[0]) {
      assert (w + r)[1..] == w[1..] + r;
      DigitsKept(w[1..], r);
    } else if w == "" {
      assert w + r == r;
    }
  }

  lemma {:induction false} NameKept(w: string, r: string)
    requires r == "" || !InName(r[0])
    ensures AfterName(w + r) == AfterName(w) + r
  {
    if w != "" && InName(w[0]) {
      assert (w + r)[1..] == w[1..] + r;
      NameKept(w[1..], r);
    } else if w == "" {
      assert w + r == r;
    }
  }

  lemma FractionKept(w: string, r: string)
    requires EndsNumber(r)
    requires w == "" ==> !BeforeOnePoint(r)
    requires w == "." ==> !Has(r, 0, '.')
    ensures AfterFraction(w + r) == AfterFraction(w) + r
  {
    if w == "" {
      assert w + r == r;
    } else {
      assert (w + r)[1..] == w[1..] + r;
      DigitsKept(w[1..], r);
    }
  }

  lemma ExponentKept(w: string, r: string)
    requires EndsNumber(r)
    ensures AfterExponent(w + r) == AfterExponent(w) + r
  {
    if w == "" {
      assert w + r == r;
    } else {
      assert Drop(w + r, 1) == Drop(w, 1) + r;
      SignKept(Drop(w, 1), r);
      DigitsKept(AfterSign(Drop(w, 1)), r);
    }
  }

  lemma SignKept(w: string, r: string)
    requires EndsNumber(r)
    ensures AfterSign(w + r) == AfterSign(w) + r
  {
    if w == "" {
      assert w + r == r;
    } else {
      assert Drop(w + r, 1) == Drop(w, 1) + r;
    }
  }

  lemma ImaginaryKept(w: string, r: string)
    requires EndsNumber(r)
    ensures AfterImaginary(w + r) == AfterImaginary(w) + r
  {
    if w == "" {
      assert w + r == r;
    } else {
      assert Drop(w + r, 1) == Drop(w, 1) + r;
    }
  }

  lemma DecimalKept(w: string, r: string)
    requires EndsNumber(r)
    requires IsDigits(w) ==> !BeforeOnePoint(r)
    requires EndsInPoint(w) ==> !Has(r, 0, '.')
    ensures AfterExponent(AfterFraction(AfterDigits(w + r))) == AfterExponent(AfterFraction(AfterDigits(w))) + r
  {
    DigitsKept(w, r);
    FractionKept(AfterDigits(w), r);
    ExponentKept(AfterFraction(AfterDigits(w)), r);
  }

  lemma NumberKept(w: string, r: string)
    requires IsNumber(w) && EndsNumber(r)
    requires IsDigits(w) ==> !BeforeOnePoint(r)
    requires EndsInPoint(w) ==> !Has(r, 0, '.')
    ensures AtNumber(w + r) && AfterNumber(w + r) == r
  {
    if w == "0" {
      assert !HasRadix(w + r) || r == "";
      if r == "" {
        assert w + r == w;
      } else {
        DecimalKept(w, r);
        assert AfterDigits(w) == "";
        ImaginaryKept("", r);
      }
    } else if HasRadix(w) {
      assert |w| >= 2 && HasRadix(w + r);
      assert Drop(w + r, 2) == Drop(w, 2) + r;
      NameKept(Drop(w, 2), r);
      ImaginaryKept(AfterName(Drop(w, 2)), r);
    } else {
      assert !HasRadix(w + r);
      DecimalKept(w, r);
      ImaginaryKept(AfterExponent(AfterFraction(AfterDigits(w))), r);
    }
  }

  /** A point that is taken into the number, or a point of the number's own that is given up. */
  lemma NumberLost(w: string, r: string)
    requires IsNumber(w) && Has(r, 0, '.')
    requires (IsDigits(w) && BeforeOnePoint(r)) || EndsInPoint(w)
    ensures AtNumber(w + r) && |AfterNumber(w + r)| != |r|
  {
    DigitsKept(w, r);
    NoRadix(w, r);
    if IsDigits(w) {
      assert AfterDigits(w + r) == r;
    } else {
      assert AfterDigits(w + r) == "." + r;
    }
  }

  lemma NoRadix(w: string, r: string)
    requires IsNumber(w) && Has(r, 0, '.') && (IsDigits(w) || EndsInPoint(w))
    ensures !HasRadix(w + r)
  {
    if |w| > 1 && w[0] == '0' {
      assert AfterDigits(w) == AfterDigits(w[1..]);
      assert InDigits(w[1]) || w[1] == '.';
    }
  }

  // ----- symbols

  /** What follows a token that is not an opening one, a `~` or a point. */
  predicate EndsToken(r: string) {
    EndsNumber(r) || r[0] == '(' || r[0] == '['
  }

  /** Does a character start a name or a string, or mark one? */
  predicate StartsWord(c: char) {
    IsAlpha(c) || c == '_' || c == '`' || IsQuote(c)
  }

  lemma SymbolChar(c: char)
    requires Punctuation(c).Some? || IsOpChar(c)
    ensures !StartsWord(c) && !IsPrefix(c)
  {
  }

  lemma FindIsSymbol(s: string)
    requires s != "" && !StartsWord(s[0]) && !IsPrefix(s[0]) && !AtNumber(s)
    ensures Find(s) == FindSymbol(s)
  {
    assert AfterPrefix(s) == s;
  }

  /** A symbol's value, followed by text that does not make it another symbol. */
  lemma SymbolFound(v: string, r: string, kind: Kind)
    requires v != "" && (Punctuation(v[0]).Some? || IsOpChar(v[0]))
    requires !AtNumber(v + r)
    requires SymbolAt(v + r) == Some((kind, |v|))
    ensures Find(v + r) == Found(Lexeme(kind, v), r)
  {
    var s := v + r;
    assert s[..|v|] == v && s[|v|..] == r;
    SymbolChar(s[0]);
    FindIsSymbol(s);
  }

  lemma LongSymbolKept(t: Lexeme, r: string)
    requires IsLexeme(t) && |t.value| >= 2 && t.kind in {Op, Ellipsis, Arrow, QDot}
    requires EndsToken(r)
    ensures Find(t.value + r) == Found(t, r)
  {
    var s := t.value + r;
    if |t.value| == 2 && r != "" {
      assert s[2] == r[0];
    }
    SymbolFound(t.value, r, t.kind);
  }

  lemma OpCharKept(c: char, r: string)
    requires IsOpChar(c) && (c != '~' ==> EndsToken(r)) && (c == '?' ==> !Has(r, 0, '.'))
    ensures Find([c] + r) == Found(Lexeme(Op, [c]), r)
  {
    var s := [c] + r;
    if r != "" {
      assert s[1] == r[0];
    }
    SymbolFound([c], r, Op);
  }

  lemma PunctuationKept(c: char, r: string)
    requires Punctuation(c).Some? && c != '.' && (c == ':' || c == '@' ==> EndsToken(r))
    ensures Find([c] + r) == Found(Lexeme(Punctuation(c).value, [c]), r)
  {
    var s := [c] + r;
    if r != "" {
      assert s[1] == r[0];
    }
    SymbolFound([c], r, Punctuation(c).value);
  }

  /** Does a point go together with what follows it? */
  predicate PointMerges(r: string) {
    (r != "" && IsDigit(r[0])) || (Has(r, 0, '.') && Has(r, 1, '.'))
  }

  lemma DotAlone(s: string)
    requires s != "" && s[0] == '.' && !PointMerges(s[1..])
    ensures Find(s) == Found(Lexeme(Dot, "."), s[1..])
  {
    assert !AtNumber(s);
    FindIsSymbol(s);
    assert SymbolAt(s) == Some((Dot, 1));
    assert s[..1] == ".";
  }

  lemma DotMerged(s: string)
    requires s != "" && s[0] == '.' && PointMerges(s[1..])
    ensures Find(s).Found? && Find(s).lexeme.kind != Dot
  {
    if IsDigit(s[1]) {
      assert AfterPrefix(s) == s;
    } else {
      assert s[2] == '.';
      FindIsSymbol(s);
    }
  }

  // ----- one token among others

  ghost predicate AreLexemes(ts: seq<Lexeme>) {
    forall i :: 0 <= i < |ts| ==> IsLexeme(ts[i])
  }

  /** A lexeme's first character tells its kind apart. */
  lemma FirstChar(t: Lexeme)
    requires IsLexeme(t)
    ensures t.value != "" && !IsBlank(t.value[0]) && t.value[0] != '#'
    ensures Is(t.value, '.') <==> t.kind == Dot
    ensures t.value[0] == '.' <==> t.kind == Dot || t.kind == Ellipsis || (t.kind == Number && !IsDigit(t.value[0]))
    ensures IsDigit(t.value[0]) ==> t.kind == Number
    ensures NoSpaceAfter(t.value) ==> t.kind in {Dot, LParen, LBracket} || (t.kind == Op && Is(t.value, '~'))
    ensures Is(t.value, ')') || Is(t.value, ']') ==> t.kind != Number
  {
    if t.kind == Str {
      var body := AfterPrefix(t.value);
      assert t.value == body || IsPrefix(t.value[0]);
    }
  }

  lemma RestNext(ts: seq<Lexeme>)
    requires |ts| > 1
    ensures Rest(ts) == Space(ts[0], ts[1]) + ts[1].value + Rest(ts[1..])
  {
  }

  lemma RestFirst(ts: seq<Lexeme>)
    requires |ts| > 1 && ts[1].value != ""
    ensures Rest(ts) != "" && Rest(ts)[0] == if Joined(ts[0], ts[1]) then ts[1].value[0] else ' '
    ensures Joined(ts[0], ts[1]) ==> Rest(ts) == ts[1].value + Rest(ts[1..])
  {
    RestNext(ts);
    assert "" + ts[1].value == ts[1].value;
  }

  /** A token joined to an earlier one that takes a space after it is a point, a bracket, or a
      separator; after a number it opens nothing. */
  lemma JoinedTo(prev: Lexeme, cur: Lexeme)
    requires IsLexeme(prev) && IsLexeme(cur) && !NoSpaceAfter(prev.value) && Joined(prev, cur)
    ensures cur.value != "" && EndsToken(cur.value)
    ensures prev.kind == Number ==> EndsNumber(cur.value)
    ensures cur.value[0] == '.' <==> cur.kind == Dot
  {
    FirstChar(prev);
    FirstChar(cur);
  }

  /** What follows the first token: nothing, a space, or the next token's first character. */
  lemma RestStarts(ts: seq<Lexeme>)
    requires AreLexemes(ts) && ts != []
    ensures !NoSpaceAfter(ts[0].value) ==> EndsToken(Rest(ts))
    ensures ts[0].kind == Number ==> EndsNumber(Rest(ts))
    ensures !NoSpaceAfter(ts[0].value) ==> (Has(Rest(ts), 0, '.') <==> |ts| > 1 && ts[1].kind == Dot)
  {
    if |ts| > 1 {
      FirstChar(ts[0]);
      FirstChar(ts[1]);
      RestFirst(ts);
      if !NoSpaceAfter(ts[0].value) {
        if Joined(ts[0], ts[1]) {
          JoinedTo(ts[0], ts[1]);
        }
      }
    } else {
      FirstChar(ts[0]);
    }
  }

  /** The second character after a point that follows the first token, or that is that token. */
  lemma PointThen(ts: seq<Lexeme>)
    requires AreLexemes(ts) && |ts| > 1 && ts[1].kind == Dot
    ensures Rest(ts) == "." + Rest(ts[1..])
    ensures Has(Rest(ts), 0, '.')
    ensures Has(Rest(ts), 1, '.') <==> StartsWithPoint(ts[2..])
  {
    FirstChar(ts[1]);
    RestFirst(ts);
    assert ts[1].value == ".";
    assert Has("." + Rest(ts[1..]), 1, '.') <==> Has(Rest(ts[1..]), 0, '.');
    if |ts| > 2 {
      assert ts[1..][1] == ts[2];
      PointFirst(ts[1..]);
    }
  }

  /** After a point stands the next token at once. */
  lemma PointFirst(ts: seq<Lexeme>)
    requires |ts| > 1 && IsLexeme(ts[0]) && IsLexeme(ts[1]) && ts[0].kind == Dot
    ensures Has(Rest(ts), 0, '.') <==> ts[1].value[0] == '.'
  {
    FirstChar(ts[0]);
    FirstChar(ts[1]);
    RestFirst(ts);
  }

  lemma DotThen(ts: seq<Lexeme>)
    requires AreLexemes(ts) && |ts| > 1 && ts[0].kind == Dot
    ensures Rest(ts) == ts[1].value + Rest(ts[1..])
    ensures ts[1].value != "" && Rest(ts)[0] == ts[1].value[0]
  {
    FirstChar(ts[0]);
    FirstChar(ts[1]);
    RestFirst(ts);
  }

  /** After a point, its clashes are: a digit, or two more points. */
  lemma DotClash(ts: seq<Lexeme>)
    requires AreLexemes(ts) && ts != [] && ts[0].kind == Dot
    ensures Clash(ts) <==> PointMerges(Rest(ts))
  {
    if |ts| > 1 {
      var next := ts[1];
      DotThen(ts);
      FirstChar(next);
      if next.kind == Dot {
        PointThen(ts);
      } else if next.kind == Number && next.value[0] == '.' {
        assert Rest(ts)[1] == next.value[1];
      } else if next.kind == Ellipsis {
        assert Rest(ts)[1] == next.value[1];
      }
    }
  }

  lemma DotIs(t: Lexeme)
    requires IsLexeme(t) && t.kind == Dot
    ensures t == Lexeme(Dot, ".")
  {
    FirstChar(t);
    assert t.value == ".";
  }

  lemma DotBefore(v: string, r: string)
    requires v == "."
    ensures v + r != "" && (v + r)[0] == '.' && (v + r)[1..] == r
  {
  }

  lemma DotKept(ts: seq<Lexeme>)
    requires AreLexemes(ts) && ts != [] && !Clash(ts) && ts[0].kind == Dot
    ensures Find(Print(ts)) == Found(ts[0], Rest(ts))
  {
    DotClash(ts);
    DotIs(ts[0]);
    DotBefore(ts[0].value, Rest(ts));
    DotAlone(ts[0].value + Rest(ts));
  }

  lemma DotLost(ts: seq<Lexeme>)
    requires AreLexemes(ts) && Clash(ts) && ts[0].kind == Dot
    ensures Find(Print(ts)).Found? && Find(Print(ts)).lexeme != ts[0]
  {
    DotClash(ts);
    DotIs(ts[0]);
    DotBefore(ts[0].value, Rest(ts));
    DotMerged(ts[0].value + Rest(ts));
  }

  lemma NumberLostAmong(ts: seq<Lexeme>)
    requires AreLexemes(ts) && Clash(ts) && ts[0].kind == Number
    ensures Find(Print(ts)).Found? && Find(Print(ts)).lexeme != ts[0]
  {
    var w, r := ts[0].value, Rest(ts);
    PointThen(ts);
    NotString(w, r);
    NumberLost(w, r);
    assert |Taken(w + r, AfterNumber(w + r))| != |w|;
  }

  lemma NumberKeptAmong(ts: seq<Lexeme>)
    requires AreLexemes(ts) && ts != [] && !Clash(ts) && ts[0].kind == Number
    ensures Find(Print(ts)) == Found(ts[0], Rest(ts))
  {
    var w, r := ts[0].value, Rest(ts);
    FirstChar(ts[0]);
    RestStarts(ts);
    if |ts| > 1 && ts[1].kind == Dot {
      PointThen(ts);
    }
    NotString(w, r);
    NumberKept(w, r);
    assert Taken(w + r, r) == w;
  }

  lemma NotString(w: string, r: string)
    requires AtNumber(w)
    ensures !AtString(w + r) && AtNumber(w + r)
  {
    assert AfterPrefix(w + r) == w + r;
  }

  /** A character after which a token is over is in no name. */
  lemma NoNameGoesOn(c: char)
    requires EndsToken([c])
    ensures !InName(c) && !IsQuote(c)
  {
    assert [c][0] == c;
    assert c == ' ' || c == ')' || c == ']' || c == ',' || c == ':' || c == ';' || c == '.' || c == '(' || c == '[';
  }

  lemma NameKeptAmong(w: string, r: string)
    requires IsName(w) && EndsToken(r)
    ensures Find(w + r) == Found(Lexeme(Name, w), r)
  {
    if r != "" {
      NoNameGoesOn(r[0]);
    }
    NameKept(w, r);
    NameWhole(w);
    NoQuoteIn(w, r);
    assert Taken(w + r, r) == w;
  }

  lemma {:induction false} NameWhole(w: string)
    requires forall i :: 0 <= i < |w| ==> InName(w[i])
    ensures AfterName(w) == ""
  {
    if w != "" {
      NameWhole(w[1..]);
    }
  }

  lemma {:induction false} NoQuoteIn(w: string, r: string)
    requires (forall i :: 0 <= i < |w| ==> InName(w[i])) && EndsToken(r)
    ensures !AtString(w + r)
  {
    if w == "" {
      assert w + r == r;
    } else {
      assert (w + r)[1..] == w[1..] + r;
      NoQuoteIn(w[1..], r);
    }
  }

  lemma OpKeptAmong(ts: seq<Lexeme>)
    requires AreLexemes(ts) && ts != [] && ts[0].kind == Op
    ensures !Clash(ts) ==> Find(Print(ts)) == Found(ts[0], Rest(ts))
    ensures Clash(ts) ==> Find(Print(ts)).Found? && Find(Print(ts)).lexeme != ts[0]
  {
    var t, r := ts[0], Rest(ts);
    FirstChar(t);
    RestStarts(ts);
    if |t.value| > 1 {
      LongSymbolKept(t, r);
    } else {
      assert t.value == [t.value[0]];
      if Clash(ts) {
        QuestionLost(r);
      } else {
        OpCharKept(t.value[0], r);
      }
    }
  }

  predicate IsPunctuation(t: Lexeme) {
    |t.value| == 1 && Punctuation(t.value[0]) == Some(t.kind) && t.kind != Dot
  }

  /** Tokens that come back whatever follows them in printed text. */
  lemma OtherKept(ts: seq<Lexeme>)
    requires AreLexemes(ts) && ts != [] && ts[0].kind !in {Op, Dot, Number}
    ensures Find(Print(ts)) == Found(ts[0], Rest(ts))
  {
    var t, r := ts[0], Rest(ts);
    FirstChar(t);
    RestStarts(ts);
    if t.kind == Name {
      NameKeptAmong(t.value, r);
    } else if t.kind == Str {
      StrKept(t.value, r);
    } else if t.kind in {Ellipsis, Arrow, QDot} {
      LongSymbolKept(t, r);
    } else {
      IsOnePunctuation(t);
      PunctuationKept(t.value[0], r);
    }
  }

  lemma IsOnePunctuation(t: Lexeme)
    requires IsLexeme(t) && t.kind !in {Op, Dot, Number, Name, Str, Ellipsis, Arrow, QDot}
    ensures IsPunctuation(t) && t.value == [t.value[0]]
    ensures t.value[0] == ':' || t.value[0] == '@' ==> !NoSpaceAfter(t.value)
  {
  }

  /** The first token comes back unless it clashes with what follows. */
  lemma FirstFound(ts: seq<Lexeme>)
    requires AreLexemes(ts) && ts != []
    ensures !Clash(ts) ==> Find(Print(ts)) == Found(ts[0], Rest(ts))
    ensures Clash(ts) ==> Find(Print(ts)).Found? && Find(Print(ts)).lexeme != ts[0]
  {
    if ts[0].kind == Op {
      OpKeptAmong(ts);
    } else if ts[0].kind == Dot {
      if Clash(ts) {
        DotLost(ts);
      } else {
        DotKept(ts);
      }
    } else if ts[0].kind == Number {
      if Clash(ts) {
        NumberLostAmong(ts);
      } else {
        NumberKeptAmong(ts);
      }
    } else {
      OtherKept(ts);
    }
  }

  lemma QuestionLost(r: string)
    requires Has(r, 0, '.')
    ensures Find("?" + r).Found? && Find("?" + r).lexeme.kind == QDot
  {
    var s := "?" + r;
    assert AfterPrefix(s) == s;
    assert s[1] == r[0];
  }

  // ----- all tokens

  lemma BlanksSkipped(t: Lexeme, more: string)
    requires IsLexeme(t)
    ensures AfterBlanks(t.value + more) == t.value + more
    ensures AfterBlanks(" " + t.value + more) == t.value + more
  {
    FirstChar(t);
    assert (" " + t.value + more)[1..] == t.value + more;
  }

  lemma LexRest(ts: seq<Lexeme>)
    requires AreLexemes(ts) && ts != []
    ensures Lex(Rest(ts)) == Lex(Print(ts[1..]))
  {
    if |ts| > 1 {
      var more := Rest(ts[1..]);
      BlanksSkipped(ts[1], more);
      assert Print(ts[1..]) == ts[1].value + more;
      assert "" + ts[1].value == ts[1].value;
    }
  }

  lemma ClashFree(ts: seq<Lexeme>)
    requires ts != []
    ensures NoClash(ts) <==> !Clash(ts) && NoClash(ts[1..])
  {
    assert ts[0..] == ts;
    assert forall i :: 0 <= i < |ts[1..]| ==> ts[1..][i..] == ts[i + 1..];
    if NoClash(ts) {
      forall i | 0 <= i < |ts[1..]| ensures !Clash(ts[1..][i..]) {
        assert !Clash(ts[i + 1..]);
      }
    }
    if !Clash(ts) && NoClash(ts[1..]) {
      forall i | 0 <= i < |ts| ensures !Clash(ts[i..]) {
        if i > 0 {
          assert !Clash(ts[1..][i - 1..]);
        }
      }
    }
  }

  /** A token that comes back, and the tokens after it. */
  lemma FirstKept(ts: seq<Lexeme>)
    requires AreLexemes(ts) && ts != [] && !Clash(ts)
    ensures Lex(Print(ts)) == Prepend(ts[0], Lex(Print(ts[1..])))
  {
    FirstFound(ts);
    BlanksSkipped(ts[0], Rest(ts));
    LexRest(ts);
  }

  lemma FirstLost(ts: seq<Lexeme>)
    requires AreLexemes(ts) && ts != [] && Clash(ts)
    ensures Lex(Print(ts)) != Lexed(ts)
  {
    FirstFound(ts);
    FirstChar(ts[0]);
    BlanksSkipped(ts[0], Rest(ts));
    FirstDiffers(ts, Find(Print(ts)));
  }

  lemma PrependSame(ts: seq<Lexeme>, more: Outcome)
    requires ts != []
    ensures Prepend(ts[0], more) == Lexed(ts) <==> more == Lexed(ts[1..])
  {
    assert more.Lexed? ==> ([ts[0]] + more.lexemes)[1..] == more.lexemes;
    assert ts == [ts[0]] + ts[1..];
  }

  /** Lexing printed tokens gives the same kinds and values back if and only if no token clashes
      with the ones after it. */
  lemma {:induction false} LexingUndoesPrinting(ts: seq<Lexeme>)
    requires AreLexemes(ts)
    ensures Lex(Print(ts)) == Lexed(ts) <==> NoClash(ts)
  {
    if ts != [] {
      ClashFree(ts);
      if Clash(ts) {
        FirstLost(ts);
      } else {
        FirstKept(ts);
        LexingUndoesPrinting(ts[1..]);
        PrependSame(ts, Lex(Print(ts[1..])));
      }
    }
  }

  lemma FirstDiffers(ts: seq<Lexeme>, f: Found)
    requires ts != [] && AfterBlanks(Print(ts)) == Print(ts) != "" && f == Find(Print(ts))
    requires f.Found? && f.lexeme != ts[0]
    ensures Lex(Print(ts)) != Lexed(ts)
  {
    assert Lex(Print(ts)) == Prepend(f.lexeme, Lex(f.rest));
  }

  /** Two neighbours that never clash: no point beside a number, after a `?`, or before another
      point or an ellipsis. */
  predicate SafePair(a: Lexeme, b: Lexeme) {
    && (a.kind == Dot ==> b.kind != Number && b.kind != Dot && b.kind != Ellipsis)
    && (b.kind == Dot ==> a.kind != Number && !Is(a.value, '?'))
  }

  lemma SafePairsComeBack(ts: seq<Lexeme>)
    requires AreLexemes(ts) && forall i :: 0 < i < |ts| ==> SafePair(ts[i - 1], ts[i])
    ensures Lex(Print(ts)) == Lexed(ts)
  {
    forall i | 0 <= i < |ts| ensures !Clash(ts[i..]) {
      if i + 1 < |ts| {
        assert SafePair(ts[i + 1 - 1], ts[i + 1]);
        assert ts[i..][0] == ts[i] && ts[i..][1] == ts[i + 1];
      }
    }
    LexingUndoesPrinting(ts);
  }

  lemma Longer(text: string, a: string, b: string, more: string)
    ensures text + (a + b + more) == text + a + b + more
  {
  }

  method JoinAll(tokens: seq<Lexeme>) returns (text: string)
    ensures text == Print(tokens)
  {
    if tokens == [] {
      return "";
    }
    text := tokens[0].value;
    assert tokens[0..] == tokens;
    var i := 1;
    while i < |tokens|
      invariant 1 <= i <= |tokens|
      invariant text + Rest(tokens[i - 1..]) == Print(tokens)
    {
      var space := Space(tokens[i - 1], tokens[i]);
      RestNext(tokens[i - 1..]);
      assert tokens[i - 1..][1..] == tokens[i..];
      Longer(text, space, tokens[i].value, Rest(tokens[i..]));
      text := text + space + tokens[i].value;
      i := i + 1;
    }
    assert text + "" == text;
  }

  /** Joins tokens with the spaces they need: lexing the text gives them back if and only if none
      clashes with the ones after it. */
  method JoinTokens(tokens: seq<Lexeme>) returns (text: string)
    ensures text == Print(tokens)
    ensures AreLexemes(tokens) ==> (Lex(text) == Lexed(tokens) <==> NoClash(tokens))
  {
    if AreLexemes(tokens) {
      LexingUndoesPrinting(tokens);
    }
    text := JoinAll(tokens);
  }
}
