/** The forms of tokens, said by their characters: which texts are names, numbers, strings and
    operators, and that the lexer takes the longest of them. */
module LexForms {
  import opened Options
  import opened LexSyntax
  import LexRoundTrip

  // ----- characters by their codes

  predicate Digit(c: char) {
    48 <= c as int <= 57
  }

  predicate Letter(c: char) {
    65 <= c as int <= 90 || 97 <= c as int <= 122
  }

  predicate Word(c: char) {
    Letter(c) || Digit(c) || c as int == 95
  }

  predicate Quote(c: char) {
    c as int == 34 || c as int == 39
  }

  predicate AllWord(s: string) {
    forall k :: 0 <= k < |s| ==> Word(s[k])
  }

  predicate AllDigits(s: string) {
    forall k :: 0 <= k < |s| ==> Digit(s[k]) || s[k] == '_'
  }

  // ----- names

  lemma {:induction false} NamePassed(t: string, next: string)
    requires AllWord(t) && (next == "" || !Word(next[0]))
    ensures AfterName(t + next) == next
  {
    if t == "" {
      assert t + next == next;
    } else {
      assert (t + next)[1..] == t[1..] + next;
      NamePassed(t[1..], next);
    }
  }

  /** A name is as long as letters, digits and underscores go on; a backtick before it comes off. */
  lemma NameFound(t: string, next: string)
    requires t != "" && AllWord(t) && !Digit(t[0]) && (next == "" || !Word(next[0])) && !AtString(t + next)
    ensures Find(t + next) == Found(Lexeme(Name, t), next)
    ensures Find(['`'] + t + next) == Found(Lexeme(Name, t), next)
  {
    NamePassed(t, next);
    assert (t + next)[0] == t[0];
    assert Taken(t + next, next) == t;
    assert (['`'] + t + next)[1..] == t + next;
    assert !AtString(['`'] + t + next);
  }

  // ----- numbers

  lemma {:induction false} DigitsPassed(t: string, next: string)
    requires AllDigits(t) && (next == "" || !(Digit(next[0]) || next[0] == '_'))
    ensures AfterDigits(t + next) == next
  {
    if t == "" {
      assert t + next == next;
    } else {
      assert (t + next)[1..] == t[1..] + next;
      DigitsPassed(t[1..], next);
    }
  }

  predicate NoDigitNext(s: string) {
    s == "" || !(Digit(s[0]) || s[0] == '_')
  }

  /** A point and digits. */
  predicate FractionForm(t: string) {
    t == "" || (t[0] == '.' && AllDigits(t[1..]))
  }

  /** An `e`, perhaps a sign, and digits. */
  predicate ExponentForm(t: string) {
    t == "" || ((t[0] == 'e' || t[0] == 'E') && AllDigits(if |t| > 1 && (t[1] == '+' || t[1] == '-') then t[2..] else t[1..]))
  }

  predicate MarkForm(t: string) {
    t == "" || t == "j" || t == "J"
  }

  lemma FractionPassed(t: string, next: string)
    requires FractionForm(t) && NoDigitNext(next)
    requires if t == "" then next == "" || next[0] != '.' || Has(next, 1, '.')
             else !(t == "." && next != "" && next[0] == '.')
    ensures AfterFraction(t + next) == next
  {
    if t == "" {
      assert t + next == next;
    } else {
      assert (t + next)[1..] == t[1..] + next;
      DigitsPassed(t[1..], next);
      assert |t| > 1 ==> (t + next)[1] == t[1];
      assert |t| == 1 && next != "" ==> (t + next)[1] == next[0];
    }
  }

  lemma ExponentPassed(t: string, next: string)
    requires ExponentForm(t) && NoDigitNext(next)
    requires if t == "" then next == "" || (next[0] != 'e' && next[0] != 'E')
             else |t| == 1 ==> next == "" || (next[0] != '+' && next[0] != '-')
    ensures AfterExponent(t + next) == next
  {
    var s := t + next;
    if t == "" {
      assert s == next;
      if next == "" {
        assert Drop(s, 1) == "" && AfterSign("") == "" && AfterDigits("") == "";
      }
    } else {
      var after := Drop(s, 1);
      assert after == t[1..] + next;
      if |t| > 1 && (t[1] == '+' || t[1] == '-') {
        assert Drop(after, 1) == t[2..] + next;
        DigitsPassed(t[2..], next);
      } else {
        SignPassed(t[1..], next);
        DigitsPassed(t[1..], next);
      }
    }
  }

  lemma SignPassed(t: string, next: string)
    requires (t != "" && t[0] != '+' && t[0] != '-') || (t == "" && (next == "" || (next[0] != '+' && next[0] != '-')))
    ensures AfterSign(t + next) == t + next
  {
    assert t == "" ==> t + next == next;
  }

  lemma MarkPassed(t: string, next: string)
    requires MarkForm(t) && (t == "" ==> next == "" || (next[0] != 'j' && next[0] != 'J'))
    ensures AfterImaginary(t + next) == next
  {
    assert t == "" ==> t + next == next;
    assert t != "" ==> Drop(t + next, 1) == next;
  }

  /** What comes after a part of a number is no more of it. */
  predicate Ends(fraction: string, exponent: string, mark: string, next: string) {
    && NoDigitNext(next)
    && (mark == "" ==> next == "" || (next[0] != 'j' && next[0] != 'J'))
    && (exponent == "" ==> next == "" || mark != "" || (next[0] != 'e' && next[0] != 'E'))
    && (|exponent| == 1 ==> next == "" || mark != "" || (next[0] != '+' && next[0] != '-'))
    && (fraction == "" && exponent == "" && mark == "" ==> next == "" || next[0] != '.' || Has(next, 1, '.'))
    && (fraction == "." && exponent == "" && mark == "" ==> next == "" || next[0] != '.')
  }

  /** A decimal number: digits, perhaps a fraction, an exponent, a mark, each as long as it goes on. */
  lemma DecimalFound(digits: string, fraction: string, exponent: string, mark: string, next: string)
    requires AllDigits(digits) && FractionForm(fraction) && ExponentForm(exponent) && MarkForm(mark)
    requires Ends(fraction, exponent, mark, next)
    requires !HasRadix(digits + (fraction + (exponent + (mark + next))))
    ensures AfterNumber(digits + (fraction + (exponent + (mark + next)))) == next
  {
    FirstOfRest(fraction, exponent, mark, next);
    DigitsPassed(digits, fraction + (exponent + (mark + next)));
    FractionPassed(fraction, exponent + (mark + next));
    ExponentPassed(exponent, mark + next);
    MarkPassed(mark, next);
  }

  lemma FirstOfRest(fraction: string, exponent: string, mark: string, next: string)
    requires FractionForm(fraction) && ExponentForm(exponent) && MarkForm(mark) && Ends(fraction, exponent, mark, next)
    ensures NoDigitNext(mark + next) && NoDigitNext(exponent + (mark + next)) && NoDigitNext(fraction + (exponent + (mark + next)))
    ensures
      var rest := exponent + (mark + next);
      if fraction == "" then rest == "" || rest[0] != '.' || Has(rest, 1, '.') else !(fraction == "." && rest != "" && rest[0] == '.')
    ensures
      var rest := mark + next;
      if exponent == "" then rest == "" || (rest[0] != 'e' && rest[0] != 'E')
      else |exponent| == 1 ==> rest == "" || (rest[0] != '+' && rest[0] != '-')
  {
    assert mark == "" ==> mark + next == next;
    assert exponent == "" ==> exponent + (mark + next) == mark + next;
    assert fraction == "" ==> fraction + (exponent + (mark + next)) == exponent + (mark + next);
  }

  /** With a radix: `0`, its letter, and letters, digits and underscores. */
  lemma RadixFound(c: char, digits: string, mark: string, next: string)
    requires c in {'x', 'X', 'o', 'O', 'b', 'B'} && AllWord(digits)
    requires next == "" || !Word(next[0])
    ensures AfterNumber(['0', c] + digits + next) == next
  {
    var s := ['0', c] + digits + next;
    assert s[0] == '0' && s[1] == c;
    assert Drop(s, 2) == digits + next;
    NamePassed(digits, next);
    MarkPassed("", next);
    assert "" + next == next;
  }

  // ----- strings

  /** What a short string holds: escaped characters, and others that are not its quote. */
  predicate ShortInner(s: string, q: char)
    decreases |s|
  {
    s == "" || (if s[0] == '\\' then |s| >= 2 && ShortInner(s[2..], q) else s[0] != q && ShortInner(s[1..], q))
  }

  lemma {:induction false} ShortPassed(s: string, q: char, next: string)
    requires ShortInner(s, q) && q != '\\'
    ensures AfterShort(s + ([q] + next), q) == next
    decreases |s|
  {
    var all := s + ([q] + next);
    if s == "" {
      assert all == [q] + next;
    } else if s[0] == '\\' {
      assert Drop(all, 2) == s[2..] + ([q] + next);
      ShortPassed(s[2..], q, next);
    } else {
      assert all[1..] == s[1..] + ([q] + next);
      ShortPassed(s[1..], q, next);
    }
  }

  /** A long one also holds its quote, but not three times in a row, nor where three could begin. */
  predicate LongInner(s: string, q: char)
    decreases |s|
  {
    s == "" || (if s[0] == '\\' then |s| >= 2 && LongInner(s[2..], q)
                else !(s[0] == q && (|s| < 2 || s[1] == q) && (|s| < 3 || s[2] == q)) && LongInner(s[1..], q))
  }

  lemma {:induction false} LongPassed(s: string, q: char, next: string)
    requires LongInner(s, q) && q != '\\'
    ensures AfterLong(s + ([q, q, q] + next), q) == next
    decreases |s|
  {
    var all := s + ([q, q, q] + next);
    if s == "" {
      assert all == [q, q, q] + next;
      assert Drop(all, 3) == next;
    } else if s[0] == '\\' {
      assert Drop(all, 2) == s[2..] + ([q, q, q] + next);
      LongPassed(s[2..], q, next);
    } else {
      assert all[1..] == s[1..] + ([q, q, q] + next);
      assert |s| >= 2 ==> all[1] == s[1];
      assert |s| >= 3 ==> all[2] == s[2];
      LongPassed(s[1..], q, next);
    }
  }

  predicate PrefixText(s: string) {
    forall k :: 0 <= k < |s| ==> s[k] in {'f', 'F', 'r', 'R', 'b', 'B', 'u', 'U'}
  }

  lemma {:induction false} PrefixPassed(prefix: string, rest: string)
    requires PrefixText(prefix) && rest != "" && Quote(rest[0])
    ensures AfterPrefix(prefix + rest) == rest
  {
    if prefix == "" {
      assert prefix + rest == rest;
    } else {
      assert (prefix + rest)[1..] == prefix[1..] + rest;
      PrefixPassed(prefix[1..], rest);
    }
  }

  /** A string of one kind of quote on one line: prefix, quote, inside, quote. */
  lemma ShortFound(prefix: string, q: char, inner: string, next: string)
    requires PrefixText(prefix) && Quote(q) && ShortInner(inner, q) && !(inner == "" && next != "" && next[0] == q)
    ensures
      var s := prefix + ([q] + (inner + ([q] + next)));
      AtString(s) && AfterString(s) == next
  {
    var body := [q] + (inner + ([q] + next));
    PrefixPassed(prefix, body);
    ShortPassed(inner, q, next);
    assert body[1..] == inner + ([q] + next);
    NotLong(inner, q, next);
  }

  lemma NotLong(inner: string, q: char, next: string)
    requires ShortInner(inner, q) && q != '\\' && !(inner == "" && next != "" && next[0] == q)
    ensures !IsLong(inner + ([q] + next), q)
  {
    var s := inner + ([q] + next);
    if inner == "" {
      assert s == [q] + next;
    } else {
      assert s[0] == inner[0];
    }
  }

  /** Three quotes on either side. */
  lemma LongFound(prefix: string, q: char, inner: string, next: string)
    requires PrefixText(prefix) && Quote(q) && LongInner(inner, q)
    ensures
      var s := prefix + ([q, q, q] + (inner + ([q, q, q] + next)));
      AtString(s) && AfterString(s) == next
  {
    var body := [q, q, q] + (inner + ([q, q, q] + next));
    PrefixPassed(prefix, body);
    LongPassed(inner, q, next);
    assert Drop(body[1..], 2) == inner + ([q, q, q] + next);
  }

  // ----- folding a string that goes over lines

  predicate Space(c: char) {
    (c as int) in {9, 10, 11, 12, 13, 28, 29, 30, 31, 32, 133, 160, 5760, 8192, 8193, 8194, 8195, 8196, 8197, 8198, 8199,
                   8200, 8201, 8202, 8232, 8233, 8239, 8287, 12288}
  }

  predicate Spaces(s: string) {
    forall k :: 0 <= k < |s| ==> Space(s[k])
  }

  predicate OneWord(w: string) {
    w != "" && forall k :: 0 <= k < |w| ==> !Space(w[k])
  }

  /** Words, each with the spaces after it. */
  datatype Spaced = Spaced(word: string, spaces: string)

  predicate SpacedOk(ws: seq<Spaced>) {
    forall i :: 0 <= i < |ws| ==>
      OneWord(ws[i].word) && Spaces(ws[i].spaces) && (i < |ws| - 1 ==> ws[i].spaces != "")
  }

  function Written(ws: seq<Spaced>): string {
    if ws == [] then "" else ws[0].word + (ws[0].spaces + Written(ws[1..]))
  }

  function OneApart(ws: seq<Spaced>): string {
    if ws == [] then "" else ws[0].word + if |ws| == 1 then "" else " " + OneApart(ws[1..])
  }

  lemma SpacesAre(c: char)
    ensures IsSpace(c) == Space(c)
  {
  }

  lemma {:induction false} SpacesGone(spaces: string, s: string)
    requires Spaces(spaces)
    ensures Collapsed(spaces + s) == Collapsed(s)
  {
    if spaces == "" {
      assert spaces + s == s;
    } else {
      SpacesAre(spaces[0]);
      assert (spaces + s)[1..] == spaces[1..] + s;
      SpacesGone(spaces[1..], s);
    }
  }

  lemma {:induction false} WordPassed(w: string, next: string)
    requires (forall k :: 0 <= k < |w| ==> !Space(w[k])) && (next == "" || Space(next[0]))
    ensures AfterWord(w + next) == next
  {
    if w == "" {
      assert w + next == next;
      if next != "" {
        SpacesAre(next[0]);
      }
    } else {
      SpacesAre(w[0]);
      assert (w + next)[1..] == w[1..] + next;
      WordPassed(w[1..], next);
    }
  }

  /** The words of a text come one space apart, whatever spaces were around them. */
  lemma {:induction false} WordsApart(before: string, ws: seq<Spaced>)
    requires Spaces(before) && SpacedOk(ws)
    ensures Collapsed(before + Written(ws)) == OneApart(ws)
    decreases |ws|
  {
    SpacesGone(before, Written(ws));
    if ws != [] {
      var w, spaces, more := ws[0].word, ws[0].spaces, ws[1..];
      var next := spaces + Written(more);
      var s := w + next;
      assert next != "" ==> Space(next[0]) by {
        NextIsSpace(ws);
      }
      WordPassed(w, next);
      SpacesAre(w[0]);
      assert s[0] == w[0] && Taken(s, next) == w;
      WordsApart(spaces, more);
      assert more != [] ==> OneApart(more) != "" by {
        assert more != [] ==> OneWord(ws[1].word);
      }
    }
  }

  lemma NextIsSpace(ws: seq<Spaced>)
    requires ws != [] && SpacedOk(ws)
    ensures
      var next := ws[0].spaces + Written(ws[1..]);
      next != "" ==> Space(next[0])
  {
    if |ws| == 1 {
      assert Written(ws[1..]) == "" && ws[0].spaces + "" == ws[0].spaces;
    } else {
      assert ws[0].spaces != "";
    }
  }

  // ----- operators

  lemma ThreeOps(a: char, b: char, c: char)
    ensures IsThreeOp(a, b, c) <==> [a, b, c] in {"**=", "//=", ">>=", "<<=", "++>"}
  {
  }

  lemma TwoOps(a: char, b: char)
    ensures IsTwoOp(a, b) <==>
              [a, b] in {"==", "!=", "<=", ">=", "**", "//", "<<", ">>", "+=", "-=", "*=", "/=", "%=", "&=", "|=", "^=",
                         ":=", "@=", "+>"}
  {
  }

  lemma OneOps(c: char)
    ensures IsOpChar(c) <==> c in {'=', '+', '-', '*', '/', '%', '&', '|', '^', '~', '<', '>', '!', '?'}
  {
  }

  lemma Brackets(c: char)
    ensures Punctuation(c).Some? <==> c in {'{', '}', '(', ')', '[', ']', ';', ':', ',', '.', '@'}
    ensures c in {'(', '[', '{'} ==> Punctuation(c) == Some(if c == '(' then LParen else if c == '[' then LBracket else LBrace)
    ensures c in {')', ']', '}'} ==> Punctuation(c) == Some(if c == ')' then RParen else if c == ']' then RBracket else RBrace)
    ensures c in {';', ':', ','} ==> Punctuation(c) == Some(if c == ';' then Semi else if c == ':' then Colon else Comma)
    ensures c in {'.', '@'} ==> Punctuation(c) == Some(if c == '.' then Dot else At)
  {
  }

  // ----- lexemes that can be printed, and the spaces between them

  lemma {:induction false} ShortCloses(inner: string, q: char)
    requires ShortInner(inner, q) && q != '\\'
    ensures LexRoundTrip.ClosesShort(inner + [q], q)
    decreases |inner|
  {
    var s := inner + [q];
    if inner != "" {
      if inner[0] == '\\' {
        assert Drop(s, 2) == inner[2..] + [q];
        ShortCloses(inner[2..], q);
      } else {
        assert s[1..] == inner[1..] + [q];
        ShortCloses(inner[1..], q);
      }
    }
  }

  lemma {:induction false} LongCloses(inner: string, q: char)
    requires LongInner(inner, q) && q != '\\'
    ensures LexRoundTrip.ClosesLong(inner + [q, q, q], q)
    decreases |inner|
  {
    var s := inner + [q, q, q];
    if inner != "" {
      if inner[0] == '\\' {
        assert Drop(s, 2) == inner[2..] + [q, q, q];
        LongCloses(inner[2..], q);
      } else {
        assert s[1..] == inner[1..] + [q, q, q];
        assert |inner| >= 2 ==> s[1] == inner[1];
        assert |inner| >= 3 ==> s[2] == inner[2];
        LongCloses(inner[1..], q);
      }
    }
  }

  /** Strings on one line, and long ones, are lexemes. */
  lemma StringsAreLexemes(prefix: string, q: char, inner: string)
    requires PrefixText(prefix) && Quote(q)
    ensures ShortInner(inner, q) && '\n' !in inner ==> LexRoundTrip.IsStr(prefix + ([q] + (inner + [q])))
    ensures LongInner(inner, q) ==> LexRoundTrip.IsStr(prefix + ([q, q, q] + (inner + [q, q, q])))
  {
    if ShortInner(inner, q) && '\n' !in inner {
      ShortIsLexeme(prefix, q, inner);
    }
    if LongInner(inner, q) {
      var body := [q, q, q] + (inner + [q, q, q]);
      PrefixPassed(prefix, body);
      LongCloses(inner, q);
      assert Drop(body, 3) == inner + [q, q, q];
    }
  }

  lemma ShortIsLexeme(prefix: string, q: char, inner: string)
    requires PrefixText(prefix) && Quote(q) && ShortInner(inner, q) && '\n' !in inner
    ensures LexRoundTrip.IsStr(prefix + ([q] + (inner + [q])))
  {
    var body := [q] + (inner + [q]);
    PrefixPassed(prefix, body);
    ShortCloses(inner, q);
    assert body[1..] == inner + [q];
    NotLong(inner, q, "");
    assert inner + ([q] + "") == inner + [q];
  }

  /** Decimal numbers of all forms are lexemes. */
  lemma NumbersAreLexemes(digits: string, fraction: string, exponent: string, mark: string)
    requires AllDigits(digits) && FractionForm(fraction) && ExponentForm(exponent) && MarkForm(mark)
    requires AtNumber(digits + (fraction + (exponent + mark))) && !HasRadix(digits + (fraction + (exponent + mark)))
    ensures LexRoundTrip.IsNumber(digits + (fraction + (exponent + mark)))
  {
    assert mark + "" == mark;
    DecimalFound(digits, fraction, exponent, mark, "");
  }

  /** Two tokens are printed without a space in these cases and no others. */
  lemma SpacingRules(prev: Lexeme, cur: Lexeme)
    ensures LexRoundTrip.Space(prev, cur) == "" <==>
      || cur.value in {".", ")", "]", ",", ":", ";"}
      || prev.value in {".", "(", "[", "~"}
      || (prev.kind == Name && cur.value in {"(", "["})
      || (prev.kind == Str && cur.value in {".", "(", "["})
      || (prev.kind == Number && cur.value == ".")
      || (prev.value in {")", "]"} && cur.value in {".", "(", "["})
      || (prev.value == ")" && cur.value == ")") || (prev.value == "]" && cur.value == "]")
    ensures LexRoundTrip.Space(prev, cur) in {"", " "}
  {
    OneChar(prev.value);
    OneChar(cur.value);
  }

  lemma OneChar(v: string)
    ensures v == "." <==> LexRoundTrip.Is(v, '.')
    ensures v == "(" <==> LexRoundTrip.Is(v, '(')
    ensures v == ")" <==> LexRoundTrip.Is(v, ')')
    ensures v == "[" <==> LexRoundTrip.Is(v, '[')
    ensures v == "]" <==> LexRoundTrip.Is(v, ']')
    ensures v == "," <==> LexRoundTrip.Is(v, ',')
    ensures v == ":" <==> LexRoundTrip.Is(v, ':')
    ensures v == ";" <==> LexRoundTrip.Is(v, ';')
    ensures v == "~" <==> LexRoundTrip.Is(v, '~')
  {
  }
}
