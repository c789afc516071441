/** The lexer: it moves over the source, keeping its line and column, and appends tokens. */
module Lexer {
  import opened LexSyntax

  datatype Token = Token(lexeme: Lexeme, line: nat, col: nat, backtick: bool)

  datatype Result = Done | Failed(line: nat, col: nat, c: char)

  // ----- positions

  function LineOf(before: string): nat {
    if before == "" then 1
    else LineOf(before[..|before| - 1]) + if before[|before| - 1] == '\n' then 1 else 0
  }

  function ColOf(before: string): nat {
    if before == "" || before[|before| - 1] == '\n' then 1 else ColOf(before[..|before| - 1]) + 1
  }

  function Before(source: string, rest: string): string
    requires |rest| <= |source|
  {
    source[..|source| - |rest|]
  }

  function Here(source: string, rest: string, lexeme: Lexeme, backtick: bool): Token
    requires |rest| <= |source|
  {
    Token(lexeme, LineOf(Before(source, rest)), ColOf(Before(source, rest)), backtick)
  }

  // ----- the tokens of a text, with the positions where they start

  datatype Outcome = Tokens(tokens: seq<Token>) | ParseError(line: nat, col: nat, c: char)

  function TokensThen(before: seq<Token>, more: Outcome): Outcome {
    if more.Tokens? then Tokens(before + more.tokens) else more
  }

  lemma TokensThenTwice(a: seq<Token>, b: seq<Token>, more: Outcome)
    ensures TokensThen(a, TokensThen(b, more)) == TokensThen(a + b, more)
  {
    if more.Tokens? {
      assert a + (b + more.tokens) == a + b + more.tokens;
    }
  }

  function TokensOf(source: string, rest: string): Outcome
    requires |rest| <= |source|
    decreases |rest|
  {
    var s := AfterBlanks(rest);
    if s == "" then Tokens([Here(source, "", Lexeme(Eof, ""), false)])
    else
      match Find(s)
      case Unexpected(c) => ParseError(LineOf(Before(source, s)), ColOf(Before(source, s)), c)
      case Found(lexeme, after) => TokensThen([Here(source, s, lexeme, s[0] == '`')], TokensOf(source, after))
  }

  function LexemesOf(tokens: seq<Token>): seq<Lexeme> {
    if tokens == [] then [] else [tokens[0].lexeme] + LexemesOf(tokens[1..])
  }

  /** The tokens' kinds and values are those of the text, and then the end. */
  lemma {:induction false} TokensAreLexemes(source: string, rest: string)
    requires |rest| <= |source|
    ensures
      match Lex(rest)
      case Lexed(ls) => TokensOf(source, rest).Tokens? && LexemesOf(TokensOf(source, rest).tokens) == ls + [Lexeme(Eof, "")]
      case Refused(c) => TokensOf(source, rest).ParseError? && TokensOf(source, rest).c == c
    decreases |rest|
  {
    var s := AfterBlanks(rest);
    if s != "" && Find(s).Found? {
      var f := Find(s);
      TokensAreLexemes(source, f.rest);
      var more := TokensOf(source, f.rest);
      if more.Tokens? {
        var first := Here(source, s, f.lexeme, s[0] == '`');
        assert ([first] + more.tokens)[1..] == more.tokens;
        assert Lex(rest) == Prepend(f.lexeme, Lex(f.rest));
      }
    }
  }

  class Lexer {
    const source: string
    var pos: nat
    var line: nat
    var col: nat
    var tokens: seq<Token>

    constructor (source: string)
      ensures this.source == source && Rest() == source && Placed() && tokens == []
    {
      this.source := source;
      pos := 0;
      line := 1;
      col := 1;
      tokens := [];
    }

    /** The text not yet consumed. */
    ghost function Rest(): (r: string)
      reads `pos
      ensures |r| <= |source|
    {
      Drop(source, pos)
    }

    /** Line and column are those of the text consumed. */
    ghost predicate Placed()
      reads `pos, `line, `col
    {
      line == LineOf(Before(source, Rest())) && col == ColOf(Before(source, Rest()))
    }

    method Advance(n: nat)
      requires Placed()
      modifies this`pos, this`line, this`col
      ensures Placed() && Rest() == Drop(old(Rest()), n) && pos == old(pos) + n
    {
      assert source[..|source|] == source;
      assert Before(source, Rest()) == if pos <= |source| then source[..pos] else source;
      var end := if pos + n <= |source| then pos + n else |source|;
      var i := pos;
      while i < end
        invariant pos <= i && (i <= end || i == pos)
        invariant i <= |source| ==> line == LineOf(source[..i]) && col == ColOf(source[..i])
        invariant i > |source| ==> line == LineOf(source) && col == ColOf(source)
        modifies this`line, this`col
      {
        assert source[..i + 1][..i] == source[..i];
        if source[i] == '\n' {
          line := line + 1;
          col := 1;
        } else {
          col := col + 1;
        }
        i := i + 1;
      }
      pos := pos + n;
      assert Before(source, Rest()) == if pos <= |source| then source[..pos] else source;
    }

    /** Is this character there, so far after the text consumed? */
    method Sees(offset: nat, c: char) returns (b: bool)
      ensures b == Has(Rest(), offset, c)
    {
      b := pos + offset < |source| && source[pos + offset] == c;
    }

    method SkipLine()
      requires Placed()
      modifies this`pos, this`line, this`col
      ensures Placed() && Rest() == AfterLine(old(Rest()))
    {
      while pos < |source| && source[pos] != '\n'
        invariant Placed() && AfterLine(Rest()) == AfterLine(old(Rest()))
        decreases |Rest()|
      {
        Advance(1);
      }
    }

    method SkipBlock()
      requires Placed()
      modifies this`pos, this`line, this`col
      ensures Placed() && Rest() == AfterBlock(old(Rest()))
    {
      while pos < |source|
        invariant Placed() && AfterBlock(Rest()) == AfterBlock(old(Rest()))
        decreases |Rest()|
      {
        var star := Sees(0, '*');
        var hash := Sees(1, '#');
        if star && hash {
          Advance(2);
          return;
        }
        Advance(1);
      }
    }

    method SkipBlanks()
      requires Placed()
      modifies this`pos, this`line, this`col
      ensures Placed() && Rest() == AfterBlanks(old(Rest()))
    {
      while pos < |source|
        invariant Placed() && AfterBlanks(Rest()) == AfterBlanks(old(Rest()))
        decreases |Rest()|
      {
        if IsBlank(source[pos]) {
          Advance(1);
        } else if source[pos] == '#' {
          var star := Sees(1, '*');
          if star {
            Advance(2);
            SkipBlock();
          } else {
            assert AfterLine(Rest()) == AfterLine(Rest()[1..]);
            SkipLine();
          }
        } else {
          break;
        }
      }
    }

    /** Looks past a string's prefix and comes back. */
    method IsStringPrefix() returns (b: bool)
      modifies this`pos
      ensures pos == old(pos) && b == AtString(Rest())
    {
      var save := pos;
      while pos < |source| && IsPrefix(source[pos])
        invariant AfterPrefix(Rest()) == AfterPrefix(old(Rest()))
        decreases |Rest()|
      {
        pos := pos + 1;
      }
      b := pos < |source| && IsQuote(source[pos]);
      pos := save;
    }

    /** The text from where a token started. */
    method Since(start: nat, ghost from: string) returns (value: string)
      requires start <= |source| && start <= pos && from == Drop(source, start)
      ensures |Rest()| <= |from| && value == Taken(from, Rest())
    {
      value := source[start..if pos <= |source| then pos else |source|];
    }

    method SkipPrefix()
      requires Placed()
      modifies this`pos, this`line, this`col
      ensures Placed() && Rest() == AfterPrefix(old(Rest())) && pos >= old(pos)
    {
      while pos < |source| && IsPrefix(source[pos])
        invariant Placed() && AfterPrefix(Rest()) == AfterPrefix(old(Rest())) && pos >= old(pos)
        decreases |Rest()|
      {
        Advance(1);
      }
    }

    method SkipShort(q: char)
      requires Placed()
      modifies this`pos, this`line, this`col
      ensures Placed() && Rest() == AfterShort(old(Rest()), q) && pos >= old(pos)
    {
      while pos < |source|
        invariant Placed() && AfterShort(Rest(), q) == AfterShort(old(Rest()), q) && pos >= old(pos)
        decreases |Rest()|
      {
        var c := source[pos];
        if c == '\\' {
          Advance(2);
        } else if c == q {
          Advance(1);
          return;
        } else {
          Advance(1);
        }
      }
    }

    method SkipLong(q: char)
      requires Placed()
      modifies this`pos, this`line, this`col
      ensures Placed() && Rest() == AfterLong(old(Rest()), q) && pos >= old(pos)
    {
      while pos < |source|
        invariant Placed() && AfterLong(Rest(), q) == AfterLong(old(Rest()), q) && pos >= old(pos)
        decreases |Rest()|
      {
        var first := Sees(0, q);
        var second := Sees(1, q);
        var third := Sees(2, q);
        if source[pos] == '\\' {
          Advance(2);
        } else if first && second && third {
          Advance(3);
          return;
        } else {
          Advance(1);
        }
      }
    }

    method ReadString()
      requires Placed() && AtString(Rest())
      modifies this`pos, this`line, this`col, this`tokens
      ensures Placed() && Rest() == AfterString(old(Rest()))
      ensures tokens == old(tokens) + [Here(source, old(Rest()), Lexeme(Str, StringValue(old(Rest()))), false)]
    {
      ghost var from := Rest();
      var startLine, startCol, start := line, col, pos;
      SkipPrefix();
      var q := source[pos];
      Advance(1);
      var isLong := Sees(0, q);
      var second := Sees(1, q);
      isLong := isLong && second;
      if isLong {
        Advance(2);
        SkipLong(q);
      } else {
        SkipShort(q);
      }
      var value := Since(start, from);
      if !isLong && '\n' in value {
        QuoteThenLine(from);
        value := Folded(value);
      }
      tokens := tokens + [Token(Lexeme(Str, value), startLine, startCol, false)];
    }

    method SkipDigits()
      requires Placed()
      modifies this`pos, this`line, this`col
      ensures Placed() && Rest() == AfterDigits(old(Rest())) && pos >= old(pos)
    {
      while pos < |source| && InDigits(source[pos])
        invariant Placed() && AfterDigits(Rest()) == AfterDigits(old(Rest())) && pos >= old(pos)
        decreases |Rest()|
      {
        Advance(1);
      }
    }

    method SkipName()
      requires Placed()
      modifies this`pos, this`line, this`col
      ensures Placed() && Rest() == AfterName(old(Rest())) && pos >= old(pos)
    {
      while pos < |source| && InName(source[pos])
        invariant Placed() && AfterName(Rest()) == AfterName(old(Rest())) && pos >= old(pos)
        decreases |Rest()|
      {
        Advance(1);
      }
    }

    /** Advances over a character that is one of two, or over the end. */
    method SkipEither(a: char, b: char) returns (skipped: bool)
      requires Placed()
      modifies this`pos, this`line, this`col
      ensures skipped == (old(Rest()) == "" || old(Rest())[0] == a || old(Rest())[0] == b)
      ensures Placed() && Rest() == (if skipped then Drop(old(Rest()), 1) else old(Rest())) && pos >= old(pos)
    {
      skipped := pos >= |source| || source[pos] == a || source[pos] == b;
      if skipped {
        Advance(1);
      }
    }

    method SkipDecimal()
      requires Placed()
      modifies this`pos, this`line, this`col
      ensures Placed() && Rest() == AfterExponent(AfterFraction(AfterDigits(old(Rest())))) && pos >= old(pos)
    {
      SkipDigits();
      var point := Sees(0, '.');
      var another := Sees(1, '.');
      if point && !another {
        Advance(1);
        SkipDigits();
      }
      var exponent := SkipEither('e', 'E');
      if exponent {
        var sign := SkipEither('+', '-');
        SkipDigits();
      }
    }

    method ReadNumber()
      requires Placed() && AtNumber(Rest())
      modifies this`pos, this`line, this`col, this`tokens
      ensures Placed() && Rest() == AfterNumber(old(Rest()))
      ensures tokens
           == old(tokens) + [Here(source, old(Rest()), Lexeme(Number, Taken(old(Rest()), AfterNumber(old(Rest())))), false)]
    {
      ghost var from := Rest();
      var startLine, startCol, start := line, col, pos;
      var zero := Sees(0, '0');
      if zero && (pos + 1 >= |source| || IsRadixMark(source[pos + 1])) {
        Advance(2);
        SkipName();
      } else {
        SkipDecimal();
      }
      var imaginary := SkipEither('j', 'J');
      var value := Since(start, from);
      tokens := tokens + [Token(Lexeme(Number, value), startLine, startCol, false)];
    }

    method ReadName()
      requires Placed() && Rest() != ""
      modifies this`pos, this`line, this`col, this`tokens
      ensures Placed() && Rest() == AfterName(old(Rest()))
      ensures tokens == old(tokens) + [Here(source, old(Rest()), Lexeme(Name, Taken(old(Rest()), Rest())), false)]
    {
      ghost var from := Rest();
      var startLine, startCol, start := line, col, pos;
      SkipName();
      var value := Since(start, from);
      tokens := tokens + [Token(Lexeme(Name, value), startLine, startCol, false)];
    }

    method ReadBacktickName()
      requires Placed() && Rest() != ""
      modifies this`pos, this`line, this`col, this`tokens
      ensures Placed() && Rest() == AfterName(old(Rest())[1..])
      ensures tokens == old(tokens) + [Here(source, old(Rest()), Lexeme(Name, Taken(old(Rest())[1..], Rest())), true)]
    {
      var startLine, startCol := line, col;
      Advance(1);
      ghost var from := Rest();
      var start := pos;
      SkipName();
      var value := Since(start, from);
      tokens := tokens + [Token(Lexeme(Name, value), startLine, startCol, true)];
    }

    /** A symbol, or the character that starts none. */
    method ReadSymbol() returns (r: Result)
      requires Placed() && Rest() != ""
      modifies this`pos, this`line, this`col, this`tokens
      ensures Placed()
      ensures
        match FindSymbol(old(Rest()))
        case Found(lexeme, rest) =>
          r == Done && Rest() == rest && tokens == old(tokens) + [Here(source, old(Rest()), lexeme, false)]
        case Unexpected(c) => r == Failed(old(line), old(col), c) && tokens == old(tokens)
    {
      var text := source[pos..];
      match SymbolAt(text)
      case None => r := Failed(line, col, source[pos]);
      case Some((kind, n)) =>
        var startLine, startCol := line, col;
        Advance(n);
        tokens := tokens + [Token(Lexeme(kind, text[..n]), startLine, startCol, false)];
        r := Done;
    }

    method ReadToken() returns (r: Result)
      requires Placed() && Rest() != ""
      modifies this`pos, this`line, this`col, this`tokens
      ensures Placed()
      ensures
        match Find(old(Rest()))
        case Found(lexeme, rest) =>
          r == Done && Rest() == rest && tokens == old(tokens) + [Here(source, old(Rest()), lexeme, old(Rest())[0] == '`')]
        case Unexpected(c) => r == Failed(old(line), old(col), c) && tokens == old(tokens)
    {
      r := Done;
      var c := source[pos];
      var isString := IsStringPrefix();
      if IsQuote(c) || (IsPrefix(c) && isString) {
        ReadString();
      } else if IsDigit(c) || (c == '.' && pos + 1 < |source| && IsDigit(source[pos + 1])) {
        ReadNumber();
      } else if c == '`' {
        ReadBacktickName();
      } else if IsAlpha(c) || c == '_' {
        ReadName();
      } else {
        r := ReadSymbol();
      }
    }

    /** Appends the tokens of the source and the end, or stops at the first character that starts
        none, with its position. */
    method Tokenize() returns (r: Result)
      requires Placed()
      modifies this`pos, this`line, this`col, this`tokens
      ensures
        match TokensOf(source, old(Rest()))
        case Tokens(ts) => r == Done && tokens == old(tokens) + ts
        case ParseError(atLine, atCol, c) => r == Failed(atLine, atCol, c)
    {
      ghost var whole := TokensThen(tokens, TokensOf(source, Rest()));
      while true
        invariant Placed() && whole == TokensThen(tokens, TokensOf(source, Rest()))
        decreases |Rest()|
      {
        SkipBlanks();
        if pos >= |source| {
          tokens := tokens + [Token(Lexeme(Eof, ""), line, col, false)];
          return Done;
        }
        ghost var s, had := Rest(), tokens;
        r := ReadToken();
        if r.Failed? {
          return;
        }
        TokensThenTwice(had, [Here(source, s, Find(s).lexeme, s[0] == '`')], TokensOf(source, Rest()));
      }
    }
  }
}
