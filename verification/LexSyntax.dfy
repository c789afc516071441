/** What text lexes to: the kinds and values of tokens, by longest match. As in the lexer, the end
    of the text counts as an exponent mark, a sign, a radix mark and an imaginary mark. */
module LexSyntax {
  import opened Options

  datatype Kind =
    | Name | Number | Str | Eof | LBrace | RBrace | LParen | RParen | LBracket | RBracket
    | Semi | Colon | Comma | Dot | QDot | At | Arrow | Ellipsis | Op

  datatype Lexeme = Lexeme(kind: Kind, value: string)

  // ----- characters

  predicate IsDigit(c: char) {
    '0' <= c <= '9'
  }

  predicate IsAlpha(c: char) {
    'a' <= c <= 'z' || 'A' <= c <= 'Z'
  }

  predicate InName(c: char) {
    IsAlpha(c) || IsDigit(c) || c == '_'
  }

  predicate InDigits(c: char) {
    IsDigit(c) || c == '_'
  }

  predicate IsBlank(c: char) {
    c == ' ' || c == '\t' || c == '\r' || c == '\n'
  }

  /** What separates words for `split`: blanks, and the other spaces of Unicode. */
  predicate IsSpace(c: char) {
    var k := c as int;
    || 0x09 <= k <= 0x0d || 0x1c <= k <= 0x20 || k == 0x85 || k == 0xa0 || k == 0x1680 || 0x2000 <= k <= 0x200a
    || k == 0x2028 || k == 0x2029 || k == 0x202f || k == 0x205f || k == 0x3000
  }

  predicate IsQuote(c: char) {
    c == '"' || c == '\''
  }

  predicate IsPrefix(c: char) {
    c == 'f' || c == 'F' || c == 'r' || c == 'R' || c == 'b' || c == 'B' || c == 'u' || c == 'U'
  }

  predicate IsOpChar(c: char) {
    || c == '=' || c == '+' || c == '-' || c == '*' || c == '/' || c == '%' || c == '&' || c == '|'
    || c == '^' || c == '~' || c == '<' || c == '>' || c == '!' || c == '?'
  }

  /** Is this character there? */
  predicate Has(s: string, k: nat, c: char) {
    k < |s| && s[k] == c
  }

  function Drop(s: string, n: nat): (r: string)
    ensures |r| == if n <= |s| then |s| - n else 0
  {
    if n <= |s| then s[n..] else ""
  }

  /** What was consumed to leave this rest. */
  function Taken(s: string, rest: string): string
    requires |rest| <= |s|
  {
    s[..|s| - |rest|]
  }

  // ----- blanks and comments

  function AfterLine(s: string): (r: string)
    ensures |r| <= |s|
  {
    if s == "" || s[0] == '\n' then s else AfterLine(s[1..])
  }

  /** The text after the end of a block comment; nothing if it has no end. */
  function AfterBlock(s: string): (r: string)
    ensures |r| <= |s|
  {
    if s == "" then ""
    else if s[0] == '*' && Has(s, 1, '#') then Drop(s, 2)
    else AfterBlock(s[1..])
  }

  function AfterBlanks(s: string): (r: string)
    ensures |r| <= |s|
    decreases |s|
  {
    if s == "" then s
    else if IsBlank(s[0]) then AfterBlanks(s[1..])
    else if s[0] == '#' then
      if Has(s, 1, '*') then AfterBlanks(AfterBlock(Drop(s, 2))) else AfterBlanks(AfterLine(s[1..]))
    else s
  }

  // ----- strings

  function AfterPrefix(s: string): (r: string)
    ensures |r| <= |s|
  {
    if s != "" && IsPrefix(s[0]) then AfterPrefix(s[1..]) else s
  }

  predicate AtString(s: string) {
    var body := AfterPrefix(s);
    body != "" && IsQuote(body[0])
  }

  function AfterShort(s: string, q: char): (r: string)
    ensures |r| <= |s|
    decreases |s|
  {
    if s == "" then ""
    else if s[0] == '\\' then AfterShort(Drop(s, 2), q)
    else if s[0] == q then s[1..]
    else AfterShort(s[1..], q)
  }

  predicate AtThree(s: string, q: char) {
    Has(s, 0, q) && Has(s, 1, q) && Has(s, 2, q)
  }

  function AfterLong(s: string, q: char): (r: string)
    ensures |r| <= |s|
    decreases |s|
  {
    if s == "" then ""
    else if s[0] == '\\' then AfterLong(Drop(s, 2), q)
    else if AtThree(s, q) then Drop(s, 3)
    else AfterLong(s[1..], q)
  }

  /** Do two more quotes follow the opening one? */
  predicate IsLong(s: string, q: char) {
    Has(s, 0, q) && Has(s, 1, q)
  }

  /** The text after a string whose opening quote was just taken. */
  function AfterOpening(s: string, q: char): (r: string)
    ensures |r| <= |s|
  {
    if IsLong(s, q) then AfterLong(Drop(s, 2), q) else AfterShort(s, q)
  }

  function AfterString(s: string): (r: string)
    requires AtString(s)
    ensures |r| < |s|
  {
    var body := AfterPrefix(s);
    AfterOpening(body[1..], body[0])
  }

  /** The words of some text, one space apart. */
  function Collapsed(s: string): string
    decreases |s|
  {
    if s == "" then ""
    else if IsSpace(s[0]) then Collapsed(s[1..])
    else
      var rest := AfterWord(s);
      var more := Collapsed(rest);
      Taken(s, rest) + if more == "" then "" else " " + more
  }

  function AfterWord(s: string): (r: string)
    ensures |r| <= |s|
    ensures s != "" && !IsSpace(s[0]) ==> |r| < |s|
  {
    if s == "" || IsSpace(s[0]) then s else AfterWord(s[1..])
  }

  /** A prefix comes off a part of the text as it does off the text, and holds no line end. */
  lemma {:induction false} PrefixOfPart(s: string, n: nat)
    requires AfterPrefix(s) != "" && |s| - |AfterPrefix(s)| < n <= |s|
    ensures AfterPrefix(s[..n]) == AfterPrefix(s)[..n - (|s| - |AfterPrefix(s)|)]
    ensures '\n' in s[..n] ==> '\n' in AfterPrefix(s[..n])
  {
    if IsPrefix(s[0]) {
      assert s[..n][1..] == s[1..][..n - 1];
      PrefixOfPart(s[1..], n - 1);
    }
  }

  lemma QuoteThenLine(s: string)
    requires AtString(s) && '\n' in Taken(s, AfterString(s))
    ensures |AfterPrefix(Taken(s, AfterString(s)))| >= 2
  {
    PrefixOfPart(s, |s| - |AfterString(s)|);
  }

  /** A short string that goes over lines, with the spaces inside its quotes collapsed. */
  function Folded(value: string): string
    requires |AfterPrefix(value)| >= 2
  {
    var inner := |value| - |AfterPrefix(value)| + 1;
    value[..inner] + Collapsed(value[inner..|value| - 1]) + [value[|value| - 1]]
  }

  function StringValue(s: string): string
    requires AtString(s)
  {
    var body := AfterPrefix(s);
    var value := Taken(s, AfterString(s));
    if IsLong(body[1..], body[0]) || '\n' !in value then value
    else
      QuoteThenLine(s);
      Folded(value)
  }

  // ----- numbers and names

  function AfterDigits(s: string): (r: string)
    ensures |r| <= |s|
  {
    if s != "" && InDigits(s[0]) then AfterDigits(s[1..]) else s
  }

  function AfterName(s: string): (r: string)
    ensures |r| <= |s|
  {
    if s != "" && InName(s[0]) then AfterName(s[1..]) else s
  }

  /** A point belongs to the number unless another one follows it. */
  function AfterFraction(s: string): (r: string)
    ensures |r| <= |s|
  {
    if Has(s, 0, '.') && !Has(s, 1, '.') then AfterDigits(s[1..]) else s
  }

  function AfterSign(s: string): (r: string)
    ensures |r| <= |s|
  {
    if s == "" || s[0] == '+' || s[0] == '-' then Drop(s, 1) else s
  }

  function AfterExponent(s: string): (r: string)
    ensures |r| <= |s|
  {
    if s == "" || s[0] == 'e' || s[0] == 'E' then AfterDigits(AfterSign(Drop(s, 1))) else s
  }

  function AfterImaginary(s: string): (r: string)
    ensures |r| <= |s|
  {
    if s == "" || s[0] == 'j' || s[0] == 'J' then Drop(s, 1) else s
  }

  predicate IsRadixMark(c: char) {
    c == 'x' || c == 'X' || c == 'o' || c == 'O' || c == 'b' || c == 'B'
  }

  predicate HasRadix(s: string) {
    Has(s, 0, '0') && (|s| == 1 || IsRadixMark(s[1]))
  }

  function AfterNumber(s: string): (r: string)
    ensures |r| <= |s|
    ensures AtNumber(s) ==> |r| < |s|
  {
    AfterImaginary(if HasRadix(s) then AfterName(Drop(s, 2)) else AfterExponent(AfterFraction(AfterDigits(s))))
  }

  predicate AtNumber(s: string) {
    s != "" && (IsDigit(s[0]) || (s[0] == '.' && |s| > 1 && IsDigit(s[1])))
  }

  // ----- operators and punctuation

  predicate IsThreeOp(a: char, b: char, c: char) {
    (c == '=' && a == b && (a == '*' || a == '/' || a == '>' || a == '<')) || (a == '+' && b == '+' && c == '>')
  }

  predicate IsTwoOp(a: char, b: char) {
    if b == '=' then
      || a == '=' || a == '!' || a == '<' || a == '>' || a == '+' || a == '-' || a == '*' || a == '/' || a == '%'
      || a == '&' || a == '|' || a == '^' || a == ':' || a == '@'
    else (a == b && (a == '*' || a == '/' || a == '<' || a == '>')) || (a == '+' && b == '>')
  }

  function Punctuation(c: char): Option<Kind> {
    match c
    case '{' => Some(LBrace)
    case '}' => Some(RBrace)
    case '(' => Some(LParen)
    case ')' => Some(RParen)
    case '[' => Some(LBracket)
    case ']' => Some(RBracket)
    case ';' => Some(Semi)
    case ':' => Some(Colon)
    case ',' => Some(Comma)
    case '.' => Some(Dot)
    case '@' => Some(At)
    case _ => None
  }

  // ----- one token

  datatype Found = Found(lexeme: Lexeme, rest: string) | Unexpected(c: char)

  /** The symbol at the start of the text and its length: three characters if they make one, or
      two, or one. */
  function SymbolAt(s: string): (r: Option<(Kind, nat)>)
    requires s != ""
    ensures r.Some? ==> 0 < r.value.1 <= |s|
  {
    var two, three := |s| >= 2, |s| >= 3;
    if three && s[0] == '.' && s[1] == '.' && s[2] == '.' then Some((Ellipsis, 3))
    else if three && IsThreeOp(s[0], s[1], s[2]) then Some((Op, 3))
    else if two && s[0] == '-' && s[1] == '>' then Some((Arrow, 2))
    else if two && s[0] == '?' && s[1] == '.' then Some((QDot, 2))
    else if two && IsTwoOp(s[0], s[1]) then Some((Op, 2))
    else if Punctuation(s[0]).Some? then Some((Punctuation(s[0]).value, 1))
    else if IsOpChar(s[0]) then Some((Op, 1))
    else None
  }

  function FindSymbol(s: string): (f: Found)
    requires s != ""
    ensures f.Found? ==> |f.rest| < |s|
  {
    match SymbolAt(s)
    case Some((kind, n)) => Found(Lexeme(kind, s[..n]), s[n..])
    case None => Unexpected(s[0])
  }

  /** The token at the start of the text; a backtick before a name is not part of its value. */
  function Find(s: string): (f: Found)
    requires s != ""
    ensures f.Found? ==> |f.rest| < |s|
  {
    if AtString(s) then Found(Lexeme(Str, StringValue(s)), AfterString(s))
    else if AtNumber(s) then Found(Lexeme(Number, Taken(s, AfterNumber(s))), AfterNumber(s))
    else if s[0] == '`' then Found(Lexeme(Name, Taken(s[1..], AfterName(s[1..]))), AfterName(s[1..]))
    else if IsAlpha(s[0]) || s[0] == '_' then Found(Lexeme(Name, Taken(s, AfterName(s))), AfterName(s))
    else FindSymbol(s)
  }

  // ----- all tokens

  datatype Outcome = Lexed(lexemes: seq<Lexeme>) | Refused(c: char)

  function Prepend(first: Lexeme, more: Outcome): Outcome {
    if more.Lexed? then Lexed([first] + more.lexemes) else more
  }

  function Lex(source: string): Outcome
    decreases |source|
  {
    var s := AfterBlanks(source);
    if s == "" then Lexed([])
    else
      match Find(s)
      case Unexpected(c) => Refused(c)
      case Found(lexeme, rest) => Prepend(lexeme, Lex(rest))
  }
}
