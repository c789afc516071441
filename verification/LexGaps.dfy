/** What the lexer passes over between tokens: blanks, comments to the end of a line, and comments in
    brackets, which end at the first closing bracket. */
module LexGaps {
  import opened LexSyntax

  predicate Blank(c: char) {
    c in {' ', '\t', '\r', '\n'}
  }

  /** A comment that a line end or the end of the text must follow. */
  predicate LineComment(t: string) {
    t != "" && t[0] == '#' && !(|t| >= 2 && t[1] == '*') && forall k :: 0 <= k < |t| ==> t[k] != '\n'
  }

  /** Does a closing bracket begin here? */
  predicate ClosesAt(t: string, k: nat) {
    k + 1 < |t| && t[k] == '*' && t[k + 1] == '#'
  }

  predicate Opens(t: string) {
    |t| >= 2 && t[0] == '#' && t[1] == '*'
  }

  /** It ends with its first closing bracket. */
  predicate BlockComment(t: string) {
    |t| >= 4 && Opens(t) && ClosesAt(t, |t| - 2) && forall k :: 2 <= k < |t| - 2 ==> !ClosesAt(t, k)
  }

  /** A comment without an end. */
  predicate OpenComment(t: string) {
    Opens(t) && forall k :: 2 <= k < |t| ==> !ClosesAt(t, k)
  }

  predicate Piece(t: string, next: string) {
    || (|t| == 1 && Blank(t[0]))
    || (LineComment(t) && (next == "" || next[0] == '\n'))
    || BlockComment(t)
    || (OpenComment(t) && next == "")
  }

  function Flat(pieces: seq<string>): string {
    if pieces == [] then "" else pieces[0] + Flat(pieces[1..])
  }

  /** These pieces, and then something that is none. */
  predicate Gap(pieces: seq<string>, rest: string) {
    if pieces == [] then rest == "" || (!Blank(rest[0]) && rest[0] != '#')
    else Piece(pieces[0], Flat(pieces[1..]) + rest) && Gap(pieces[1..], rest)
  }

  lemma {:induction false} LinePassed(t: string, next: string)
    requires (forall k :: 0 <= k < |t| ==> t[k] != '\n') && (next == "" || next[0] == '\n')
    ensures AfterLine(t + next) == next
  {
    if t == "" {
      assert t + next == next;
    } else {
      assert (t + next)[1..] == t[1..] + next;
      LinePassed(t[1..], next);
    }
  }

  /** From the k-th character of a comment on. */
  lemma {:induction false} BlockPassed(t: string, k: nat, next: string)
    requires 2 <= k <= |t| - 2 && BlockComment(t)
    ensures AfterBlock(t[k..] + next) == next
    decreases |t| - k
  {
    var s := t[k..] + next;
    if k == |t| - 2 {
      assert s[0] == '*' && s[1] == '#' && s[2..] == next;
    } else {
      assert s[0] == t[k] && s[1] == t[k + 1] && !ClosesAt(t, k);
      assert s[1..] == t[k + 1..] + next;
      BlockPassed(t, k + 1, next);
    }
  }

  lemma {:induction false} OpenPassed(t: string, k: nat)
    requires 2 <= k <= |t| && OpenComment(t)
    ensures AfterBlock(t[k..]) == ""
    decreases |t| - k
  {
    if k < |t| {
      assert !ClosesAt(t, k) && t[k..][1..] == t[k + 1..];
      OpenPassed(t, k + 1);
    }
  }

  lemma PiecePassed(t: string, next: string)
    requires Piece(t, next)
    ensures AfterBlanks(t + next) == AfterBlanks(next)
  {
    var s := t + next;
    if |t| == 1 && Blank(t[0]) {
      assert s[1..] == next;
    } else if BlockComment(t) {
      assert Drop(s, 2) == t[2..] + next;
      BlockPassed(t, 2, next);
    } else if OpenComment(t) && next == "" {
      assert s == t && Drop(s, 2) == t[2..];
      OpenPassed(t, 2);
    } else {
      assert s[1..] == t[1..] + next;
      assert !Has(s, 1, '*') by {
        assert |t| >= 2 ==> s[1] == t[1];
      }
      LinePassed(t[1..], next);
    }
  }

  lemma {:induction false} GapPassed(pieces: seq<string>, rest: string)
    requires Gap(pieces, rest)
    ensures AfterBlanks(Flat(pieces) + rest) == rest
  {
    if pieces == [] {
      assert Flat(pieces) + rest == rest;
    } else {
      PiecePassed(pieces[0], Flat(pieces[1..]) + rest);
      assert Flat(pieces) + rest == pieces[0] + (Flat(pieces[1..]) + rest);
      GapPassed(pieces[1..], rest);
    }
  }

  lemma {:induction false} LineTaken(s: string) returns (t: string)
    ensures s == t + AfterLine(s) && (AfterLine(s) == "" || AfterLine(s)[0] == '\n')
    ensures forall k :: 0 <= k < |t| ==> t[k] != '\n'
  {
    if s == "" || s[0] == '\n' {
      t := "";
    } else {
      var more := LineTaken(s[1..]);
      t := [s[0]] + more;
    }
  }

  /** The end of a comment: what is taken closes at its end only, or never. */
  lemma {:induction false} BlockTaken(s: string) returns (t: string)
    ensures s == t + AfterBlock(s)
    ensures (forall k :: 0 <= k < |t| - 2 ==> !ClosesAt(t, k))
    ensures (|t| >= 2 && ClosesAt(t, |t| - 2)) || (AfterBlock(s) == "" && forall k :: 0 <= k < |t| ==> !ClosesAt(t, k))
  {
    if s == "" {
      t := "";
    } else if s[0] == '*' && Has(s, 1, '#') {
      t := s[..2];
    } else {
      var more := BlockTaken(s[1..]);
      t := [s[0]] + more;
      assert s == [s[0]] + s[1..];
      ShiftedCloses(s, t, more);
    }
  }

  lemma ShiftedCloses(s: string, t: string, more: string)
    requires s != "" && t == [s[0]] + more && more <= s[1..] && !(s[0] == '*' && Has(s, 1, '#'))
    ensures !ClosesAt(t, 0) && forall k :: 0 < k < |t| ==> ClosesAt(t, k) == ClosesAt(more, k - 1)
  {
    if |t| >= 2 {
      assert t[1] == more[0] && more[0] == s[1..][0];
    }
  }

  /** The first piece of a text that begins with one. */
  lemma FirstPiece(s: string) returns (t: string, next: string)
    requires s != "" && (Blank(s[0]) || s[0] == '#')
    ensures s == t + next && t != "" && Piece(t, next) && AfterBlanks(s) == AfterBlanks(next)
  {
    if Blank(s[0]) {
      t, next := s[..1], s[1..];
    } else if Has(s, 1, '*') {
      var inner := BlockTaken(s[2..]);
      t, next := s[..2] + inner, AfterBlock(s[2..]);
      assert s == s[..2] + s[2..];
      assert forall k :: 2 <= k < |t| ==> ClosesAt(t, k) == ClosesAt(inner, k - 2);
    } else {
      var line := LineTaken(s[1..]);
      t, next := [s[0]] + line, AfterLine(s[1..]);
      assert s == [s[0]] + s[1..];
      if |t| >= 2 {
        assert t[1] == s[1];
      }
    }
    PiecePassed(t, next);
  }

  lemma {:induction false} GapTaken(s: string) returns (pieces: seq<string>)
    ensures Gap(pieces, AfterBlanks(s)) && s == Flat(pieces) + AfterBlanks(s)
    decreases |s|
  {
    if s == "" || (!Blank(s[0]) && s[0] != '#') {
      pieces := [];
      assert Flat(pieces) + s == s;
    } else {
      var t, next := FirstPiece(s);
      var more := GapTaken(next);
      pieces := [t] + more;
      assert pieces[1..] == more;
      assert t + (Flat(more) + AfterBlanks(s)) == t + Flat(more) + AfterBlanks(s);
    }
  }

  /** What is passed over is blanks and comments, and all of them. */
  lemma PassedExactly(s: string, rest: string)
    ensures AfterBlanks(s) == rest <==> exists pieces :: Gap(pieces, rest) && s == Flat(pieces) + rest
  {
    if AfterBlanks(s) == rest {
      var pieces := GapTaken(s);
    }
    forall pieces | Gap(pieces, rest) && s == Flat(pieces) + rest ensures AfterBlanks(s) == rest {
      GapPassed(pieces, rest);
    }
  }
}
