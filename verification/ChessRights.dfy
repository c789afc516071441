/** Castling rights, castling itself, and the order of legal moves. */
module ChessRights {
  import opened ChessRules
  import opened ChessKings
  import opened ChessGame

  // ----- rights

  function Owner(r: Right): Color {
    if r == WK || r == WQ then White else Black
  }

  /** Where the rook of a right starts: white on row 7, black on row 0, the king's side on column 7. */
  function Corner(r: Right): Pos {
    Pos(if Owner(r) == White then 7 else 0, if r == WK || r == BK then 7 else 0)
  }

  function Home(color: Color): Pos {
    Pos(if color == White then 7 else 0, 4)
  }

  /** A move takes a right away exactly if it moves the king of its colour or a rook from its corner. */
  lemma RightsExactly(p: Position, m: Spec, r: Right)
    requires m.from in p.men
    ensures r in Made(p, m).rights <==>
              r in p.rights && !(p.men[m.from].kind == King && p.men[m.from].color == Owner(r))
              && !(p.men[m.from].kind == Rook && m.from == Corner(r))
  {
  }

  /** Where there is a right, its king stands at home and has not moved. */
  ghost predicate RightsHeld(p: Position) {
    forall r :: r in p.rights ==> Unmoved(p, Home(Owner(r)), Owner(r))
  }

  ghost predicate Unmoved(p: Position, at: Pos, color: Color) {
    IsKing(p, at, color) && !p.men[at].moved
  }

  lemma InitialRights()
    ensures RightsHeld(Initial())
  {
    forall r | r in Initial().rights ensures Unmoved(Initial(), Home(Owner(r)), Owner(r)) {
      InitialKings(Home(Owner(r)), Owner(r));
      InitialMen(Home(Owner(r)));
    }
  }

  lemma StepKeepsRights(p: Position, turn: Color, m: Spec)
    requires KingsSafe(p, turn) && LegalStep(p, turn, m) && RightsHeld(p)
    ensures RightsHeld(Made(p, m))
  {
    forall r | r in Made(p, m).rights ensures Unmoved(Made(p, m), Home(Owner(r)), Owner(r)) {
      RightsExactly(p, m, r);
      var at := Home(Owner(r));
      assert Unmoved(p, at, Owner(r));
      KingNotTaken(p, turn, m, Owner(r));
      RawShaped(p, m.from);
      assert Shaped(p, m.from, m);
    }
  }

  ghost predicate RightsThen(ps: seq<Position>, i: nat)
    requires i < |ps|
  {
    RightsHeld(ps[i])
  }

  lemma RightsBegin(ps: seq<Position>)
    requires Game(ps)
    ensures RightsThen(ps, 0)
  {
    InitialRights();
  }

  lemma RightsGoOn(ps: seq<Position>, i: nat)
    requires 0 < i < |ps| && Moved(ps, i) && RightsThen(ps, i - 1) && SafeThen(ps, i - 1)
    ensures RightsThen(ps, i)
  {
    RightsNext(ps[i-1], ps[i], TurnAt(i - 1));
  }

  lemma {:induction false} RightsAlways(ps: seq<Position>, i: nat)
    requires Game(ps) && i < |ps|
    ensures RightsThen(ps, i)
  {
    if i == 0 {
      RightsBegin(ps);
    } else {
      RightsAlways(ps, i - 1);
      KingsSafeThen(ps, i - 1);
      RightsGoOn(ps, i);
    }
  }

  /** In every game without castling a right is only held while its king has not moved. */
  lemma RightsStay(ps: seq<Position>, i: nat)
    requires Game(ps) && i < |ps|
    ensures RightsHeld(ps[i])
  {
    RightsAlways(ps, i);
  }

  lemma RightsNext(p: Position, q: Position, turn: Color)
    requires KingsSafe(p, turn) && RightsHeld(p) && Reaches(p, q, turn)
    ensures RightsHeld(q)
  {
    var m :| LegalMove(p, q, turn, m);
    StepKeepsRights(p, turn, m);
  }

  /** Its rook may be gone: a rook taken on its corner leaves the right behind. */
  lemma TakenRookLeavesRight(p: Position, m: Spec, r: Right)
    requires m.from in p.men && m.to == Corner(r) && m.from != m.to && r in p.rights && !m.castling && !m.enPassant
    requires p.men[m.from].color == Opposite(Owner(r)) && m.from != Corner(r)
    ensures r in Made(p, m).rights && m.to in Made(p, m).men && Made(p, m).men[m.to].color != Owner(r)
  {
    RightsExactly(p, m, r);
  }

  // ----- castling

  /** A castling moves the king from home two columns towards an unmoved rook in the corner of that
      side, which comes to stand on the square that the king has crossed. */
  lemma CastledSquares(p: Position, color: Color, m: Spec)
    requires OnBoard(p) && m in Castlings(p, color) && IsKing(p, Home(color), color)
    ensures m.castling && m.from == Home(color) && m.to.r == m.from.r && (m.to.c == m.from.c + 2 || m.to.c == m.from.c - 2)
    ensures UnmovedRook(p, CornerOf(m)) && Crossed(m) !in p.men && m.to !in p.men
    ensures Made(p, m).men ==
      (p.men - {m.from, CornerOf(m)})[m.to := p.men[m.from].(moved := true)][Crossed(m) := p.men[CornerOf(m)].(moved := true)]
  {
    CastlingIs(p, color, m);
    CastlingShape(p, color, m);
    CastlingMade(p, m);
  }

  predicate UnmovedRook(p: Position, at: Pos) {
    at in p.men && p.men[at].kind == Rook && !p.men[at].moved
  }

  /** The corner on the side to which the king goes. */
  function CornerOf(m: Spec): Pos {
    Pos(m.from.r, if m.to.c > m.from.c then 7 else 0)
  }

  function Crossed(m: Spec): Pos {
    Pos(m.from.r, (m.from.c + m.to.c) / 2)
  }

  lemma CastlingShape(p: Position, color: Color, m: Spec)
    requires (m == CastleSpec(color, true) && KingSide(p, color)) || (m == CastleSpec(color, false) && QueenSide(p, color))
    ensures m.castling && !m.enPassant && !m.promotion && m.from == Home(color) && m.to.r == m.from.r
    ensures m.to.c == m.from.c + 2 || m.to.c == m.from.c - 2
    ensures m.rookFrom == CornerOf(m).c && m.rookTo == Crossed(m).c
    ensures UnmovedRook(p, CornerOf(m)) && Crossed(m) !in p.men && m.to !in p.men
  {
    var back := HomeRow(color);
    assert CanCastleRook(p, Pos(back, if m == CastleSpec(color, true) then 7 else 0));
  }

  lemma CastlingMade(p: Position, m: Spec)
    requires m.castling && !m.enPassant && !m.promotion && m.from in p.men && CornerOf(m) in p.men && m.to !in p.men
    requires m.to.r == m.from.r && m.from.c == 4 && (m.to.c == 6 || m.to.c == 2)
    requires m.rookFrom == CornerOf(m).c && m.rookTo == Crossed(m).c
    ensures Made(p, m).men ==
      (p.men - {m.from, CornerOf(m)})[m.to := p.men[m.from].(moved := true)][Crossed(m) := p.men[CornerOf(m)].(moved := true)]
  {
  }

  lemma CastlingIs(p: Position, color: Color, m: Spec)
    requires m in Castlings(p, color)
    ensures (m == CastleSpec(color, true) && KingSide(p, color)) || (m == CastleSpec(color, false) && QueenSide(p, color))
  {
  }

  // ----- the order of legal moves

  function Index(at: Pos): int {
    8 * at.r + at.c
  }

  ghost predicate Ordered(moves: seq<Spec>, below: int) {
    && (forall i :: 0 <= i < |moves| ==> Index(moves[i].from) < below)
    && forall i, j :: 0 <= i < j < |moves| ==> Index(moves[i].from) <= Index(moves[j].from)
  }

  lemma {:induction false} SafeFromSame(p: Position, color: Color, specs: seq<Spec>, from: Pos)
    requires forall i :: 0 <= i < |specs| ==> specs[i].from == from
    ensures forall i :: 0 <= i < |Safe(p, color, specs)| ==> Safe(p, color, specs)[i].from == from
  {
    if specs != [] {
      SafeFromSame(p, color, specs[..|specs| - 1], from);
    }
  }

  ghost function SafeOf(p: Position, color: Color, at: Pos): seq<Spec>
    requires at in p.men
  {
    Safe(p, color, RawMoves(p, at))
  }

  lemma SafeSnoc(p: Position, color: Color, before: seq<Pos>, at: Pos)
    requires (forall i :: 0 <= i < |before| ==> before[i] in p.men) && at in p.men
    ensures SafeMoves(p, color, before + [at]) == SafeMoves(p, color, before) + SafeOf(p, color, at)
  {
    assert (before + [at])[..|before|] == before;
  }

  lemma SafeFromOne(p: Position, color: Color, at: Pos)
    requires OnBoard(p) && at in p.men
    ensures forall i :: 0 <= i < |SafeOf(p, color, at)| ==> SafeOf(p, color, at)[i].from == at
  {
    RawShaped(p, at);
    assert forall i :: 0 <= i < |RawMoves(p, at)| ==> RawMoves(p, at)[i] in RawMoves(p, at);
    SafeFromSame(p, color, RawMoves(p, at), at);
  }

  lemma OrderedNext(a: seq<Spec>, b: seq<Spec>, n: int)
    requires Ordered(a, n) && forall i :: 0 <= i < |b| ==> Index(b[i].from) == n
    ensures Ordered(a + b, n + 1)
  {
  }

  /** The safe moves of the men on the first `n` squares. */
  ghost function SafeUpTo(p: Position, color: Color, n: nat): seq<Spec> {
    HeldOnBoard(p, color, n);
    SafeMoves(p, color, Held(p, color, n))
  }

  predicate HeldAt(p: Position, color: Color, at: Pos) {
    at in p.men && p.men[at].color == color
  }

  lemma SafeUpToNext(p: Position, color: Color, n: nat)
    requires n > 0
    ensures
      var at := SquareAt(n - 1);
      SafeUpTo(p, color, n) == SafeUpTo(p, color, n - 1) + if HeldAt(p, color, at) then SafeOf(p, color, at) else []
  {
    var before, at := Held(p, color, n - 1), SquareAt(n - 1);
    HeldOnBoard(p, color, n - 1);
    if HeldAt(p, color, at) {
      SafeSnoc(p, color, before, at);
    } else {
      assert Held(p, color, n) == before;
    }
  }

  lemma SquareInOrder(all: seq<Spec>, before: seq<Spec>, one: seq<Spec>, at: Pos, n: nat)
    requires all == before + one && Ordered(before, n) && Index(at) == n && forall i :: 0 <= i < |one| ==> one[i].from == at
    ensures Ordered(all, n + 1)
  {
    OrderedNext(before, one, n);
  }

  ghost predicate UpToInOrder(p: Position, color: Color, n: nat) {
    Ordered(SafeUpTo(p, color, n), n)
  }

  lemma NoneInOrder(p: Position, color: Color)
    ensures UpToInOrder(p, color, 0)
  {
  }

  lemma SquareDone(p: Position, color: Color, n: nat)
    requires OnBoard(p) && UpToInOrder(p, color, n)
    ensures UpToInOrder(p, color, n + 1)
  {
    var at := SquareAt(n);
    SafeUpToNext(p, color, n + 1);
    if HeldAt(p, color, at) {
      SafeFromOne(p, color, at);
      SquareInOrder(SafeUpTo(p, color, n + 1), SafeUpTo(p, color, n), SafeOf(p, color, at), at, n);
    } else {
      SquareInOrder(SafeUpTo(p, color, n + 1), SafeUpTo(p, color, n), [], at, n);
    }
  }

  lemma {:induction false} SafeInOrder(p: Position, color: Color, n: nat)
    requires OnBoard(p)
    ensures UpToInOrder(p, color, n)
  {
    if n == 0 {
      NoneInOrder(p, color);
    } else {
      SafeInOrder(p, color, n - 1);
      SquareDone(p, color, n - 1);
    }
  }

  /** Legal moves are listed by the square they start from, row by row, and castlings come last, the
      king's side first. */
  lemma LegalInOrder(p: Position, color: Color, i: nat, j: nat)
    requires OnBoard(p) && i < j < |Legal(p, color)|
    ensures
      var a, b := Legal(p, color)[i], Legal(p, color)[j];
      if b.castling then !a.castling || (a == CastleSpec(color, true) && b == CastleSpec(color, false))
      else !a.castling && Index(a.from) <= Index(b.from)
  {
    SafeInOrder(p, color, 64);
    var safe := SafeUpTo(p, color, 64);
    HeldOnBoard(p, color, 64);
    SafeNotCastling(p, color, Held(p, color, 64));
    CastlingsInOrder(p, color);
    InOrder(safe, Castlings(p, color), CastleSpec(color, true), CastleSpec(color, false), i, j);
  }

  lemma CastlingsInOrder(p: Position, color: Color)
    ensures
      var castlings := Castlings(p, color);
      && |castlings| <= 2 && (forall i :: 0 <= i < |castlings| ==> castlings[i].castling)
      && (|castlings| == 2 ==> castlings[0] == CastleSpec(color, true) && castlings[1] == CastleSpec(color, false))
  {
  }

  lemma InOrder(safe: seq<Spec>, castlings: seq<Spec>, first: Spec, second: Spec, i: nat, j: nat)
    requires Ordered(safe, 64) && forall k :: 0 <= k < |safe| ==> !safe[k].castling
    requires |castlings| <= 2 && forall k :: 0 <= k < |castlings| ==> castlings[k].castling
    requires |castlings| == 2 ==> castlings[0] == first && castlings[1] == second
    requires i < j < |safe + castlings|
    ensures
      var a, b := (safe + castlings)[i], (safe + castlings)[j];
      if b.castling then !a.castling || (a == first && b == second) else !a.castling && Index(a.from) <= Index(b.from)
  {
  }

  lemma {:induction false} SafeNotCastling(p: Position, color: Color, from: seq<Pos>)
    requires OnBoard(p) && forall i :: 0 <= i < |from| ==> from[i] in p.men
    ensures forall i :: 0 <= i < |SafeMoves(p, color, from)| ==> !SafeMoves(p, color, from)[i].castling
  {
    if from != [] {
      var at := from[|from| - 1];
      SafeNotCastling(p, color, from[..|from| - 1]);
      RawShaped(p, at);
      SafeAmong(p, color, RawMoves(p, at));
    }
  }

  lemma {:induction false} SafeAmong(p: Position, color: Color, specs: seq<Spec>)
    ensures forall i :: 0 <= i < |Safe(p, color, specs)| ==> Safe(p, color, specs)[i] in specs
  {
    if specs != [] {
      SafeAmong(p, color, specs[..|specs| - 1]);
    }
  }
}
