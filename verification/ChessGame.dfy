/** Searching by making and taking back: attacks, checks and legal moves on the shared board. */
module ChessGame {
  import opened ChessRules
  import opened ChessBoard

  // ----- legal moves, as the rules have them

  /** The squares of the board in the order in which they are searched. */
  function SquareAt(i: nat): Pos {
    Pos(i / 8, i % 8)
  }

  /** The squares held by `color` among the first `n`. */
  function Held(p: Position, color: Color, n: nat): seq<Pos> {
    if n == 0 then []
    else
      var at := SquareAt(n - 1);
      Held(p, color, n - 1) + if at in p.men && p.men[at].color == color then [at] else []
  }

  /** The moves that do not leave the king of `color` attacked. */
  ghost function Safe(p: Position, color: Color, specs: seq<Spec>): seq<Spec> {
    if specs == [] then []
    else
      var last := specs[|specs| - 1];
      Safe(p, color, specs[..|specs| - 1]) + if InCheck(Made(p, last), color) then [] else [last]
  }

  ghost function SafeMoves(p: Position, color: Color, from: seq<Pos>): seq<Spec>
    requires forall i :: 0 <= i < |from| ==> from[i] in p.men
  {
    if from == [] then []
    else
      var last := from[|from| - 1];
      SafeMoves(p, color, from[..|from| - 1]) + Safe(p, color, RawMoves(p, last))
  }

  function HomeRow(color: Color): int {
    if color == White then 7 else 0
  }

  predicate CanCastleRook(p: Position, at: Pos) {
    at in p.men && p.men[at].kind == Rook && !p.men[at].moved
  }

  ghost predicate CanCastleKing(p: Position, color: Color) {
    exists at :: FirstKing(p, at, color) && !p.men[at].moved
  }

  ghost predicate KingSide(p: Position, color: Color) {
    var back := HomeRow(color);
    && (if color == White then WK else BK) in p.rights && CanCastleRook(p, Pos(back, 7))
    && Pos(back, 5) !in p.men && Pos(back, 6) !in p.men
    && !InCheck(p, color) && !Attacked(p, Pos(back, 5), Opposite(color)) && !Attacked(p, Pos(back, 6), Opposite(color))
  }

  ghost predicate QueenSide(p: Position, color: Color) {
    var back := HomeRow(color);
    && (if color == White then WQ else BQ) in p.rights && CanCastleRook(p, Pos(back, 0))
    && Pos(back, 1) !in p.men && Pos(back, 2) !in p.men && Pos(back, 3) !in p.men
    && !InCheck(p, color) && !Attacked(p, Pos(back, 2), Opposite(color)) && !Attacked(p, Pos(back, 3), Opposite(color))
  }

  function CastleSpec(color: Color, kingSide: bool): Spec {
    var back := HomeRow(color);
    if kingSide then Spec(Pos(back, 4), Pos(back, 6), false, false, false, true, 7, 5)
    else Spec(Pos(back, 4), Pos(back, 2), false, false, false, true, 0, 3)
  }

  ghost function Castlings(p: Position, color: Color): seq<Spec> {
    if CanCastleKing(p, color) then CastleSpecs(color, KingSide(p, color), QueenSide(p, color)) else []
  }

  function CastleSpecs(color: Color, kingSide: bool, queenSide: bool): seq<Spec> {
    (if kingSide then [CastleSpec(color, true)] else []) + (if queenSide then [CastleSpec(color, false)] else [])
  }

  lemma {:induction false} HeldOnBoard(p: Position, color: Color, n: nat)
    ensures forall i :: 0 <= i < |Held(p, color, n)| ==> Held(p, color, n)[i] in p.men && p.men[Held(p, color, n)[i]].color == color
  {
    if n > 0 {
      HeldOnBoard(p, color, n - 1);
    }
  }

  /** All legal moves, in the order in which they are found. */
  ghost function Legal(p: Position, color: Color): seq<Spec> {
    HeldOnBoard(p, color, 64);
    SafeMoves(p, color, Held(p, color, 64)) + Castlings(p, color)
  }

  // ----- which moves those are

  lemma {:induction false} HeldComplete(p: Position, color: Color, n: nat, at: Pos)
    requires at.Valid() && 8 * at.r + at.c < n && at in p.men && p.men[at].color == color
    ensures at in Held(p, color, n)
  {
    if 8 * at.r + at.c < n - 1 {
      HeldComplete(p, color, n - 1, at);
    } else {
      assert SquareAt(n - 1) == at;
    }
  }

  lemma {:induction false} SafeExactly(p: Position, color: Color, specs: seq<Spec>, m: Spec)
    ensures m in Safe(p, color, specs) <==> m in specs && !InCheck(Made(p, m), color)
  {
    if specs != [] {
      var n := |specs| - 1;
      SafeExactly(p, color, specs[..n], m);
      assert specs == specs[..n] + [specs[n]];
    }
  }

  ghost predicate SafeFrom(p: Position, color: Color, from: Pos, m: Spec) {
    from in p.men && m in RawMoves(p, from) && !InCheck(Made(p, m), color)
  }

  lemma SafeMovesLast(p: Position, color: Color, from: seq<Pos>, m: Spec)
    requires from != [] && forall i :: 0 <= i < |from| ==> from[i] in p.men
    ensures m in SafeMoves(p, color, from) <==>
            m in SafeMoves(p, color, from[..|from| - 1]) || SafeFrom(p, color, from[|from| - 1], m)
  {
    SafeExactly(p, color, RawMoves(p, from[|from| - 1]), m);
  }

  lemma {:induction false} SafeMovesIn(p: Position, color: Color, from: seq<Pos>, m: Spec, i: nat)
    requires forall k :: 0 <= k < |from| ==> from[k] in p.men
    requires i < |from| && SafeFrom(p, color, from[i], m)
    ensures m in SafeMoves(p, color, from)
  {
    SafeMovesLast(p, color, from, m);
    if i < |from| - 1 {
      SafeMovesIn(p, color, from[..|from| - 1], m, i);
    }
  }

  lemma {:induction false} SafeMovesOrigin(p: Position, color: Color, from: seq<Pos>, m: Spec) returns (i: nat)
    requires forall k :: 0 <= k < |from| ==> from[k] in p.men
    requires m in SafeMoves(p, color, from)
    ensures i < |from| && SafeFrom(p, color, from[i], m)
  {
    var n := |from| - 1;
    SafeMovesLast(p, color, from, m);
    if m in SafeMoves(p, color, from[..n]) {
      i := SafeMovesOrigin(p, color, from[..n], m);
    } else {
      i := n;
    }
  }

  /** The legal moves that are no castling are exactly the colour's raw moves after which
      its king is not attacked. */
  lemma LegalExactly(p: Position, color: Color, m: Spec)
    requires OnBoard(p) && !m.castling
    ensures m in Legal(p, color) <==> LegalStep(p, color, m)
  {
    var from := Held(p, color, 64);
    HeldOnBoard(p, color, 64);
    assert m !in Castlings(p, color);
    if LegalStep(p, color, m) {
      HeldComplete(p, color, 64, m.from);
      var i :| 0 <= i < |from| && from[i] == m.from;
      SafeMovesIn(p, color, from, m, i);
    }
    if m in Legal(p, color) {
      var i := SafeMovesOrigin(p, color, from, m);
      RawShaped(p, from[i]);
      assert Shaped(p, from[i], m);
    }
  }

  // ----- what holds of every position that is reached

  /** An unmoved king stands on its home square, the en-passant square is empty. */
  ghost predicate Reachable(p: Position) {
    && OnBoard(p) && p.ep !in p.men
    && forall at, color :: IsKing(p, at, color) && !p.men[at].moved ==> at == Pos(HomeRow(color), 4)
  }

  lemma RawFits(p: Position, from: Pos, m: Spec)
    requires OnBoard(p) && p.ep !in p.men && from in p.men && m in RawMoves(p, from)
    ensures Fits(p, m)
  {
    RawShaped(p, from);
    assert Shaped(p, from, m);
  }

  /** A legal move is a raw move or one of the castlings. */
  lemma LegalKind(p: Position, color: Color, m: Spec) returns (at: Pos)
    requires m in Legal(p, color)
    ensures SafeFrom(p, color, at, m) || (CanCastleKing(p, color) && ((KingSide(p, color) && m == CastleSpec(color, true))
                                                                       || (QueenSide(p, color) && m == CastleSpec(color, false))))
  {
    var from := Held(p, color, 64);
    HeldOnBoard(p, color, 64);
    if m in Castlings(p, color) {
      at := NOWHERE;
    } else {
      var i := SafeMovesOrigin(p, color, from, m);
      at := from[i];
    }
  }

  lemma CastleFits(p: Position, color: Color, kingSide: bool)
    requires Reachable(p) && CanCastleKing(p, color)
    requires if kingSide then KingSide(p, color) else QueenSide(p, color)
    ensures Fits(p, CastleSpec(color, kingSide)) && IsKing(p, CastleSpec(color, kingSide).from, color)
  {
    var at :| FirstKing(p, at, color) && !p.men[at].moved;
  }

  /** Every legal move fits the board, castling included. */
  lemma LegalFits(p: Position, color: Color, m: Spec)
    requires Reachable(p) && m in Legal(p, color)
    ensures Fits(p, m)
  {
    var at := LegalKind(p, color, m);
    if SafeFrom(p, color, at, m) {
      RawFits(p, at, m);
    } else {
      CastleFits(p, color, m == CastleSpec(color, true));
    }
  }

  lemma RawKeepsReachable(p: Position, from: Pos, m: Spec)
    requires Reachable(p) && from in p.men && m in RawMoves(p, from)
    ensures Reachable(Made(p, m))
  {
    RawShaped(p, from);
    assert Shaped(p, from, m);
  }

  lemma CastleKeepsReachable(p: Position, color: Color, kingSide: bool)
    requires Reachable(p) && Fits(p, CastleSpec(color, kingSide))
    requires IsKing(p, CastleSpec(color, kingSide).from, color)
    ensures Reachable(Made(p, CastleSpec(color, kingSide)))
  {
    assert NOWHERE !in Made(p, CastleSpec(color, kingSide)).men;
  }

  /** Legal moves lead from reachable positions to reachable positions. */
  lemma LegalKeepsReachable(p: Position, color: Color, m: Spec)
    requires Reachable(p) && m in Legal(p, color)
    ensures Reachable(Made(p, m))
  {
    var at := LegalKind(p, color, m);
    if SafeFrom(p, color, at, m) {
      RawKeepsReachable(p, at, m);
    } else {
      var kingSide := m == CastleSpec(color, true);
      CastleFits(p, color, kingSide);
      CastleKeepsReachable(p, color, kingSide);
    }
  }
}
