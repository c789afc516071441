/** In a game without castling both kings stay on the board. */
module ChessKings {
  import opened ChessRules

  /** The en-passant square, if there is one, is empty, and the pawn just pushed over it
      stands behind it, seen from the side to move. */
  ghost predicate EpOk(p: Position, turn: Color) {
    p.ep != NOWHERE ==>
      && p.ep !in p.men
      && var behind := Pos(p.ep.r - Forward(turn), p.ep.c);
      behind in p.men && p.men[behind].color == Opposite(turn) && p.men[behind].kind == Pawn
  }

  /** Both kings are there, and the side that has just moved is not in check. */
  ghost predicate KingsSafe(p: Position, turn: Color) {
    && OnBoard(p) && EpOk(p, turn)
    && HasKing(p, White) && HasKing(p, Black) && OneKing(p, White) && OneKing(p, Black)
    && !InCheck(p, Opposite(turn))
  }

  lemma RawAttacks(p: Position, from: Pos, m: Spec)
    requires from in p.men && m in RawMoves(p, from)
    ensures Attacked(p, m.to, p.men[from].color)
    ensures forall color :: IsKing(p, m.to, color) && OneKing(p, color) && color != p.men[from].color ==> InCheck(p, color)
  {
    assert Attacks(p, from, m.to);
    forall color | IsKing(p, m.to, color) && OneKing(p, color) ensures FirstKing(p, m.to, color) {
    }
  }

  /** No legal move takes a king. */
  lemma KingNotTaken(p: Position, turn: Color, m: Spec, color: Color)
    requires KingsSafe(p, turn) && LegalStep(p, turn, m)
    ensures !IsKing(p, CaptureSquare(m), color)
    ensures m.enPassant ==> m.to !in p.men
  {
    RawShaped(p, m.from);
    assert Shaped(p, m.from, m);
    if m.enPassant {
      assert p.ep == m.to && p.ep != NOWHERE;
      assert CaptureSquare(m) == Pos(p.ep.r - Forward(turn), p.ep.c);
    } else if IsKing(p, m.to, color) {
      RawAttacks(p, m.from, m);
      assert false;
    }
  }

  /** Where a king stands after a legal move. */
  function KingAfter(m: Spec, at: Pos): Pos {
    if at == m.from then m.to else at
  }

  lemma KingMoves(p: Position, turn: Color, m: Spec, color: Color, at: Pos)
    requires KingsSafe(p, turn) && LegalStep(p, turn, m) && IsKing(p, at, color)
    ensures IsKing(Made(p, m), KingAfter(m, at), color)
  {
    KingNotTaken(p, turn, m, color);
    RawShaped(p, m.from);
    assert Shaped(p, m.from, m);
  }

  lemma KingCameFrom(p: Position, turn: Color, m: Spec, color: Color, at: Pos)
    requires KingsSafe(p, turn) && LegalStep(p, turn, m) && IsKing(Made(p, m), at, color)
    ensures if at == m.to then IsKing(p, m.from, color) else IsKing(p, at, color) && at != m.from
  {
    RawShaped(p, m.from);
    assert Shaped(p, m.from, m);
  }

  lemma StepKeepsEp(p: Position, turn: Color, m: Spec)
    requires KingsSafe(p, turn) && LegalStep(p, turn, m)
    ensures EpOk(Made(p, m), Opposite(turn)) && OnBoard(Made(p, m))
  {
    RawShaped(p, m.from);
    assert Shaped(p, m.from, m);
  }

  /** Every legal move that is no castling keeps both kings on the board and hands the turn
      over with the mover not in check. */
  lemma StepKeepsKings(p: Position, turn: Color, m: Spec)
    requires KingsSafe(p, turn) && LegalStep(p, turn, m)
    ensures KingsSafe(Made(p, m), Opposite(turn))
  {
    var q := Made(p, m);
    StepKeepsEp(p, turn, m);
    forall color: Color ensures HasKing(q, color) && OneKing(q, color) {
      assert HasKing(p, color) && OneKing(p, color) by {
        assert color == White || color == Black;
      }
      var at :| IsKing(p, at, color);
      KingMoves(p, turn, m, color, at);
      forall a, b | IsKing(q, a, color) && IsKing(q, b, color) ensures a == b {
        KingCameFrom(p, turn, m, color, a);
        KingCameFrom(p, turn, m, color, b);
      }
    }
    assert Opposite(Opposite(turn)) == turn;
  }

  // ----- the initial position

  function BackRank(c: int): Kind {
    if c == 0 || c == 7 then Rook
    else if c == 1 || c == 6 then Knight
    else if c == 2 || c == 5 then Bishop
    else if c == 3 then Queen
    else King
  }

  function Squares(): set<Pos> {
    set r, c | 0 <= r < 8 && 0 <= c < 8 :: Pos(r, c)
  }

  function InitialMan(at: Pos): Man {
    Man(if at.r <= 1 then Black else White, if at.r == 1 || at.r == 6 then Pawn else BackRank(at.c), false)
  }

  function Initial(): Position {
    Position(map at | at in Squares() && (at.r <= 1 || at.r >= 6) :: InitialMan(at), NOWHERE, {WK, WQ, BK, BQ})
  }

  lemma InitialMen(at: Pos)
    ensures at in Initial().men <==> at.Valid() && (at.r <= 1 || at.r >= 6)
    ensures at in Initial().men ==> Initial().men[at] == InitialMan(at)
  {
    assert at.Valid() ==> at in Squares();
  }

  function Before(at: Pos, d: Pos): Pos {
    Pos(at.r - d.r, at.c - d.c)
  }

  /** The slider's own square, or an empty one. */
  predicate Passable(men: Men, from: Pos, at: Pos) {
    at == from || (at.Valid() && at !in men)
  }

  /** The square before a square that a slide reaches is the slider's own, or empty. */
  lemma {:induction false} SlidePrevious(men: Men, color: Color, from: Pos, at: Pos, d: Pos, m: Spec)
    requires Direction(d) && m in Slide(men, color, from, at, d) && Passable(men, from, Before(at, d))
    ensures Passable(men, from, Before(m.to, d))
    decreases Room(at, d)
  {
    if at !in men && m != Plain(from, at) {
      assert m in Slide(men, color, from, at.Plus(d), d);
      assert Before(at.Plus(d), d) == at;
      SlidePrevious(men, color, from, at.Plus(d), d, m);
    }
  }

  lemma {:induction false} SlideAllPrevious(men: Men, color: Color, from: Pos, ds: seq<Pos>, m: Spec) returns (d: Pos)
    requires (forall i :: 0 <= i < |ds| ==> Direction(ds[i])) && m in SlideAll(men, color, from, ds)
    ensures Direction(d) && Passable(men, from, Before(m.to, d))
  {
    var n := |ds| - 1;
    if m in Slide(men, color, from, from.Plus(ds[n]), ds[n]) {
      d := ds[n];
      assert Before(from.Plus(d), d) == from;
      SlidePrevious(men, color, from, from.Plus(d), d, m);
    } else {
      d := SlideAllPrevious(men, color, from, ds[..n], m);
    }
  }

  lemma {:induction false} StepAllReach(men: Men, color: Color, from: Pos, ds: seq<Pos>, m: Spec)
    requires m in StepAll(men, color, from, ds) && forall i :: 0 <= i < |ds| ==> -2 <= ds[i].r <= 2
    ensures from.r - 2 <= m.to.r <= from.r + 2
  {
    var n := |ds| - 1;
    if m in StepAll(men, color, from, ds[..n]) {
      StepAllReach(men, color, from, ds[..n], m);
    }
  }

  lemma PawnReach(p: Position, from: Pos, m: Spec)
    requires from in p.men && p.men[from].kind == Pawn && m in RawMoves(p, from)
    ensures from.r - 2 <= m.to.r <= from.r + 2
  {
  }

  /** A man that does not slide moves two rows at most. */
  lemma ShortReach(p: Position, from: Pos, m: Spec)
    requires from in p.men && p.men[from].kind in {Pawn, Knight, King} && m in RawMoves(p, from)
    ensures from.r - 2 <= m.to.r <= from.r + 2
  {
    match p.men[from].kind
    case Pawn => PawnReach(p, from, m);
    case Knight => StepAllReach(p.men, p.men[from].color, from, JUMPS, m);
    case King => StepAllReach(p.men, p.men[from].color, from, AROUND, m);
  }

  /** No white man attacks the square of the black king at the beginning. */
  lemma InitialNoAttack(from: Pos, m: Spec)
    requires from in Initial().men && Initial().men[from].color == White && m in RawMoves(Initial(), from)
    ensures m.to != Pos(0, 4)
  {
    InitialMen(from);
    assert from.r >= 6;
    var kind := Initial().men[from].kind;
    if kind in {Pawn, Knight, King} {
      ShortReach(Initial(), from, m);
    } else if kind == Bishop {
      FarSlide(from, DIAGONALS, m);
    } else if kind == Rook {
      FarSlide(from, STRAIGHTS, m);
    } else {
      FarSlide(from, AROUND, m);
    }
  }

  lemma FarSlide(from: Pos, ds: seq<Pos>, m: Spec)
    requires from.r >= 6 && forall i :: 0 <= i < |ds| ==> Direction(ds[i])
    requires m in SlideAll(Initial().men, White, from, ds)
    ensures m.to != Pos(0, 4)
  {
    var d := SlideAllPrevious(Initial().men, White, from, ds, m);
    InitialMen(Before(m.to, d));
  }

  lemma InitialKings(at: Pos, color: Color)
    ensures IsKing(Initial(), at, color) <==> at == (if color == White then Pos(7, 4) else Pos(0, 4))
  {
    InitialMen(at);
  }

  lemma InitialSafe()
    ensures KingsSafe(Initial(), White)
  {
    var p := Initial();
    assert OnBoard(p) by {
      forall at | at in p.men ensures at.Valid() {
        InitialMen(at);
      }
    }
    InitialKings(Pos(7, 4), White);
    InitialKings(Pos(0, 4), Black);
    forall a, color: Color ensures IsKing(p, a, color) ==> a == (if color == White then Pos(7, 4) else Pos(0, 4)) {
      InitialKings(a, color);
    }
    if InCheck(p, Black) {
      var at :| FirstKing(p, at, Black) && Attacked(p, at, White);
      var from :| from in p.men && p.men[from].color == White && Attacks(p, from, at);
      var m :| m in RawMoves(p, from) && m.to == at;
      InitialNoAttack(from, m);
      assert false;
    }
  }

  // ----- whole games

  function TurnAt(i: nat): Color {
    if i % 2 == 0 then White else Black
  }

  /** The positions of a game from the beginning in which no move castles. */
  ghost predicate Game(ps: seq<Position>) {
    && |ps| > 0 && ps[0] == Initial()
    && forall i :: 0 < i < |ps| ==> Moved(ps, i)
  }

  ghost predicate LegalMove(p: Position, q: Position, turn: Color, m: Spec) {
    LegalStep(p, turn, m) && q == Made(p, m)
  }

  ghost predicate Reaches(p: Position, q: Position, turn: Color) {
    exists m :: LegalMove(p, q, turn, m)
  }

  ghost predicate Moved(ps: seq<Position>, i: nat)
    requires 0 < i < |ps|
  {
    Reaches(ps[i-1], ps[i], TurnAt(i - 1))
  }

  lemma TurnsAlternate(i: nat)
    requires i > 0
    ensures TurnAt(i) == Opposite(TurnAt(i - 1))
  {
  }

  lemma ReachKeepsKings(p: Position, q: Position, turn: Color)
    requires KingsSafe(p, turn) && Reaches(p, q, turn)
    ensures KingsSafe(q, Opposite(turn))
  {
    var m :| LegalMove(p, q, turn, m);
    StepKeepsKings(p, turn, m);
  }

  lemma GameStarts(ps: seq<Position>)
    requires Game(ps)
    ensures SafeThen(ps, 0)
  {
    InitialSafe();
  }

  lemma KingsNext(ps: seq<Position>, i: nat)
    requires 0 < i < |ps| && Moved(ps, i) && SafeThen(ps, i - 1)
    ensures SafeThen(ps, i)
  {
    ReachKeepsKings(ps[i-1], ps[i], TurnAt(i - 1));
    TurnsAlternate(i);
  }

  ghost predicate SafeThen(ps: seq<Position>, i: nat)
    requires i < |ps|
  {
    KingsSafe(ps[i], TurnAt(i))
  }

  lemma {:induction false} KingsSafeThen(ps: seq<Position>, i: nat)
    requires Game(ps) && i < |ps|
    ensures SafeThen(ps, i)
  {
    if i == 0 {
      GameStarts(ps);
    } else {
      KingsSafeThen(ps, i - 1);
      KingsNext(ps, i);
    }
  }

  /** However long the game, both kings are still there. */
  lemma {:induction false} KingsStay(ps: seq<Position>, i: nat)
    requires Game(ps) && i < |ps|
    ensures KingsSafe(ps[i], TurnAt(i))
  {
    KingsSafeThen(ps, i);
  }
}
