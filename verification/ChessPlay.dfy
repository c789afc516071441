/** The searching methods of the chess port and its automatic game. */
module ChessPlay {
  import opened Options
  import opened ChessRules
  import opened ChessBoard
  import opened ChessGame
  import opened ChessKings
  import Lcg

  // ----- generating moves on the board

  method SlideMoves(board: Board, piece: Piece, directions: seq<Pos>) returns (moves: seq<Spec>)
    requires forall i :: 0 <= i < |directions| ==> Direction(directions[i])
    ensures moves == SlideAll(board.View().men, piece.color, piece.pos, directions)
  {
    moves := [];
    ghost var men := board.View().men;
    for i := 0 to |directions|
      invariant moves == SlideAll(men, piece.color, piece.pos, directions[..i])
    {
      var d := directions[i];
      var at := piece.pos.Plus(d);
      ghost var before := moves;
      var sliding := true;
      while sliding && at.Valid()
        invariant before + Slide(men, piece.color, piece.pos, piece.pos.Plus(d), d) ==
                  moves + if sliding then Slide(men, piece.color, piece.pos, at, d) else []
        decreases if sliding then 1 else 0, Room(at, d)
      {
        var target := ChessBoard.At(board.squares, at);
        if target == null {
          moves := moves + [Plain(piece.pos, at)];
          at := at.Plus(d);
        } else {
          if target.color != piece.color {
            moves := moves + [Plain(piece.pos, at)];
          }
          sliding := false;
        }
      }
      assert directions[..i+1][..i] == directions[..i];
    }
    assert directions[..|directions|] == directions;
  }

  method StepMoves(board: Board, piece: Piece, offsets: seq<Pos>) returns (moves: seq<Spec>)
    ensures moves == StepAll(board.View().men, piece.color, piece.pos, offsets)
  {
    moves := [];
    for i := 0 to |offsets|
      invariant moves == StepAll(board.View().men, piece.color, piece.pos, offsets[..i])
    {
      assert offsets[..i+1][..i] == offsets[..i];
      var to := piece.pos.Plus(offsets[i]);
      if to.Valid() {
        var target := ChessBoard.At(board.squares, to);
        if target == null || target.color != piece.color {
          moves := moves + [Plain(piece.pos, to)];
        }
      }
    }
    assert offsets[..|offsets|] == offsets;
  }

  method PawnAdvance(board: Board, piece: Piece) returns (moves: seq<Spec>)
    ensures moves == PawnPushes(board.View().men, piece.color, piece.pos)
  {
    moves := [];
    var direction, r, c := Forward(piece.color), piece.pos.r, piece.pos.c;
    var one := Pos(r + direction, c);
    if one.Valid() && one !in board.squares {
      moves := moves + [Plain(piece.pos, one).(promotion := one.r == LastRow(piece.color))];
      if r == StartRow(piece.color) {
        var two := Pos(r + 2 * direction, c);
        if two !in board.squares {
          moves := moves + [Plain(piece.pos, two).(doublePush := true)];
        }
      }
    }
  }

  method PawnMoves(board: Board, piece: Piece) returns (moves: seq<Spec>)
    ensures moves == PawnPushes(board.View().men, piece.color, piece.pos)
                     + PawnCaptures(board.View().men, piece.color, piece.pos, board.ep, -1)
                     + PawnCaptures(board.View().men, piece.color, piece.pos, board.ep, 1)
  {
    var pushes := PawnAdvance(board, piece);
    var left := PawnCapture(board, piece, -1);
    var right := PawnCapture(board, piece, 1);
    moves := pushes + left + right;
  }

  method PawnCapture(board: Board, piece: Piece, dc: int) returns (moves: seq<Spec>)
    ensures moves == PawnCaptures(board.View().men, piece.color, piece.pos, board.ep, dc)
  {
    moves := [];
    var to := Pos(piece.pos.r + Forward(piece.color), piece.pos.c + dc);
    if to.Valid() {
      var target := ChessBoard.At(board.squares, to);
      if target != null && target.color != piece.color {
        moves := moves + [Plain(piece.pos, to).(promotion := to.r == LastRow(piece.color))];
      }
      if to == board.ep {
        moves := moves + [Plain(piece.pos, to).(enPassant := true)];
      }
    }
  }

  /** `raw_moves` of the piece, by kind. */
  method RawMovesOf(board: Board, piece: Piece) returns (moves: seq<Spec>)
    requires piece.pos in board.squares && board.squares[piece.pos] == piece
    ensures moves == RawMoves(board.View(), piece.pos)
  {
    match piece.kind
    case Pawn => moves := PawnMoves(board, piece);
    case Knight => moves := StepMoves(board, piece, JUMPS);
    case Bishop => moves := SlideMoves(board, piece, DIAGONALS);
    case Rook => moves := SlideMoves(board, piece, STRAIGHTS);
    case Queen => moves := SlideMoves(board, piece, AROUND);
    case King => moves := StepMoves(board, piece, AROUND);
  }

  /** The squares held by a colour, by rows and columns. */
  method PiecesOf(board: Board, color: Color) returns (at: seq<Pos>)
    ensures at == Held(board.View(), color, 64)
  {
    at := [];
    for i := 0 to 64
      invariant at == Held(board.View(), color, i)
    {
      var square := SquareAt(i);
      var piece := ChessBoard.At(board.squares, square);
      if piece != null && piece.color == color {
        at := at + [square];
      }
    }
  }

  /** The squares that moves go to. */
  ghost predicate Targeted(moves: seq<Spec>, t: Pos) {
    exists m :: m in moves && m.to == t
  }

  method AddTargets(moves: seq<Spec>, before: set<Pos>) returns (targets: set<Pos>)
    ensures forall t :: t in targets <==> t in before || Targeted(moves, t)
  {
    targets := before;
    for j := 0 to |moves|
      invariant forall t :: t in targets <==> t in before || Targeted(moves[..j], t)
    {
      assert moves[..j+1] == moves[..j] + [moves[j]];
      ghost var now := targets;
      targets := targets + {moves[j].to};
      forall t ensures t in targets <==> t in before || Targeted(moves[..j+1], t) {
        if t == moves[j].to {
          assert moves[j] in moves[..j+1];
        } else if Targeted(moves[..j], t) {
          var m :| m in moves[..j] && m.to == t;
          assert m in moves[..j+1];
        }
      }
    }
    assert moves[..|moves|] == moves;
  }

  ghost predicate AttackedFrom(p: Position, from: seq<Pos>, t: Pos) {
    exists k :: 0 <= k < |from| && Attacks(p, from[k], t)
  }

  lemma AttackedFromNext(p: Position, from: seq<Pos>, i: nat, t: Pos)
    requires i < |from|
    ensures AttackedFrom(p, from[..i+1], t) <==> AttackedFrom(p, from[..i], t) || Attacks(p, from[i], t)
  {
    var now, next := from[..i], from[..i+1];
    if k :| 0 <= k < i && Attacks(p, now[k], t) {
      assert next[k] == now[k];
    }
    if Attacks(p, from[i], t) {
      assert next[i] == from[i];
    }
    if k :| 0 <= k < |next| && Attacks(p, next[k], t) {
      assert k < i ==> now[k] == next[k];
    }
  }

  lemma HeldAttacks(p: Position, side: Color, t: Pos)
    requires OnBoard(p)
    ensures AttackedFrom(p, Held(p, side, 64), t) <==> Attacked(p, t, side)
  {
    var from := Held(p, side, 64);
    HeldOnBoard(p, side, 64);
    if Attacked(p, t, side) {
      var at :| at in p.men && p.men[at].color == side && Attacks(p, at, t);
      HeldComplete(p, side, 64, at);
      var k :| 0 <= k < |from| && from[k] == at;
      assert Attacks(p, from[k], t);
    }
  }

  method AttackedSquares(board: Board, side: Color) returns (attacked: set<Pos>)
    requires board.WellPlaced()
    ensures forall t :: t in attacked <==> Attacked(board.View(), t, side)
  {
    attacked := {};
    ghost var p := board.View();
    var pieces := PiecesOf(board, side);
    HeldOnBoard(p, side, 64);
    for i := 0 to |pieces|
      invariant forall t :: t in attacked <==> AttackedFrom(p, pieces[..i], t)
    {
      var moves := RawMovesOf(board, board.squares[pieces[i]]);
      attacked := AddTargets(moves, attacked);
      forall t ensures AttackedFrom(p, pieces[..i+1], t) <==> AttackedFrom(p, pieces[..i], t) || Targeted(moves, t) {
        AttackedFromNext(p, pieces, i, t);
      }
    }
    assert pieces[..|pieces|] == pieces;
    forall t ensures t in attacked <==> Attacked(p, t, side) {
      HeldAttacks(p, side, t);
    }
  }

  lemma SquareIndex(at: Pos)
    ensures at.Valid() ==> SquareAt(8 * at.r + at.c) == at
  {
  }

  method FindKing(board: Board, color: Color) returns (king: Piece?)
    requires board.WellPlaced()
    ensures king == null ==> !HasKing(board.View(), color)
    ensures king != null ==> king.pos in board.squares && board.squares[king.pos] == king && FirstKing(board.View(), king.pos, color)
  {
    ghost var p := board.View();
    for i := 0 to 64
      invariant forall b :: IsKing(p, b, color) ==> 8 * b.r + b.c >= i
    {
      var at := SquareAt(i);
      var piece := ChessBoard.At(board.squares, at);
      if piece != null && piece.color == color && piece.kind == King {
        assert IsKing(p, at, color);
        return piece;
      }
      forall b | IsKing(p, b, color) ensures 8 * b.r + b.c >= i + 1 {
        SquareIndex(b);
      }
    }
    return null;
  }

  lemma FirstKingUnique(p: Position, a: Pos, b: Pos, color: Color)
    requires OnBoard(p) && FirstKing(p, a, color) && FirstKing(p, b, color)
    ensures a == b
  {
  }

  method InCheckNow(board: Board, color: Color) returns (check: bool)
    requires board.WellPlaced()
    ensures check <==> InCheck(board.View(), color)
  {
    var king := FindKing(board, color);
    if king == null {
      return false;
    }
    var attacked := AttackedSquares(board, Opposite(color));
    check := king.pos in attacked;
    forall at | FirstKing(board.View(), at, color) ensures at == king.pos {
      FirstKingUnique(board.View(), at, king.pos, color);
    }
  }

  // ----- trying moves

  lemma RestoredView(board: Board, snap: Snapshot)
    requires board.Restored(snap)
    ensures (forall at :: at in snap.squares ==> snap.squares[at] in snap.moved) && board.View() == board.Shown(snap)
  {
    assert board.View().men == board.Shown(snap).men;
  }

  method MakeAndCheck(board: Board, move: Move, color: Color, ghost snap: Snapshot, ghost p: Position)
    returns (safe: bool)
    requires board.WellPlaced() && Fits(board.View(), move.spec)
    requires snap == board.Snap() && p == board.View()
    modifies board, move, board.squares.Values
    ensures board.MadeFrom(move, snap)
    ensures fresh(board.squares.Values - old(board.squares.Values))
    ensures safe <==> !InCheck(Made(p, move.spec), color)
  {
    board.MakeMove(move);
    var check := InCheckNow(board, color);
    safe := !check;
  }

  /** Makes a move, looks whether the own king is attacked, and takes it back. */
  method TryMove(board: Board, spec: Spec, color: Color) returns (move: Move, safe: bool)
    requires board.WellPlaced() && Fits(board.View(), spec)
    modifies board, board.squares.Values
    ensures board.Restored(old(board.Snap())) && board.View() == old(board.View())
    ensures fresh(move) && move.spec == spec
    ensures safe <==> !InCheck(Made(old(board.View()), spec), color)
  {
    ghost var snap, p := board.Snap(), board.View();
    board.SnapShows();
    move := new Move(spec);
    safe := MakeAndCheck(board, move, color, snap, p);
    board.UndoMove(move, snap);
    RestoredView(board, snap);
  }

  lemma RestoredTwice(board: Board, snap: Snapshot)
    requires board.Restored(snap) && snap.moved.Keys == snap.squares.Values
    ensures board.Snap() == snap
  {
  }

  lemma SpecsOfSnoc(moves: seq<Move>, move: Move)
    ensures SpecsOf(moves + [move]) == SpecsOf(moves) + [move.spec]
  {
  }

  /** The safe ones among moves of one piece. */
  method TryAll(board: Board, specs: seq<Spec>, color: Color) returns (moves: seq<Move>)
    requires board.WellPlaced() && forall i :: 0 <= i < |specs| ==> Fits(board.View(), specs[i])
    modifies board, board.squares.Values
    ensures board.Restored(old(board.Snap())) && board.View() == old(board.View())
    ensures SpecsOf(moves) == Safe(old(board.View()), color, specs)
    ensures fresh(moves)
  {
    ghost var snap, p := board.Snap(), board.View();
    board.SnapRestored();
    moves := [];
    for j := 0 to |specs|
      invariant board.Restored(snap) && board.View() == p && board.squares == snap.squares
      invariant SpecsOf(moves) == Safe(p, color, specs[..j])
      invariant fresh(moves)
    {
      RestoredTwice(board, snap);
      var move, safe := TryMove(board, specs[j], color);
      assert specs[..j+1][..j] == specs[..j];
      if safe {
        SpecsOfSnoc(moves, move);
        moves := moves + [move];
      }
    }
    assert specs[..|specs|] == specs;
  }

  lemma RawAllFit(p: Position, from: Pos)
    requires OnBoard(p) && p.ep !in p.men && from in p.men
    ensures forall i :: 0 <= i < |RawMoves(p, from)| ==> Fits(p, RawMoves(p, from)[i])
  {
    forall i | 0 <= i < |RawMoves(p, from)| ensures Fits(p, RawMoves(p, from)[i]) {
      RawFits(p, from, RawMoves(p, from)[i]);
    }
  }

  method TryPiece(board: Board, at: Pos, color: Color) returns (moves: seq<Move>)
    requires board.WellPlaced() && board.ep !in board.squares && at in board.squares
    modifies board, board.squares.Values
    ensures board.Restored(old(board.Snap())) && board.View() == old(board.View())
    ensures SpecsOf(moves) == Safe(old(board.View()), color, RawMoves(old(board.View()), at))
    ensures fresh(moves)
  {
    var specs := RawMovesOf(board, board.squares[at]);
    RawAllFit(board.View(), at);
    moves := TryAll(board, specs, color);
  }

  lemma SpecsOfConcat(a: seq<Move>, b: seq<Move>)
    ensures SpecsOf(a + b) == SpecsOf(a) + SpecsOf(b)
  {
  }

  lemma SafeMovesNext(p: Position, color: Color, from: seq<Pos>, i: nat)
    requires i < |from| && forall k :: 0 <= k < |from| ==> from[k] in p.men
    ensures SafeMoves(p, color, from[..i+1]) == SafeMoves(p, color, from[..i]) + Safe(p, color, RawMoves(p, from[i]))
  {
    assert from[..i+1][..i] == from[..i];
  }

  /** The raw moves of a colour that do not leave its king attacked. */
  method SafeRawMoves(board: Board, color: Color) returns (moves: seq<Move>)
    requires board.WellPlaced() && board.ep !in board.squares
    modifies board, board.squares.Values
    ensures board.Restored(old(board.Snap())) && board.View() == old(board.View())
    ensures (forall i :: 0 <= i < |Held(old(board.View()), color, 64)| ==> Held(old(board.View()), color, 64)[i] in old(board.View()).men)
            && SpecsOf(moves) == SafeMoves(old(board.View()), color, Held(old(board.View()), color, 64))
    ensures fresh(moves)
  {
    ghost var snap, p := board.Snap(), board.View();
    board.SnapRestored();
    var pieces := PiecesOf(board, color);
    HeldOnBoard(p, color, 64);
    moves := [];
    for i := 0 to |pieces|
      invariant board.Restored(snap) && board.View() == p && board.squares == snap.squares
      invariant SpecsOf(moves) == SafeMoves(p, color, pieces[..i])
      invariant fresh(moves)
    {
      RestoredTwice(board, snap);
      var more := TryPiece(board, pieces[i], color);
      SafeMovesNext(p, color, pieces, i);
      SpecsOfConcat(moves, more);
      moves := moves + more;
    }
    assert pieces[..|pieces|] == pieces;
  }

  method CastlingAllowed(board: Board, color: Color, kingSide: bool, ghost p: Position) returns (ok: bool)
    requires board.WellPlaced() && p == board.View()
    ensures ok <==> if kingSide then KingSide(p, color) else QueenSide(p, color)
  {
    var back, opp := HomeRow(color), Opposite(color);
    var right := if kingSide then (if color == White then WK else BK) else if color == White then WQ else BQ;
    if right !in board.rights {
      return false;
    }
    var rook := ChessBoard.At(board.squares, Pos(back, if kingSide then 7 else 0));
    if rook == null || rook.kind != Rook || rook.hasMoved {
      return false;
    }
    if kingSide {
      if Pos(back, 5) in board.squares || Pos(back, 6) in board.squares {
        return false;
      }
    } else if Pos(back, 1) in board.squares || Pos(back, 2) in board.squares || Pos(back, 3) in board.squares {
      return false;
    }
    var check := InCheckNow(board, color);
    var attacked := AttackedSquares(board, opp);
    ok := if kingSide then !check && Pos(back, 5) !in attacked && Pos(back, 6) !in attacked
          else !check && Pos(back, 2) !in attacked && Pos(back, 3) !in attacked;
  }

  method KingUnmoved(board: Board, color: Color, ghost p: Position) returns (ok: bool)
    requires board.WellPlaced() && p == board.View()
    ensures ok <==> CanCastleKing(p, color)
  {
    var king := FindKing(board, color);
    ok := king != null && !king.hasMoved;
    if king != null {
      forall at | FirstKing(board.View(), at, color) ensures at == king.pos {
        FirstKingUnique(board.View(), at, king.pos, color);
      }
    }
  }

  method CastlingMoves(board: Board, color: Color) returns (moves: seq<Move>)
    requires board.WellPlaced()
    ensures SpecsOf(moves) == Castlings(board.View(), color)
    ensures fresh(moves)
  {
    moves := [];
    ghost var p := board.View();
    var unmoved := KingUnmoved(board, color, p);
    if unmoved {
      var kingSide := CastlingAllowed(board, color, true, p);
      var queenSide := CastlingAllowed(board, color, false, p);
      moves := NewCastlings(color, kingSide, queenSide);
    }
  }

  method NewCastlings(color: Color, kingSide: bool, queenSide: bool) returns (moves: seq<Move>)
    ensures SpecsOf(moves) == CastleSpecs(color, kingSide, queenSide)
    ensures fresh(moves)
  {
    moves := [];
    if kingSide {
      var move := new Move(CastleSpec(color, true));
      moves := moves + [move];
    }
    if queenSide {
      var move := new Move(CastleSpec(color, false));
      SpecsOfSnoc(moves, move);
      moves := moves + [move];
    }
  }

  /** `legal_moves`: the board is as before, and the moves are those of the rules. */
  method LegalMoves(board: Board, color: Color) returns (moves: seq<Move>)
    requires board.WellPlaced() && board.ep !in board.squares
    modifies board, board.squares.Values
    ensures board.Restored(old(board.Snap())) && board.View() == old(board.View())
    ensures SpecsOf(moves) == Legal(old(board.View()), color)
    ensures fresh(moves)
  {
    moves := SafeRawMoves(board, color);
    var castlings := CastlingMoves(board, color);
    SpecsOfConcat(moves, castlings);
    moves := moves + castlings;
  }

  // ----- the automatic game

  datatype Outcome = Wins(color: Color) | Draw

  const MAX_MOVES: nat := 500

  lemma InitialReachable()
    ensures Reachable(Initial())
  {
    InitialSafe();
    forall at, color | IsKing(Initial(), at, color) ensures at == Pos(HomeRow(color), 4) {
      InitialKings(at, color);
    }
  }

  /** The position after some moves. */
  ghost function After(p: Position, moves: seq<Spec>): Position {
    if moves == [] then p else Made(After(p, moves[..|moves| - 1]), moves[|moves| - 1])
  }

  function TurnAfter(turn: Color, n: nat): Color {
    if n % 2 == 0 then turn else Opposite(turn)
  }

  /** Is the i-th move the one that the i-th random number picks from the legal moves? */
  ghost predicate DrawnAt(p: Position, turn: Color, state: nat, moves: seq<Spec>, i: nat)
    requires i < |moves|
  {
    Picks(Legal(After(p, moves[..i]), TurnAfter(turn, i)), Lcg.Iterate(state, i + 1), moves[i])
  }

  predicate Picks(legal: seq<Spec>, random: nat, m: Spec) {
    legal != [] && m == legal[random % |legal|]
  }

  /** A whole game: every move is legal where it is made, and drawn by the generator. */
  ghost predicate Drawn(p: Position, turn: Color, state: nat, moves: seq<Spec>) {
    forall i :: 0 <= i < |moves| ==> DrawnAt(p, turn, state, moves, i)
  }

  predicate Castles(moves: seq<Spec>) {
    exists i :: 0 <= i < |moves| && moves[i].castling
  }

  lemma AfterNext(p: Position, moves: seq<Spec>, m: Spec)
    ensures After(p, moves + [m]) == Made(After(p, moves), m)
  {
    assert (moves + [m])[..|moves|] == moves;
  }

  lemma DrawnNext(p: Position, turn: Color, state: nat, moves: seq<Spec>, m: Spec)
    requires Drawn(p, turn, state, moves)
    requires Picks(Legal(After(p, moves), TurnAfter(turn, |moves|)), Lcg.Iterate(state, |moves| + 1), m)
    ensures Drawn(p, turn, state, moves + [m])
  {
    var more := moves + [m];
    assert more[..|moves|] == moves;
    forall i | 0 <= i < |more| ensures DrawnAt(p, turn, state, more, i) {
      if i < |moves| {
        assert more[..i] == moves[..i];
        assert DrawnAt(p, turn, state, moves, i);
      }
    }
  }

  lemma AfterUpTo(p: Position, turn: Color, moves: seq<Spec>, n: nat)
    requires n < |moves|
    ensures After(p, moves[..n+1]) == Made(After(p, moves[..n]), moves[n])
    ensures TurnAfter(turn, n + 1) == Opposite(TurnAfter(turn, n))
  {
    AfterNext(p, moves[..n], moves[n]);
    assert moves[..n+1] == moves[..n] + [moves[n]];
  }

  lemma LegalKeepsKings(p: Position, turn: Color, m: Spec)
    requires KingsSafe(p, turn) && m in Legal(p, turn) && !m.castling
    ensures KingsSafe(Made(p, m), Opposite(turn))
  {
    LegalExactly(p, turn, m);
    StepKeepsKings(p, turn, m);
  }

  /** In a game in which no move castles both kings are on the board at every position. */
  lemma {:induction false} DrawnKeepsKings(p: Position, turn: Color, state: nat, moves: seq<Spec>, i: nat)
    requires KingsSafe(p, turn) && Drawn(p, turn, state, moves) && i <= |moves| && !Castles(moves)
    ensures KingsSafe(After(p, moves[..i]), TurnAfter(turn, i))
  {
    if i == 0 {
      assert moves[..0] == [];
    } else {
      var n := i - 1;
      DrawnKeepsKings(p, turn, state, moves, n);
      assert DrawnAt(p, turn, state, moves, n);
      AfterUpTo(p, turn, moves, n);
      LegalKeepsKings(After(p, moves[..n]), TurnAfter(turn, n), moves[n]);
    }
  }

  /** Safe kings at every position of the game. */
  ghost predicate KingsThroughout(p: Position, turn: Color, moves: seq<Spec>) {
    forall i :: 0 <= i <= |moves| ==> KingsSafe(After(p, moves[..i]), TurnAfter(turn, i))
  }

  lemma DrawnKingsThroughout(p: Position, turn: Color, state: nat, moves: seq<Spec>)
    requires KingsSafe(p, turn) && Drawn(p, turn, state, moves) && !Castles(moves)
    ensures KingsThroughout(p, turn, moves)
  {
    forall i | 0 <= i <= |moves| ensures KingsSafe(After(p, moves[..i]), TurnAfter(turn, i)) {
      DrawnKeepsKings(p, turn, state, moves, i);
    }
  }

  /** Where a game that began at `p` with `turn` to move and `count` moves made stands after
      some moves: the position, the side, the generator and the number of moves. */
  ghost predicate Stands(p: Position, turn: Color, state: nat, count: nat, moves: seq<Spec>,
                         q: Position, side: Color, random: nat, made: nat) {
    && q == After(p, moves) && side == TurnAfter(turn, |moves|)
    && random == Lcg.Iterate(state, |moves|) && made == count + |moves|
    && Drawn(p, turn, state, moves)
  }

  lemma StandsNext(p: Position, turn: Color, state: nat, count: nat, moves: seq<Spec>,
                   q: Position, side: Color, random: nat, made: nat, m: Spec, next: nat)
    requires Stands(p, turn, state, count, moves, q, side, random, made)
    requires next == Lcg.Next(random) && Picks(Legal(q, side), next, m)
    ensures Stands(p, turn, state, count, moves + [m], Made(q, m), Opposite(side), next, made + 1)
  {
    assert next == Lcg.Iterate(state, |moves| + 1);
    DrawnNext(p, turn, state, moves, m);
    AfterNext(p, moves, m);
    SideNext(turn, |moves|);
  }

  lemma SideNext(turn: Color, n: nat)
    ensures TurnAfter(turn, n + 1) == Opposite(TurnAfter(turn, n))
  {
  }

  /** What a side without a legal move has come to. */
  ghost function Verdict(p: Position, turn: Color): Outcome {
    if InCheck(p, turn) then Wins(Opposite(turn)) else Draw
  }

  /** A move that will not be taken back. */
  method Commit(board: Board, move: Move)
    requires board.WellPlaced() && Fits(board.View(), move.spec)
    modifies board, move, board.squares.Values
    ensures board.WellPlaced() && board.View() == Made(old(board.View()), move.spec)
    ensures fresh(board.squares.Values - old(board.squares.Values))
  {
    board.MakeMove(move);
  }

  class Game {
    const board: Board
    var currentTurn: Color
    var isOver: bool
    var moveCount: nat

    constructor ()
      ensures fresh(board) && fresh(board.squares.Values) && board.WellPlaced() && board.View() == Initial()
      ensures currentTurn == White && !isOver && moveCount == 0
      ensures Sound() && KingsSafe(board.View(), currentTurn)
    {
      board := new Board();
      currentTurn, isOver, moveCount := White, false, 0;
      new;
      InitialReachable();
      InitialSafe();
    }

    ghost predicate Sound()
      reads this, board, board.squares.Values
    {
      board.WellPlaced() && Reachable(board.View())
    }

    /** Is there no legal move for the side, and is it in check? */
    method Stuck(color: Color) returns (stuck: bool, check: bool)
      requires board.WellPlaced() && board.ep !in board.squares
      modifies board, board.squares.Values
      ensures board.squares == old(board.squares) && board.View() == old(board.View()) && board.WellPlaced()
      ensures stuck <==> Legal(old(board.View()), color) == []
      ensures check <==> InCheck(old(board.View()), color)
    {
      check := InCheckNow(board, color);
      var moves := LegalMoves(board, color);
      stuck := moves == [];
      assert |SpecsOf(moves)| == |moves|;
    }

    /** Makes one of the legal moves. */
    method MakeChosen(move: Move)
      requires board.WellPlaced() && Fits(board.View(), move.spec)
      modifies this`moveCount, this`currentTurn, board, move, board.squares.Values
      ensures board.WellPlaced() && board.View() == Made(old(board.View()), move.spec)
      ensures moveCount == old(moveCount) + 1 && currentTurn == Opposite(old(currentTurn))
      ensures fresh(board.squares.Values - old(board.squares.Values))
    {
      Commit(board, move);
      moveCount := moveCount + 1;
      currentTurn := Opposite(currentTurn);
    }

    /** Draws a legal move. */
    method Choose(gen: Lcg.Generator) returns (move: Move)
      requires board.WellPlaced() && board.ep !in board.squares
      requires gen.state < Lcg.U64 && Legal(board.View(), currentTurn) != []
      modifies board, board.squares.Values, gen
      ensures board.WellPlaced() && board.squares == old(board.squares) && board.View() == old(board.View())
      ensures gen.state == Lcg.Next(old(gen.state)) && gen.state < Lcg.U64
      ensures Picks(Legal(old(board.View()), currentTurn), gen.state, move.spec) && fresh(move)
    {
      var moves := LegalMoves(board, currentTurn);
      assert |SpecsOf(moves)| == |moves| > 0;
      var idx := gen.RandomInt(|moves|);
      assert SpecsOf(moves)[idx] == moves[idx].spec;
      move := moves[idx];
    }

    /** One move of the side to move, drawn from its legal moves. */
    method Turn(gen: Lcg.Generator) returns (ghost m: Spec)
      requires Sound() && gen.state < Lcg.U64 && Legal(board.View(), currentTurn) != []
      modifies this`moveCount, this`currentTurn, board, board.squares.Values, gen
      ensures Sound() && gen.state == Lcg.Next(old(gen.state)) && gen.state < Lcg.U64
      ensures Picks(Legal(old(board.View()), old(currentTurn)), gen.state, m)
      ensures board.View() == Made(old(board.View()), m)
      ensures moveCount == old(moveCount) + 1 && currentTurn == Opposite(old(currentTurn))
      ensures fresh(board.squares.Values - old(board.squares.Values))
    {
      ghost var p := board.View();
      var move := Choose(gen);
      LegalFits(p, currentTurn, move.spec);
      LegalKeepsReachable(p, currentTurn, move.spec);
      m := move.spec;
      MakeChosen(move);
    }

    /** One round of the game: nothing is moved if the side has no legal move; otherwise one
        move is drawn, and the game is over if the other side then has none. */
    method Round(gen: Lcg.Generator) returns (outcome: Option<Outcome>, ghost move: Option<Spec>)
      requires Sound() && gen.state < Lcg.U64
      modifies this`moveCount, this`currentTurn, board, board.squares.Values, gen
      ensures Sound() && gen.state < Lcg.U64
      ensures move.None? <==> Legal(old(board.View()), old(currentTurn)) == []
      ensures move.None? ==>
        && board.View() == old(board.View()) && currentTurn == old(currentTurn) && moveCount == old(moveCount)
        && gen.state == old(gen.state) && outcome == Some(Verdict(board.View(), currentTurn))
      ensures move.Some? ==>
        && gen.state == Lcg.Next(old(gen.state))
        && Picks(Legal(old(board.View()), old(currentTurn)), gen.state, move.value)
        && board.View() == Made(old(board.View()), move.value)
        && moveCount == old(moveCount) + 1 && currentTurn == Opposite(old(currentTurn))
        && outcome == if Legal(board.View(), currentTurn) == [] then Some(Verdict(board.View(), currentTurn)) else None
      ensures fresh(board.squares.Values - old(board.squares.Values))
    {
      var stuck, check := Stuck(currentTurn);
      if stuck {
        return Some(if check then Wins(Opposite(currentTurn)) else Draw), None;
      }
      ghost var m := Turn(gen);
      stuck, check := Stuck(currentTurn);
      outcome := if stuck then Some(if check then Wins(Opposite(currentTurn)) else Draw) else None;
      move := Some(m);
    }

    /** The state of a game that began at `p` with `turn` to move, after some moves. */
    ghost predicate Reached(p: Position, turn: Color, state: nat, count: nat, moves: seq<Spec>, gen: Lcg.Generator)
      reads this, board, board.squares.Values, gen
    {
      Stands(p, turn, state, count, moves, board.View(), currentTurn, gen.state, moveCount)
    }

    /** Plays rounds until the game is over or has gone on for too long. */
    method PlayRounds(gen: Lcg.Generator) returns (outcome: Outcome, ghost moves: seq<Spec>)
      requires Sound() && gen.state < Lcg.U64 && moveCount <= MAX_MOVES
      modifies this`moveCount, this`currentTurn, board, board.squares.Values, gen
      ensures Sound() && moveCount <= MAX_MOVES
      ensures Reached(old(board.View()), old(currentTurn), old(gen.state), old(moveCount), moves, gen)
      ensures isOver || old(moveCount) == MAX_MOVES ==> moves == [] && outcome == Draw
      ensures !isOver && old(moveCount) < MAX_MOVES ==> Outcomes(board.View(), currentTurn, moveCount, outcome)
    {
      ghost var p, turn, state, count := board.View(), currentTurn, gen.state, moveCount;
      outcome, moves := Draw, [];
      while !isOver && moveCount < MAX_MOVES
        invariant Sound() && gen.state < Lcg.U64 && moveCount <= MAX_MOVES
        invariant Reached(p, turn, state, count, moves, gen)
        invariant isOver || count == MAX_MOVES ==> moves == []
        invariant outcome == Draw && (moves != [] ==> Legal(board.View(), currentTurn) != [])
        invariant fresh(board.squares.Values - old(board.squares.Values))
        decreases MAX_MOVES - moveCount
      {
        ghost var q, side, random, made := board.View(), currentTurn, gen.state, moveCount;
        var result;
        ghost var move;
        result, move := Round(gen);
        if move.Some? {
          StandsNext(p, turn, state, count, moves, q, side, random, made, move.value, gen.state);
          moves := moves + [move.value];
        }
        if result.Some? {
          return result.value, moves;
        }
      }
    }

    /** Plays random legal moves to the end. Each move is the one that the generator picks from
        the legal moves. The side that has no legal move loses if it is in check and draws if
        not; a game that goes on for too long is a draw. If no move castles, both kings are on
        the board at every position. */
    method PlayAuto(gen: Lcg.Generator) returns (outcome: Outcome, ghost moves: seq<Spec>)
      requires Sound() && gen.state < Lcg.U64 && moveCount <= MAX_MOVES
      modifies this`moveCount, this`currentTurn, board, board.squares.Values, gen
      ensures Sound() && moveCount <= MAX_MOVES
      ensures Reached(old(board.View()), old(currentTurn), old(gen.state), old(moveCount), moves, gen)
      ensures isOver || old(moveCount) == MAX_MOVES ==> moves == [] && outcome == Draw
      ensures !isOver && old(moveCount) < MAX_MOVES ==> Outcomes(board.View(), currentTurn, moveCount, outcome)
      ensures KingsSafe(old(board.View()), old(currentTurn)) && !Castles(moves) ==>
        KingsThroughout(old(board.View()), old(currentTurn), moves)
    {
      ghost var p, turn, state := board.View(), currentTurn, gen.state;
      outcome, moves := PlayRounds(gen);
      if KingsSafe(p, turn) && !Castles(moves) {
        DrawnKingsThroughout(p, turn, state, moves);
      }
    }
  }

  /** How a game that is over ends. */
  ghost predicate Outcomes(p: Position, turn: Color, made: nat, outcome: Outcome) {
    if Legal(p, turn) == [] then outcome == Verdict(p, turn) else outcome == Draw && made == MAX_MOVES
  }
}
