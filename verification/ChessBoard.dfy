/** The board of the chess port: squares that share mutable piece objects, and moves that
    carry what is needed to take them back. */
module ChessBoard {
  import opened ChessRules
  import opened ChessKings

  class Piece {
    const color: Color
    const kind: Kind
    var pos: Pos
    var hasMoved: bool

    constructor (color: Color, kind: Kind, pos: Pos, hasMoved: bool)
      ensures this.color == color && this.kind == kind && this.pos == pos && this.hasMoved == hasMoved
    {
      this.color, this.kind, this.pos, this.hasMoved := color, kind, pos, hasMoved;
    }

    function Man(): Man
      reads this
    {
      ChessRules.Man(color, kind, hasMoved)
    }
  }

  /** A move object: what it says, and what making it has recorded. */
  class Move {
    const spec: Spec
    var captured: Piece?
    var promotedFrom: Piece?
    var prevHasMoved: bool
    var prevEp: Pos
    var prevRights: set<Right>

    constructor (spec: Spec)
      ensures this.spec == spec && captured == null && promotedFrom == null
      ensures !prevHasMoved && prevEp == NOWHERE && prevRights == {WK, WQ, BK, BQ}
    {
      this.spec := spec;
      captured, promotedFrom, prevHasMoved := null, null, false;
      prevEp, prevRights := NOWHERE, {WK, WQ, BK, BQ};
    }
  }

  type Squares = map<Pos, Piece>

  /** The squares of the initial position in the first `c` columns. */
  ghost function Columns(c: int): set<Pos> {
    set at | at in Initial().men && at.c < c
  }

  lemma ColumnsNext(c: int)
    requires 0 <= c < 8
    ensures Columns(c + 1) == Columns(c) + {Pos(0, c), Pos(1, c), Pos(6, c)} + {Pos(7, c)}
  {
    forall at ensures at in Columns(c + 1) <==> at in Columns(c) + {Pos(0, c), Pos(1, c), Pos(6, c)} + {Pos(7, c)} {
      InitialMen(at);
    }
  }

  lemma AllColumns()
    ensures Columns(8) == Initial().men.Keys && Columns(0) == {}
    ensures forall at :: at in Initial().men ==> at.Valid() && Initial().men[at] == InitialMan(at)
  {
    forall at ensures (at in Initial().men ==> at.Valid() && Initial().men[at] == InitialMan(at)) {
      InitialMen(at);
    }
  }

  function At(squares: Squares, at: Pos): Piece? {
    if at in squares then squares[at] else null
  }

  function Put(squares: Squares, at: Pos, piece: Piece?): Squares {
    if piece == null then squares - {at} else squares[at := piece]
  }

  function RookFrom(m: Spec): Pos {
    Pos(m.from.r, m.rookFrom)
  }

  function RookTo(m: Spec): Pos {
    Pos(m.from.r, m.rookTo)
  }

  /** What every generated move satisfies on the board it is generated for. */
  ghost predicate Fits(p: Position, m: Spec) {
    && m.from in p.men && m.from.Valid() && m.to.Valid() && m.to != m.from
    && (m.enPassant ==> m.to !in p.men && m.to.r != m.from.r && m.to.c != m.from.c && !m.promotion && !m.castling)
    && (m.castling ==>
          && !m.promotion && m.to !in p.men && RookTo(m) !in p.men && RookTo(m).Valid()
          && RookFrom(m) in p.men && !p.men[RookFrom(m)].moved
          && RookFrom(m) != m.from && RookFrom(m) != m.to && RookTo(m) != m.to)
  }

  /** All of the state that making and taking back moves may touch. */
  datatype Snapshot = Snapshot(squares: Squares, ep: Pos, rights: set<Right>, moved: map<Piece, bool>)

  ghost predicate Injective(squares: Squares) {
    forall a, b :: a in squares && b in squares && squares[a] == squares[b] ==> a == b
  }

  class Board {
    var squares: Squares
    var ep: Pos
    var rights: set<Right>

    /** The men of the initial position on these squares, and no others. */
    ghost predicate SetUp(on: set<Pos>)
      reads this, squares.Values
    {
      squares.Keys == on && forall at :: at in squares ==> squares[at].pos == at && squares[at].Man() == InitialMan(at)
    }

    constructor ()
      ensures WellPlaced() && View() == Initial() && fresh(squares.Values)
    {
      squares, ep, rights := map[], NOWHERE, {WK, WQ, BK, BQ};
      new;
      SetUpPieces();
      SetUpShows();
    }

    lemma SetUpShows()
      requires SetUp(Initial().men.Keys)
      ensures WellPlaced() && View().men == Initial().men
    {
      AllColumns();
    }

    /** `setup_pieces`, column by column. */
    method SetUpPieces()
      requires squares == map[]
      modifies this`squares
      ensures SetUp(Initial().men.Keys) && fresh(squares.Values)
    {
      AllColumns();
      for c := 0 to 8
        invariant SetUp(Columns(c)) && fresh(squares.Values)
      {
        ColumnsNext(c);
        SetUpColumn(Columns(c), c);
      }
    }

    method SetUpColumn(ghost on: set<Pos>, c: int)
      requires SetUp(on) && 0 <= c < 8
      modifies this`squares
      ensures SetUp(on + {Pos(0, c), Pos(1, c), Pos(6, c)} + {Pos(7, c)}) && fresh(squares.Values - old(squares.Values))
    {
      SetUpTwo(on, BackRank(c), Black, 0, Pawn, 1, c);
      ghost var more := on + {Pos(0, c), Pos(1, c)};
      SetUpTwo(more, Pawn, White, 6, BackRank(c), 7, c);
      assert more + {Pos(6, c), Pos(7, c)} == on + {Pos(0, c), Pos(1, c), Pos(6, c)} + {Pos(7, c)};
    }

    method SetUpTwo(ghost on: set<Pos>, first: Kind, color: Color, r: int, second: Kind, s: int, c: int)
      requires SetUp(on)
      requires InitialMan(Pos(r, c)) == Man(color, first, false) && InitialMan(Pos(s, c)) == Man(color, second, false)
      modifies this`squares
      ensures SetUp(on + {Pos(r, c), Pos(s, c)}) && fresh(squares.Values - old(squares.Values))
    {
      SetUpPiece(on, first, color, r, c);
      SetUpPiece(on + {Pos(r, c)}, second, color, s, c);
      assert on + {Pos(r, c)} + {Pos(s, c)} == on + {Pos(r, c), Pos(s, c)};
    }

    method SetUpPiece(ghost on: set<Pos>, kind: Kind, color: Color, r: int, c: int)
      requires SetUp(on) && InitialMan(Pos(r, c)) == Man(color, kind, false)
      modifies this`squares
      ensures SetUp(on + {Pos(r, c)}) && fresh(squares.Values - old(squares.Values))
    {
      var piece := new Piece(color, kind, Pos(r, c), false);
      squares := squares[Pos(r, c) := piece];
    }

    ghost function View(): Position
      reads this, squares.Values
    {
      Position(map at | at in squares :: squares[at].Man(), ep, rights)
    }

    /** Every piece knows the square it stands on, so no piece stands on two. */
    ghost predicate WellPlaced()
      reads this, squares.Values
    {
      forall at :: at in squares ==> at.Valid() && squares[at].pos == at
    }

    ghost function Snap(): Snapshot
      reads this, squares.Values
    {
      Snapshot(squares, ep, rights, map piece | piece in squares.Values :: piece.hasMoved)
    }

    /** The board is exactly as it was. */
    ghost predicate Restored(snap: Snapshot)
      reads this, squares.Values
    {
      && squares == snap.squares && ep == snap.ep && rights == snap.rights && WellPlaced()
      && forall at :: at in squares ==> squares[at] in snap.moved && squares[at].hasMoved == snap.moved[squares[at]]
    }

    lemma SnapRestored()
      requires WellPlaced()
      ensures Restored(Snap())
    {
    }

    /** A piece of the snapshot is as it was then. */
    ghost predicate Untouched(snap: Snapshot, at: Pos)
      requires at in snap.squares
      reads snap.squares.Values
    {
      var piece := snap.squares[at];
      piece in snap.moved && piece.pos == at && piece.hasMoved == snap.moved[piece]
    }

    /** The squares after the move, with `placed` on its target. */
    ghost function SquaresAfter(s: Squares, m: Spec, placed: Piece): Squares {
      RookMoved((s - {CaptureSquare(m), m.from})[m.to := placed], m)
    }

    /** The pieces that the move is not about are as they were. */
    ghost predicate Others(m: Spec, snap: Snapshot)
      reads snap.squares.Values
    {
      forall at :: at in snap.squares && at != m.from && !(m.castling && at == RookFrom(m)) ==> Untouched(snap, at)
    }

    /** What the move object has recorded, and what was true of the board before. */
    ghost predicate Remembers(move: Move, snap: Snapshot)
      reads move
    {
      var m := move.spec;
      var s := snap.squares;
      && Injective(s) && (forall at :: at in s ==> at.Valid() && s[at] in snap.moved)
      && m.from in s && m.from != m.to
      && (m.promotion ==> move.promotedFrom == s[m.from])
      && move.captured == At(s, CaptureSquare(m))
      && move.prevEp == snap.ep && move.prevRights == snap.rights && move.prevHasMoved == snap.moved[s[m.from]]
      && (m.enPassant ==> m.to !in s && m.to.r != m.from.r && m.to.c != m.from.c && !m.promotion && !m.castling)
      && (m.castling ==>
            && !m.promotion && m.to !in s && RookTo(m) !in s && RookFrom(m) in s && !snap.moved[s[RookFrom(m)]]
            && RookFrom(m) != m.from && RookFrom(m) != m.to && RookTo(m) != m.to)
    }

    /** The man on the target is the one the move puts there. */
    ghost predicate Placed(m: Spec, snap: Snapshot)
      reads this, squares.Values, snap.squares.Values
    {
      && m.from in snap.squares && m.to in squares && squares[m.to].pos == m.to
      && var piece := snap.squares[m.from];
      if m.promotion then squares[m.to].Man() == Man(piece.color, Queen, true)
      else squares[m.to] == piece && piece.hasMoved
    }

    /** Between moving the piece and moving a castling rook. */
    ghost predicate HalfMade(move: Move, snap: Snapshot)
      reads this, move, squares.Values, snap.squares.Values
    {
      var m, s := move.spec, snap.squares;
      && Remembers(move, snap) && Placed(m, snap)
      && squares == (s - {CaptureSquare(m), m.from})[m.to := squares[m.to]]
      && forall at :: at in s && at != m.from ==> Untouched(snap, at)
    }

    /** What taking the move back relies on. */
    ghost predicate MadeFrom(move: Move, snap: Snapshot)
      reads this, move, squares.Values, snap.squares.Values
    {
      var m, s := move.spec, snap.squares;
      && Remembers(move, snap) && Placed(m, snap)
      && squares == SquaresAfter(s, m, squares[m.to])
      && Others(m, snap)
      && (m.castling ==> s[RookFrom(m)].pos == RookTo(m) && s[RookFrom(m)].hasMoved)
    }

    /** The position that a snapshot shows. */
    ghost function Shown(snap: Snapshot): Position
      requires forall at :: at in snap.squares ==> snap.squares[at] in snap.moved
    {
      Position(map at | at in snap.squares ::
                 var piece := snap.squares[at]; Man(piece.color, piece.kind, snap.moved[piece]),
               snap.ep, snap.rights)
    }

    /** A made move leaves the position that the rules say. */
    lemma MadeShows(move: Move, snap: Snapshot)
      requires MadeFrom(move, snap)
      ensures View().men == Made(Shown(snap), move.spec).men
    {
      var m, s := move.spec, snap.squares;
      var p := Shown(snap);
      forall at ensures (at in squares <==> at in Made(p, m).men) && (at in squares ==> squares[at].Man() == Made(p, m).men[at]) {
        assert at in s && at != m.from && !(m.castling && at == RookFrom(m)) ==> Untouched(snap, at);
      }
    }

    lemma MadeWellPlaced(move: Move, snap: Snapshot)
      requires MadeFrom(move, snap) && move.spec.to.Valid() && (move.spec.castling ==> RookTo(move.spec).Valid())
      ensures WellPlaced()
    {
      var m, s := move.spec, snap.squares;
      forall at | at in squares ensures at.Valid() && squares[at].pos == at {
        assert at in s && at != m.from && !(m.castling && at == RookFrom(m)) ==> Untouched(snap, at);
      }
    }

    /** Takes the man on the target off the board, if any, and moves the piece there. */
    method MovePiece(move: Move) returns (piece: Piece)
      requires WellPlaced() && Fits(View(), move.spec)
      modifies this`squares, move, squares[move.spec.from]
      ensures piece == old(squares)[move.spec.from] && piece.pos == move.spec.to && piece.hasMoved
      ensures squares == MovedSquares(old(squares), move.spec)
      ensures move.captured == At(old(squares), CaptureSquare(move.spec)) && move.promotedFrom == old(move.promotedFrom)
      ensures move.prevHasMoved == old(squares[move.spec.from].hasMoved)
      ensures move.prevEp == ep && move.prevRights == rights
    {
      var m := move.spec;
      move.prevEp, move.prevRights := ep, rights;
      piece := squares[m.from];
      move.prevHasMoved := piece.hasMoved;
      Capture(move);
      PutOnTarget(m, piece);
      piece.pos := m.to;
      piece.hasMoved := true;
    }

    method PutOnTarget(m: Spec, piece: Piece)
      modifies this`squares
      ensures squares == (old(squares) - {m.from})[m.to := piece]
    {
      squares := Put(squares, m.from, null);
      squares := Put(squares, m.to, piece);
    }

    /** Records what the move takes; a pawn taken in passing leaves its square. */
    method Capture(move: Move)
      modifies this`squares, move`captured
      ensures move.captured == At(old(squares), CaptureSquare(move.spec))
      ensures squares == if move.spec.enPassant then old(squares) - {CaptureSquare(move.spec)} else old(squares)
    {
      var m := move.spec;
      if m.enPassant {
        move.captured := At(squares, Pos(m.from.r, m.to.c));
        squares := Put(squares, Pos(m.from.r, m.to.c), null);
      } else {
        move.captured := At(squares, m.to);
      }
    }

    method LoseRights(piece: Piece, from: Pos)
      modifies this`rights
      ensures rights == old(rights) - LostRights(piece.color, piece.kind, from)
    {
      if piece.kind == King {
        rights := rights - if piece.color == White then {WK, WQ} else {BK, BQ};
      } else if piece.kind == Rook {
        if from == Pos(7, 0) {
          rights := rights - {WQ};
        } else if from == Pos(7, 7) {
          rights := rights - {WK};
        } else if from == Pos(0, 0) {
          rights := rights - {BQ};
        } else if from == Pos(0, 7) {
          rights := rights - {BK};
        }
      }
    }

    /** A pawn that reaches the last row is kept aside and a new queen takes its place. */
    method Promote(move: Move, piece: Piece)
      modifies this`squares, move`promotedFrom
      ensures !move.spec.promotion ==> squares == old(squares) && move.promotedFrom == old(move.promotedFrom)
      ensures move.spec.promotion ==>
                && move.promotedFrom == piece && move.spec.to in squares && fresh(squares[move.spec.to])
                && squares == old(squares)[move.spec.to := squares[move.spec.to]]
                && squares[move.spec.to].Man() == Man(piece.color, Queen, true)
                && squares[move.spec.to].pos == move.spec.to
    {
      var m := move.spec;
      if m.promotion {
        move.promotedFrom := piece;
        var queen := new Piece(piece.color, Queen, m.to, true);
        squares := Put(squares, m.to, queen);
      }
    }

    /** The rook's part of castling. */
    method MoveRook(m: Spec)
      requires m.castling ==> RookFrom(m) in squares
      modifies this`squares, if m.castling then {squares[RookFrom(m)]} else {}
      ensures squares == RookMoved(old(squares), m)
      ensures m.castling ==> old(squares)[RookFrom(m)].pos == RookTo(m) && old(squares)[RookFrom(m)].hasMoved
    {
      if m.castling {
        var rook := At(squares, RookFrom(m));
        if rook != null {
          squares := Put(squares, RookFrom(m), null);
          squares := Put(squares, RookTo(m), rook);
          rook.pos := RookTo(m);
          rook.hasMoved := true;
        }
      }
    }

    method SetEp(m: Spec, color: Color)
      modifies this`ep
      ensures ep == if m.doublePush then Pos(m.from.r + Forward(color), m.from.c) else NOWHERE
    {
      if m.doublePush {
        ep := Pos(m.from.r + Forward(color), m.from.c);
      } else {
        ep := NOWHERE;
      }
    }

    lemma SnapShows()
      ensures Shown(Snap()) == View()
    {
      assert Shown(Snap()).men == View().men;
    }

    /** Moves the piece to its target, as itself or as a queen, and gives up rights. */
    method Relocate(move: Move) returns (piece: Piece)
      requires WellPlaced() && Fits(View(), move.spec)
      modifies this`squares, this`rights, move, squares[move.spec.from]
      ensures piece == old(squares)[move.spec.from] && move.spec.to in squares
      ensures squares == (old(squares) - {CaptureSquare(move.spec), move.spec.from})[move.spec.to := squares[move.spec.to]]
      ensures squares[move.spec.to].pos == move.spec.to
      ensures if move.spec.promotion
              then move.promotedFrom == piece && fresh(squares[move.spec.to]) && squares[move.spec.to].Man() == Man(piece.color, Queen, true)
              else squares[move.spec.to] == piece && piece.hasMoved
      ensures move.captured == At(old(squares), CaptureSquare(move.spec))
      ensures move.prevHasMoved == old(squares[move.spec.from].hasMoved)
      ensures move.prevEp == ep && move.prevRights == old(rights)
      ensures rights == old(rights) - LostRights(piece.color, piece.kind, move.spec.from)
    {
      piece := MovePiece(move);
      LoseRights(piece, move.spec.from);
      Promote(move, piece);
    }

    method RelocateHalf(move: Move) returns (piece: Piece)
      requires WellPlaced() && Fits(View(), move.spec)
      modifies this`squares, this`rights, move, squares[move.spec.from]
      ensures HalfMade(move, old(Snap())) && piece == old(squares)[move.spec.from]
      ensures rights == old(rights) - LostRights(piece.color, piece.kind, move.spec.from)
      ensures fresh(squares.Values - old(squares.Values))
    {
      ghost var snap := Snap();
      piece := Relocate(move);
      assert Remembers(move, snap);
    }

    method FinishCastling(move: Move, ghost snap: Snapshot)
      requires HalfMade(move, snap)
      modifies this`squares, if move.spec.castling then {snap.squares[RookFrom(move.spec)]} else {}
      ensures MadeFrom(move, snap)
      ensures squares.Values <= old(squares.Values)
    {
      ghost var m := move.spec;
      assert m.castling ==> RookFrom(m) in squares && squares[RookFrom(m)] == snap.squares[RookFrom(m)];
      MoveRook(move.spec);
      assert Others(m, snap);
    }

    /** `make_move`, phase by phase. */
    method MakePhases(move: Move)
      requires WellPlaced() && Fits(View(), move.spec)
      modifies this, move, squares.Values
      ensures MadeFrom(move, old(Snap()))
      ensures rights == old(rights) - LostRights(old(squares)[move.spec.from].color, old(squares)[move.spec.from].kind, move.spec.from)
      ensures ep == (if move.spec.doublePush
                     then Pos(move.spec.from.r + Forward(old(squares)[move.spec.from].color), move.spec.from.c) else NOWHERE)
      ensures fresh(squares.Values - old(squares.Values))
    {
      ghost var snap := Snap();
      var piece := RelocateHalf(move);
      FinishCastling(move, snap);
      SetEp(move.spec, piece.color);
    }

    method MakeMove(move: Move)
      requires WellPlaced() && Fits(View(), move.spec)
      modifies this, move, squares.Values
      ensures MadeFrom(move, old(Snap()))
      ensures View() == Made(old(View()), move.spec) && WellPlaced()
      ensures fresh(squares.Values - old(squares.Values))
    {
      ghost var snap, before := Snap(), View();
      SnapShows();
      MakePhases(move);
      MadeShows(move, snap);
      MadeWellPlaced(move, snap);
    }

    /** Puts the piece and what it took back where they were. */
    method RestorePiece(move: Move, ghost snap: Snapshot)
      requires MadeFrom(move, snap)
      modifies this`squares, snap.squares[move.spec.from], if move.captured == null then {} else {move.captured}
      ensures squares == RookMoved(snap.squares, move.spec)
      ensures Untouched(snap, move.spec.from) && Others(move.spec, snap)
    {
      var m := move.spec;
      var piece := if m.promotion then move.promotedFrom else At(squares, m.to);
      if piece == null {
        return;
      }
      UndoSquares(snap.squares, m, squares[m.to]);
      RestoreSquares(m, piece, move.captured);
      RestoreFields(move, piece, snap);
    }

    method RestoreSquares(m: Spec, piece: Piece, captured: Piece?)
      modifies this`squares
      ensures squares == Put(Put(Put(old(squares), m.to, null), m.from, piece), CaptureSquare(m), captured)
    {
      squares := Put(squares, m.to, null);
      squares := Put(squares, m.from, piece);
      squares := Put(squares, if m.enPassant then Pos(m.from.r, m.to.c) else m.to, captured);
    }

    /** The piece and what it took know again where they stand. */
    method RestoreFields(move: Move, piece: Piece, ghost snap: Snapshot)
      requires Remembers(move, snap) && Others(move.spec, snap) && piece == snap.squares[move.spec.from]
      modifies piece, if move.captured == null then {} else {move.captured}
      ensures Untouched(snap, move.spec.from) && Others(move.spec, snap)
    {
      assert move.captured != null ==> Untouched(snap, CaptureSquare(move.spec));
      var m := move.spec;
      piece.pos := m.from;
      piece.hasMoved := move.prevHasMoved;
      if move.captured != null {
        move.captured.pos := if m.enPassant then Pos(m.from.r, m.to.c) else m.to;
      }
    }

    /** Puts a castling rook back and forgets that it moved. */
    method RestoreRook(m: Spec, ghost snap: Snapshot)
      requires squares == RookMoved(snap.squares, m) && Injective(snap.squares) && m.from in snap.squares
      requires m.castling ==> RookFrom(m) in snap.squares && RookTo(m) !in snap.squares && RookFrom(m) != m.from
      requires m.castling ==> snap.squares[RookFrom(m)] in snap.moved && !snap.moved[snap.squares[RookFrom(m)]]
      requires Untouched(snap, m.from) && Others(m, snap)
      modifies this`squares, if m.castling then {snap.squares[RookFrom(m)]} else {}
      ensures squares == snap.squares
      ensures forall at :: at in snap.squares ==> Untouched(snap, at)
    {
      if m.castling {
        var rook := At(squares, RookTo(m));
        if rook != null {
          squares := Put(squares, RookTo(m), null);
          squares := Put(squares, RookFrom(m), rook);
          rook.pos := RookFrom(m);
          rook.hasMoved := false;
        }
      }
      assert squares == snap.squares;
    }

    /** `undo_move`: the board, and every piece that was on it, is as before the move. */
    method UndoMove(move: Move, ghost snap: Snapshot)
      requires MadeFrom(move, snap)
      modifies this, squares.Values, snap.squares.Values
      ensures Restored(snap)
    {
      RestorePiece(move, snap);
      RestoreRook(move.spec, snap);
      ep := move.prevEp;
      rights := move.prevRights;
    }

    lemma MadeFromPictured(move: Move, snap: Snapshot)
      ensures MadeFrom(move, snap) <==>
              MadeFromValues(move.spec, snap, squares, RecordOf(move), Picture(squares.Values + snap.squares.Values))
    {
    }

    /** Moves made and taken back while another is pending leave that one ready to be taken
        back: pieces on the board are restored, and pieces off the board are not touched. */
    method PlayRest(moves: seq<Move>, first: Move, ghost snap: Snapshot)
      requires WellPlaced() && FitsAll(View(), SpecsOf(moves)) && DistinctMoves(moves) && first !in moves
      requires MadeFrom(first, snap)
      modifies this, moves, squares.Values
      ensures MadeFrom(first, snap) && squares == old(squares)
      decreases |moves|, 1
    {
      ghost var after, pieces := Snap(), squares.Values + snap.squares.Values;
      ghost var record, picture := RecordOf(first), Picture(pieces);
      MadeFromPictured(first, snap);
      SnapPictured(pieces);
      PlayAndTakeBack(moves);
      RestoredPictured(after, pieces, picture);
      assert RecordOf(first) == record;
      MadeFromPictured(first, snap);
    }

    lemma SnapPictured(pieces: set<Piece>)
      requires WellPlaced() && squares.Values <= pieces
      ensures Pictured(Snap(), Picture(pieces))
    {
    }

    /** Pieces on the board look as they did if the board is restored. */
    lemma RestoredPictured(snap: Snapshot, pieces: set<Piece>, picture: map<Piece, (Pos, bool)>)
      requires Restored(snap) && Pictured(snap, picture) && picture.Keys == pieces
      requires forall q :: q in pieces && q !in squares.Values ==> picture[q] == (q.pos, q.hasMoved)
      ensures Picture(pieces) == picture
    {
      forall q | q in pieces ensures picture[q] == (q.pos, q.hasMoved) {
        if q in squares.Values {
          var at :| at in squares && squares[at] == q;
          assert snap.squares[at] == q;
        }
      }
    }

    /** Makes moves one after the other and takes them back in reverse order: everything is
        as it was at the beginning. */
    method PlayAndTakeBack(moves: seq<Move>)
      requires WellPlaced() && FitsAll(View(), SpecsOf(moves)) && DistinctMoves(moves)
      modifies this, moves, squares.Values
      ensures Restored(old(Snap()))
      decreases |moves|, 0
    {
      ghost var snap := Snap();
      if moves == [] {
        SnapRestored();
        return;
      }
      var rest := moves[1..];
      assert moves == [moves[0]] + rest && SpecsOf(moves)[1..] == SpecsOf(rest);
      assert moves[0] !in rest;
      MakeMove(moves[0]);
      PlayRest(rest, moves[0], snap);
      UndoMove(moves[0], snap);
    }
  }

  ghost predicate DistinctMoves(moves: seq<Move>) {
    forall i, j :: 0 <= i < j < |moves| ==> moves[i] != moves[j]
  }

  /** What a move object has recorded. */
  datatype Record = Record(captured: Piece?, promotedFrom: Piece?, prevHasMoved: bool, prevEp: Pos, prevRights: set<Right>)

  ghost function RecordOf(move: Move): Record
    reads move
  {
    Record(move.captured, move.promotedFrom, move.prevHasMoved, move.prevEp, move.prevRights)
  }

  /** Where pieces stand and whether they have moved. */
  ghost function Picture(pieces: set<Piece>): map<Piece, (Pos, bool)>
    reads pieces
  {
    map q | q in pieces :: (q.pos, q.hasMoved)
  }

  /** The picture shows the pieces of a snapshot as they were then. */
  ghost predicate Pictured(snap: Snapshot, picture: map<Piece, (Pos, bool)>) {
    forall at :: at in snap.squares ==>
      var piece := snap.squares[at];
      piece in picture && piece in snap.moved && picture[piece] == (at, snap.moved[piece])
  }

  /** `MadeFrom` as a property of values. */
  ghost predicate MadeFromValues(m: Spec, snap: Snapshot, squares: Squares, r: Record, pic: map<Piece, (Pos, bool)>) {
    var s := snap.squares;
    && (squares.Values + s.Values <= pic.Keys)
    && Injective(s) && (forall at :: at in s ==> at.Valid() && s[at] in snap.moved)
    && m.from in s && m.from != m.to
    && (m.promotion ==> r.promotedFrom == s[m.from])
    && r.captured == At(s, CaptureSquare(m))
    && r.prevEp == snap.ep && r.prevRights == snap.rights && r.prevHasMoved == snap.moved[s[m.from]]
    && (m.enPassant ==> m.to !in s && m.to.r != m.from.r && m.to.c != m.from.c && !m.promotion && !m.castling)
    && (m.castling ==>
          && !m.promotion && m.to !in s && RookTo(m) !in s && RookFrom(m) in s && !snap.moved[s[RookFrom(m)]]
          && RookFrom(m) != m.from && RookFrom(m) != m.to && RookTo(m) != m.to)
    && m.to in squares && pic[squares[m.to]].0 == m.to
    && (if m.promotion
        then Man(squares[m.to].color, squares[m.to].kind, pic[squares[m.to]].1) == Man(s[m.from].color, Queen, true)
        else squares[m.to] == s[m.from] && pic[squares[m.to]].1)
    && squares == RookMoved((s - {CaptureSquare(m), m.from})[m.to := squares[m.to]], m)
    && (forall at :: at in s && at != m.from && !(m.castling && at == RookFrom(m)) ==> pic[s[at]] == (at, snap.moved[s[at]]))
    && (m.castling ==> pic[s[RookFrom(m)]] == (RookTo(m), true))
  }

  function SpecsOf(moves: seq<Move>): (r: seq<Spec>)
    ensures |r| == |moves|
  {
    seq(|moves|, i requires 0 <= i < |moves| => moves[i].spec)
  }

  /** Each move fits the position that the moves before it lead to. */
  ghost predicate FitsAll(p: Position, specs: seq<Spec>)
    decreases |specs|
  {
    if specs == [] then true else Fits(p, specs[0]) && FitsAll(Made(p, specs[0]), specs[1..])
  }

  /** What a move may be, as far as the squares are concerned. */
  ghost predicate Sane(s: Squares, m: Spec) {
    && m.from in s && m.from != m.to
    && (m.enPassant ==> m.to !in s && m.to.r != m.from.r && m.to.c != m.from.c && !m.castling)
    && (m.castling ==> m.to !in s && RookTo(m) !in s && RookFrom(m) in s
                       && RookFrom(m) != m.from && RookFrom(m) != m.to && RookTo(m) != m.to)
  }

  /** Emptying the target, putting the piece back and then what it took, undoes the move. */
  lemma UndoSquares(s: Squares, m: Spec, placed: Piece)
    requires Sane(s, m)
    ensures
      var t := RookMoved((s - {CaptureSquare(m), m.from})[m.to := placed], m);
      Put(Put(Put(t, m.to, null), m.from, s[m.from]), CaptureSquare(m), At(s, CaptureSquare(m))) == RookMoved(s, m)
  {
    var t := RookMoved((s - {CaptureSquare(m), m.from})[m.to := placed], m);
    var u := Put(Put(Put(t, m.to, null), m.from, s[m.from]), CaptureSquare(m), At(s, CaptureSquare(m)));
    forall at ensures At(u, at) == At(RookMoved(s, m), at) {
    }
    forall at ensures at in u <==> at in RookMoved(s, m) {
    }
  }

  function MovedSquares(s: Squares, m: Spec): Squares
    requires m.from in s
  {
    (s - {CaptureSquare(m), m.from})[m.to := s[m.from]]
  }

  function RookMoved(s: Squares, m: Spec): Squares {
    if m.castling && RookFrom(m) in s then (s - {RookFrom(m)})[RookTo(m) := s[RookFrom(m)]] else s
  }
}
