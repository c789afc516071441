/** The moves of the chess port, on positions as values. */
module ChessRules {

  datatype Color = White | Black

  datatype Kind = Pawn | Knight | Bishop | Rook | Queen | King

  function Opposite(c: Color): Color {
    if c == White then Black else White
  }

  datatype Pos = Pos(r: int, c: int)
  {
    predicate Valid() {
      0 <= r < 8 && 0 <= c < 8
    }

    function Plus(d: Pos): Pos {
      Pos(r + d.r, c + d.c)
    }
  }

  const NOWHERE: Pos := Pos(-1, -1)

  datatype Right = WK | WQ | BK | BQ

  /** A man on a square. */
  datatype Man = Man(color: Color, kind: Kind, moved: bool)

  type Men = map<Pos, Man>

  /** `ep` is the en-passant square, or NOWHERE. */
  datatype Position = Position(men: Men, ep: Pos, rights: set<Right>)

  /** What a move says when it is generated. */
  datatype Spec = Spec(from: Pos, to: Pos, promotion: bool, doublePush: bool, enPassant: bool,
                       castling: bool, rookFrom: int, rookTo: int)

  function Plain(from: Pos, to: Pos): Spec {
    Spec(from, to, false, false, false, false, -1, -1)
  }

  // ----- generating moves

  /** How many steps in direction `d` stay on the board. */
  function Room(p: Pos, d: Pos): nat {
    if !p.Valid() then 0
    else if d.r > 0 then 8 - p.r
    else if d.r < 0 then p.r + 1
    else if d.c > 0 then 8 - p.c
    else p.c + 1
  }

  predicate Direction(d: Pos) {
    -1 <= d.r <= 1 && -1 <= d.c <= 1 && (d.r != 0 || d.c != 0)
  }

  /** The squares a sliding man of colour `color` reaches from `at` on in direction `d`. */
  function Slide(men: Men, color: Color, from: Pos, at: Pos, d: Pos): seq<Spec>
    requires Direction(d)
    decreases Room(at, d)
  {
    if !at.Valid() then []
    else if at !in men then [Plain(from, at)] + Slide(men, color, from, at.Plus(d), d)
    else if men[at].color != color then [Plain(from, at)]
    else []
  }

  function SlideAll(men: Men, color: Color, from: Pos, ds: seq<Pos>): seq<Spec>
    requires forall i :: 0 <= i < |ds| ==> Direction(ds[i])
  {
    if ds == [] then []
    else SlideAll(men, color, from, ds[..|ds| - 1]) + Slide(men, color, from, from.Plus(ds[|ds| - 1]), ds[|ds| - 1])
  }

  /** Single steps to squares not held by the own colour. */
  function StepAll(men: Men, color: Color, from: Pos, ds: seq<Pos>): seq<Spec> {
    if ds == [] then []
    else
      var to := from.Plus(ds[|ds| - 1]);
      StepAll(men, color, from, ds[..|ds| - 1]) +
      if to.Valid() && (to !in men || men[to].color != color) then [Plain(from, to)] else []
  }

  const DIAGONALS: seq<Pos> := [Pos(-1, -1), Pos(-1, 1), Pos(1, -1), Pos(1, 1)]
  const STRAIGHTS: seq<Pos> := [Pos(-1, 0), Pos(1, 0), Pos(0, -1), Pos(0, 1)]
  const AROUND: seq<Pos> := [Pos(-1, -1), Pos(-1, 0), Pos(-1, 1), Pos(0, -1), Pos(0, 1), Pos(1, -1), Pos(1, 0), Pos(1, 1)]
  const JUMPS: seq<Pos> := [Pos(-2, -1), Pos(-2, 1), Pos(-1, -2), Pos(-1, 2), Pos(1, -2), Pos(1, 2), Pos(2, -1), Pos(2, 1)]

  function Forward(color: Color): int {
    if color == White then -1 else 1
  }

  function StartRow(color: Color): int {
    if color == White then 6 else 1
  }

  function LastRow(color: Color): int {
    if color == White then 0 else 7
  }

  function PawnPushes(men: Men, color: Color, from: Pos): seq<Spec> {
    var dir := Forward(color);
    var one, two := Pos(from.r + dir, from.c), Pos(from.r + 2 * dir, from.c);
    if one.Valid() && one !in men then
      [Plain(from, one).(promotion := one.r == LastRow(color))] +
      if from.r == StartRow(color) && two !in men then [Plain(from, two).(doublePush := true)] else []
    else []
  }

  function PawnCaptures(men: Men, color: Color, from: Pos, ep: Pos, dc: int): seq<Spec> {
    var to := Pos(from.r + Forward(color), from.c + dc);
    if !to.Valid() then []
    else
      (if to in men && men[to].color != color then [Plain(from, to).(promotion := to.r == LastRow(color))] else [])
      + (if to == ep then [Plain(from, to).(enPassant := true)] else [])
  }

  /** The moves of the man on `from`. */
  function RawMoves(p: Position, from: Pos): seq<Spec>
    requires from in p.men
  {
    var man := p.men[from];
    match man.kind
    case Pawn =>
      PawnPushes(p.men, man.color, from) + PawnCaptures(p.men, man.color, from, p.ep, -1)
      + PawnCaptures(p.men, man.color, from, p.ep, 1)
    case Knight => StepAll(p.men, man.color, from, JUMPS)
    case Bishop => SlideAll(p.men, man.color, from, DIAGONALS)
    case Rook => SlideAll(p.men, man.color, from, STRAIGHTS)
    case Queen => SlideAll(p.men, man.color, from, AROUND)
    case King => StepAll(p.men, man.color, from, AROUND)
  }

  // ----- making a move

  function LostRights(color: Color, kind: Kind, from: Pos): set<Right> {
    if kind == King then (if color == White then {WK, WQ} else {BK, BQ})
    else if kind == Rook then
      (if from == Pos(7, 0) then {WQ} else if from == Pos(7, 7) then {WK}
       else if from == Pos(0, 0) then {BQ} else if from == Pos(0, 7) then {BK} else {})
    else {}
  }

  /** The square of the man that the move takes off the board. */
  function CaptureSquare(m: Spec): Pos {
    if m.enPassant then Pos(m.from.r, m.to.c) else m.to
  }

  function Made(p: Position, m: Spec): Position {
    if m.from !in p.men then p
    else
      var man := p.men[m.from];
      var placed := if m.promotion then Man(man.color, Queen, true) else man.(moved := true);
      var men := (p.men - {CaptureSquare(m), m.from})[m.to := placed];
      var rookFrom, rookTo := Pos(m.from.r, m.rookFrom), Pos(m.from.r, m.rookTo);
      var after := if m.castling && rookFrom in men then (men - {rookFrom})[rookTo := men[rookFrom].(moved := true)] else men;
      Position(after,
               if m.doublePush then Pos(m.from.r + Forward(man.color), m.from.c) else NOWHERE,
               p.rights - LostRights(man.color, man.kind, m.from))
  }

  // ----- attacks

  ghost predicate Attacks(p: Position, from: Pos, target: Pos) {
    from in p.men && exists m :: m in RawMoves(p, from) && m.to == target
  }

  ghost predicate Attacked(p: Position, target: Pos, side: Color) {
    exists from :: from in p.men && p.men[from].color == side && Attacks(p, from, target)
  }

  predicate IsKing(p: Position, at: Pos, color: Color) {
    at in p.men && p.men[at].color == color && p.men[at].kind == King
  }

  ghost predicate HasKing(p: Position, color: Color) {
    exists at :: IsKing(p, at, color)
  }

  ghost predicate OneKing(p: Position, color: Color) {
    forall a, b :: IsKing(p, a, color) && IsKing(p, b, color) ==> a == b
  }

  /** The king that a search by rows and then columns finds. */
  ghost predicate FirstKing(p: Position, at: Pos, color: Color) {
    IsKing(p, at, color) && forall b :: IsKing(p, b, color) ==> 8 * at.r + at.c <= 8 * b.r + b.c
  }

  ghost predicate InCheck(p: Position, color: Color) {
    exists at :: FirstKing(p, at, color) && Attacked(p, at, Opposite(color))
  }

  /** A raw move of `color` that does not leave its king attacked. */
  ghost predicate LegalStep(p: Position, color: Color, m: Spec) {
    && m.from in p.men && p.men[m.from].color == color && m in RawMoves(p, m.from)
    && !InCheck(Made(p, m), color)
  }

  // ----- what raw moves look like

  ghost predicate OnBoard(p: Position) {
    forall at :: at in p.men ==> at.Valid()
  }

  /** A raw move that is no en-passant capture goes to a square without a man of the own
      colour; an en-passant capture goes to the en-passant square, diagonally. */
  ghost predicate Shaped(p: Position, from: Pos, m: Spec)
    requires from in p.men
  {
    var color := p.men[from].color;
    && m.from == from && m.to.Valid() && m.to != from && !m.castling
    && (!m.enPassant ==> (m.to in p.men ==> p.men[m.to].color != color))
    && (m.enPassant ==> m.to == p.ep && p.men[from].kind == Pawn && !m.promotion && !m.doublePush
                        && m.to.r == from.r + Forward(color) && (m.to.c == from.c - 1 || m.to.c == from.c + 1))
    && (m.promotion ==> p.men[from].kind == Pawn)
    && (m.doublePush ==>
          && p.men[from].kind == Pawn && !m.promotion && !m.enPassant && from.r == StartRow(color) && m.to !in p.men
          && m.to == Pos(from.r + 2 * Forward(color), from.c) && Pos(from.r + Forward(color), from.c) !in p.men)
  }

  /** `at` is further in direction `d` than `from`. */
  predicate Ahead(from: Pos, at: Pos, d: Pos) {
    && (d.r > 0 ==> at.r > from.r) && (d.r < 0 ==> at.r < from.r)
    && (d.c > 0 ==> at.c > from.c) && (d.c < 0 ==> at.c < from.c)
  }

  lemma {:induction false} SlideShaped(p: Position, from: Pos, at: Pos, d: Pos, m: Spec)
    requires from in p.men && Direction(d) && from.Valid() && Ahead(from, at, d)
    requires m in Slide(p.men, p.men[from].color, from, at, d)
    ensures Shaped(p, from, m) && !m.enPassant
    decreases Room(at, d)
  {
    assert at.Valid() && at != from;
    if m != Plain(from, at) {
      SlideShaped(p, from, at.Plus(d), d, m);
    }
  }

  lemma {:induction false} SlideAllShaped(p: Position, from: Pos, ds: seq<Pos>)
    requires from in p.men && from.Valid() && forall i :: 0 <= i < |ds| ==> Direction(ds[i])
    ensures forall m :: m in SlideAll(p.men, p.men[from].color, from, ds) ==> Shaped(p, from, m) && !m.enPassant
  {
    if ds != [] {
      var n := |ds| - 1;
      SlideAllShaped(p, from, ds[..n]);
      forall m | m in Slide(p.men, p.men[from].color, from, from.Plus(ds[n]), ds[n])
        ensures Shaped(p, from, m) && !m.enPassant
      {
        SlideShaped(p, from, from.Plus(ds[n]), ds[n], m);
      }
    }
  }

  lemma {:induction false} StepAllShaped(p: Position, from: Pos, ds: seq<Pos>)
    requires from in p.men && forall i :: 0 <= i < |ds| ==> ds[i] != Pos(0, 0)
    ensures forall m :: m in StepAll(p.men, p.men[from].color, from, ds) ==> Shaped(p, from, m) && !m.enPassant
  {
    if ds != [] {
      StepAllShaped(p, from, ds[..|ds| - 1]);
    }
  }

  lemma PawnShaped(p: Position, from: Pos)
    requires from in p.men && from.Valid() && p.men[from].kind == Pawn
    ensures forall m :: m in RawMoves(p, from) ==> Shaped(p, from, m)
  {
  }

  lemma RawShaped(p: Position, from: Pos)
    requires from in p.men && from.Valid()
    ensures forall m :: m in RawMoves(p, from) ==> Shaped(p, from, m)
  {
    match p.men[from].kind
    case Pawn => PawnShaped(p, from);
    case Knight => StepAllShaped(p, from, JUMPS);
    case Bishop => SlideAllShaped(p, from, DIAGONALS);
    case Rook => SlideAllShaped(p, from, STRAIGHTS);
    case Queen => SlideAllShaped(p, from, AROUND);
    case King => StepAllShaped(p, from, AROUND);
  }
}
