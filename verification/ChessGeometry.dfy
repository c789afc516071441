/** Where men go, said by geometry: which squares a move may lead to from where a man stands, and
    that the generated moves are exactly those. */
module ChessGeometry {
  import opened ChessRules

  function Abs(x: int): nat {
    if x < 0 then -x else x
  }

  /** The square `n` steps of `d` away. */
  function Along(from: Pos, d: Pos, n: nat): Pos {
    Pos(from.r + n * d.r, from.c + n * d.c)
  }

  /** A square of the board that is empty or held by the other colour. */
  predicate Free(men: Men, color: Color, at: Pos) {
    at.Valid() && (at in men ==> men[at].color != color)
  }

  /** The directions in which a man slides. */
  predicate SlidesAlong(kind: Kind, d: Pos) {
    match kind
    case Bishop => Abs(d.r) == 1 && Abs(d.c) == 1
    case Rook => Abs(d.r) + Abs(d.c) == 1
    case Queen => Abs(d.r) <= 1 && Abs(d.c) <= 1 && Abs(d.r) + Abs(d.c) > 0
    case _ => false
  }

  /** In direction `d` all squares between `from` and the one `n` steps away are empty. */
  ghost predicate OpenLine(men: Men, from: Pos, d: Pos, n: nat) {
    forall k :: 0 < k < n ==> Along(from, d, k) !in men
  }

  ghost predicate Slides(men: Men, color: Color, kind: Kind, from: Pos, to: Pos) {
    exists d: Pos, n: nat ::
      n >= 1 && SlidesAlong(kind, d) && to == Along(from, d, n) && Free(men, color, to) && OpenLine(men, from, d, n)
  }

  /** Steps of a knight: two one way and one the other. Of a king: to a neighbour. */
  predicate Steps(kind: Kind, from: Pos, to: Pos) {
    var dr, dc := Abs(to.r - from.r), Abs(to.c - from.c);
    match kind
    case Knight => (dr == 1 && dc == 2) || (dr == 2 && dc == 1)
    case King => dr <= 1 && dc <= 1 && dr + dc > 0
    case _ => false
  }

  /** Rows ahead, as white moves up the board and black down. */
  function Ranks(color: Color, from: Pos, to: Pos): int {
    if color == White then from.r - to.r else to.r - from.r
  }

  /** How many rows are behind a pawn on this row that has not moved: white's start on row 6. */
  function RanksDone(color: Color, at: Pos): int {
    if color == White then 6 - at.r else at.r - 1
  }

  /** A pawn goes one row ahead to an empty square, two from where it started if the square between
      is empty too, or takes diagonally: an enemy, or onto the en-passant square. It is promoted
      where it has nowhere further to go. */
  predicate PawnGoes(p: Position, color: Color, from: Pos, m: Spec) {
    var to := m.to;
    var sideways := Abs(to.c - from.c);
    && m.from == from && to.Valid() && !m.castling && m.rookFrom == -1 && m.rookTo == -1
    && (m.promotion <==> !m.doublePush && !m.enPassant && RanksDone(color, to) == 6)
    && (if m.enPassant then to == p.ep && Ranks(color, from, to) == 1 && sideways == 1 && !m.doublePush
        else if sideways == 1 then Ranks(color, from, to) == 1 && to in p.men && p.men[to].color != color && !m.doublePush
        else
          && sideways == 0 && to !in p.men
          && (if m.doublePush then RanksDone(color, from) == 0 && Ranks(color, from, to) == 2
                                   && Pos((from.r + to.r) / 2, from.c) !in p.men
              else Ranks(color, from, to) == 1))
  }

  /** The moves of the man on `from`. */
  ghost predicate Goes(p: Position, from: Pos, m: Spec)
    requires from in p.men
  {
    var man := p.men[from];
    if man.kind == Pawn then PawnGoes(p, man.color, from, m)
    else m == Plain(from, m.to) && if man.kind == Knight || man.kind == King
                                   then Steps(man.kind, from, m.to) && Free(p.men, man.color, m.to)
                                   else Slides(p.men, man.color, man.kind, from, m.to)
  }

  // ----- sliding

  lemma AlongNext(from: Pos, d: Pos, n: nat)
    ensures Along(from, d, n + 1) == Along(from, d, n).Plus(d)
  {
    assert (n + 1) * d.r == n * d.r + d.r && (n + 1) * d.c == n * d.c + d.c;
  }

  lemma AlongOne(from: Pos, d: Pos)
    ensures Along(from, d, 1) == from.Plus(d)
  {
  }

  /** Between two squares of the board all squares of a line are on it. */
  lemma LineStays(from: Pos, d: Pos, k: nat, n: nat)
    requires from.Valid() && Direction(d) && k <= n && Along(from, d, n).Valid()
    ensures Along(from, d, k).Valid()
  {
    StepsBound(d.r, k, n);
    StepsBound(d.c, k, n);
  }

  lemma StepsBound(x: int, k: nat, n: nat)
    requires -1 <= x <= 1 && k <= n
    ensures (0 <= k * x <= n * x) || (n * x <= k * x <= 0)
  {
    if x == 0 {
      assert k * x == 0 && n * x == 0;
    } else if x == 1 {
      assert k * x == k && n * x == n;
    } else {
      assert k * x == 0 - k && n * x == 0 - n;
    }
  }

  /** What is reached from the k-th square on. */
  ghost predicate ReachedFrom(men: Men, color: Color, from: Pos, d: Pos, k: nat, m: Spec, n: nat) {
    && k <= n && m == Plain(from, Along(from, d, n)) && Free(men, color, Along(from, d, n))
    && forall j :: k <= j < n ==> Along(from, d, j) !in men
  }

  ghost predicate ReachesFrom(men: Men, color: Color, from: Pos, d: Pos, k: nat, m: Spec) {
    exists n: nat :: ReachedFrom(men, color, from, d, k, m, n)
  }

  lemma {:induction false} SlideReaches(men: Men, color: Color, from: Pos, d: Pos, k: nat, m: Spec)
    requires Direction(d) && from.Valid()
    ensures m in Slide(men, color, from, Along(from, d, k), d) <==> ReachesFrom(men, color, from, d, k, m)
    decreases Room(Along(from, d, k), d)
  {
    var at := Along(from, d, k);
    if !at.Valid() {
      NothingBeyond(men, color, from, d, k, m);
    } else {
      AlongNext(from, d, k);
      if at !in men {
        SlideReaches(men, color, from, d, k + 1, m);
        SlideGoesOn(men, color, from, d, k, m);
      } else {
        SlideStops(men, color, from, d, k, m);
      }
    }
  }

  lemma NothingBeyond(men: Men, color: Color, from: Pos, d: Pos, k: nat, m: Spec)
    requires Direction(d) && from.Valid() && !Along(from, d, k).Valid()
    ensures !ReachesFrom(men, color, from, d, k, m)
  {
    forall n: nat ensures !ReachedFrom(men, color, from, d, k, m, n) {
      if k <= n && Along(from, d, n).Valid() {
        LineStays(from, d, k, n);
      }
    }
  }

  lemma SlideGoesOn(men: Men, color: Color, from: Pos, d: Pos, k: nat, m: Spec)
    requires Along(from, d, k).Valid() && Along(from, d, k) !in men
    ensures ReachesFrom(men, color, from, d, k, m) <==>
            m == Plain(from, Along(from, d, k)) || ReachesFrom(men, color, from, d, k + 1, m)
  {
    if ReachesFrom(men, color, from, d, k, m) {
      var n: nat :| ReachedFrom(men, color, from, d, k, m, n);
      assert n > k ==> ReachedFrom(men, color, from, d, k + 1, m, n);
    }
    if ReachesFrom(men, color, from, d, k + 1, m) {
      var n: nat :| ReachedFrom(men, color, from, d, k + 1, m, n);
      assert ReachedFrom(men, color, from, d, k, m, n);
    }
    if m == Plain(from, Along(from, d, k)) {
      assert ReachedFrom(men, color, from, d, k, m, k);
    }
  }

  lemma SlideStops(men: Men, color: Color, from: Pos, d: Pos, k: nat, m: Spec)
    requires Along(from, d, k).Valid() && Along(from, d, k) in men
    ensures ReachesFrom(men, color, from, d, k, m) <==>
            m == Plain(from, Along(from, d, k)) && men[Along(from, d, k)].color != color
  {
    if ReachesFrom(men, color, from, d, k, m) {
      var n: nat :| ReachedFrom(men, color, from, d, k, m, n);
      assert n == k;
    }
    if m == Plain(from, Along(from, d, k)) && men[Along(from, d, k)].color != color {
      assert ReachedFrom(men, color, from, d, k, m, k);
    }
  }

  /** Some direction of the list leads there. */
  ghost predicate ReachedOver(men: Men, color: Color, from: Pos, ds: seq<Pos>, m: Spec) {
    exists d :: d in ds && ReachesFrom(men, color, from, d, 1, m)
  }

  lemma ReachedOverNext(men: Men, color: Color, from: Pos, ds: seq<Pos>, m: Spec)
    requires ds != []
    ensures ReachedOver(men, color, from, ds, m) <==>
            ReachedOver(men, color, from, ds[..|ds| - 1], m) || ReachesFrom(men, color, from, ds[|ds| - 1], 1, m)
  {
    var n := |ds| - 1;
    assert ds == ds[..n] + [ds[n]];
  }

  lemma {:induction false} SlideAllReaches(men: Men, color: Color, from: Pos, ds: seq<Pos>, m: Spec)
    requires from.Valid() && forall i :: 0 <= i < |ds| ==> Direction(ds[i])
    ensures m in SlideAll(men, color, from, ds) <==> ReachedOver(men, color, from, ds, m)
  {
    if ds != [] {
      var n := |ds| - 1;
      ReachedOverNext(men, color, from, ds, m);
      SlideAllReaches(men, color, from, ds[..n], m);
      AlongOne(from, ds[n]);
      SlideReaches(men, color, from, ds[n], 1, m);
    }
  }

  lemma DirectionsAre(d: Pos)
    ensures d in DIAGONALS <==> SlidesAlong(Bishop, d)
    ensures d in STRAIGHTS <==> SlidesAlong(Rook, d)
    ensures d in AROUND <==> SlidesAlong(Queen, d)
  {
  }

  function Table(kind: Kind): seq<Pos> {
    match kind
    case Bishop => DIAGONALS
    case Rook => STRAIGHTS
    case Queen => AROUND
    case _ => []
  }

  lemma SlidersExactly(men: Men, color: Color, kind: Kind, from: Pos, m: Spec)
    requires from.Valid() && kind in {Bishop, Rook, Queen}
    ensures forall i :: 0 <= i < |Table(kind)| ==> Direction(Table(kind)[i])
    ensures m in SlideAll(men, color, from, Table(kind)) <==> m == Plain(from, m.to) && Slides(men, color, kind, from, m.to)
  {
    SlideAllReaches(men, color, from, Table(kind), m);
    if ReachedOver(men, color, from, Table(kind), m) {
      var d :| d in Table(kind) && ReachesFrom(men, color, from, d, 1, m);
      DirectionsAre(d);
      var n: nat :| ReachedFrom(men, color, from, d, 1, m, n);
      assert OpenLine(men, from, d, n);
    }
    if m == Plain(from, m.to) && Slides(men, color, kind, from, m.to) {
      var d: Pos, n: nat :|
        n >= 1 && SlidesAlong(kind, d) && m.to == Along(from, d, n) && Free(men, color, m.to) && OpenLine(men, from, d, n);
      DirectionsAre(d);
      assert ReachedFrom(men, color, from, d, 1, m, n);
    }
  }

  // ----- stepping

  lemma {:induction false} StepAllReaches(men: Men, color: Color, from: Pos, ds: seq<Pos>, m: Spec)
    ensures m in StepAll(men, color, from, ds) <==>
              m == Plain(from, m.to) && Free(men, color, m.to) && Pos(m.to.r - from.r, m.to.c - from.c) in ds
  {
    if ds != [] {
      var n := |ds| - 1;
      assert ds == ds[..n] + [ds[n]];
      StepAllReaches(men, color, from, ds[..n], m);
      assert m.to == from.Plus(ds[n]) <==> Pos(m.to.r - from.r, m.to.c - from.c) == ds[n];
    }
  }

  lemma JumpsAre(d: Pos)
    ensures d in JUMPS <==> (Abs(d.r) == 1 && Abs(d.c) == 2) || (Abs(d.r) == 2 && Abs(d.c) == 1)
  {
  }

  lemma SteppersExactly(men: Men, color: Color, kind: Kind, from: Pos, m: Spec)
    requires kind in {Knight, King}
    ensures m in StepAll(men, color, from, if kind == Knight then JUMPS else AROUND) <==>
              m == Plain(from, m.to) && Steps(kind, from, m.to) && Free(men, color, m.to)
  {
    var d := Pos(m.to.r - from.r, m.to.c - from.c);
    StepAllReaches(men, color, from, if kind == Knight then JUMPS else AROUND, m);
    JumpsAre(d);
    DirectionsAre(d);
  }

  // ----- pawns

  lemma PushesExactly(p: Position, color: Color, from: Pos, m: Spec)
    requires from.Valid()
    ensures m in PawnPushes(p.men, color, from) <==> PawnGoes(p, color, from, m) && m.to.c == from.c
  {
  }

  lemma CapturesExactly(p: Position, color: Color, from: Pos, m: Spec)
    requires from.Valid()
    ensures m in PawnCaptures(p.men, color, from, p.ep, -1) || m in PawnCaptures(p.men, color, from, p.ep, 1) <==>
              PawnGoes(p, color, from, m) && m.to.c != from.c
  {
  }

  /** The generated moves are exactly those that geometry allows. */
  lemma RawExactly(p: Position, from: Pos, m: Spec)
    requires from in p.men && from.Valid()
    ensures m in RawMoves(p, from) <==> Goes(p, from, m)
  {
    var man := p.men[from];
    match man.kind
    case Pawn =>
      PushesExactly(p, man.color, from, m);
      CapturesExactly(p, man.color, from, m);
    case Knight => SteppersExactly(p.men, man.color, Knight, from, m);
    case King => SteppersExactly(p.men, man.color, King, from, m);
    case Bishop => SlidersExactly(p.men, man.color, Bishop, from, m);
    case Rook => SlidersExactly(p.men, man.color, Rook, from, m);
    case Queen => SlidersExactly(p.men, man.color, Queen, from, m);
  }

  // ----- the order of moves

  /** An enemy stands on every neighbouring square. */
  ghost predicate Surrounded(p: Position, from: Pos)
    requires from in p.men
  {
    forall d :: Direction(d) ==> Enemy(p, from, from.Plus(d))
  }

  predicate Enemy(p: Position, from: Pos, at: Pos)
    requires from in p.men
  {
    at.Valid() && at in p.men && p.men[at].color != p.men[from].color
  }

  function Takes(from: Pos, ds: seq<Pos>): seq<Spec> {
    if ds == [] then [] else [Plain(from, from.Plus(ds[0]))] + Takes(from, ds[1..])
  }

  lemma {:induction false} TakesSnoc(from: Pos, ds: seq<Pos>)
    requires ds != []
    ensures Takes(from, ds) == Takes(from, ds[..|ds| - 1]) + [Plain(from, from.Plus(ds[|ds| - 1]))]
  {
    if |ds| > 1 {
      TakesSnoc(from, ds[1..]);
      assert ds[1..][..|ds| - 2] == ds[..|ds| - 1][1..];
    }
  }

  lemma {:induction false} SlidesTake(p: Position, from: Pos, ds: seq<Pos>)
    requires from in p.men && Surrounded(p, from) && forall i :: 0 <= i < |ds| ==> Direction(ds[i])
    ensures SlideAll(p.men, p.men[from].color, from, ds) == Takes(from, ds)
  {
    if ds != [] {
      var n := |ds| - 1;
      SlidesTake(p, from, ds[..n]);
      TakesSnoc(from, ds);
      assert Enemy(p, from, from.Plus(ds[n]));
    }
  }

  lemma {:induction false} StepsTake(p: Position, from: Pos, ds: seq<Pos>)
    requires from in p.men && forall i :: 0 <= i < |ds| ==> Enemy(p, from, from.Plus(ds[i]))
    ensures StepAll(p.men, p.men[from].color, from, ds) == Takes(from, ds)
  {
    if ds != [] {
      var n := |ds| - 1;
      StepsTake(p, from, ds[..n]);
      TakesSnoc(from, ds);
    }
  }

  predicate RowMajor(a: Pos, b: Pos) {
    a.r < b.r || (a.r == b.r && a.c < b.c)
  }

  /** The order in which a man with enemies all round takes them: row by row, but a rook takes up and
      down before it takes left and right. */
  lemma TakenInOrder(p: Position, from: Pos)
    requires from in p.men && Surrounded(p, from) && p.men[from].kind != Pawn && p.men[from].kind != Knight
    ensures p.men[from].kind == Rook ==>
              RawMoves(p, from) == [Plain(from, Pos(from.r - 1, from.c)), Plain(from, Pos(from.r + 1, from.c)),
                                    Plain(from, Pos(from.r, from.c - 1)), Plain(from, Pos(from.r, from.c + 1))]
    ensures p.men[from].kind != Rook ==>
              forall i, j :: 0 <= i < j < |RawMoves(p, from)| ==> RowMajor(RawMoves(p, from)[i].to, RawMoves(p, from)[j].to)
    ensures |RawMoves(p, from)| == if p.men[from].kind == Rook || p.men[from].kind == Bishop then 4 else 8
  {
    match p.men[from].kind
    case Bishop => BishopTakes(p, from);
    case Rook => RookTakes(p, from);
    case Queen => QueenTakes(p, from);
    case King => KingTakes(p, from);
  }

  lemma BishopTakes(p: Position, from: Pos)
    requires from in p.men && Surrounded(p, from) && p.men[from].kind == Bishop
    ensures |RawMoves(p, from)| == 4
    ensures forall i, j :: 0 <= i < j < 4 ==> RowMajor(RawMoves(p, from)[i].to, RawMoves(p, from)[j].to)
  {
    SlidesTake(p, from, DIAGONALS);
    TakesFour(from, DIAGONALS);
  }

  lemma RookTakes(p: Position, from: Pos)
    requires from in p.men && Surrounded(p, from) && p.men[from].kind == Rook
    ensures RawMoves(p, from) == [Plain(from, Pos(from.r - 1, from.c)), Plain(from, Pos(from.r + 1, from.c)),
                                  Plain(from, Pos(from.r, from.c - 1)), Plain(from, Pos(from.r, from.c + 1))]
  {
    SlidesTake(p, from, STRAIGHTS);
    StraightTakes(from);
  }

  lemma StraightTakes(from: Pos)
    ensures Takes(from, STRAIGHTS) == [Plain(from, Pos(from.r - 1, from.c)), Plain(from, Pos(from.r + 1, from.c)),
                                       Plain(from, Pos(from.r, from.c - 1)), Plain(from, Pos(from.r, from.c + 1))]
  {
    TakesFour(from, STRAIGHTS);
    StraightsAre();
    PlusIs(from, -1, 0);
    PlusIs(from, 1, 0);
    PlusIs(from, 0, -1);
    PlusIs(from, 0, 1);
  }

  lemma StraightsAre()
    ensures STRAIGHTS[0] == Pos(-1, 0) && STRAIGHTS[1] == Pos(1, 0) && STRAIGHTS[2] == Pos(0, -1) && STRAIGHTS[3] == Pos(0, 1)
  {
  }

  lemma PlusIs(from: Pos, r: int, c: int)
    ensures from.Plus(Pos(r, c)) == Pos(from.r + r, from.c + c)
  {
  }

  lemma QueenTakes(p: Position, from: Pos)
    requires from in p.men && Surrounded(p, from) && p.men[from].kind == Queen
    ensures |RawMoves(p, from)| == 8
    ensures forall i, j :: 0 <= i < j < 8 ==> RowMajor(RawMoves(p, from)[i].to, RawMoves(p, from)[j].to)
  {
    SlidesTake(p, from, AROUND);
    TakesEach(from, AROUND);
  }

  lemma KingTakes(p: Position, from: Pos)
    requires from in p.men && Surrounded(p, from) && p.men[from].kind == King
    ensures |RawMoves(p, from)| == 8
    ensures forall i, j :: 0 <= i < j < 8 ==> RowMajor(RawMoves(p, from)[i].to, RawMoves(p, from)[j].to)
  {
    forall i | 0 <= i < 8 ensures Enemy(p, from, from.Plus(AROUND[i])) {
      assert Direction(AROUND[i]);
    }
    StepsTake(p, from, AROUND);
    TakesEach(from, AROUND);
  }

  lemma {:induction false} TakesEach(from: Pos, ds: seq<Pos>)
    ensures |Takes(from, ds)| == |ds| && forall i :: 0 <= i < |ds| ==> Takes(from, ds)[i] == Plain(from, from.Plus(ds[i]))
  {
    if ds != [] {
      TakesEach(from, ds[1..]);
    }
  }

  lemma TakesFour(from: Pos, ds: seq<Pos>)
    requires |ds| == 4
    ensures Takes(from, ds) == [Plain(from, from.Plus(ds[0])), Plain(from, from.Plus(ds[1])),
                                Plain(from, from.Plus(ds[2])), Plain(from, from.Plus(ds[3]))]
  {
    TakesEach(from, ds);
  }

  /** A knight with an enemy on every square it can jump to takes them row by row. */
  lemma JumpsInOrder(p: Position, from: Pos)
    requires from in p.men && p.men[from].kind == Knight
    requires forall to :: Steps(Knight, from, to) ==> Enemy(p, from, to)
    ensures |RawMoves(p, from)| == 8
    ensures forall i, j :: 0 <= i < j < 8 ==> RowMajor(RawMoves(p, from)[i].to, RawMoves(p, from)[j].to)
  {
    forall i | 0 <= i < 8 ensures Enemy(p, from, from.Plus(JUMPS[i])) {
      assert Steps(Knight, from, from.Plus(JUMPS[i]));
    }
    StepsTake(p, from, JUMPS);
    TakesEach(from, JUMPS);
  }

  /** Ahead before aside, the shorter push before the longer, left before right. */
  lemma PawnInOrder(p: Position, from: Pos, i: nat, j: nat)
    requires from in p.men && from.Valid() && p.men[from].kind == Pawn && i < j < |RawMoves(p, from)|
    ensures
      var a, b := RawMoves(p, from)[i], RawMoves(p, from)[j];
      if b.to.c == from.c then a.to.c == from.c && !a.doublePush && b.doublePush
      else a.to.c == from.c || a.to.c < b.to.c || (a.to == b.to && !a.enPassant && b.enPassant)
  {
  }
}
