/**
 * The pieces of the pieces/ package: one class for all six kinds (the kind is a constant tag
 * standing for the Python subclass), the board queries the pieces ask of the grid,
 * and the move generators. Each generator is a method that clears and appends to
 * `possibleMoves`, proved equal to a specification function of the board view; the lemmas
 * below state what those functions produce.
 */
module Pieces {
  import opened Wrappers
  import opened Squares

  datatype Team = White | Black
  {
    function Enemy(): (t: Team)
      ensures t != this
    {
      if this == White then Black else White
    }
  }

  datatype Kind = Pawn | Rook | Knight | Bishop | Queen | King

  /** The boolean attributes that a piece may schedule to be set on its next turn. */
  datatype Attribute = MovedTwice | Blocked | InCheck

  /** A pending `setattr(piece, attribute, value)`, stored by update_next_turn. */
  datatype Assignment = Assignment(attribute: Attribute, value: bool)

  /** The fields of a piece that move generation reads and moving changes. */
  datatype Stance = Stance(pos: Square, moved: bool, inCheck: bool,
                           leftPassant: Square, rightPassant: Square,
                           leftPassantEnd: Square, rightPassantEnd: Square)

  /** The en-passant and castling flags of a piece, in that order. */
  datatype Flags = Flags(leftPassant: bool, rightPassant: bool, leftCastling: bool, rightCastling: bool)

  /** The board's grid of optional pieces, indexed [row, file] as the board's nested lists are. */
  type Grid = array2<Piece?>

  predicate IsGrid(grid: Grid) { grid.Length0 == 8 && grid.Length1 == 8 }

  /** The pieces standing on the grid. */
  function OnGrid(grid: Grid): set<Piece>
    reads grid
  {
    set y, x | 0 <= y < grid.Length0 && 0 <= x < grid.Length1 && grid[y, x] != null :: grid[y, x]
  }

  /** Board.get: the piece on a square, or null off the board. */
  function Get(grid: Grid, p: Square): Piece?
    requires IsGrid(grid)
    reads grid
  {
    if !InBounds(p) then null else grid[p.y, p.x]
  }

  /** What the move rules ask of a piece that stands on a square. */
  datatype Occupant = Occupant(team: Team, kind: Kind, moved: bool, movedTwice: bool)

  /**
   * The board as the pieces see it while they generate moves: what stands on each
   * square. Move generation changes nothing the pieces look at, so one view serves
   * a whole generation pass.
   */
  type View = Square -> Option<Occupant>

  /** What the move rules ask of the piece in one cell of the grid. */
  function Cell(grid: Grid, y: int, x: int): Option<Occupant>
    requires IsGrid(grid) && 0 <= y < 8 && 0 <= x < 8
    reads grid, OnGrid(grid)`moved, OnGrid(grid)`movedTwice
  {
    var piece := grid[y, x];
    if piece == null then None else Some(Occupant(piece.team, piece.kind, piece.moved, piece.movedTwice))
  }

  /** The view of a grid, taken at once. */
  function ViewOf(grid: Grid): View
    requires IsGrid(grid)
    reads grid, OnGrid(grid)
  {
    var cells := seq(8, (y: int) requires 0 <= y < 8 reads grid, OnGrid(grid) =>
      seq(8, (x: int) requires 0 <= x < 8 reads grid, OnGrid(grid) => Cell(grid, y, x)));
    (sq: Square) => if InBounds(sq) then cells[sq.y][sq.x] else None
  }

  /** Board.get as the view answers it: what stands on a square, nothing off the board. */
  function At(view: View, p: Square): Option<Occupant>
  {
    if !InBounds(p) then None else view(p)
  }

  /** The view answers for a square what the grid holds there. */
  lemma ViewOfAt(grid: Grid, p: Square)
    requires IsGrid(grid)
    ensures At(ViewOf(grid), p) == if InBounds(p) then Cell(grid, p.y, p.x) else None
  {
  }

  /** Board.available: the square is on the board and empty. */
  predicate Available(view: View, p: Square)
  {
    if !InBounds(p) then false else view(p).None?
  }

  /** Piece.is_enemy: a piece of the other team stands on the square. */
  predicate IsEnemy(view: View, team: Team, p: Square)
  {
    match At(view, p)
    case None => false
    case Some(piece) => piece.team != team
  }

  /** How the three board queries relate; off the board nothing is there. */
  lemma ViewQueries(view: View, team: Team, p: Square)
    ensures !InBounds(p) ==> At(view, p) == None && !Available(view, p) && !IsEnemy(view, team, p)
    ensures Available(view, p) <==> InBounds(p) && At(view, p) == None
    ensures IsEnemy(view, team, p) <==> At(view, p).Some? && At(view, p).value.team != team
    ensures !(Available(view, p) && IsEnemy(view, team, p))
  {
  }

  // ---------------------------------------------------------------------------
  // Sliding moves: Piece.check_moves on one ray, and the rays of a piece in order.

  /**
   * What check_moves appends for one ray: the empty squares up to the first
   * occupied one, then that square if it holds an enemy, then nothing.
   */
  function RayCut(view: View, team: Team, ray: seq<Square>): (r: seq<Square>)
    ensures |r| <= |ray| && r == ray[..|r|]
    decreases |ray|
  {
    if ray == [] then []
    else if Available(view, ray[0]) then [ray[0]] + RayCut(view, team, ray[1..])
    else if IsEnemy(view, team, ray[0]) then [ray[0]]
    else []
  }

  /** The length of the longest prefix of `ray` whose squares are all available. */
  function FreeRun(view: View, ray: seq<Square>): (n: nat)
    ensures n <= |ray|
    ensures forall i :: 0 <= i < n ==> Available(view, ray[i])
    ensures n < |ray| ==> !Available(view, ray[n])
    decreases |ray|
  {
    if ray == [] || !Available(view, ray[0]) then 0 else 1 + FreeRun(view, ray[1..])
  }

  /**
   * check_moves appends the longest available prefix of the ray, plus the first
   * non-available square exactly when it holds an enemy, and nothing after it.
   */
  lemma {:induction false} RayCutIsFreeRunThenEnemy(view: View, team: Team, ray: seq<Square>)
    ensures var n := FreeRun(view, ray);
      RayCut(view, team, ray)
        == ray[..n] + (if n < |ray| && IsEnemy(view, team, ray[n]) then [ray[n]] else [])
    decreases |ray|
  {
    if ray != [] && Available(view, ray[0]) {
      var tail := ray[1..];
      RayCutIsFreeRunThenEnemy(view, team, tail);
      var m := FreeRun(view, tail);
      assert FreeRun(view, ray) == m + 1;
      assert RayCut(view, team, ray) == [ray[0]] + RayCut(view, team, tail);
      assert ray[..m + 1] == [ray[0]] + tail[..m];
      assert m < |tail| ==> tail[m] == ray[m + 1];
    }
  }

  /**
   * Every square check_moves appends is empty or holds an enemy (never a friend),
   * and every square before it on the ray is empty: a slider never jumps.
   */
  lemma RayCutSquares(view: View, team: Team, ray: seq<Square>, j: nat)
    requires j < |RayCut(view, team, ray)|
    ensures ray[j] == RayCut(view, team, ray)[j]
    ensures Available(view, ray[j]) || IsEnemy(view, team, ray[j])
    ensures forall i :: 0 <= i < j ==> Available(view, ray[i])
  {
    RayCutIsFreeRunThenEnemy(view, team, ray);
  }

  /** The moves of several rays, each cut by check_moves, in order. */
  function CutAll(view: View, team: Team, rays: seq<seq<Square>>): seq<Square>
    decreases |rays|
  {
    if rays == [] then []
    else CutAll(view, team, rays[..|rays| - 1]) + RayCut(view, team, rays[|rays| - 1])
  }

  /** A square produced from several rays comes from some ray's cut, at the same index on that ray. */
  lemma {:induction false} CutAllMember(view: View, team: Team, rays: seq<seq<Square>>, q: Square)
    returns (k: nat, i: nat)
    requires q in CutAll(view, team, rays)
    ensures k < |rays| && i < |RayCut(view, team, rays[k])| && rays[k][i] == q
    decreases |rays|
  {
    var front := rays[..|rays| - 1];
    var last := RayCut(view, team, rays[|rays| - 1]);
    if q in CutAll(view, team, front) {
      k, i := CutAllMember(view, team, front, q);
    } else {
      assert q in last;
      k := |rays| - 1;
      var j :| 0 <= j < |last| && last[j] == q;
      i := j;
    }
  }

  // ---------------------------------------------------------------------------
  // Fixed-offset moves: the knight and the king's steps.

  /** The offset squares that are available or hold an enemy, in the given order. */
  function OffsetMoves(view: View, team: Team, targets: seq<Square>): (r: seq<Square>)
    ensures |r| <= |targets|
    decreases |targets|
  {
    if targets == [] then []
    else
      var rest := OffsetMoves(view, team, targets[..|targets| - 1]);
      var q := targets[|targets| - 1];
      if Available(view, q) || IsEnemy(view, team, q) then rest + [q] else rest
  }

  /**
   * The offset loop keeps exactly the targets that are available or hold an enemy,
   * and repeats none when the targets repeat none.
   */
  lemma {:induction false} OffsetMovesSpec(view: View, team: Team, targets: seq<Square>)
    ensures forall q :: q in OffsetMoves(view, team, targets) <==>
      q in targets && (Available(view, q) || IsEnemy(view, team, q))
    ensures Distinct(targets) ==> Distinct(OffsetMoves(view, team, targets))
    decreases |targets|
  {
    if targets != [] {
      var init := targets[..|targets| - 1];
      OffsetMovesSpec(view, team, init);
      assert forall s :: s in targets <==> s in init || s == targets[|targets| - 1];
      if Distinct(targets) {
        assert Distinct(init);
        assert targets[|targets| - 1] !in init;
      }
    }
  }

  predicate Distinct<T(==)>(s: seq<T>)
  {
    forall i, j :: 0 <= i < j < |s| ==> s[i] != s[j]
  }

  /**
   * The knight emits exactly the jump squares that are empty or hold an enemy (so
   * never an off-board or friendly square), at most eight, without repetition.
   */
  lemma KnightMovesExactly(view: View, team: Team, p: Square)
    ensures var r := OffsetMoves(view, team, KnightTargets(p));
      && |r| <= 8 && Distinct(r)
      && forall q :: q in r <==> KnightJump(p, q) && (Available(view, q) || IsEnemy(view, team, q))
    ensures forall q :: q in OffsetMoves(view, team, KnightTargets(p)) ==> InBounds(q)
  {
    OffsetMovesSpec(view, team, KnightTargets(p));
  }

  /** The king's steps: exactly the neighbours that are empty or hold an enemy, never off the board. */
  lemma KingStepsExactly(view: View, team: Team, p: Square)
    ensures forall q :: q in OffsetMoves(view, team, KingTargets(p)) <==>
      KingStep(p, q) && (Available(view, q) || IsEnemy(view, team, q))
    ensures forall q :: q in OffsetMoves(view, team, KingTargets(p)) ==> InBounds(q)
  {
    OffsetMovesSpec(view, team, KingTargets(p));
  }

  // ---------------------------------------------------------------------------
  // Sliding pieces.

  /** Every rook move lies on the board, on the rook's file or rank, off its own square, and is empty or an enemy. */
  lemma RookMovesShape(view: View, team: Team, p: Square, q: Square)
    requires InBounds(p)
    requires q in CutAll(view, team, RookRays(p))
    ensures InBounds(q) && q != p && SameFileOrRank(p, q)
    ensures Available(view, q) || IsEnemy(view, team, q)
  {
    var k, i := CutAllMember(view, team, RookRays(p), q);
    RookRaysShape(p, k, i);
    RayCutSquares(view, team, RookRays(p)[k], i);
  }

  /** Every bishop move lies on one of the bishop's diagonals, on the board, and on a square of the bishop's colour. */
  lemma BishopMovesShape(view: View, team: Team, p: Square, q: Square)
    requires InBounds(p)
    requires q in CutAll(view, team, BishopRays(p))
    ensures InBounds(q) && Abs(q.x - p.x) == Abs(q.y - p.y) >= 1
    ensures SameColour(p, q)
    ensures Available(view, q) || IsEnemy(view, team, q)
  {
    var k, i := CutAllMember(view, team, BishopRays(p), q);
    BishopRaysShape(p, k, i);
    RayCutSquares(view, team, BishopRays(p)[k], i);
  }

  /** Every queen move shares her file, rank or diagonal, is on the board and off her square. */
  lemma QueenMovesShape(view: View, team: Team, p: Square, q: Square)
    requires InBounds(p)
    requires q in CutAll(view, team, QueenRays(p))
    ensures InBounds(q) && q != p && (SameFileOrRank(p, q) || SameDiagonal(p, q))
    ensures Available(view, q) || IsEnemy(view, team, q)
  {
    var k, i := CutAllMember(view, team, QueenRays(p), q);
    QueenRaysShape(p, k, i);
    RayCutSquares(view, team, QueenRays(p)[k], i);
  }

  /** Cutting a list of rays distributes over concatenating lists. */
  lemma {:induction false} CutAllAppend(view: View, team: Team, a: seq<seq<Square>>, b: seq<seq<Square>>)
    ensures CutAll(view, team, a + b) == CutAll(view, team, a) + CutAll(view, team, b)
    decreases |b|
  {
    if b == [] {
      assert a + b == a;
    } else {
      var init, last := b[..|b| - 1], b[|b| - 1];
      CutAllAppend(view, team, a, init);
      assert (a + b)[..|a + b| - 1] == a + init && (a + b)[|a + b| - 1] == last;
      calc {
        CutAll(view, team, a + b);
        CutAll(view, team, a + init) + RayCut(view, team, last);
        CutAll(view, team, a) + CutAll(view, team, init) + RayCut(view, team, last);
        CutAll(view, team, a) + CutAll(view, team, b);
      }
    }
  }

  /** Four rays cut one after the other. */
  lemma CutAllFour(view: View, team: Team, r0: seq<Square>, r1: seq<Square>, r2: seq<Square>, r3: seq<Square>)
    ensures CutAll(view, team, [r0, r1, r2, r3])
      == RayCut(view, team, r0) + RayCut(view, team, r1) + RayCut(view, team, r2) + RayCut(view, team, r3)
  {
    assert [r0, r1, r2, r3][..3] == [r0, r1, r2];
    assert [r0, r1, r2][..2] == [r0, r1];
    assert [r0, r1][..1] == [r0];
    assert [r0][..0] == [];
    assert CutAll(view, team, [r0]) == RayCut(view, team, r0);
    assert CutAll(view, team, [r0, r1]) == RayCut(view, team, r0) + RayCut(view, team, r1);
    assert CutAll(view, team, [r0, r1, r2]) == RayCut(view, team, r0) + RayCut(view, team, r1) + RayCut(view, team, r2);
  }

  /** Eight rays cut together give the first four cut together and the last four, the middle two swapped. */
  lemma CutAllRegrouped(view: View, team: Team, straight: seq<seq<Square>>,
                        tl: seq<Square>, tr: seq<Square>, bl: seq<Square>, br: seq<Square>)
    ensures multiset(CutAll(view, team, straight + [tl, tr, bl, br]))
      == multiset(CutAll(view, team, straight)) + multiset(CutAll(view, team, [tl, bl, tr, br]))
  {
    CutAllAppend(view, team, straight, [tl, tr, bl, br]);
    CutAllFour(view, team, tl, tr, bl, br);
    CutAllFour(view, team, tl, bl, tr, br);
    var a, b, c, d := RayCut(view, team, tl), RayCut(view, team, tr), RayCut(view, team, bl), RayCut(view, team, br);
    assert multiset(a + b + c + d) == multiset(a) + multiset(b) + multiset(c) + multiset(d);
    assert multiset(a + c + b + d) == multiset(a) + multiset(b) + multiset(c) + multiset(d);
  }

  /** The queen's moves are the rook's moves together with the bishop's, each ray cut the same way. */
  lemma QueenIsRookPlusBishop(view: View, team: Team, p: Square)
    ensures multiset(CutAll(view, team, QueenRays(p)))
      == multiset(CutAll(view, team, RookRays(p))) + multiset(CutAll(view, team, BishopRays(p)))
  {
    assert QueenRays(p) == RookRays(p) + [TopLeft(p), TopRight(p), BottomLeft(p), BottomRight(p)];
    CutAllRegrouped(view, team, RookRays(p), TopLeft(p), TopRight(p), BottomLeft(p), BottomRight(p));
  }

  // ---------------------------------------------------------------------------
  // Pawns.

  /** The row direction a pawn advances in: white toward row 0, black toward row 7. */
  function Direction(team: Team): int { if team == White then -1 else 1 }

  /** The row on which a pawn may capture en passant. */
  function EnPassantRow(team: Team): int { if team == White then 3 else 4 }

  /** The row each team's pawns start on. */
  function PawnRow(team: Team): int { if team == White then 6 else 1 }

  /**
   * The en-passant row is where an enemy pawn lands after its double step from its
   * start row, and the en-passant destination row is the square that pawn skipped.
   */
  lemma EnPassantGeometry(team: Team)
    ensures EnPassantRow(team) == PawnRow(team.Enemy()) + 2 * Direction(team.Enemy())
    ensures EnPassantRow(team) + Direction(team) == PawnRow(team.Enemy()) + Direction(team.Enemy())
    ensures Direction(team) == -Direction(team.Enemy())
  {
  }

  /** A pawn beside which en passant is considered: it stands on `sq` and has just made its double step. */
  predicate PassantVictim(view: View, sq: Square)
  {
    var v := At(view, sq);
    v.Some? && v.value.kind == Pawn && v.value.movedTwice
  }

  /** The pawn's advances: one square ahead if empty, then two if it has not moved and that square is empty too. */
  function PawnAdvances(view: View, team: Team, p: Square, moved: bool): seq<Square>
  {
    var d := Direction(team);
    var front, double := Square(p.x, p.y + d), Square(p.x, p.y + 2 * d);
    if !Available(view, front) then []
    else [front] + (if !moved && Available(view, double) then [double] else [])
  }

  /** The pawn's diagonal captures, left then right. */
  function PawnCaptures(view: View, team: Team, p: Square): seq<Square>
  {
    var d := Direction(team);
    var left, right := Square(p.x - 1, p.y + d), Square(p.x + 1, p.y + d);
    (if IsEnemy(view, team, left) then [left] else [])
    + (if IsEnemy(view, team, right) then [right] else [])
  }

  /** The pawn's en-passant captures, considered only on its en-passant row. */
  function PawnPassants(view: View, team: Team, p: Square,
                        leftPassant: Square, rightPassant: Square,
                        leftPassantEnd: Square, rightPassantEnd: Square): seq<Square>
  {
    if p.y != EnPassantRow(team) then []
    else
      (if PassantVictim(view, leftPassant) then [leftPassantEnd] else [])
      + (if PassantVictim(view, rightPassant) then [rightPassantEnd] else [])
  }

  /** What Pawn.calculate_moves produces for a pawn of `team` standing on `p`, in its order. */
  function PawnMoves(view: View, team: Team, p: Square, moved: bool,
                     leftPassant: Square, rightPassant: Square,
                     leftPassantEnd: Square, rightPassantEnd: Square): seq<Square>
  {
    PawnAdvances(view, team, p, moved) + PawnCaptures(view, team, p)
    + PawnPassants(view, team, p, leftPassant, rightPassant, leftPassantEnd, rightPassantEnd)
  }

  /** The passant squares of a pawn on file x: beside it on the en-passant row, and one row ahead of those. */
  predicate PassantSquaresOf(team: Team, x: int, leftPassant: Square, rightPassant: Square,
                             leftPassantEnd: Square, rightPassantEnd: Square)
  {
    var row, d := EnPassantRow(team), Direction(team);
    && leftPassant == Square(x - 1, row) && rightPassant == Square(x + 1, row)
    && leftPassantEnd == Square(x - 1, row + d) && rightPassantEnd == Square(x + 1, row + d)
  }

  /**
   * A pawn moves to the square ahead iff it is empty; two squares ahead iff both are
   * empty and the pawn has not moved; to a diagonal square ahead iff an enemy stands
   * there or, on the en-passant row, a pawn that just double-stepped stands beside it
   * on that side. It never moves anywhere else.
   */
  lemma PawnMovesExactly(view: View, team: Team, p: Square, moved: bool,
                         lp: Square, rp: Square, le: Square, re: Square, q: Square)
    requires PassantSquaresOf(team, p.x, lp, rp, le, re)
    ensures var d := Direction(team);
      var ahead := Square(p.x, p.y + d);
      q in PawnMoves(view, team, p, moved, lp, rp, le, re) <==>
        || (q == ahead && Available(view, ahead))
        || (q == Square(p.x, p.y + 2 * d) && Available(view, ahead) && !moved && Available(view, q))
        || (q == Square(p.x - 1, p.y + d)
            && (IsEnemy(view, team, q) || (p.y == EnPassantRow(team) && PassantVictim(view, lp))))
        || (q == Square(p.x + 1, p.y + d)
            && (IsEnemy(view, team, q) || (p.y == EnPassantRow(team) && PassantVictim(view, rp))))
  {
  }

  // ---------------------------------------------------------------------------
  // Kings.

  /** The squares between a king and the rook it castles with. */
  function CastlingPath(rookSquare: Square, row: int): seq<Square>
  {
    if rookSquare.x == 0 then [Square(1, row), Square(2, row), Square(3, row)]
    else [Square(5, row), Square(6, row)]
  }

  /**
   * King.check_castling: the king has not moved and is not in check, an unmoved piece
   * stands on the rook square, and the squares between are empty. The attack test of
   * the source is a stub that reports no attack, so it never blocks.
   */
  predicate CheckCastling(view: View, p: Square, moved: bool, inCheck: bool, rookSquare: Square)
  {
    if moved || inCheck then false
    else
      var rook := At(view, rookSquare);
      if rook.None? then false
      else if rook.value.moved then false
      else AllAvailable(view, CastlingPath(rookSquare, p.y))
  }

  /** Every square of the list is on the board and empty. */
  predicate AllAvailable(view: View, squares: seq<Square>)
    decreases |squares|
  {
    squares == [] || (Available(view, squares[0]) && AllAvailable(view, squares[1..]))
  }

  /** Queenside castling needs (1,y), (2,y), (3,y) empty; kingside needs (5,y), (6,y) empty. */
  lemma CastlingSquares(view: View, p: Square, moved: bool, inCheck: bool)
    ensures var rook := At(view, Square(0, p.y));
      CheckCastling(view, p, moved, inCheck, Square(0, p.y)) <==>
        !moved && !inCheck && rook.Some? && !rook.value.moved &&
        Available(view, Square(1, p.y)) && Available(view, Square(2, p.y)) && Available(view, Square(3, p.y))
    ensures var rook := At(view, Square(7, p.y));
      CheckCastling(view, p, moved, inCheck, Square(7, p.y)) <==>
        !moved && !inCheck && rook.Some? && !rook.value.moved &&
        Available(view, Square(5, p.y)) && Available(view, Square(6, p.y))
  {
    var q3 := [Square(3, p.y)];
    var q2 := [Square(2, p.y)] + q3;
    assert q3[1..] == [];
    assert AllAvailable(view, q3) <==> Available(view, Square(3, p.y));
    assert q2[1..] == q3;
    assert AllAvailable(view, q2) <==> Available(view, Square(2, p.y)) && AllAvailable(view, q3);
    assert CastlingPath(Square(0, p.y), p.y)[1..] == q2;
    var k2 := [Square(6, p.y)];
    assert k2[1..] == [];
    assert AllAvailable(view, k2) <==> Available(view, Square(6, p.y));
    assert CastlingPath(Square(7, p.y), p.y)[1..] == k2;
  }

  /** What King.calculate_moves produces: its steps, then each castling square whose check passes. */
  function KingMoves(view: View, team: Team, p: Square, moved: bool, inCheck: bool,
                     leftRook: Square, rightRook: Square,
                     leftCastling: Square, rightCastling: Square): seq<Square>
  {
    OffsetMoves(view, team, KingTargets(p))
    + (if CheckCastling(view, p, moved, inCheck, leftRook) then [leftCastling] else [])
    + (if CheckCastling(view, p, moved, inCheck, rightRook) then [rightCastling] else [])
  }

  /** A king moves to an empty or enemy neighbour, or to a castling square whose check passes, and nowhere else. */
  lemma KingMovesExactly(view: View, team: Team, p: Square, moved: bool, inCheck: bool,
                         lr: Square, rr: Square, lc: Square, rc: Square, q: Square)
    ensures q in KingMoves(view, team, p, moved, inCheck, lr, rr, lc, rc) <==>
      || (KingStep(p, q) && (Available(view, q) || IsEnemy(view, team, q)))
      || (q == lc && CheckCastling(view, p, moved, inCheck, lr))
      || (q == rc && CheckCastling(view, p, moved, inCheck, rr))
  {
    KingStepsExactly(view, team, p);
  }

  // ---------------------------------------------------------------------------

  /** `a` is `b` with some entries dropped and the rest in their order. */
  ghost predicate Subsequence<T>(a: seq<T>, b: seq<T>)
    decreases |b|
  {
    if a == [] then true
    else if b == [] then false
    else (a[|a| - 1] == b[|b| - 1] && Subsequence(a[..|a| - 1], b[..|b| - 1])) || Subsequence(a, b[..|b| - 1])
  }

  /** Keeps the moves that a legality filter accepts, in order. */
  function Keep(moves: seq<Square>, origin: Square, legal: (Square, Square) -> bool): (r: seq<Square>)
    ensures |r| <= |moves| && Subsequence(r, moves)
    ensures forall q :: q in r <==> q in moves && legal(origin, q)
    decreases |moves|
  {
    if moves == [] then []
    else
      var rest := Keep(moves[..|moves| - 1], origin, legal);
      var q := moves[|moves| - 1];
      assert forall s :: s in moves <==> s in moves[..|moves| - 1] || s == q;
      if legal(origin, q) then
        assert (rest + [q])[..|rest|] == rest;
        rest + [q]
      else
        rest
  }

  /**
   * A piece. Fields after `flag` belong to pawns and kings; the other kinds carry
   * them unused.
   */
  class Piece {
    const kind: Kind
    const team: Team
    var x: int
    var y: int
    var moved: bool
    var selected: bool
    var blocked: bool
    var possibleMoves: seq<Square>
    var flag: Option<Assignment>

    // Pawn
    const dir: int := Direction(team)
    const enPassantRow: int := EnPassantRow(team)
    const doubleMove: Square
    var movedTwice: bool
    var canLeftPassant: bool
    var canRightPassant: bool
    var leftPassant: Square
    var rightPassant: Square
    var leftPassantEnd: Square
    var rightPassantEnd: Square

    // King
    var inCheck: bool
    var canLeftCastling: bool
    var canRightCastling: bool
    const leftRook: Square
    const rightRook: Square
    const leftCastling: Square
    const rightCastling: Square
    const leftRookEnd: Square
    const rightRookEnd: Square

    constructor (kind: Kind, team: Team, x: int, y: int)
      ensures this.kind == kind && this.team == team && this.x == x && this.y == y
      ensures !moved && !selected && !blocked && possibleMoves == [] && flag == None
      ensures doubleMove == Square(x, y + 2 * dir)
      ensures !movedTwice && !canLeftPassant && !canRightPassant && PassantFollowsX()
      ensures !inCheck && !canLeftCastling && !canRightCastling
      ensures leftRook == Square(0, y) && rightRook == Square(7, y)
      ensures leftCastling == Square(x - 2, y) && rightCastling == Square(x + 2, y)
      ensures leftRookEnd == Square(x - 1, y) && rightRookEnd == Square(x + 1, y)
    {
      this.kind, this.team, this.x, this.y := kind, team, x, y;
      moved, selected, blocked, possibleMoves, flag := false, false, false, [], None;
      doubleMove := Square(x, y + 2 * Direction(team));
      movedTwice, canLeftPassant, canRightPassant := false, false, false;
      var row := EnPassantRow(team);
      leftPassant, rightPassant := Square(x - 1, row), Square(x + 1, row);
      leftPassantEnd := Square(x - 1, row + Direction(team));
      rightPassantEnd := Square(x + 1, row + Direction(team));
      inCheck, canLeftCastling, canRightCastling := false, false, false;
      leftRook, rightRook := Square(0, y), Square(7, y);
      leftCastling, rightCastling := Square(x - 2, y), Square(x + 2, y);
      leftRookEnd, rightRookEnd := Square(x - 1, y), Square(x + 1, y);
    }

    function Position(): Square
      reads this`x, this`y
    {
      Square(x, y)
    }

    ghost predicate PassantFollowsX()
      reads this`x, this`leftPassant, this`rightPassant, this`leftPassantEnd, this`rightPassantEnd
    {
      PassantSquaresOf(team, x, leftPassant, rightPassant, leftPassantEnd, rightPassantEnd)
    }

    /** What the move rules read of this piece's changing fields. */
    function State(): Stance
      reads this`x, this`y, this`moved, this`inCheck
      reads this`leftPassant, this`rightPassant, this`leftPassantEnd, this`rightPassantEnd
    {
      Stance(Square(x, y), moved, inCheck, leftPassant, rightPassant, leftPassantEnd, rightPassantEnd)
    }

    /** What this piece's calculate_moves produces on `view` when its fields read as `s`. */
    function Moves(view: View, s: Stance): seq<Square>
    {
      var p := s.pos;
      match kind
      case Pawn => PawnMoves(view, team, p, s.moved, s.leftPassant, s.rightPassant, s.leftPassantEnd, s.rightPassantEnd)
      case Rook => CutAll(view, team, RookRays(p))
      case Knight => OffsetMoves(view, team, KnightTargets(p))
      case Bishop => CutAll(view, team, BishopRays(p))
      case Queen => CutAll(view, team, QueenRays(p))
      case King => KingMoves(view, team, p, s.moved, s.inCheck, leftRook, rightRook, leftCastling, rightCastling)
    }

    /** Piece.check_moves: walk one ray, appending as RayCut says. */
    method CheckMoves(view: View, ray: seq<Square>)
      modifies this`possibleMoves
      ensures possibleMoves == old(possibleMoves) + RayCut(view, team, ray)
    {
      var k := 0;
      while k < |ray|
        invariant 0 <= k <= |ray|
        invariant possibleMoves + RayCut(view, team, ray[k..]) == old(possibleMoves) + RayCut(view, team, ray)
      {
        assert ray[k..][1..] == ray[k + 1..];
        var move := ray[k];
        if Available(view, move) {
          possibleMoves := possibleMoves + [move];
        } else if IsEnemy(view, team, move) {
          possibleMoves := possibleMoves + [move];
          return;
        } else {
          return;
        }
        k := k + 1;
      }
    }

    /** `for direction in directions: self.check_moves(direction)` */
    method CheckRays(view: View, rays: seq<seq<Square>>)
      modifies this`possibleMoves
      ensures possibleMoves == old(possibleMoves) + CutAll(view, team, rays)
    {
      var k := 0;
      while k < |rays|
        invariant 0 <= k <= |rays|
        invariant possibleMoves == old(possibleMoves) + CutAll(view, team, rays[..k])
      {
        assert rays[..k + 1][..k] == rays[..k];
        CheckMoves(view, rays[k]);
        k := k + 1;
      }
      assert rays[..k] == rays;
    }

    /** Rook.calculate_moves: clear, then check_moves on the four straight rays. */
    method CalculateRookMoves(view: View)
      requires kind == Rook
      modifies this`possibleMoves
      ensures CurrentFlags() == NextFlags(view, State(), old(CurrentFlags()))
      ensures possibleMoves == CutAll(view, team, RookRays(Position())) == Moves(view, State())
    {
      possibleMoves := [];
      CheckRays(view, RookRays(Position()));
    }

    /** Bishop.calculate_moves: clear, then check_moves on the four diagonal rays. */
    method CalculateBishopMoves(view: View)
      requires kind == Bishop
      modifies this`possibleMoves
      ensures CurrentFlags() == NextFlags(view, State(), old(CurrentFlags()))
      ensures possibleMoves == CutAll(view, team, BishopRays(Position())) == Moves(view, State())
    {
      possibleMoves := [];
      CheckRays(view, BishopRays(Position()));
    }

    /** Queen.calculate_moves: clear, then check_moves on all eight rays. */
    method CalculateQueenMoves(view: View)
      requires kind == Queen
      modifies this`possibleMoves
      ensures CurrentFlags() == NextFlags(view, State(), old(CurrentFlags()))
      ensures possibleMoves == CutAll(view, team, QueenRays(Position())) == Moves(view, State())
    {
      possibleMoves := [];
      CheckRays(view, QueenRays(Position()));
    }

    /** Knight.calculate_moves: clear, then the eight jumps. */
    method CalculateKnightMoves(view: View)
      requires kind == Knight
      modifies this`possibleMoves
      ensures CurrentFlags() == NextFlags(view, State(), old(CurrentFlags()))
      ensures possibleMoves == OffsetMoves(view, team, KnightTargets(Position())) == Moves(view, State())
    {
      possibleMoves := [];
      CheckOffsets(view, KnightTargets(Position()));
    }

    /** The knight's and the king's loop: append each target that is available or holds an enemy. */
    method CheckOffsets(view: View, targets: seq<Square>)
      modifies this`possibleMoves
      ensures possibleMoves == old(possibleMoves) + OffsetMoves(view, team, targets)
    {
      var k := 0;
      while k < |targets|
        invariant 0 <= k <= |targets|
        invariant possibleMoves == old(possibleMoves) + OffsetMoves(view, team, targets[..k])
      {
        assert targets[..k + 1][..k] == targets[..k];
        var move := targets[k];
        if Available(view, move) {
          possibleMoves := possibleMoves + [move];
        } else if IsEnemy(view, team, move) {
          possibleMoves := possibleMoves + [move];
        }
        k := k + 1;
      }
      assert targets[..k] == targets;
    }

    /** The FRONT section of Pawn.calculate_moves. */
    method AddPawnAdvances(view: View)
      modifies this`possibleMoves
      ensures possibleMoves == old(possibleMoves) + PawnAdvances(view, team, Position(), moved)
    {
      var front := Square(x, y + dir);
      if Available(view, front) {
        possibleMoves := possibleMoves + [front];
        var double := Square(x, y + 2 * dir);
        if !moved && Available(view, double) {
          possibleMoves := possibleMoves + [double];
        }
      }
    }

    /** The LEFT and RIGHT sections of Pawn.calculate_moves. */
    method AddPawnCaptures(view: View)
      modifies this`possibleMoves
      ensures possibleMoves == old(possibleMoves) + PawnCaptures(view, team, Position())
    {
      var left := Square(x - 1, y + dir);
      if IsEnemy(view, team, left) { possibleMoves := possibleMoves + [left]; }
      var right := Square(x + 1, y + dir);
      if IsEnemy(view, team, right) { possibleMoves := possibleMoves + [right]; }
    }

    /** The EN PASSANT section of Pawn.calculate_moves, which returns at once off the en-passant row. */
    method AddPawnPassants(view: View)
      modifies this`possibleMoves, this`canLeftPassant, this`canRightPassant
      ensures possibleMoves == old(possibleMoves)
        + PawnPassants(view, team, Position(), leftPassant, rightPassant, leftPassantEnd, rightPassantEnd)
      ensures canLeftPassant == (old(canLeftPassant) || (y == enPassantRow && PassantVictim(view, leftPassant)))
      ensures canRightPassant == (old(canRightPassant) || (y == enPassantRow && PassantVictim(view, rightPassant)))
    {
      if y != enPassantRow { return; }
      var leftVictim := At(view, leftPassant);
      if leftVictim.Some? && leftVictim.value.kind == Pawn && leftVictim.value.movedTwice {
        possibleMoves := possibleMoves + [leftPassantEnd];
        canLeftPassant := true;
      }
      var rightVictim := At(view, rightPassant);
      if rightVictim.Some? && rightVictim.value.kind == Pawn && rightVictim.value.movedTwice {
        possibleMoves := possibleMoves + [rightPassantEnd];
        canRightPassant := true;
      }
    }

    /**
     * Pawn.calculate_moves: clear, then the advances, the captures and, on the
     * en-passant row, the en-passant captures. The passant flags are only ever
     * raised here, never lowered.
     */
    method CalculatePawnMoves(view: View)
      modifies this`possibleMoves, this`canLeftPassant, this`canRightPassant
      ensures possibleMoves == PawnMoves(view, team, Position(), moved, leftPassant, rightPassant, leftPassantEnd, rightPassantEnd)
      ensures canLeftPassant == (old(canLeftPassant) || (y == enPassantRow && PassantVictim(view, leftPassant)))
      ensures canRightPassant == (old(canRightPassant) || (y == enPassantRow && PassantVictim(view, rightPassant)))
    {
      possibleMoves := [];
      AddPawnAdvances(view);
      AddPawnCaptures(view);
      AddPawnPassants(view);
    }

    /** King.check_castling: the piece tests, then a walk over the squares between. */
    method CastlingAllowed(view: View, rookSquare: Square) returns (ok: bool)
      ensures ok == CheckCastling(view, Position(), moved, inCheck, rookSquare)
    {
      if moved || inCheck { return false; }
      var rook := At(view, rookSquare);
      if rook.None? { return false; }
      if rook.value.moved { return false; }
      var middle := CastlingPath(rookSquare, y);
      var k := 0;
      while k < |middle|
        invariant 0 <= k <= |middle|
        invariant AllAvailable(view, middle) == AllAvailable(view, middle[k..])
      {
        assert middle[k..][1..] == middle[k + 1..];
        if !Available(view, middle[k]) { return false; }
        k := k + 1;
      }
      return true;
    }

    /** One CASTLING section of King.calculate_moves: check, and append the landing square if allowed. */
    method AddCastling(view: View, rookSquare: Square, landing: Square) returns (allowed: bool)
      modifies this`possibleMoves
      ensures allowed == CheckCastling(view, Position(), moved, inCheck, rookSquare)
      ensures possibleMoves == old(possibleMoves) + if allowed then [landing] else []
    {
      allowed := CastlingAllowed(view, rookSquare);
      if allowed { possibleMoves := possibleMoves + [landing]; }
    }

    /** King.calculate_moves: the eight steps, then the two castling checks. */
    method CalculateKingMoves(view: View)
      modifies this`possibleMoves, this`canLeftCastling, this`canRightCastling
      ensures possibleMoves == KingMoves(view, team, Position(), moved, inCheck, leftRook, rightRook, leftCastling, rightCastling)
      ensures canLeftCastling == CheckCastling(view, Position(), moved, inCheck, leftRook)
      ensures canRightCastling == CheckCastling(view, Position(), moved, inCheck, rightRook)
    {
      possibleMoves := [];
      CheckOffsets(view, KingTargets(Position()));
      canLeftCastling := AddCastling(view, leftRook, leftCastling);
      canRightCastling := AddCastling(view, rightRook, rightCastling);
    }

    /** calculate_moves of every kind: previous moves are cleared, then the kind's generator runs. */
    method CalculateMoves(view: View)
      modifies this`possibleMoves, this`canLeftPassant, this`canRightPassant
      modifies this`canLeftCastling, this`canRightCastling
      ensures possibleMoves == Moves(view, old(State()))
      ensures CurrentFlags() == NextFlags(view, old(State()), old(CurrentFlags()))
    {
      match kind
      case Pawn => CalculatePawnMoves(view);
      case Rook => CalculateRookMoves(view);
      case Knight => CalculateKnightMoves(view);
      case Bishop => CalculateBishopMoves(view);
      case Queen => CalculateQueenMoves(view);
      case King => CalculateKingMoves(view);
    }

    /** The undefined check_legal, as a filter of the generated moves by the board's legality test. */
    method CheckLegal(legal: (Square, Square) -> bool)
      modifies this`possibleMoves
      ensures possibleMoves == Keep(old(possibleMoves), Position(), legal)
    {
      possibleMoves := Keep(possibleMoves, Position(), legal);
    }

    /** What the piece holds after calculate_moves, followed by check_legal when asked for. */
    function Generated(view: View, s: Stance, legal: (Square, Square) -> bool, checkLegal: bool): seq<Square>
    {
      if checkLegal then Keep(Moves(view, s), s.pos, legal) else Moves(view, s)
    }

    /** The four flags calculate_moves maintains. */
    function CurrentFlags(): Flags
      reads this`canLeftPassant, this`canRightPassant, this`canLeftCastling, this`canRightCastling
    {
      Flags(canLeftPassant, canRightPassant, canLeftCastling, canRightCastling)
    }

    /**
     * The flags calculate_moves leaves, given those it found: the passant flags are
     * raised when a double-stepped pawn stands beside this pawn on its en-passant
     * row and are never lowered; a king's castling flags are recomputed; other
     * kinds keep theirs.
     */
    function NextFlags(view: View, s: Stance, before: Flags): Flags
    {
      var onRow := kind == Pawn && s.pos.y == enPassantRow;
      Flags(before.leftPassant || (onRow && PassantVictim(view, s.leftPassant)),
            before.rightPassant || (onRow && PassantVictim(view, s.rightPassant)),
            if kind == King then CheckCastling(view, s.pos, s.moved, s.inCheck, leftRook) else before.leftCastling,
            if kind == King then CheckCastling(view, s.pos, s.moved, s.inCheck, rightRook) else before.rightCastling)
    }

    /**
     * One piece's turn in the loop of get_white_moves / get_black_moves: its moves
     * become what its generator gives, filtered when asked, and its flags are set
     * as calculate_moves sets them.
     */
    method Recalculate(view: View, legal: (Square, Square) -> bool, checkLegal: bool)
      modifies this`possibleMoves, this`canLeftPassant, this`canRightPassant
      modifies this`canLeftCastling, this`canRightCastling
      ensures possibleMoves == Generated(view, old(State()), legal, checkLegal)
      ensures CurrentFlags() == NextFlags(view, old(State()), old(CurrentFlags()))
    {
      CalculateMoves(view);
      if checkLegal { CheckLegal(legal); }
    }

    /** Piece.move, with Pawn.move's recomputation of the passant squares from the new file. */
    method Move(pos: Square)
      modifies this`x, this`y, this`selected, this`moved
      modifies this`leftPassant, this`rightPassant, this`leftPassantEnd, this`rightPassantEnd
      ensures Position() == pos && !selected && moved
      ensures kind == Pawn ==> PassantFollowsX()
      ensures kind != Pawn ==> leftPassant == old(leftPassant) && rightPassant == old(rightPassant)
      ensures kind != Pawn ==> leftPassantEnd == old(leftPassantEnd) && rightPassantEnd == old(rightPassantEnd)
    {
      x, y := pos.x, pos.y;
      selected := false;
      if !moved { moved := true; }
      if kind == Pawn {
        leftPassant, rightPassant := Square(x - 1, enPassantRow), Square(x + 1, enPassantRow);
        leftPassantEnd, rightPassantEnd := Square(x - 1, enPassantRow + dir), Square(x + 1, enPassantRow + dir);
      }
    }

    /** Piece.click: the piece is selected exactly when the clicked square is its own. */
    method Click(at: Square) returns (hit: bool)
      modifies this`selected
      ensures hit == (Position() == at) && selected == hit
    {
      selected := Position() == at;
      hit := selected;
    }

    function AttributeValue(a: Attribute): bool
      reads this`movedTwice, this`blocked, this`inCheck
    {
      match a
      case MovedTwice => movedTwice
      case Blocked => blocked
      case InCheck => inCheck
    }

    /** update_next_turn: remember an assignment to apply on the next check_flag. */
    method UpdateNextTurn(attribute: Attribute, value: bool)
      modifies this`flag
      ensures flag == Some(Assignment(attribute, value))
    {
      flag := Some(Assignment(attribute, value));
    }

    /**
     * check_flag: apply the pending assignment, if any, and forget it. With nothing
     * pending it changes nothing, so a second call after the first is a no-op.
     */
    method CheckFlag()
      modifies this`flag, this`movedTwice, this`blocked, this`inCheck
      ensures flag == None
      ensures forall a ::
                AttributeValue(a) ==
                  if old(flag).Some? && old(flag).value.attribute == a then old(flag).value.value
                  else old(AttributeValue(a))
    {
      if flag == None { return; }
      match flag.value.attribute {
        case MovedTwice => movedTwice := flag.value.value;
        case Blocked => blocked := flag.value.value;
        case InCheck => inCheck := flag.value.value;
      }
      flag := None;
    }
  }

  /** The pieces of a list, as a set. */
  function Members(ps: seq<Piece>): set<Piece>
  {
    set p | p in ps
  }

  /** Lists of squares, one after the other. */
  function Concat(ss: seq<seq<Square>>): (r: seq<Square>)
    ensures forall q :: q in r <==> exists i | 0 <= i < |ss| :: q in ss[i]
    decreases |ss|
  {
    if ss == [] then []
    else
      var init := ss[..|ss| - 1];
      assert forall i | 0 <= i < |init| :: init[i] == ss[i];
      Concat(init) + ss[|ss| - 1]
  }

  /** Appending a list appends its squares. */
  lemma ConcatSnoc(ss: seq<seq<Square>>, last: seq<Square>)
    ensures Concat(ss + [last]) == Concat(ss) + last
  {
    assert (ss + [last])[..|ss|] == ss;
  }

  /** The en-passant and castling flags of each piece of a list, in order. */
  function FlagsEach(ps: seq<Piece>): (r: seq<Flags>)
    reads Members(ps)
    ensures |r| == |ps|
    ensures forall i | 0 <= i < |ps| :: r[i] == ps[i].CurrentFlags()
  {
    seq(|ps|, i requires 0 <= i < |ps| reads Members(ps) => ps[i].CurrentFlags())
  }

  /** The stance of each piece of a list, in order. */
  function StancesEach(ps: seq<Piece>): (r: seq<Stance>)
    reads Members(ps)
    ensures |r| == |ps|
    ensures forall i | 0 <= i < |ps| :: r[i] == ps[i].State()
  {
    seq(|ps|, i requires 0 <= i < |ps| reads Members(ps) => ps[i].State())
  }

  /**
   * `want` and `wantFlags` hold, piece by piece, what the piece generates from the
   * given stance and the flags it is then left with, starting from the given flags.
   */
  ghost predicate Expects(ps: seq<Piece>, view: View, stances: seq<Stance>, before: seq<Flags>,
                          legal: (Square, Square) -> bool, checkLegal: bool,
                          want: seq<seq<Square>>, wantFlags: seq<Flags>)
  {
    |stances| == |ps| && |before| == |ps| && |want| == |ps| && |wantFlags| == |ps| &&
    (forall i {:trigger ps[i].Generated(view, stances[i], legal, checkLegal)} | 0 <= i < |ps| ::
       want[i] == ps[i].Generated(view, stances[i], legal, checkLegal)) &&
    (forall i {:trigger ps[i].NextFlags(view, stances[i], before[i])} | 0 <= i < |ps| ::
       wantFlags[i] == ps[i].NextFlags(view, stances[i], before[i]))
  }

  /** The expectations of Expects, computed. */
  lemma Expected(ps: seq<Piece>, view: View, stances: seq<Stance>, before: seq<Flags>,
                 legal: (Square, Square) -> bool, checkLegal: bool)
    returns (want: seq<seq<Square>>, wantFlags: seq<Flags>)
    requires |stances| == |ps| && |before| == |ps|
    ensures Expects(ps, view, stances, before, legal, checkLegal, want, wantFlags)
  {
    want := seq(|ps|, i requires 0 <= i < |ps| => ps[i].Generated(view, stances[i], legal, checkLegal));
    wantFlags := seq(|ps|, i requires 0 <= i < |ps| => ps[i].NextFlags(view, stances[i], before[i]));
  }

  /**
   * The pieces before index k hold what they were expected to generate and the
   * flags they were expected to be left with; those from k on still hold the
   * flags they had before.
   */
  ghost predicate RecalculatedUpTo(ps: seq<Piece>, k: int, want: seq<seq<Square>>, wantFlags: seq<Flags>, before: seq<Flags>)
    requires 0 <= k <= |ps| && |want| == |ps| && |wantFlags| == |ps| && |before| == |ps|
    reads Members(ps)
  {
    (forall i | 0 <= i < k :: ps[i].possibleMoves == want[i] && ps[i].CurrentFlags() == wantFlags[i]) &&
    (forall i | k <= i < |ps| :: ps[i].CurrentFlags() == before[i])
  }

  /** One turn of the loop below: the piece at index k recalculates, the others keep what they hold. */
  method RecalculateNext(ps: seq<Piece>, k: int, piece: Piece, view: View, legal: (Square, Square) -> bool, checkLegal: bool,
                         ghost stances: seq<Stance>, ghost before: seq<Flags>,
                         ghost want: seq<seq<Square>>, ghost wantFlags: seq<Flags>)
    requires Distinct(ps) && 0 <= k < |ps| && piece == ps[k]
    requires Expects(ps, view, stances, before, legal, checkLegal, want, wantFlags)
    requires piece.State() == stances[k]
    requires RecalculatedUpTo(ps, k, want, wantFlags, before)
    modifies piece`possibleMoves, piece`canLeftPassant, piece`canRightPassant
    modifies piece`canLeftCastling, piece`canRightCastling
    ensures RecalculatedUpTo(ps, k + 1, want, wantFlags, before)
  {
    assert piece.CurrentFlags() == before[k];
    assert want[k] == piece.Generated(view, stances[k], legal, checkLegal);
    assert wantFlags[k] == piece.NextFlags(view, stances[k], before[k]);
    piece.Recalculate(view, legal, checkLegal);
    assert piece.possibleMoves == want[k] && piece.CurrentFlags() == wantFlags[k];
  }

  /** When every piece has recalculated, each holds what was expected of it. */
  lemma AllRecalculated(ps: seq<Piece>, view: View, stances: seq<Stance>, before: seq<Flags>,
                        legal: (Square, Square) -> bool, checkLegal: bool,
                        want: seq<seq<Square>>, wantFlags: seq<Flags>, lists: seq<seq<Square>>)
    requires Expects(ps, view, stances, before, legal, checkLegal, want, wantFlags)
    requires RecalculatedUpTo(ps, |ps|, want, wantFlags, before)
    requires |lists| == |ps| && forall i | 0 <= i < |ps| :: lists[i] == want[i]
    ensures forall i | 0 <= i < |ps| :: lists[i] == ps[i].possibleMoves
    ensures forall i | 0 <= i < |ps| :: ps[i].possibleMoves == ps[i].Generated(view, stances[i], legal, checkLegal)
    ensures forall i | 0 <= i < |ps| :: ps[i].CurrentFlags() == ps[i].NextFlags(view, stances[i], before[i])
  {
  }

  /**
   * The loop of get_white_moves / get_black_moves: every piece recalculates its
   * moves in turn, and the result lists them all in roster order.
   */
  method RecalculateAll(ps: seq<Piece>, view: View, legal: (Square, Square) -> bool, checkLegal: bool)
    returns (moves: seq<Square>, ghost lists: seq<seq<Square>>)
    requires Distinct(ps)
    modifies Members(ps)`possibleMoves, Members(ps)`canLeftPassant, Members(ps)`canRightPassant
    modifies Members(ps)`canLeftCastling, Members(ps)`canRightCastling
    ensures |lists| == |ps| && moves == Concat(lists)
    ensures forall i | 0 <= i < |ps| :: lists[i] == ps[i].possibleMoves
    ensures forall i {:trigger ps[i].Generated(view, old(ps[i].State()), legal, checkLegal)} | 0 <= i < |ps| ::
      ps[i].possibleMoves == ps[i].Generated(view, old(ps[i].State()), legal, checkLegal)
    ensures forall i {:trigger ps[i].NextFlags(view, old(ps[i].State()), old(ps[i].CurrentFlags()))} | 0 <= i < |ps| ::
      ps[i].CurrentFlags() == ps[i].NextFlags(view, old(ps[i].State()), old(ps[i].CurrentFlags()))
  {
    ghost var before := FlagsEach(ps);
    ghost var stances := StancesEach(ps);
    ghost var want, wantFlags := Expected(ps, view, stances, before, legal, checkLegal);
    moves, lists := [], [];
    var k := 0;
    while k < |ps|
      invariant 0 <= k <= |ps| && |lists| == k && moves == Concat(lists)
      invariant forall i | 0 <= i < k :: lists[i] == want[i]
      invariant RecalculatedUpTo(ps, k, want, wantFlags, before)
    {
      var piece := ps[k];
      RecalculateNext(ps, k, piece, view, legal, checkLegal, stances, before, want, wantFlags);
      ConcatSnoc(lists, piece.possibleMoves);
      moves, lists := moves + piece.possibleMoves, lists + [piece.possibleMoves];
      k := k + 1;
    }
    AllRecalculated(ps, view, stances, before, legal, checkLegal, want, wantFlags, lists);
  }
}
