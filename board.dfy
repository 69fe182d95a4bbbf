/**
 * The board controller of scripts/board.py: the 8x8 grid of optional pieces, the
 * two team rosters and the list of all pieces, the side to move and the winner,
 * the selected piece and the move lists of both sides. Moves are squares; the
 * pixel rectangles of the source are not modelled.
 */
module Game {
  import opened Wrappers
  import opened Squares
  import opened Pieces

  /**
   * Removes the first occurrence of `p`, as Python's `list.remove` does: every
   * other piece stays listed, and from a list without repetitions `p` is gone.
   */
  function Without(s: seq<Piece>, p: Piece): (r: seq<Piece>)
    ensures p !in s ==> r == s
    ensures forall q | q in r :: q in s
    ensures forall q | q in s && q != p :: q in r
    ensures Distinct(s) ==> Distinct(r) && p !in r
  {
    if s == [] then []
    else
      assert s == [s[0]] + s[1..];
      if s[0] == p then s[1..]
      else
        var r := [s[0]] + Without(s[1..], p);
        assert Distinct(s) ==> Distinct(r) by {
          if Distinct(s) {
            assert s[0] !in s[1..];
            assert forall i | 1 <= i < |r| :: r[i] == Without(s[1..], p)[i - 1];
          }
        }
        r
  }

  /**
   * The loop of get_possible_moves that extends a side's move list with the moves
   * of each of its pieces in roster order: the list is the concatenation of the
   * pieces' move lists.
   */
  method GatherMoves(ps: seq<Piece>) returns (moves: seq<Square>, ghost lists: seq<seq<Square>>)
    ensures |lists| == |ps| && forall i | 0 <= i < |ps| :: lists[i] == ps[i].possibleMoves
    ensures moves == Concat(lists)
    ensures forall q :: q in moves <==> exists i | 0 <= i < |ps| :: q in ps[i].possibleMoves
  {
    moves, lists := [], [];
    for i := 0 to |ps|
      invariant |lists| == i && forall j | 0 <= j < i :: lists[j] == ps[j].possibleMoves
      invariant moves == Concat(lists)
    {
      ConcatSnoc(lists, ps[i].possibleMoves);
      moves, lists := moves + ps[i].possibleMoves, lists + [ps[i].possibleMoves];
    }
  }

  /**
   * The loop of get_possible_moves that marks blocked, while their king is in
   * check, the pieces of a side that have no move. A mark is never taken back.
   */
  method BlockStuck(ps: seq<Piece>, kingInCheck: bool)
    requires Distinct(ps)
    modifies Members(ps)`blocked
    ensures forall i | 0 <= i < |ps| :: ps[i].blocked == (old(ps[i].blocked) || (kingInCheck && ps[i].possibleMoves == []))
  {
    for k := 0 to |ps|
      invariant forall i | 0 <= i < k :: ps[i].blocked == (old(ps[i].blocked) || (kingInCheck && ps[i].possibleMoves == []))
      invariant forall i | k <= i < |ps| :: ps[i].blocked == old(ps[i].blocked)
    {
      if !kingInCheck { continue; }
      if ps[k].possibleMoves == [] { ps[k].blocked := true; }
    }
  }

  /** The value an attribute takes once a pending assignment, if any, is applied to it. */
  function Applied(flag: Option<Assignment>, a: Attribute, before: bool): bool
  {
    if flag.Some? && flag.value.attribute == a then flag.value.value else before
  }

  /**
   * The flag loop of Board.click: every piece of the side to move applies its
   * pending assignment, if any, and forgets it.
   */
  method ApplyFlags(ps: seq<Piece>)
    requires Distinct(ps)
    modifies Members(ps)`flag, Members(ps)`movedTwice, Members(ps)`blocked, Members(ps)`inCheck
    ensures forall i | 0 <= i < |ps| :: ps[i].flag == None
    ensures forall i | 0 <= i < |ps| :: ps[i].movedTwice == Applied(old(ps[i].flag), MovedTwice, old(ps[i].movedTwice))
    ensures forall i | 0 <= i < |ps| :: ps[i].blocked == Applied(old(ps[i].flag), Blocked, old(ps[i].blocked))
    ensures forall i | 0 <= i < |ps| :: ps[i].inCheck == Applied(old(ps[i].flag), InCheck, old(ps[i].inCheck))
  {
    for k := 0 to |ps|
      invariant forall i | 0 <= i < k :: ps[i].flag == None
      invariant forall i | 0 <= i < k :: ps[i].movedTwice == Applied(old(ps[i].flag), MovedTwice, old(ps[i].movedTwice))
      invariant forall i | 0 <= i < k :: ps[i].blocked == Applied(old(ps[i].flag), Blocked, old(ps[i].blocked))
      invariant forall i | 0 <= i < k :: ps[i].inCheck == Applied(old(ps[i].flag), InCheck, old(ps[i].inCheck))
      invariant forall i | k <= i < |ps| ::
        ps[i].flag == old(ps[i].flag) && ps[i].movedTwice == old(ps[i].movedTwice)
        && ps[i].blocked == old(ps[i].blocked) && ps[i].inCheck == old(ps[i].inCheck)
    {
      ps[k].CheckFlag();
      assert ps[k].AttributeValue(MovedTwice) == ps[k].movedTwice;
      assert ps[k].AttributeValue(Blocked) == ps[k].blocked;
      assert ps[k].AttributeValue(InCheck) == ps[k].inCheck;
    }
  }

  /** The branches by which Board.click resolves a click while a piece is selected. */
  datatype Play = CastleLeft | CastleRight | DoubleStep | PassantLeft | PassantRight | Step(to: Square) | Deselect

  /**
   * The branch Board.click takes for a click on `at` with `p` selected: a king's
   * two castlings, then a pawn's double step and its two en passant captures, then
   * the piece's possible moves, and otherwise a deselection. The special branches
   * compare the click with the square their flag or the pawn's unmoved state
   * names, whether or not that square is among the possible moves.
   */
  function Intent(p: Piece, at: Square): Play
    reads p`canLeftCastling, p`canRightCastling, p`moved, p`canLeftPassant, p`canRightPassant
    reads p`leftPassantEnd, p`rightPassantEnd, p`possibleMoves
  {
    if p.kind == King && p.canLeftCastling && at == p.leftCastling then CastleLeft
    else if p.kind == King && p.canRightCastling && at == p.rightCastling then CastleRight
    else if p.kind == Pawn && at == p.doubleMove && !p.moved then DoubleStep
    else if p.kind == Pawn && p.canLeftPassant && at == p.leftPassantEnd then PassantLeft
    else if p.kind == Pawn && p.canRightPassant && at == p.rightPassantEnd then PassantRight
    else if at in p.possibleMoves then Step(at)
    else Deselect
  }

  /** How a click ended. */
  datatype Outcome =
    | Ignored         // a winner is set, and the click changes nothing
    | Played(play: Play)  // a move branch ran to its end and passed the turn
    | Halted(play: Play)  // a move branch reached a square off the board or an empty origin
    | Chose           // no move was made, and the selection loop ran

  /**
   * The walk of Board.click's selection loop over a roster: each piece, in order,
   * is marked selected exactly when it stands on the clicked square, up to the
   * first such piece that is not blocked, whose index is returned (the length of
   * the roster when there is none).
   */
  method MarkClicked(ps: seq<Piece>, at: Square) returns (k: int)
    modifies Members(ps)`selected
    ensures 0 <= k <= |ps|
    ensures forall i | 0 <= i < k :: ps[i].Position() != at || ps[i].blocked
    ensures k < |ps| ==> ps[k].Position() == at && !ps[k].blocked && ps[k].selected
  {
    k := 0;
    while k < |ps|
      invariant 0 <= k <= |ps|
      invariant forall i | 0 <= i < k :: ps[i].Position() != at || ps[i].blocked
    {
      var hit := ps[k].Click(at);
      if hit && !ps[k].blocked { return; }
      k := k + 1;
    }
  }

  /** The parts of a list without repetitions have none, and share no element. */
  lemma DistinctParts<T>(a: seq<T>, b: seq<T>)
    requires Distinct(a + b)
    ensures Distinct(a) && Distinct(b)
    ensures forall p | p in a :: p !in b
  {
    assert forall i | 0 <= i < |a| :: (a + b)[i] == a[i];
    assert forall j | 0 <= j < |b| :: (a + b)[|a| + j] == b[j];
  }

  /** A move of whatever stands on one square to another. */
  datatype Shift = Shift(from: Square, to: Square)

  /** The squares of one castling: where the king lands, and the rook's start and end. */
  datatype Castling = Castling(landing: Square, rook: Square, rookEnd: Square)

  /** A king's left or right castling, from the squares it fixed when it was set up. */
  function CastlingOf(king: Piece, left: bool): (c: Castling)
    ensures c.landing == if left then king.leftCastling else king.rightCastling
    ensures c.rook == if left then king.leftRook else king.rightRook
    ensures c.rookEnd == if left then king.leftRookEnd else king.rightRookEnd
  {
    if left then Castling(king.leftCastling, king.leftRook, king.leftRookEnd)
    else Castling(king.rightCastling, king.rightRook, king.rightRookEnd)
  }

  /** The squares of a castling by a king standing on the fifth file of a rank. */
  predicate HomeCastling(from: Square, c: Castling, left: bool)
  {
    && from.x == 4 && 0 <= from.y < 8
    && c == if left then Castling(Square(2, from.y), Square(0, from.y), Square(3, from.y))
            else Castling(Square(6, from.y), Square(7, from.y), Square(5, from.y))
  }

  /** The piece on a square, as a frame: empty for an empty or off-board square. */
  function Resident(grid: Grid, sq: Square): set<Piece>
    requires IsGrid(grid)
    reads grid
  {
    if Get(grid, sq) == null then {} else {Get(grid, sq)}
  }

  /** The kinds Board.reset puts on a back rank, file by file. */
  function BackRank(x: int): Kind
    requires 0 <= x < 8
  {
    [Rook, Knight, Bishop, Queen, King, Bishop, Knight, Rook][x]
  }

  /** A piece of a team and kind, as reset places it. */
  datatype Placement = Placement(team: Team, kind: Kind)

  /**
   * What Board.reset puts on a square: the black back rank on row 0 and black pawns
   * on row 1, white pawns on row 6 and the white back rank on row 7.
   */
  function Setup(sq: Square): Option<Placement>
    requires InBounds(sq)
  {
    if sq.y == 0 then Some(Placement(Black, BackRank(sq.x)))
    else if sq.y == 1 then Some(Placement(Black, Pawn))
    else if sq.y == 6 then Some(Placement(White, Pawn))
    else if sq.y == 7 then Some(Placement(White, BackRank(sq.x)))
    else None
  }

  /** The row a team's king starts on. */
  function HomeRow(team: Team): int
  {
    if team == White then 7 else 0
  }

  /** Each team starts with exactly one king, on file 4 of its home row. */
  lemma SetupKings(sq: Square, team: Team)
    requires InBounds(sq)
    ensures Setup(sq) == Some(Placement(team, King)) <==> sq == Square(4, HomeRow(team))
  {
    if Setup(sq) == Some(Placement(team, King)) {
      assert sq.y == 0 || sq.y == 7;
      assert BackRank(sq.x) == King;
    }
  }

  /** A piece that has not moved still has the squares it was built with, a king on file 4. */
  ghost predicate AtHome(p: Piece)
    reads p`x, p`y, p`moved
  {
    !p.moved ==>
      && p.doubleMove == Square(p.x, p.y + 2 * p.dir)
      && p.leftRook == Square(0, p.y) && p.rightRook == Square(7, p.y)
      && p.leftCastling == Square(p.x - 2, p.y) && p.rightCastling == Square(p.x + 2, p.y)
      && p.leftRookEnd == Square(p.x - 1, p.y) && p.rightRookEnd == Square(p.x + 1, p.y)
      && (p.kind == King ==> p.x == 4)
  }

  /** A piece as reset builds it for a square: of the team and kind Setup places there, unmoved. */
  ghost predicate Newborn(p: Piece, sq: Square)
    reads p
  {
    && InBounds(sq) && Setup(sq) == Some(Placement(p.team, p.kind)) && p.Position() == sq
    && !p.moved && !p.selected && !p.blocked && p.possibleMoves == [] && p.flag == None
    && AtHome(p) && p.PassantFollowsX()
  }

  /**
   * The grid as reset lays it out, the pawn rows filled on the files before
   * `pawns` and the back ranks on the files before `back`: each of those cells
   * holds a piece as Newborn describes, every other cell is empty.
   */
  ghost predicate LaidUpTo(g: Grid, pawns: int, back: int)
    requires IsGrid(g)
    reads g, OnGrid(g)
  {
    forall y, x | 0 <= y < 8 && 0 <= x < 8 :: CellLaid(g, y, x, Filled(y, x, pawns, back))
  }

  /** Whether reset's layout has reached a cell, given how many files of each row pair it has placed. */
  predicate Filled(y: int, x: int, pawns: int, back: int)
  {
    ((y == 1 || y == 6) && x < pawns) || ((y == 0 || y == 7) && x < back)
  }

  /** A cell of reset's layout: a piece as Newborn describes once filled, empty before. */
  ghost predicate CellLaid(g: Grid, y: int, x: int, filled: bool)
    requires IsGrid(g) && 0 <= y < 8 && 0 <= x < 8
    reads g, g[y, x]
  {
    if filled then g[y, x] != null && Newborn(g[y, x], Square(x, y))
    else g[y, x] == null
  }

  /** The grid of Board.reset, every placed cell holding a new piece and the others empty. */
  ghost predicate Laid(g: Grid)
    requires IsGrid(g)
    reads g, OnGrid(g)
  {
    LaidUpTo(g, 8, 8)
  }

  /**
   * The grid building of Board.reset: the two pawn rows, then the back ranks,
   * each cell holding a new piece built for it.
   */
  method LayOut() returns (g: Grid)
    ensures fresh(g) && IsGrid(g) && Laid(g)
    ensures forall y, x | 0 <= y < 8 && 0 <= x < 8 && g[y, x] != null :: fresh(g[y, x])
  {
    g := new Piece?[8, 8]((_, _) => null);
    for x := 0 to 8
      invariant LaidUpTo(g, x, 0)
      invariant forall y, i | 0 <= y < 8 && 0 <= i < 8 && g[y, i] != null :: fresh(g[y, i])
    {
      PlacePair(g, true, x, x, 0);
    }
    for x := 0 to 8
      invariant LaidUpTo(g, 8, x)
      invariant forall y, i | 0 <= y < 8 && 0 <= i < 8 && g[y, i] != null :: fresh(g[y, i])
    {
      PlacePair(g, false, x, 8, x);
    }
  }

  /** A new piece built for a square, as reset builds them. */
  method Build(sq: Square) returns (p: Piece)
    requires InBounds(sq) && Setup(sq).Some?
    ensures fresh(p) && Newborn(p, sq)
  {
    var pl := Setup(sq).value;
    p := new Piece(pl.kind, pl.team, sq.x, sq.y);
  }

  /**
   * One file of the pawn rows (1 and 6) or of the back ranks (0 and 7) in reset's
   * layout, each cell holding a new piece as Setup says.
   */
  method PlacePair(g: Grid, pawnRows: bool, x: int, pawns: int, back: int)
    requires IsGrid(g) && 0 <= x < 8
    requires if pawnRows then pawns == x && back == 0 else pawns == 8 && back == x
    requires LaidUpTo(g, pawns, back)
    modifies g
    ensures forall j, i | 0 <= j < 8 && 0 <= i < 8 :: g[j, i] == old(g[j, i]) || (i == x && fresh(g[j, i]))
    ensures if pawnRows then LaidUpTo(g, pawns + 1, back) else LaidUpTo(g, pawns, back + 1)
  {
    var top, bottom := if pawnRows then 1 else 0, if pawnRows then 6 else 7;
    var p := Build(Square(x, top));
    var q := Build(Square(x, bottom));
    g[top, x] := p;
    g[bottom, x] := q;
    var pawns', back' := if pawnRows then pawns + 1 else pawns, if pawnRows then back else back + 1;
    forall j, i | 0 <= j < 8 && 0 <= i < 8
      ensures CellLaid(g, j, i, Filled(j, i, pawns', back'))
    {
      if i != x || (j != top && j != bottom) {
        assert old(CellLaid(g, j, i, Filled(j, i, pawns, back)));
        assert Filled(j, i, pawns', back') == Filled(j, i, pawns, back);
      }
    }
  }

  /**
   * The pieces of one team on a grid, scanning the first `n` cells row by row as
   * reset's list comprehensions do.
   */
  function Scan(g: Grid, team: Team, n: int): seq<Piece>
    requires IsGrid(g) && 0 <= n <= 64
    reads g
  {
    if n == 0 then []
    else
      var p := g[(n - 1) / 8, (n - 1) % 8];
      Scan(g, team, n - 1) + if p != null && p.team == team then [p] else []
  }

  /** The list comprehension of Board.reset that collects one team's pieces in row-major order. */
  method Roll(g: Grid, team: Team) returns (roster: seq<Piece>)
    requires IsGrid(g)
    ensures roster == Scan(g, team, 64)
  {
    roster := [];
    for y := 0 to 8
      invariant roster == Scan(g, team, 8 * y)
    {
      for x := 0 to 8
        invariant roster == Scan(g, team, 8 * y + x)
      {
        var p := g[y, x];
        assert (8 * y + x) / 8 == y && (8 * y + x) % 8 == x;
        if p != null && p.team == team {
          roster := roster + [p];
        }
      }
    }
  }

  /**
   * On reset's grid the black roster is rows 0 and 1 and the white roster rows 6
   * and 7, each in row-major order.
   */
  lemma {:induction false} ScanLaid(g: Grid, team: Team, n: int)
    requires IsGrid(g) && 0 <= n <= 64 && Laid(g)
    ensures team == Black ==> |Scan(g, team, n)| == (if n < 16 then n else 16)
    ensures team == White ==> |Scan(g, team, n)| == (if n < 48 then 0 else n - 48)
    ensures var top := if team == Black then 0 else 6;
      forall i | 0 <= i < |Scan(g, team, n)| :: Scan(g, team, n)[i] == g[top + i / 8, i % 8]
  {
    if n > 0 {
      ScanLaid(g, team, n - 1);
      var y, x := (n - 1) / 8, (n - 1) % 8;
      assert CellLaid(g, y, x, Filled(y, x, 8, 8));
    }
  }

  /** A roster listing rows `top` and `top + 1` of a grid, row by row, as reset's comprehensions do. */
  ghost predicate RowMajor(g: Grid, roster: seq<Piece>, top: int)
    requires IsGrid(g) && (top == 0 || top == 6)
    reads g
  {
    |roster| == 16 && forall i | 0 <= i < 16 :: roster[i] == g[top + i / 8, i % 8]
  }

  /**
   * A roster of reset's grid lists each piece of its two rows once, each of the
   * roster's team and standing where its coordinates say.
   */
  lemma LaidRoster(g: Grid, roster: seq<Piece>, top: int)
    requires IsGrid(g) && (top == 0 || top == 6) && Laid(g) && RowMajor(g, roster, top)
    ensures Distinct(roster)
    ensures forall p | p in roster ::
      && p.team == (if top == 0 then Black else White) && InBounds(p.Position()) && g[p.y, p.x] == p
      && AtHome(p) && p.PassantFollowsX()
    ensures forall y, x | top <= y < top + 2 && 0 <= x < 8 :: g[y, x] in roster
  {
    forall i | 0 <= i < 16
      ensures Newborn(roster[i], Square(i % 8, top + i / 8))
    {
      assert CellLaid(g, top + i / 8, i % 8, Filled(top + i / 8, i % 8, 8, 8));
    }
    forall y, x | top <= y < top + 2 && 0 <= x < 8
      ensures g[y, x] in roster
    {
      var i := (y - top) * 8 + x;
      assert i / 8 == y - top && i % 8 == x;
      assert roster[i] == g[y, x];
    }
  }

  /** Reset's two list comprehensions on its own grid: each team's two rows, row by row. */
  method Rosters(g: Grid) returns (whites: seq<Piece>, blacks: seq<Piece>)
    requires IsGrid(g) && Laid(g)
    ensures RowMajor(g, whites, 6) && RowMajor(g, blacks, 0)
  {
    whites := Roll(g, White);
    blacks := Roll(g, Black);
    ScanLaid(g, White, 64);
    ScanLaid(g, Black, 64);
  }

  /**
   * What reset's consistency rests on: the two rosters of reset's grid list
   * distinct pieces of their own team, each standing where its coordinates say,
   * between them every occupied cell, and the kings are on file 4 of their home rows.
   */
  lemma LaidRosters(g: Grid, whites: seq<Piece>, blacks: seq<Piece>)
    requires IsGrid(g) && Laid(g) && RowMajor(g, whites, 6) && RowMajor(g, blacks, 0)
    ensures Distinct(whites) && Distinct(blacks) && Distinct(whites + blacks)
    ensures forall p | p in whites :: p.team == White
    ensures forall p | p in blacks :: p.team == Black
    ensures forall p | p in whites + blacks ::
      InBounds(p.Position()) && g[p.y, p.x] == p && AtHome(p) && p.PassantFollowsX()
    ensures forall y, x | 0 <= y < 8 && 0 <= x < 8 && g[y, x] != null ::
      g[y, x] in whites + blacks && g[y, x].x == x && g[y, x].y == y
    ensures g[7, 4] != null && g[7, 4].kind == King && g[7, 4].team == White
    ensures g[0, 4] != null && g[0, 4].kind == King && g[0, 4].team == Black
  {
    LaidRoster(g, whites, 6);
    LaidRoster(g, blacks, 0);
    assert CellLaid(g, 7, 4, Filled(7, 4, 8, 8)) && CellLaid(g, 0, 4, Filled(0, 4, 8, 8));
    var all := whites + blacks;
    forall i, j | 0 <= i < j < |all|
      ensures all[i] != all[j]
    {
      if i < 16 <= j {
        assert all[i] in whites && all[j] in blacks;
      }
    }
    forall y, x | 0 <= y < 8 && 0 <= x < 8 && g[y, x] != null
      ensures g[y, x] in all && g[y, x].x == x && g[y, x].y == y
    {
      assert CellLaid(g, y, x, Filled(y, x, 8, 8));
    }
  }

  class Board {
    var grid: Grid
    var whitePieces: seq<Piece>
    var blackPieces: seq<Piece>
    var allPieces: seq<Piece>
    var whiteKing: Piece
    var blackKing: Piece
    var current: Team
    var winner: Option<Team>
    var selected: Piece?
    var whiteMoves: seq<Square>
    var blackMoves: seq<Square>
    /** The legality test that the undefined check_legal applies to each generated move. */
    const legal: (Square, Square) -> bool

    /**
     * A board ready for its first game: Board.__init__ only loads drawing
     * resources, and the game resets the board before it plays, so the model
     * builds a board by a reset.
     */
    constructor (legal: (Square, Square) -> bool)
      ensures this.legal == legal && Consistent() && Laid(grid)
      ensures RowMajor(grid, whitePieces, 6) && RowMajor(grid, blackPieces, 0)
      ensures current == White && winner == None && selected == null
    {
      this.legal := legal;
      grid := new Piece?[8, 8]((_, _) => null);
      whiteKing := new Piece(King, White, 4, 7);
      blackKing := whiteKing;
      new;
      Reset();
    }

    /**
     * Board.reset: a new grid laid out as Setup says, the rosters listing its
     * pieces row by row, the kings taken from file 4 of the home rows, White to
     * move and nothing selected, won or generated yet. The board it leaves is
     * consistent.
     */
    method Reset()
      modifies this`grid, this`whitePieces, this`blackPieces, this`allPieces, this`whiteKing, this`blackKing
      modifies this`current, this`winner, this`selected, this`whiteMoves, this`blackMoves
      ensures fresh(grid) && IsGrid(grid) && Laid(grid)
      ensures RowMajor(grid, whitePieces, 6) && RowMajor(grid, blackPieces, 0)
      ensures allPieces == whitePieces + blackPieces
      ensures whiteKing == grid[7, 4] && blackKing == grid[0, 4]
      ensures current == White && winner == None && selected == null
      ensures whiteMoves == [] && blackMoves == []
      ensures Consistent()
    {
      var g := LayOut();
      var whites, blacks := Rosters(g);
      LaidRosters(g, whites, blacks);
      Install(g, whites, blacks);
      PlacedConsistent();
    }

    /** The rest of Board.reset once the grid is laid out and its rosters collected. */
    method Install(g: Grid, whites: seq<Piece>, blacks: seq<Piece>)
      requires IsGrid(g) && Laid(g) && g[7, 4] != null && g[0, 4] != null
      modifies this`grid, this`whitePieces, this`blackPieces, this`allPieces, this`whiteKing, this`blackKing
      modifies this`current, this`winner, this`selected, this`whiteMoves, this`blackMoves
      ensures Laid(g)
      ensures grid == g && whitePieces == whites && blackPieces == blacks && allPieces == whites + blacks
      ensures whiteKing == g[7, 4] && blackKing == g[0, 4]
      ensures current == White && winner == None && selected == null
      ensures whiteMoves == [] && blackMoves == []
    {
      grid, blackKing, whiteKing := g, g[0, 4], g[7, 4];
      whitePieces, blackPieces, allPieces := whites, blacks, whites + blacks;
      selected, current, winner, whiteMoves, blackMoves := null, White, None, [], [];
    }

    /**
     * A board is consistent once its rosters list distinct pieces of their own
     * team, each settled on its cell, and every occupied cell holds one of them.
     */
    lemma PlacedConsistent()
      requires IsGrid(grid) && Kings() && allPieces == whitePieces + blackPieces
      requires Distinct(whitePieces) && Distinct(blackPieces) && Distinct(allPieces) && TeamsSorted()
      requires forall p | p in allPieces ::
        InBounds(p.Position()) && grid[p.y, p.x] == p && AtHome(p) && p.PassantFollowsX()
      requires forall y, x | 0 <= y < 8 && 0 <= x < 8 && grid[y, x] != null ::
        grid[y, x] in allPieces && grid[y, x].x == x && grid[y, x].y == y
      ensures Consistent()
    {
      assert forall y, x | 0 <= y < 8 && 0 <= x < 8 :: CellListed(x, y);
    }


    /** The roster of one team. */
    function TeamPieces(team: Team): seq<Piece>
      reads this`whitePieces, this`blackPieces
    {
      if team == White then whitePieces else blackPieces
    }

    /** The moves last generated for one team. */
    function TeamMoves(team: Team): seq<Square>
      reads this`whiteMoves, this`blackMoves
    {
      if team == White then whiteMoves else blackMoves
    }

    /** The two kings are kings of their own team. */
    predicate Kings()
      reads this`whiteKing, this`blackKing
    {
      && whiteKing.kind == King && whiteKing.team == White
      && blackKing.kind == King && blackKing.team == Black
    }

    /** Each team roster holds pieces of its own team only. */
    predicate TeamsSorted()
      reads this`whitePieces, this`blackPieces
    {
      && (forall p | p in whitePieces :: p.team == White)
      && (forall p | p in blackPieces :: p.team == Black)
    }

    /**
     * A listed piece stands on the board in the cell of its coordinates, keeps its
     * starting squares while unmoved, and, if a pawn, has passant squares that
     * follow its file.
     */
    ghost predicate Settled(p: Piece)
      requires IsGrid(grid)
      reads this`grid, grid, p`x, p`y, p`moved, p`leftPassant, p`rightPassant, p`leftPassantEnd, p`rightPassantEnd
    {
      InBounds(p.Position()) && grid[p.y, p.x] == p && AtHome(p) && (p.kind == Pawn ==> p.PassantFollowsX())
    }

    /** An occupied cell holds a listed piece whose coordinates are that cell. */
    ghost predicate CellListed(x: int, y: int)
      requires IsGrid(grid) && InBounds(Square(x, y))
      reads this`grid, this`allPieces, grid, (set p | p in allPieces)`x, (set p | p in allPieces)`y
    {
      grid[y, x] != null ==> grid[y, x] in allPieces && grid[y, x].x == x && grid[y, x].y == y
    }

    /**
     * The grid and the rosters agree: every listed piece stands on the board at its
     * own coordinates, every occupied cell holds a listed piece whose coordinates
     * are that cell, no piece is listed twice, and `allPieces` lists exactly the
     * pieces of the two team rosters, each of which holds only its own team.
     */
    ghost predicate Consistent()
      reads this`grid, this`whitePieces, this`blackPieces, this`allPieces, this`whiteKing, this`blackKing
      reads grid, (set p | p in allPieces)`x, (set p | p in allPieces)`y, (set p | p in allPieces)`moved
      reads (set p | p in allPieces)`leftPassant, (set p | p in allPieces)`rightPassant, (set p | p in allPieces)`leftPassantEnd, (set p | p in allPieces)`rightPassantEnd
    {
      && IsGrid(grid)
      && Kings()
      && Distinct(whitePieces) && Distinct(blackPieces) && Distinct(allPieces)
      && TeamsSorted()
      && (forall p | p in whitePieces :: p in allPieces)
      && (forall p | p in blackPieces :: p in allPieces)
      && (forall p | p in allPieces :: p in whitePieces || p in blackPieces)
      && (forall p | p in allPieces :: Settled(p))
      && (forall y, x | 0 <= y < 8 && 0 <= x < 8 :: CellListed(x, y))
    }

    /** The roster half of Board.kill: `list.remove` on the rosters that hold the piece. */
    method Unlist(victim: Piece)
      requires victim in allPieces
      modifies this`whitePieces, this`blackPieces, this`allPieces
      ensures whitePieces == Without(old(whitePieces), victim)
      ensures blackPieces == Without(old(blackPieces), victim)
      ensures allPieces == Without(old(allPieces), victim)
    {
      if victim in blackPieces { blackPieces := Without(blackPieces, victim); }
      if victim in whitePieces { whitePieces := Without(whitePieces, victim); }
      allPieces := Without(allPieces, victim);
    }

    /** Empties one cell of the grid. */
    method ClearCell(x: int, y: int)
      requires IsGrid(grid) && InBounds(Square(x, y))
      modifies grid
      ensures grid[y, x] == null
      ensures forall j, i | 0 <= j < 8 && 0 <= i < 8 && (j != y || i != x) :: grid[j, i] == old(grid[j, i])
    {
      grid[y, x] := null;
    }

    /** Trades the contents of two cells of the grid. */
    method SwapCells(x0: int, y0: int, x1: int, y1: int)
      requires IsGrid(grid) && InBounds(Square(x0, y0)) && InBounds(Square(x1, y1))
      modifies grid
      ensures grid[y1, x1] == old(grid[y0, x0]) && grid[y0, x0] == old(grid[y1, x1])
      ensures forall j, i | 0 <= j < 8 && 0 <= i < 8 && (j, i) != (y0, x0) && (j, i) != (y1, x1) ::
        grid[j, i] == old(grid[j, i])
    {
      grid[y0, x0], grid[y1, x1] := grid[y1, x1], grid[y0, x0];
    }

    /**
     * Board.kill: nothing happens on an empty or off-board square; otherwise the
     * piece leaves its roster, `allPieces` and its cell, and capturing a king makes
     * the side to move the winner.
     */
    method Kill(x: int, y: int)
      requires IsGrid(grid)
      requires Get(grid, Square(x, y)) != null ==> Get(grid, Square(x, y)) in allPieces
      modifies this`whitePieces, this`blackPieces, this`allPieces, this`winner, grid
      ensures old(Get(grid, Square(x, y))) == null ==>
        && unchanged(grid) && winner == old(winner)
        && whitePieces == old(whitePieces) && blackPieces == old(blackPieces) && allPieces == old(allPieces)
      ensures old(Get(grid, Square(x, y))) != null ==>
        var victim := old(Get(grid, Square(x, y)));
        && grid[y, x] == null
        && (forall j, i | 0 <= j < 8 && 0 <= i < 8 && (j != y || i != x) :: grid[j, i] == old(grid[j, i]))
        && whitePieces == Without(old(whitePieces), victim)
        && blackPieces == Without(old(blackPieces), victim)
        && allPieces == Without(old(allPieces), victim)
        && winner == if victim.kind == King then Some(current) else old(winner)
      ensures old(Consistent()) ==> Consistent() && Get(grid, Square(x, y)) == null
    {
      var victim := Get(grid, Square(x, y));
      if victim == null { return; }
      Unlist(victim);
      ClearCell(x, y);
      if victim.kind == King { winner := Some(current); }
      if old(Consistent()) {
        KillKeepsConsistent(Square(x, y));
      }
    }

    /** What Kill leaves behind is consistent again. */
    twostate lemma KillKeepsConsistent(at: Square)
      requires old(Consistent()) && InBounds(at) && old(grid[at.y, at.x]) != null
      requires unchanged(this`grid, this`whiteKing, this`blackKing)
      requires grid[at.y, at.x] == null
      requires forall j, i | 0 <= j < 8 && 0 <= i < 8 && (j != at.y || i != at.x) :: grid[j, i] == old(grid[j, i])
      requires whitePieces == Without(old(whitePieces), old(grid[at.y, at.x]))
      requires blackPieces == Without(old(blackPieces), old(grid[at.y, at.x]))
      requires allPieces == Without(old(allPieces), old(grid[at.y, at.x]))
      requires forall p: Piece | p in old(allPieces) ::
        unchanged(p`x, p`y, p`moved, p`leftPassant, p`rightPassant, p`leftPassantEnd, p`rightPassantEnd)
      ensures Consistent()
    {
      var victim := old(grid[at.y, at.x]);
      assert old(CellListed(at.x, at.y));
      forall p | p in allPieces
        ensures Settled(p)
      {
        assert p in old(allPieces) && p != victim;
        assert old(Settled(p));
      }
      forall j, i | 0 <= j < 8 && 0 <= i < 8
        ensures CellListed(i, j)
      {
        assert old(CellListed(i, j));
      }
    }

    /**
     * Board.move: the two cells swap contents and the piece from the first cell
     * moves to the second square. With the second cell empty, the grid and the
     * rosters stay consistent.
     */
    method Move(x0: int, y0: int, x1: int, y1: int)
      requires IsGrid(grid)
      requires InBounds(Square(x0, y0)) && InBounds(Square(x1, y1))
      requires grid[y0, x0] != null
      modifies grid, Resident(grid, Square(x0, y0))`x, Resident(grid, Square(x0, y0))`y
      modifies Resident(grid, Square(x0, y0))`selected, Resident(grid, Square(x0, y0))`moved
      modifies Resident(grid, Square(x0, y0))`leftPassant, Resident(grid, Square(x0, y0))`rightPassant
      modifies Resident(grid, Square(x0, y0))`leftPassantEnd, Resident(grid, Square(x0, y0))`rightPassantEnd
      ensures grid[y1, x1] == old(grid[y0, x0]) && grid[y0, x0] == old(grid[y1, x1])
      ensures forall j, i | 0 <= j < 8 && 0 <= i < 8 && (j, i) != (y0, x0) && (j, i) != (y1, x1) ::
        grid[j, i] == old(grid[j, i])
      ensures var p := old(grid[y0, x0]);
        && p.Position() == Square(x1, y1) && !p.selected && p.moved
        && (p.kind == Pawn ==> p.PassantFollowsX())
      ensures old(Consistent()) && old(grid[y1, x1]) == null ==> Consistent()
    {
      var piece := grid[y0, x0];
      SwapCells(x0, y0, x1, y1);
      piece.Move(Square(x1, y1));
      if old(Consistent()) && old(grid[y1, x1]) == null {
        MoveKeepsConsistent(Shift(Square(x0, y0), Square(x1, y1)));
      }
    }

    /** A piece moved onto an empty square leaves the board consistent. */
    twostate lemma MoveKeepsConsistent(step: Shift)
      requires old(Consistent()) && InBounds(step.from) && InBounds(step.to)
      requires old(grid[step.from.y, step.from.x]) != null && old(grid[step.to.y, step.to.x]) == null
      requires unchanged(this`grid, this`whiteKing, this`blackKing, this`whitePieces, this`blackPieces, this`allPieces)
      requires grid[step.to.y, step.to.x] == old(grid[step.from.y, step.from.x]) && grid[step.from.y, step.from.x] == null
      requires forall j, i | 0 <= j < 8 && 0 <= i < 8 && Square(i, j) != step.from && Square(i, j) != step.to ::
        grid[j, i] == old(grid[j, i])
      requires var piece := old(grid[step.from.y, step.from.x]);
        piece.Position() == step.to && piece.moved && (piece.kind == Pawn ==> piece.PassantFollowsX())
      requires forall p: Piece | p in old(allPieces) && p != old(grid[step.from.y, step.from.x]) ::
        unchanged(p`x, p`y, p`moved, p`leftPassant, p`rightPassant, p`leftPassantEnd, p`rightPassantEnd)
      ensures Consistent()
    {
      var piece := old(grid[step.from.y, step.from.x]);
      assert old(CellListed(step.from.x, step.from.y));
      forall p | p in allPieces
        ensures Settled(p)
      {
        if p != piece {
          assert old(Settled(p));
        }
      }
      forall j, i | 0 <= j < 8 && 0 <= i < 8
        ensures CellListed(i, j)
      {
        assert old(CellListed(i, j));
      }
    }
    /** What move generation asks of the board: a grid, two kings and no piece visited twice. */
    predicate Ready()
      reads this`grid, this`whitePieces, this`blackPieces, this`whiteKing, this`blackKing
    {
      IsGrid(grid) && Kings() && Distinct((whitePieces + blackPieces))
    }

    /** A consistent board is ready for move generation: each roster holds its own team. */
    lemma ConsistentReady()
      requires Consistent()
      ensures Ready()
    {
      forall i, j | 0 <= i < j < |(whitePieces + blackPieces)|
        ensures (whitePieces + blackPieces)[i] != (whitePieces + blackPieces)[j]
      {
        if j >= |whitePieces| && i < |whitePieces| {
          assert (whitePieces + blackPieces)[i].team == White && (whitePieces + blackPieces)[j].team == Black;
        }
      }
    }

    /** A board whose grid, rosters and listed pieces' squares are untouched stays consistent. */
    twostate lemma ConsistentKept()
      requires old(Consistent())
      requires unchanged(this`grid, this`whitePieces, this`blackPieces, this`allPieces, this`whiteKing, this`blackKing)
      requires unchanged(grid)
      requires forall p | p in allPieces ::
        unchanged(p`x, p`y, p`moved, p`leftPassant, p`rightPassant, p`leftPassantEnd, p`rightPassantEnd)
      ensures Consistent()
    {
      assert forall p | p in allPieces :: old(Settled(p));
      assert forall y, x | 0 <= y < 8 && 0 <= x < 8 :: old(CellListed(x, y));
    }

    /** ConsistentKept, for a board that may not have been consistent before. */
    twostate lemma ConsistentKeptIfHeld()
      requires unchanged(this`grid, this`whitePieces, this`blackPieces, this`allPieces, this`whiteKing, this`blackKing)
      requires unchanged(grid)
      requires forall p | p in allPieces ::
        unchanged(p`x, p`y, p`moved, p`leftPassant, p`rightPassant, p`leftPassantEnd, p`rightPassantEnd)
      ensures old(Consistent()) ==> Consistent()
    {
      if old(Consistent()) {
        ConsistentKept();
      }
    }

    /**
     * The gathering half of get_possible_moves, once every piece has recalculated:
     * each side's list gathers its pieces' moves and each king's check mark follows
     * the other side's list.
     */
    method CheckKings() returns (ghost whiteLists: seq<seq<Square>>, ghost blackLists: seq<seq<Square>>)
      requires Kings()
      modifies whiteKing`inCheck, blackKing`inCheck, this`whiteMoves, this`blackMoves
      ensures |whiteLists| == |whitePieces| && forall i | 0 <= i < |whitePieces| :: whiteLists[i] == whitePieces[i].possibleMoves
      ensures |blackLists| == |blackPieces| && forall i | 0 <= i < |blackPieces| :: blackLists[i] == blackPieces[i].possibleMoves
      ensures whiteMoves == Concat(whiteLists) && blackMoves == Concat(blackLists)
      ensures whiteKing.inCheck == (whiteKing.Position() in blackMoves)
      ensures blackKing.inCheck == (blackKing.Position() in whiteMoves)
    {
      whiteMoves, whiteLists := GatherMoves(whitePieces);
      blackMoves, blackLists := GatherMoves(blackPieces);
      whiteKing.inCheck := whiteKing.Position() in blackMoves;
      blackKing.inCheck := blackKing.Position() in whiteMoves;
    }

    /** The blocking half of get_possible_moves: white's stuck pieces, then black's. */
    method BlockSides(whiteInCheck: bool, blackInCheck: bool)
      requires Distinct((whitePieces + blackPieces))
      modifies Members(whitePieces)`blocked, Members(blackPieces)`blocked
      ensures forall i | 0 <= i < |whitePieces| ::
        whitePieces[i].blocked == (old(whitePieces[i].blocked) || (whiteInCheck && whitePieces[i].possibleMoves == []))
      ensures forall i | 0 <= i < |blackPieces| ::
        blackPieces[i].blocked == (old(blackPieces[i].blocked) || (blackInCheck && blackPieces[i].possibleMoves == []))
      ensures forall i | 0 <= i < |whitePieces + blackPieces| ::
        (whitePieces + blackPieces)[i].CurrentFlags() == old((whitePieces + blackPieces)[i].CurrentFlags())
    {
      DistinctParts(whitePieces, blackPieces);
      BlockStuck(whitePieces, whiteInCheck);
      BlockStuck(blackPieces, blackInCheck);
    }

    /**
     * The recalculating half of get_possible_moves, get_white_moves followed by
     * get_black_moves: every white piece, then every black piece, recalculates its
     * moves from the board as it stood and filters them through check_legal.
     */
    method RecalculateSides()
      requires Ready()
      modifies Members(whitePieces + blackPieces)`possibleMoves, Members(whitePieces + blackPieces)`canLeftPassant
      modifies Members(whitePieces + blackPieces)`canRightPassant
      modifies Members(whitePieces + blackPieces)`canLeftCastling, Members(whitePieces + blackPieces)`canRightCastling
      ensures forall i {:trigger (whitePieces + blackPieces)[i].Generated(old(ViewOf(grid)), old((whitePieces + blackPieces)[i].State()), legal, true)} | 0 <= i < |whitePieces + blackPieces| ::
        (whitePieces + blackPieces)[i].possibleMoves == (whitePieces + blackPieces)[i].Generated(old(ViewOf(grid)), old((whitePieces + blackPieces)[i].State()), legal, true)
      ensures forall i {:trigger (whitePieces + blackPieces)[i].NextFlags(old(ViewOf(grid)), old((whitePieces + blackPieces)[i].State()), old((whitePieces + blackPieces)[i].CurrentFlags()))} | 0 <= i < |whitePieces + blackPieces| ::
        (whitePieces + blackPieces)[i].CurrentFlags() == (whitePieces + blackPieces)[i].NextFlags(old(ViewOf(grid)), old((whitePieces + blackPieces)[i].State()), old((whitePieces + blackPieces)[i].CurrentFlags()))
    {
      var view := ViewOf(grid);
      var _, _ := RecalculateAll(whitePieces + blackPieces, view, legal, true);
    }

    /**
     * Board.get_white_moves / get_black_moves: every piece of the team, in roster
     * order, recalculates its moves from the board as it stood, filtered through
     * check_legal only when asked; the result lists all of them in that order.
     */
    method GetTeamMoves(team: Team, checkLegal: bool) returns (moves: seq<Square>, ghost lists: seq<seq<Square>>)
      requires Ready()
      modifies Members(TeamPieces(team))`possibleMoves, Members(TeamPieces(team))`canLeftPassant
      modifies Members(TeamPieces(team))`canRightPassant
      modifies Members(TeamPieces(team))`canLeftCastling, Members(TeamPieces(team))`canRightCastling
      ensures var ps := TeamPieces(team);
        && |lists| == |ps| && moves == Concat(lists)
        && forall i | 0 <= i < |ps| :: lists[i] == ps[i].possibleMoves
      ensures var ps := TeamPieces(team);
        forall i {:trigger ps[i].Generated(old(ViewOf(grid)), old(ps[i].State()), legal, checkLegal)} | 0 <= i < |ps| ::
          ps[i].possibleMoves == ps[i].Generated(old(ViewOf(grid)), old(ps[i].State()), legal, checkLegal)
    {
      DistinctParts(whitePieces, blackPieces);
      var view := ViewOf(grid);
      moves, lists := RecalculateAll(TeamPieces(team), view, legal, checkLegal);
    }

    /**
     * King.is_legal, with the king's enemy taken to be the other team: the
     * enemy's moves are regenerated without check_legal, and a move is legal
     * exactly when it is not among them.
     */
    method IsLegal(king: Piece, move: Square) returns (ok: bool, ghost lists: seq<seq<Square>>)
      requires Ready()
      modifies Members(TeamPieces(king.team.Enemy()))`possibleMoves, Members(TeamPieces(king.team.Enemy()))`canLeftPassant
      modifies Members(TeamPieces(king.team.Enemy()))`canRightPassant
      modifies Members(TeamPieces(king.team.Enemy()))`canLeftCastling, Members(TeamPieces(king.team.Enemy()))`canRightCastling
      ensures var ps := TeamPieces(king.team.Enemy());
        && |lists| == |ps|
        && (forall i {:trigger ps[i].Generated(old(ViewOf(grid)), old(ps[i].State()), legal, false)} | 0 <= i < |ps| ::
              lists[i] == ps[i].Generated(old(ViewOf(grid)), old(ps[i].State()), legal, false))
        && (ok <==> forall i | 0 <= i < |ps| :: move !in lists[i])
    {
      var moves;
      moves, lists := GetTeamMoves(king.team.Enemy(), false);
      ok := move !in moves;
    }

    /**
     * The surveying half of get_possible_moves, once every piece has recalculated:
     * each side's list gathers its pieces' moves, a king is in check exactly when
     * its square is among the other side's moves, and while a king is in check the
     * pieces of its side with no move are marked blocked.
     */
    method Survey() returns (ghost whiteLists: seq<seq<Square>>, ghost blackLists: seq<seq<Square>>)
      requires Ready()
      modifies Members(whitePieces)`blocked, Members(blackPieces)`blocked
      modifies whiteKing`inCheck, blackKing`inCheck, this`whiteMoves, this`blackMoves
      ensures |whiteLists| == |whitePieces| && forall i | 0 <= i < |whitePieces| :: whiteLists[i] == whitePieces[i].possibleMoves
      ensures |blackLists| == |blackPieces| && forall i | 0 <= i < |blackPieces| :: blackLists[i] == blackPieces[i].possibleMoves
      ensures whiteMoves == Concat(whiteLists) && blackMoves == Concat(blackLists)
      ensures whiteKing.inCheck == (whiteKing.Position() in blackMoves)
      ensures blackKing.inCheck == (blackKing.Position() in whiteMoves)
      ensures forall i | 0 <= i < |whitePieces| ::
        whitePieces[i].blocked == (old(whitePieces[i].blocked) || (whiteKing.inCheck && whitePieces[i].possibleMoves == []))
      ensures forall i | 0 <= i < |blackPieces| ::
        blackPieces[i].blocked == (old(blackPieces[i].blocked) || (blackKing.inCheck && blackPieces[i].possibleMoves == []))
      ensures forall i | 0 <= i < |whitePieces + blackPieces| ::
        (whitePieces + blackPieces)[i].CurrentFlags() == old((whitePieces + blackPieces)[i].CurrentFlags())
    {
      whiteLists, blackLists := CheckKings();
      BlockSides(whiteKing.inCheck, blackKing.inCheck);
    }

    /** Each king is marked in check exactly when the other side's moves reach its square. */
    predicate ChecksMarked()
      reads this`whiteKing, this`blackKing, this`whiteMoves, this`blackMoves, whiteKing, blackKing
    {
      && whiteKing.inCheck == (whiteKing.Position() in blackMoves)
      && blackKing.inCheck == (blackKing.Position() in whiteMoves)
    }

    /**
     * Every listed piece holds the moves it generates, filtered through
     * check_legal, on `view` from its entry of `stances`.
     */
    ghost predicate Regenerated(view: View, stances: seq<Stance>)
      reads this`whitePieces, this`blackPieces, Members(whitePieces + blackPieces)
    {
      |stances| == |whitePieces + blackPieces| &&
      forall i | 0 <= i < |whitePieces + blackPieces| ::
        (whitePieces + blackPieces)[i].possibleMoves == (whitePieces + blackPieces)[i].Generated(view, stances[i], legal, true)
    }

    /**
     * Board.get_possible_moves: every white piece, then every black piece,
     * recalculates its moves from the board as it stood and filters them through
     * check_legal; each side's list gathers its pieces' moves; a king is in check
     * exactly when its square is among the other side's moves; and while a king is
     * in check, the pieces of its side with no move are marked blocked. Gathering
     * a side's list changes no piece, so both lists are gathered after both
     * sides have recalculated.
     */
    method GetPossibleMoves() returns (ghost whiteLists: seq<seq<Square>>, ghost blackLists: seq<seq<Square>>)
      requires Ready()
      modifies Members(whitePieces + blackPieces)`possibleMoves, Members(whitePieces + blackPieces)`canLeftPassant, Members(whitePieces + blackPieces)`canRightPassant
      modifies Members(whitePieces + blackPieces)`canLeftCastling, Members(whitePieces + blackPieces)`canRightCastling
      modifies Members(whitePieces)`blocked, Members(blackPieces)`blocked
      modifies whiteKing`inCheck, blackKing`inCheck, this`whiteMoves, this`blackMoves
      ensures Regenerated(old(ViewOf(grid)), old(StancesEach(whitePieces + blackPieces)))
      ensures forall i {:trigger (whitePieces + blackPieces)[i].NextFlags(old(ViewOf(grid)), old((whitePieces + blackPieces)[i].State()), old((whitePieces + blackPieces)[i].CurrentFlags()))} | 0 <= i < |whitePieces + blackPieces| ::
        (whitePieces + blackPieces)[i].CurrentFlags() == (whitePieces + blackPieces)[i].NextFlags(old(ViewOf(grid)), old((whitePieces + blackPieces)[i].State()), old((whitePieces + blackPieces)[i].CurrentFlags()))
      ensures |whiteLists| == |whitePieces| && forall i | 0 <= i < |whitePieces| :: whiteLists[i] == whitePieces[i].possibleMoves
      ensures |blackLists| == |blackPieces| && forall i | 0 <= i < |blackPieces| :: blackLists[i] == blackPieces[i].possibleMoves
      ensures whiteMoves == Concat(whiteLists) && blackMoves == Concat(blackLists)
      ensures whiteKing.inCheck == (whiteKing.Position() in blackMoves)
      ensures blackKing.inCheck == (blackKing.Position() in whiteMoves)
      ensures forall i | 0 <= i < |whitePieces| ::
        whitePieces[i].blocked == (old(whitePieces[i].blocked) || (whiteKing.inCheck && whitePieces[i].possibleMoves == []))
      ensures forall i | 0 <= i < |blackPieces| ::
        blackPieces[i].blocked == (old(blackPieces[i].blocked) || (blackKing.inCheck && blackPieces[i].possibleMoves == []))
    {
      RecalculateSides();
      whiteLists, blackLists := Survey();
    }

    /**
     * Board.change_turn on a ready board: the side to move passes to the other
     * team, every piece's moves are regenerated, and when the new side to move has
     * no move at all the side that just moved wins. The pieces of the side that
     * moved are reset first, which does nothing: no piece class defines reset.
     */
    method PassTurn() returns (ghost whiteLists: seq<seq<Square>>, ghost blackLists: seq<seq<Square>>)
      requires Ready()
      modifies Members(whitePieces + blackPieces)`possibleMoves, Members(whitePieces + blackPieces)`canLeftPassant, Members(whitePieces + blackPieces)`canRightPassant
      modifies Members(whitePieces + blackPieces)`canLeftCastling, Members(whitePieces + blackPieces)`canRightCastling
      modifies Members(whitePieces)`blocked, Members(blackPieces)`blocked
      modifies whiteKing`inCheck, blackKing`inCheck, this`whiteMoves, this`blackMoves, this`current, this`winner
      ensures current == old(current).Enemy()
      ensures |whiteLists| == |whitePieces| && forall i | 0 <= i < |whitePieces| :: whiteLists[i] == whitePieces[i].possibleMoves
      ensures |blackLists| == |blackPieces| && forall i | 0 <= i < |blackPieces| :: blackLists[i] == blackPieces[i].possibleMoves
      ensures whiteMoves == Concat(whiteLists) && blackMoves == Concat(blackLists)
      ensures Regenerated(old(ViewOf(grid)), old(StancesEach(whitePieces + blackPieces)))
      ensures whiteKing.inCheck == (whiteKing.Position() in blackMoves)
      ensures blackKing.inCheck == (blackKing.Position() in whiteMoves)
      ensures forall i | 0 <= i < |whitePieces| ::
        whitePieces[i].blocked == (old(whitePieces[i].blocked) || (whiteKing.inCheck && whitePieces[i].possibleMoves == []))
      ensures forall i | 0 <= i < |blackPieces| ::
        blackPieces[i].blocked == (old(blackPieces[i].blocked) || (blackKing.inCheck && blackPieces[i].possibleMoves == []))
      ensures winner == if TeamMoves(current) == [] then Some(old(current)) else old(winner)
    {
      ghost var view, stances := ViewOf(grid), StancesEach(whitePieces + blackPieces);
      var last := current;
      current := last.Enemy();
      assert OnGrid(grid) == old(OnGrid(grid));
      assert ViewOf(grid) == view;
      assert StancesEach(whitePieces + blackPieces) == stances;
      whiteLists, blackLists := GetPossibleMoves();
      assert Regenerated(view, stances);
      if TeamMoves(current) == [] {
        winner := Some(last);
      }
    }

    /** Board.change_turn on a ready board; a board consistent before stays consistent. */
    method ChangeTurn() returns (ghost whiteLists: seq<seq<Square>>, ghost blackLists: seq<seq<Square>>)
      requires Ready()
      modifies Members(whitePieces + blackPieces)`possibleMoves, Members(whitePieces + blackPieces)`canLeftPassant, Members(whitePieces + blackPieces)`canRightPassant
      modifies Members(whitePieces + blackPieces)`canLeftCastling, Members(whitePieces + blackPieces)`canRightCastling
      modifies Members(whitePieces)`blocked, Members(blackPieces)`blocked
      modifies whiteKing`inCheck, blackKing`inCheck, this`whiteMoves, this`blackMoves, this`current, this`winner
      ensures old(Consistent()) ==> Consistent()
      ensures current == old(current).Enemy()
      ensures |whiteLists| == |whitePieces| && forall i | 0 <= i < |whitePieces| :: whiteLists[i] == whitePieces[i].possibleMoves
      ensures |blackLists| == |blackPieces| && forall i | 0 <= i < |blackPieces| :: blackLists[i] == blackPieces[i].possibleMoves
      ensures whiteMoves == Concat(whiteLists) && blackMoves == Concat(blackLists)
      ensures Regenerated(old(ViewOf(grid)), old(StancesEach(whitePieces + blackPieces)))
      ensures whiteKing.inCheck == (whiteKing.Position() in blackMoves)
      ensures blackKing.inCheck == (blackKing.Position() in whiteMoves)
      ensures forall i | 0 <= i < |whitePieces| ::
        whitePieces[i].blocked == (old(whitePieces[i].blocked) || (whiteKing.inCheck && whitePieces[i].possibleMoves == []))
      ensures forall i | 0 <= i < |blackPieces| ::
        blackPieces[i].blocked == (old(blackPieces[i].blocked) || (blackKing.inCheck && blackPieces[i].possibleMoves == []))
      ensures winner == if TeamMoves(current) == [] then Some(old(current)) else old(winner)
    {
      ghost var view, stances := ViewOf(grid), StancesEach(whitePieces + blackPieces);
      whiteLists, blackLists := PassTurn();
      assert Regenerated(view, stances);
      ConsistentKeptIfHeld();
    }

    /** Board.update_next_turn: the piece on a square remembers an assignment for its next check_flag. */
    method UpdateNextTurn(x: int, y: int, attribute: Attribute, value: bool)
      requires IsGrid(grid) && InBounds(Square(x, y)) && grid[y, x] != null
      modifies Resident(grid, Square(x, y))`flag
      ensures grid[y, x].flag == Some(Assignment(attribute, value))
    {
      grid[y, x].UpdateNextTurn(attribute, value);
    }

    /** Every occupied cell holds a piece of `S`. */
    ghost predicate Within(S: set<Piece>)
      requires IsGrid(grid)
      reads this`grid, grid
    {
      forall y, x | 0 <= y < 8 && 0 <= x < 8 && grid[y, x] != null :: grid[y, x] in S
    }

    /** On a consistent board every occupied cell holds a listed piece. */
    lemma ConsistentWithin()
      requires Consistent()
      ensures Within(Members(allPieces))
    {
      forall y, x | 0 <= y < 8 && 0 <= x < 8 && grid[y, x] != null
        ensures grid[y, x] in Members(allPieces)
      {
        assert CellListed(x, y);
      }
    }

    /** The unblocked piece of the side to move on a square, if there is one. */
    ghost function Pick(at: Square): Piece?
      requires IsGrid(grid)
      reads this`grid, grid, this`current, Resident(grid, at)`blocked
    {
      var p := Get(grid, at);
      if p != null && p.team == current && !p.blocked then p else null
    }

    /** On a consistent board the piece a click picks is listed for the side to move and stands there. */
    lemma PickListed(at: Square)
      requires Consistent()
      ensures Pick(at) != null ==> Pick(at) in TeamPieces(current) && Pick(at).Position() == at
    {
      if Pick(at) != null {
        assert CellListed(at.x, at.y);
      }
    }

    /**
     * The selection loop of Board.click, with nothing selected: every piece of the
     * side to move, in roster order, is marked selected exactly when it stands on
     * the clicked square, and the first such piece that is not blocked becomes
     * the selection, recalculates its moves on the board as it stands and filters
     * them through check_legal, which ends the loop. So the selection becomes the
     * unblocked piece of the side to move on that square, or stays empty.
     */
    method SelectAt(at: Square)
      requires Consistent() && selected == null
      modifies this`selected, Members(TeamPieces(current))`selected
      modifies Members(TeamPieces(current))`possibleMoves, Members(TeamPieces(current))`canLeftPassant
      modifies Members(TeamPieces(current))`canRightPassant
      modifies Members(TeamPieces(current))`canLeftCastling, Members(TeamPieces(current))`canRightCastling
      ensures Consistent() && selected == Pick(at)
      ensures selected != null ==> var p := selected;
        && p in TeamPieces(current) && p.selected
        && p.possibleMoves == p.Generated(old(ViewOf(grid)), old(p.State()), legal, true)
        && p.CurrentFlags() == p.NextFlags(old(ViewOf(grid)), old(p.State()), old(p.CurrentFlags()))
    {
      ChooseAt(at);
      ConsistentKept();
    }

    /** SelectAt short of the board's consistency, which it does not touch. */
    method ChooseAt(at: Square)
      requires Consistent() && selected == null
      modifies this`selected, Members(TeamPieces(current))`selected
      modifies Members(TeamPieces(current))`possibleMoves, Members(TeamPieces(current))`canLeftPassant
      modifies Members(TeamPieces(current))`canRightPassant
      modifies Members(TeamPieces(current))`canLeftCastling, Members(TeamPieces(current))`canRightCastling
      ensures selected == Pick(at)
      ensures selected != null ==> var p := selected;
        && p in TeamPieces(current) && p.selected
        && p.possibleMoves == p.Generated(old(ViewOf(grid)), old(p.State()), legal, true)
        && p.CurrentFlags() == p.NextFlags(old(ViewOf(grid)), old(p.State()), old(p.CurrentFlags()))
    {
      PickListed(at);
      var ps, view := TeamPieces(current), ViewOf(grid);
      var k := MarkClicked(ps, at);
      if k < |ps| {
        Choose(ps[k], view);
        assert ps[k] in allPieces && old(Settled(ps[k]));
      }
    }

    /**
     * The selection at the end of Board.click: the piece is selected and
     * recalculates its moves on the board's view, which marking pieces selected
     * does not change.
     */
    method Choose(p: Piece, view: View)
      modifies this`selected, p`possibleMoves, p`canLeftPassant, p`canRightPassant
      modifies p`canLeftCastling, p`canRightCastling
      ensures selected == p
      ensures p.possibleMoves == p.Generated(view, old(p.State()), legal, true)
      ensures p.CurrentFlags() == p.NextFlags(view, old(p.State()), old(p.CurrentFlags()))
    {
      p.Recalculate(view, legal, true);
      selected := p;
    }

    /**
     * The end of each move branch of Board.click: change_turn, then the selection
     * is cleared. A board consistent before stays consistent.
     */
    method Conclude(ghost mover: Piece)
      requires Ready()
      modifies Members(whitePieces + blackPieces)`possibleMoves, Members(whitePieces + blackPieces)`canLeftPassant, Members(whitePieces + blackPieces)`canRightPassant
      modifies Members(whitePieces + blackPieces)`canLeftCastling, Members(whitePieces + blackPieces)`canRightCastling
      modifies Members(whitePieces)`blocked, Members(blackPieces)`blocked
      modifies whiteKing`inCheck, blackKing`inCheck, this`whiteMoves, this`blackMoves, this`current, this`winner
      modifies this`selected
      ensures current == old(current).Enemy() && selected == null
      ensures winner == if TeamMoves(current) == [] then Some(old(current)) else old(winner)
      ensures Regenerated(old(ViewOf(grid)), old(StancesEach(whitePieces + blackPieces)))
      ensures ChecksMarked()
      ensures Ready() && (old(Consistent()) ==> Consistent())
      ensures unchanged(this`grid, this`allPieces, grid)
      ensures unchanged(mover`x, mover`y, mover`moved, mover`selected, mover`flag, mover`movedTwice)
    {
      // change_turn never reads the selection, so clearing it first changes nothing
      ghost var view, stances := ViewOf(grid), StancesEach(whitePieces + blackPieces);
      selected := null;
      assert OnGrid(grid) == old(OnGrid(grid));
      assert ViewOf(grid) == view;
      assert StancesEach(whitePieces + blackPieces) == stances;
      assert Consistent() == old(Consistent());
      var _, _ := ChangeTurn();
    }

    /**
     * Board.kill on a consistent board: it stays consistent, every occupied cell
     * still holds a piece that was listed before, and the rosters only shrink.
     */
    method Strike(capture: Square)
      requires Consistent()
      modifies this`whitePieces, this`blackPieces, this`allPieces, this`winner, grid
      ensures Get(grid, capture) == null
      ensures forall j, i | 0 <= j < 8 && 0 <= i < 8 && Square(i, j) != capture :: grid[j, i] == old(grid[j, i])
      ensures old(Get(grid, capture)) == null ==>
        && whitePieces == old(whitePieces) && blackPieces == old(blackPieces) && allPieces == old(allPieces)
        && winner == old(winner)
      ensures old(Get(grid, capture)) != null ==> var victim := old(Get(grid, capture));
        && whitePieces == Without(old(whitePieces), victim) && blackPieces == Without(old(blackPieces), victim)
        && allPieces == Without(old(allPieces), victim)
        && winner == if victim.kind == King then Some(current) else old(winner)
      ensures Consistent() && Ready() && Within(Members(old(allPieces)))
      ensures forall p | p in whitePieces + blackPieces :: p in old(allPieces)
    {
      if InBounds(capture) { assert CellListed(capture.x, capture.y); }
      Kill(capture.x, capture.y);
      ConsistentReady();
      assert Within(Members(old(allPieces))) by {
        forall j, i | 0 <= j < 8 && 0 <= i < 8 && grid[j, i] != null
          ensures grid[j, i] in Members(old(allPieces))
        {
          assert CellListed(i, j);
        }
      }
    }

    /**
     * The capture and the move of a click's move branch: Board.kill on one square,
     * then Board.move of whatever stands on the origin to the destination. Where
     * the origin or the destination is off the board, or the origin is empty once
     * the capture is made, the source would raise or index from the far end of a
     * row, and the model stops after the capture. A move onto the captured
     * square, or onto an empty one, leaves the board consistent.
     */
    method Capture(piece: Piece, capture: Square, to: Square) returns (halted: bool)
      requires Consistent() && piece in allPieces
      modifies this`whitePieces, this`blackPieces, this`allPieces, this`winner, grid
      modifies Members(allPieces)`x, Members(allPieces)`y, Members(allPieces)`selected, Members(allPieces)`moved
      modifies Members(allPieces)`leftPassant, Members(allPieces)`rightPassant
      modifies Members(allPieces)`leftPassantEnd, Members(allPieces)`rightPassantEnd
      ensures halted == (!InBounds(to) || old(piece.Position()) == capture)
      ensures Ready() && Within(Members(old(allPieces)))
      ensures forall p | p in whitePieces + blackPieces :: p in old(allPieces)
      ensures halted || capture == to || old(Get(grid, to)) == null ==> Consistent()
      ensures !halted ==> forall j, i | 0 <= j < 8 && 0 <= i < 8 ::
        grid[j, i] ==
          if Square(i, j) == to then piece
          else if Square(i, j) == old(piece.Position()) then (if capture == to then null else old(grid[to.y, to.x]))
          else if Square(i, j) == capture then null
          else old(grid[j, i])
      ensures !halted ==> piece.Position() == to && piece.moved && !piece.selected
      ensures var victim := old(Get(grid, capture));
        && (victim == null ==> whitePieces == old(whitePieces) && blackPieces == old(blackPieces))
        && (victim != null ==> whitePieces == Without(old(whitePieces), victim) && blackPieces == Without(old(blackPieces), victim))
        && allPieces == (if victim == null then old(allPieces) else Without(old(allPieces), victim))
        && winner == if victim != null && victim.kind == King then Some(current) else old(winner)
    {
      assert Settled(piece);
      assert InBounds(piece.Position()) && Get(grid, piece.Position()) == piece;
      Strike(capture);
      halted := Shove(Shift(piece.Position(), to), Members(old(allPieces)), null);
    }

    /**
     * Board.move where nothing is captured first: the castlings' rook moves, the
     * right castling's king move and the pawn's double step. Where either square is
     * off the board or the origin is empty, the model stops instead.
     */
    method Shove(step: Shift, ghost S: set<Piece>, ghost other: Piece?) returns (halted: bool)
      requires IsGrid(grid) && Within(S)
      modifies grid, S`x, S`y, S`selected, S`moved, S`leftPassant, S`rightPassant, S`leftPassantEnd, S`rightPassantEnd
      ensures other != null && other != old(Get(grid, step.from)) ==> unchanged(other`x, other`y, other`moved)
      ensures halted == !(InBounds(step.from) && InBounds(step.to) && old(Get(grid, step.from)) != null)
      ensures Within(S)
      ensures !halted ==> forall j, i | 0 <= j < 8 && 0 <= i < 8 ::
        grid[j, i] ==
          if Square(i, j) == step.to then old(grid[step.from.y, step.from.x])
          else if Square(i, j) == step.from then old(grid[step.to.y, step.to.x])
          else old(grid[j, i])
      ensures !halted ==> var p := old(grid[step.from.y, step.from.x]); p.Position() == step.to && p.moved && !p.selected
      ensures old(Consistent()) && (halted || old(Get(grid, step.to)) == null) ==> Consistent()
    {
      halted := !(InBounds(step.from) && InBounds(step.to)) || grid[step.from.y, step.from.x] == null;
      if halted { return; }
      Move(step.from.x, step.from.y, step.to.x, step.to.y);
    }

    /**
     * The possible-move and en passant branches of Board.click: whatever stands on
     * `capture` is killed, the selected piece moves to `to`, and the turn passes.
     * A possible move captures on its own destination; an en passant capture
     * takes the neighbouring pawn and lands behind it. The model stops where the
     * destination is off the board or the captured square is the piece's own.
     */
    method PlayCapture(piece: Piece, capture: Square, to: Square) returns (halted: bool)
      requires Consistent() && selected == piece && piece in allPieces
      modifies this, grid, Members(allPieces), whiteKing, blackKing
      ensures halted == (!InBounds(to) || old(piece.Position()) == capture)
      ensures Ready()
      ensures halted || capture == to || old(Get(grid, to)) == null ==> Consistent()
      ensures !halted ==> forall j, i | 0 <= j < 8 && 0 <= i < 8 ::
        grid[j, i] ==
          if Square(i, j) == to then piece
          else if Square(i, j) == old(piece.Position()) then (if capture == to then null else old(grid[to.y, to.x]))
          else if Square(i, j) == capture then null
          else old(grid[j, i])
      ensures !halted ==> piece.Position() == to && piece.moved && !piece.selected
      ensures !halted ==> var victim := old(Get(grid, capture));
        && allPieces == (if victim == null then old(allPieces) else Without(old(allPieces), victim))
        && current == old(current).Enemy() && selected == null && ChecksMarked()
        && winner == if TeamMoves(current) == [] || (victim != null && victim.kind == King) then Some(old(current)) else old(winner)
    {
      halted := Capture(piece, capture, to);
      if halted { return; }
      Conclude(piece);
    }

    /**
     * The king's move of a castling: to its landing square, the left castling
     * first killing whatever stands there. An unmoved king stands on the fifth
     * file of its home rank, so the castling's squares are that rank's.
     */
    method KingStep(king: Piece, left: bool) returns (halted: bool)
      requires Consistent() && king in allPieces && king.kind == King
      modifies this`whitePieces, this`blackPieces, this`allPieces, this`winner, grid
      modifies Members(allPieces)`x, Members(allPieces)`y, Members(allPieces)`selected, Members(allPieces)`moved
      modifies Members(allPieces)`leftPassant, Members(allPieces)`rightPassant
      modifies Members(allPieces)`leftPassantEnd, Members(allPieces)`rightPassantEnd
      ensures Ready() && Within(Members(old(allPieces))) && forall p | p in whitePieces + blackPieces :: p in old(allPieces)
      ensures !old(king.moved) ==> !halted && HomeCastling(old(king.Position()), CastlingOf(king, left), left)
      ensures var c, from := CastlingOf(king, left), old(king.Position());
        !halted ==> forall j, i | 0 <= j < 8 && 0 <= i < 8 ::
          grid[j, i] ==
            if Square(i, j) == c.landing then king
            else if Square(i, j) == from then (if left then null else old(Get(grid, c.landing)))
            else old(grid[j, i])
      ensures !halted ==> king.Position() == CastlingOf(king, left).landing && king.moved
      ensures var victim := if left then old(Get(grid, CastlingOf(king, left).landing)) else null;
        && allPieces == (if victim == null then old(allPieces) else Without(old(allPieces), victim))
        && winner == if victim != null && victim.kind == King then Some(current) else old(winner)
      ensures left || old(Get(grid, CastlingOf(king, left).landing)) == null ==> Consistent()
    {
      var c := CastlingOf(king, left);
      var from := king.Position();
      assert Settled(king);
      if left {
        halted := Capture(king, c.landing, c.landing);
      } else {
        ConsistentWithin();
        ConsistentReady();
        halted := Shove(Shift(from, c.landing), Members(allPieces), king);
      }
    }

    /**
     * The two moves of a castling: the king's, then the rook's from its corner to
     * the square beside the king. For an unmoved king the model stops only where
     * the rook's corner is empty.
     */
    method CastleMoves(king: Piece, left: bool) returns (halted: bool)
      requires Consistent() && king in allPieces && king.kind == King
      modifies this`whitePieces, this`blackPieces, this`allPieces, this`winner, grid
      modifies Members(allPieces)`x, Members(allPieces)`y, Members(allPieces)`selected, Members(allPieces)`moved
      modifies Members(allPieces)`leftPassant, Members(allPieces)`rightPassant
      modifies Members(allPieces)`leftPassantEnd, Members(allPieces)`rightPassantEnd
      ensures Ready() && forall p | p in whitePieces + blackPieces :: p in old(allPieces)
      ensures var c := CastlingOf(king, left);
        !old(king.moved) ==> halted == (old(grid[c.rook.y, c.rook.x]) == null)
      ensures var c, from := CastlingOf(king, left), old(king.Position());
        !halted && !old(king.moved) ==> forall j, i | 0 <= j < 8 && 0 <= i < 8 ::
          grid[j, i] ==
            if Square(i, j) == c.landing then king
            else if Square(i, j) == from then (if left then null else old(Get(grid, c.landing)))
            else if Square(i, j) == c.rookEnd then old(grid[c.rook.y, c.rook.x])
            else if Square(i, j) == c.rook then old(grid[c.rookEnd.y, c.rookEnd.x])
            else old(grid[j, i])
      ensures var c := CastlingOf(king, left);
        !halted && !old(king.moved) ==> var rook := old(grid[c.rook.y, c.rook.x]);
          && king.Position() == c.landing && king.moved
          && rook.Position() == c.rookEnd && rook.moved
      ensures var victim := if left then old(Get(grid, CastlingOf(king, left).landing)) else null;
        && allPieces == (if victim == null then old(allPieces) else Without(old(allPieces), victim))
        && winner == if victim != null && victim.kind == King then Some(current) else old(winner)
      ensures var c := CastlingOf(king, left);
        !old(king.moved) && (left || old(Get(grid, c.landing)) == null) && old(Get(grid, c.rookEnd)) == null ==> Consistent()
    {
      var c := CastlingOf(king, left);
      assert Settled(king);
      if !king.moved {
        assert CellListed(c.rook.x, c.rook.y);
      }
      halted := KingStep(king, left);
      if halted { return; }
      halted := Shove(Shift(c.rook, c.rookEnd), Members(old(allPieces)), king);
    }

    /**
     * The castling branches of Board.click: the king and the rook move as
     * CastleMoves says, and the turn passes.
     */
    method PlayCastle(king: Piece, left: bool) returns (halted: bool)
      requires Consistent() && selected == king && king in allPieces && king.kind == King
      modifies this, grid, Members(allPieces), whiteKing, blackKing
      ensures Ready()
      ensures var c := CastlingOf(king, left);
        !old(king.moved) ==> halted == (old(grid[c.rook.y, c.rook.x]) == null)
      ensures var c, from := CastlingOf(king, left), old(king.Position());
        !halted && !old(king.moved) ==> forall j, i | 0 <= j < 8 && 0 <= i < 8 ::
          grid[j, i] ==
            if Square(i, j) == c.landing then king
            else if Square(i, j) == from then (if left then null else old(Get(grid, c.landing)))
            else if Square(i, j) == c.rookEnd then old(grid[c.rook.y, c.rook.x])
            else if Square(i, j) == c.rook then old(grid[c.rookEnd.y, c.rookEnd.x])
            else old(grid[j, i])
      ensures !halted ==> var victim := if left then old(Get(grid, CastlingOf(king, left).landing)) else null;
        && current == old(current).Enemy() && selected == null && ChecksMarked()
        && winner == if TeamMoves(current) == [] || (victim != null && victim.kind == King) then Some(old(current)) else old(winner)
      ensures var c := CastlingOf(king, left);
        !old(king.moved) && (left || old(Get(grid, c.landing)) == null) && old(Get(grid, c.rookEnd)) == null ==> Consistent()
    {
      halted := CastleMoves(king, left);
      if halted { return; }
      Conclude(king);
    }

    /**
     * The first half of the double-step branch: the pawn notes that it moved two
     * squares, and update_next_turn on its square asks that the note be cleared at
     * its next check_flag.
     */
    method NoteDoubleStep(pawn: Piece)
      requires Consistent() && pawn in allPieces
      modifies pawn`movedTwice, pawn`flag
      ensures pawn.movedTwice && pawn.flag == Some(Assignment(MovedTwice, false))
      ensures Consistent()
    {
      assert Settled(pawn);
      pawn.movedTwice := true;
      UpdateNextTurn(pawn.x, pawn.y, MovedTwice, false);
      ConsistentKept();
    }

    /**
     * The moves of the double-step branch of Board.click: the pawn notes that it
     * moved two squares, asks update_next_turn to clear that note at its next
     * check_flag, and moves to its double-step square. The source does not look
     * at that square, so an occupied one is swapped with the pawn's; the board
     * stays consistent where it was empty.
     */
    method StepTwice(pawn: Piece) returns (halted: bool)
      requires Consistent() && pawn in allPieces
      modifies grid, Members(allPieces)`x, Members(allPieces)`y, Members(allPieces)`selected, Members(allPieces)`moved
      modifies Members(allPieces)`leftPassant, Members(allPieces)`rightPassant
      modifies Members(allPieces)`leftPassantEnd, Members(allPieces)`rightPassantEnd
      modifies pawn`movedTwice, pawn`flag
      ensures Ready()
      ensures halted == !InBounds(pawn.doubleMove)
      ensures pawn.movedTwice && pawn.flag == Some(Assignment(MovedTwice, false))
      ensures var from := old(pawn.Position());
        !halted ==> forall j, i | 0 <= j < 8 && 0 <= i < 8 ::
          grid[j, i] ==
            if Square(i, j) == pawn.doubleMove then pawn
            else if Square(i, j) == from then old(grid[pawn.doubleMove.y, pawn.doubleMove.x])
            else old(grid[j, i])
      ensures !halted ==> pawn.Position() == pawn.doubleMove && pawn.moved
      ensures old(Get(grid, pawn.doubleMove)) == null ==> Consistent()
    {
      NoteDoubleStep(pawn);
      ConsistentWithin();
      ConsistentReady();
      assert Settled(pawn);
      halted := Shove(Shift(pawn.Position(), pawn.doubleMove), Members(allPieces), null);
    }

    /** The double-step branch of Board.click: the pawn's StepTwice, then the turn passes. */
    method PlayDoubleStep(pawn: Piece) returns (halted: bool)
      requires Consistent() && selected == pawn && pawn in allPieces
      modifies this, grid, Members(allPieces), whiteKing, blackKing
      ensures Ready()
      ensures halted == !InBounds(pawn.doubleMove)
      ensures pawn.movedTwice && pawn.flag == Some(Assignment(MovedTwice, false))
      ensures var from := old(pawn.Position());
        !halted ==> forall j, i | 0 <= j < 8 && 0 <= i < 8 ::
          grid[j, i] ==
            if Square(i, j) == pawn.doubleMove then pawn
            else if Square(i, j) == from then old(grid[pawn.doubleMove.y, pawn.doubleMove.x])
            else old(grid[j, i])
      ensures !halted ==> pawn.Position() == pawn.doubleMove && pawn.moved
      ensures !halted ==>
        && current == old(current).Enemy() && selected == null && ChecksMarked()
        && winner == if TeamMoves(current) == [] then Some(old(current)) else old(winner)
      ensures old(Get(grid, pawn.doubleMove)) == null ==> Consistent()
    {
      halted := StepTwice(pawn);
      if halted { return; }
      Conclude(pawn);
    }

    /** The flag loop of Board.click over the side to move, which leaves the board consistent. */
    method ApplyTeamFlags()
      requires Consistent()
      modifies Members(TeamPieces(current))`flag, Members(TeamPieces(current))`movedTwice
      modifies Members(TeamPieces(current))`blocked, Members(TeamPieces(current))`inCheck
      ensures Consistent()
      ensures var ps := TeamPieces(current);
        forall i | 0 <= i < |ps| ::
          && ps[i].flag == None
          && ps[i].movedTwice == Applied(old(ps[i].flag), MovedTwice, old(ps[i].movedTwice))
          && ps[i].blocked == Applied(old(ps[i].flag), Blocked, old(ps[i].blocked))
          && ps[i].inCheck == Applied(old(ps[i].flag), InCheck, old(ps[i].inCheck))
    {
      assert Distinct(TeamPieces(current));
      ApplyFlags(TeamPieces(current));
      ConsistentKept();
    }

    /** The deselection of Board.click: the selected piece and the board forget the selection. */
    method Unselect()
      requires Consistent() && selected != null
      modifies this`selected, selected`selected
      ensures Consistent() && selected == null && !old(selected).selected
    {
      selected.selected := false;
      selected := null;
      ConsistentKept();
    }

    /**
     * Board.click, once the click is known to fall on a square of the board.
     * With a winner set, nothing happens. Otherwise every piece of the side to
     * move applies its pending flag; then, with a piece selected, the first of its
     * branches that the click matches (Intent) runs and ends the click, or, when
     * none does, the piece is deselected; the selection loop then picks the
     * unblocked piece of the side to move on the clicked square, if any.
     */
    method Click(at: Square) returns (outcome: Outcome)
      requires Consistent() && (selected != null ==> selected in TeamPieces(current))
      modifies this, grid, Members(allPieces), whiteKing, blackKing
      ensures old(winner).Some? ==>
        outcome == Ignored && unchanged(this) && unchanged(grid, whiteKing, blackKing, Members(old(allPieces)))
      ensures old(winner).None? && old(selected) != null && old(Intent(selected, at)) != Deselect ==>
        outcome in {Played(old(Intent(selected, at))), Halted(old(Intent(selected, at)))}
      ensures old(winner).None? && (old(selected) == null || old(Intent(selected, at)) == Deselect) ==>
        && outcome == Chose && Consistent() && current == old(current) && selected == Pick(at)
        && TeamPieces(current) == old(TeamPieces(current))
        && forall i | 0 <= i < |TeamPieces(current)| :: TeamPieces(current)[i].flag == None
      ensures outcome.Played? ==> current == old(current).Enemy() && selected == null
      ensures outcome.Played? && outcome.play.Step? ==> Consistent()
    {
      if winner.Some? { return Ignored; }
      ApplyTeamFlags();
      outcome := Respond(at);
    }

    /**
     * Board.click after the flag loop: the selected piece's branch that the click
     * matches, or else a deselection followed by the selection loop.
     */
    method Respond(at: Square) returns (outcome: Outcome)
      requires Consistent() && (selected != null ==> selected in TeamPieces(current))
      modifies this, grid, Members(allPieces), whiteKing, blackKing
      ensures old(selected) != null && old(Intent(selected, at)) != Deselect ==>
        outcome in {Played(old(Intent(selected, at))), Halted(old(Intent(selected, at)))}
      ensures old(selected) == null || old(Intent(selected, at)) == Deselect ==>
        && outcome == Chose && Consistent() && current == old(current) && selected == Pick(at)
        && TeamPieces(current) == old(TeamPieces(current))
        && forall p | p in TeamPieces(current) :: p.flag == old(p.flag)
      ensures outcome.Played? ==> current == old(current).Enemy() && selected == null
      ensures outcome.Played? && outcome.play.Step? ==> Consistent()
    {
      if selected != null {
        var play := Intent(selected, at);
        if play != Deselect {
          var halted := PlayMove(play);
          return if halted then Halted(play) else Played(play);
        }
        Unselect();
      }
      SelectAt(at);
      outcome := Chose;
    }

    /** The move branch of Board.click that a play names, run for the selected piece. */
    method PlayMove(play: Play) returns (halted: bool)
      requires Consistent() && selected != null && selected in allPieces && play != Deselect
      requires play.CastleLeft? || play.CastleRight? ==> selected.kind == King
      modifies this, grid, Members(allPieces), whiteKing, blackKing
      ensures !halted ==> current == old(current).Enemy() && selected == null
      ensures play.Step? ==> Consistent()
    {
      var piece := selected;
      if play.CastleLeft? {
        halted := PlayCastle(piece, true);
      } else if play.CastleRight? {
        halted := PlayCastle(piece, false);
      } else if play.DoubleStep? {
        halted := PlayDoubleStep(piece);
      } else if play.PassantLeft? {
        halted := PlayCapture(piece, piece.leftPassant, piece.leftPassantEnd);
      } else if play.PassantRight? {
        halted := PlayCapture(piece, piece.rightPassant, piece.rightPassantEnd);
      } else {
        halted := PlayCapture(piece, play.to, play.to);
      }
    }

    /** A piece fit to join the side to move: of that side, and settled as an unmoved piece would be. */
    ghost predicate Recruit(piece: Piece)
      reads this`current, piece`x, piece`y, piece`moved
      reads piece`leftPassant, piece`rightPassant, piece`leftPassantEnd, piece`rightPassantEnd
    {
      piece.team == current && AtHome(piece) && (piece.kind == Pawn ==> piece.PassantFollowsX())
    }

    /**
     * The second half of Board.promote: a piece joins the roster of the side to
     * move and `allPieces`, and takes its cell. A new piece of the side to move
     * that is unmoved where it was built, on an empty cell, leaves the board
     * consistent.
     */
    method Enlist(piece: Piece)
      requires IsGrid(grid) && InBounds(piece.Position())
      modifies this`whitePieces, this`blackPieces, this`allPieces, grid
      ensures whitePieces == if current == White then old(whitePieces) + [piece] else old(whitePieces)
      ensures blackPieces == if current == Black then old(blackPieces) + [piece] else old(blackPieces)
      ensures allPieces == old(allPieces) + [piece]
      ensures grid[piece.y, piece.x] == piece
      ensures forall j, i | 0 <= j < 8 && 0 <= i < 8 && (j != piece.y || i != piece.x) :: grid[j, i] == old(grid[j, i])
      ensures old(Consistent()) && old(grid[piece.y, piece.x]) == null && piece !in old(allPieces) && Recruit(piece) ==> Consistent()
    {
      if current == White {
        whitePieces := whitePieces + [piece];
      } else {
        blackPieces := blackPieces + [piece];
      }
      allPieces := allPieces + [piece];
      grid[piece.y, piece.x] := piece;
      if old(Consistent()) && old(grid[piece.y, piece.x]) == null && piece !in old(allPieces) && Recruit(piece) {
        EnlistKeepsConsistent(piece);
      }
    }

    /** A new piece of the side to move, settled on an empty cell, leaves the board consistent. */
    twostate lemma EnlistKeepsConsistent(piece: Piece)
      requires unchanged(this`grid, this`whiteKing, this`blackKing, piece)
      requires old(Consistent()) && InBounds(piece.Position()) && old(grid[piece.y, piece.x]) == null
      requires piece !in old(allPieces) && Recruit(piece)
      requires whitePieces == if current == White then old(whitePieces) + [piece] else old(whitePieces)
      requires blackPieces == if current == Black then old(blackPieces) + [piece] else old(blackPieces)
      requires allPieces == old(allPieces) + [piece]
      requires grid[piece.y, piece.x] == piece
      requires forall j, i | 0 <= j < 8 && 0 <= i < 8 && (j != piece.y || i != piece.x) :: grid[j, i] == old(grid[j, i])
      requires forall p: Piece | p in old(allPieces) ::
        unchanged(p`x, p`y, p`moved, p`leftPassant, p`rightPassant, p`leftPassantEnd, p`rightPassantEnd)
      ensures Consistent()
    {
      forall p | p in allPieces
        ensures Settled(p)
      {
        if p != piece {
          assert p in old(allPieces);
          assert old(Settled(p));
          assert p.Position() != piece.Position();
        }
      }
      forall j, i | 0 <= j < 8 && 0 <= i < 8
        ensures CellListed(i, j)
      {
        assert old(CellListed(i, j));
      }
    }

    /**
     * The second half of Board.promote: a new unmoved piece of the given kind and
     * of the side to move is built on a square and enlisted there.
     */
    method Commission(x: int, y: int, kind: Kind) returns (promoted: Piece)
      requires IsGrid(grid) && InBounds(Square(x, y))
      modifies this`whitePieces, this`blackPieces, this`allPieces, grid
      ensures fresh(promoted) && promoted.kind == kind && promoted.team == current && !promoted.moved
      ensures promoted.Position() == Square(x, y) && grid[y, x] == promoted
      ensures forall j, i | 0 <= j < 8 && 0 <= i < 8 && (j != y || i != x) :: grid[j, i] == old(grid[j, i])
      ensures whitePieces == if current == White then old(whitePieces) + [promoted] else old(whitePieces)
      ensures blackPieces == if current == Black then old(blackPieces) + [promoted] else old(blackPieces)
      ensures allPieces == old(allPieces) + [promoted]
      ensures old(Consistent()) && old(grid[y, x]) == null && (kind != King || x == 4) ==> Consistent()
    {
      promoted := new Piece(kind, current, x, y);
      Enlist(promoted);
    }

    /**
     * Board.promote: whatever stands on the pawn's square is captured as Kill
     * captures, and a new unmoved piece of the given kind and of the side to move
     * takes the square, joining that side's roster and `allPieces`. Unless the new
     * piece is a king away from its home file, the board stays consistent.
     */
    method Promote(pawn: Piece, kind: Kind) returns (promoted: Piece)
      requires IsGrid(grid) && InBounds(pawn.Position())
      requires Get(grid, pawn.Position()) != null ==> Get(grid, pawn.Position()) in allPieces
      modifies this`whitePieces, this`blackPieces, this`allPieces, this`winner, grid
      ensures fresh(promoted) && promoted.kind == kind && promoted.team == current && !promoted.moved
      ensures promoted.Position() == pawn.Position() && grid[pawn.y, pawn.x] == promoted
      ensures forall j, i | 0 <= j < 8 && 0 <= i < 8 && (j != pawn.y || i != pawn.x) :: grid[j, i] == old(grid[j, i])
      ensures var victim := old(grid[pawn.y, pawn.x]);
        var white := if victim == null then old(whitePieces) else Without(old(whitePieces), victim);
        var black := if victim == null then old(blackPieces) else Without(old(blackPieces), victim);
        var all := if victim == null then old(allPieces) else Without(old(allPieces), victim);
        && whitePieces == (if current == White then white + [promoted] else white)
        && blackPieces == (if current == Black then black + [promoted] else black)
        && allPieces == all + [promoted]
        && winner == if victim != null && victim.kind == King then Some(current) else old(winner)
      ensures old(Consistent()) && (kind != King || pawn.x == 4) ==> Consistent()
    {
      var x, y := pawn.x, pawn.y;
      Kill(x, y);
      promoted := Commission(x, y, kind);
    }
  }
}
