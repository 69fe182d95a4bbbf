/**
 * Board geometry: squares, the 8x8 bounds test, the sliding rays that the rook,
 * bishop and queen walk, and the fixed offset sets of the knight and the king.
 * A square is (x, y) with x the file and y the row; row 0 is black's back rank,
 * row 7 is white's.
 */
module Squares {

  datatype Square = Square(x: int, y: int)

  function Abs(n: int): nat { if n < 0 then -n else n }

  function Min(a: int, b: int): int { if a <= b then a else b }

  /** The number of values of a Python `range` that would have `n` elements if `n` were not negative. */
  function Span(n: int): nat { if n < 0 then 0 else n }

  /** Whether a square lies on the board, tested coordinate by coordinate as the board does. */
  predicate InBounds(p: Square)
  {
    if p.x < 0 || p.x > 7 then false
    else if p.y < 0 || p.y > 7 then false
    else true
  }

  /** The square `k` steps from `p` in direction (dx, dy). */
  function Step(p: Square, dx: int, dy: int, k: int): Square
  {
    Square(p.x + k * dx, p.y + k * dy)
  }

  /**
   * `r` walks outward from `p` in direction (dx, dy), one step per element; from an
   * on-board square it stays on the board and stops exactly at the edge.
   */
  ghost predicate IsRay(p: Square, r: seq<Square>, dx: int, dy: int)
  {
    && (forall i :: 0 <= i < |r| ==> r[i] == Step(p, dx, dy, i + 1))
    && (InBounds(p) ==>
          && (forall i :: 0 <= i < |r| ==> InBounds(r[i]))
          && !InBounds(Step(p, dx, dy, |r| + 1)))
  }

  // The rays of pieces/rook.py, pieces/bishop.py and pieces/queen.py, each ordered
  // outward from the piece's own square.

  /** Toward row 0: `range(y - 1, -1, -1)`. */
  function Front(p: Square): (r: seq<Square>)
    ensures IsRay(p, r, 0, -1)
  {
    seq(Span(p.y), i => Square(p.x, p.y - 1 - i))
  }

  /** Toward row 7: `range(y + 1, 8)`. */
  function Back(p: Square): (r: seq<Square>)
    ensures IsRay(p, r, 0, 1)
  {
    seq(Span(7 - p.y), i => Square(p.x, p.y + 1 + i))
  }

  /** Toward file 0: `range(x - 1, -1, -1)`. */
  function Left(p: Square): (r: seq<Square>)
    ensures IsRay(p, r, -1, 0)
  {
    seq(Span(p.x), i => Square(p.x - 1 - i, p.y))
  }

  /** Toward file 7: `range(x + 1, 8)`. */
  function Right(p: Square): (r: seq<Square>)
    ensures IsRay(p, r, 1, 0)
  {
    seq(Span(7 - p.x), i => Square(p.x + 1 + i, p.y))
  }

  function TopLeft(p: Square): (r: seq<Square>)
    ensures IsRay(p, r, -1, -1)
  {
    seq(Span(Min(p.x, p.y)), i => Square(p.x - 1 - i, p.y - 1 - i))
  }

  function TopRight(p: Square): (r: seq<Square>)
    ensures IsRay(p, r, 1, -1)
  {
    seq(Span(Min(p.y, 7 - p.x)), i => Square(p.x + 1 + i, p.y - 1 - i))
  }

  function BottomLeft(p: Square): (r: seq<Square>)
    ensures IsRay(p, r, -1, 1)
  {
    seq(Span(Min(p.x, 7 - p.y)), i => Square(p.x - 1 - i, p.y + 1 + i))
  }

  function BottomRight(p: Square): (r: seq<Square>)
    ensures IsRay(p, r, 1, 1)
  {
    seq(Span(Min(7 - p.x, 7 - p.y)), i => Square(p.x + 1 + i, p.y + 1 + i))
  }

  /** The rook's rays in the order pieces/rook.py checks them. */
  function RookRays(p: Square): seq<seq<Square>>
  {
    [Front(p), Back(p), Left(p), Right(p)]
  }

  /** The bishop's rays in the order pieces/bishop.py checks them. */
  function BishopRays(p: Square): seq<seq<Square>>
  {
    [TopLeft(p), BottomLeft(p), TopRight(p), BottomRight(p)]
  }

  /** The queen's rays in the order pieces/queen.py checks them. */
  function QueenRays(p: Square): seq<seq<Square>>
  {
    [Front(p), Back(p), Left(p), Right(p), TopLeft(p), TopRight(p), BottomLeft(p), BottomRight(p)]
  }

  predicate SameFileOrRank(p: Square, q: Square) { p.x == q.x || p.y == q.y }

  predicate SameDiagonal(p: Square, q: Square) { Abs(q.x - p.x) == Abs(q.y - p.y) }

  /** The two squares have the same colour on the chequered board. */
  predicate SameColour(p: Square, q: Square) { (q.x + q.y) % 2 == (p.x + p.y) % 2 }

  /** Every square of a rook ray shares the origin's file or rank, differs from it and is on the board. */
  lemma RookRaysShape(p: Square, k: nat, i: nat)
    requires InBounds(p)
    requires k < 4 && i < |RookRays(p)[k]|
    ensures var q := RookRays(p)[k][i];
      InBounds(q) && q != p && SameFileOrRank(p, q)
  {
    var r := RookRays(p)[k];
    if k == 0 { assert IsRay(p, r, 0, -1); }
    else if k == 1 { assert IsRay(p, r, 0, 1); }
    else if k == 2 { assert IsRay(p, r, -1, 0); }
    else { assert IsRay(p, r, 1, 0); }
  }

  /**
   * Every square of a bishop ray lies on one of the origin's diagonals at distance at
   * least one, is on the board, and has the origin's colour: (x + y) mod 2 is kept.
   */
  lemma BishopRaysShape(p: Square, k: nat, i: nat)
    requires InBounds(p)
    requires k < 4 && i < |BishopRays(p)[k]|
    ensures var q := BishopRays(p)[k][i];
      && InBounds(q)
      && Abs(q.x - p.x) == Abs(q.y - p.y) >= 1
      && SameColour(p, q)
  {
    var r := BishopRays(p)[k];
    var q := r[i];
    if k == 0 {
      assert IsRay(p, r, -1, -1);
      ColourKept(p, q, -(i + 1));
    } else if k == 1 {
      assert IsRay(p, r, -1, 1);
      ColourKept(p, q, 0);
    } else if k == 2 {
      assert IsRay(p, r, 1, -1);
      ColourKept(p, q, 0);
    } else {
      assert IsRay(p, r, 1, 1);
      ColourKept(p, q, i + 1);
    }
  }

  /** Moving the coordinate sum by an even amount keeps the colour. */
  lemma ColourKept(p: Square, q: Square, n: int)
    requires q.x + q.y == p.x + p.y + 2 * n
    ensures SameColour(p, q)
  {
  }

  /** Every square of a queen ray shares the queen's file, rank or diagonal, differs from her square and is on the board. */
  lemma QueenRaysShape(p: Square, k: nat, i: nat)
    requires InBounds(p)
    requires k < 8 && i < |QueenRays(p)[k]|
    ensures var q := QueenRays(p)[k][i];
      InBounds(q) && q != p && (SameFileOrRank(p, q) || SameDiagonal(p, q))
  {
    var rays := QueenRays(p);
    if k < 4 {
      assert rays[k] == RookRays(p)[k];
      RookRaysShape(p, k, i);
    } else {
      var b := [0, 2, 1, 3][k - 4];
      assert rays[k] == BishopRays(p)[b];
      BishopRaysShape(p, b, i);
    }
  }

  /** A knight's jump: one square along one axis and two along the other. */
  predicate KnightJump(p: Square, q: Square)
  {
    var dx, dy := Abs(q.x - p.x), Abs(q.y - p.y);
    (dx == 1 && dy == 2) || (dx == 2 && dy == 1)
  }

  /** A king's step: one of the eight neighbouring squares. */
  predicate KingStep(p: Square, q: Square)
  {
    q != p && Abs(q.x - p.x) <= 1 && Abs(q.y - p.y) <= 1
  }

  /** The knight's eight target squares in the order pieces/knight.py lists them. */
  function KnightTargets(p: Square): (t: seq<Square>)
    ensures |t| == 8
    ensures forall i, j :: 0 <= i < j < |t| ==> t[i] != t[j]
    ensures forall q :: q in t <==> KnightJump(p, q)
  {
    [ Square(p.x - 1, p.y - 2), Square(p.x + 1, p.y - 2),
      Square(p.x - 2, p.y - 1), Square(p.x + 2, p.y - 1),
      Square(p.x - 1, p.y + 2), Square(p.x + 1, p.y + 2),
      Square(p.x - 2, p.y + 1), Square(p.x + 2, p.y + 1) ]
  }

  /** The king's eight neighbours in the order pieces/king.py lists them. */
  function KingTargets(p: Square): (t: seq<Square>)
    ensures |t| == 8
    ensures forall i, j :: 0 <= i < j < |t| ==> t[i] != t[j]
    ensures forall q :: q in t <==> KingStep(p, q)
  {
    [ Square(p.x - 1, p.y - 1), Square(p.x, p.y - 1), Square(p.x + 1, p.y - 1),
      Square(p.x - 1, p.y),                           Square(p.x + 1, p.y),
      Square(p.x - 1, p.y + 1), Square(p.x, p.y + 1), Square(p.x + 1, p.y + 1) ]
  }
}
