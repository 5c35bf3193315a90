/**
 * The jigsaw puzzle solver: pieces with four sides, classification by the
 * number of flat sides, clockwise rotation, the edge-matching rule, guarded
 * insertion into an n-by-n board and the greedy placement loop.
 */
module JigsawPuzzle {
  import opened Lists

  datatype Edge = Indentation | Extrusion | Flat

  // ---------------------------------------------------------------------------
  // Sides as values

  /** Number of flat sides in `s`. */
  function FlatCount(s: seq<Edge>): (n: nat)
    ensures n <= |s|
  {
    if s == [] then 0 else (if s[0] == Flat then 1 else 0) + FlatCount(s[1..])
  }

  lemma {:induction false} FlatCountAppend(a: seq<Edge>, b: seq<Edge>)
    ensures FlatCount(a + b) == FlatCount(a) + FlatCount(b)
    decreases |a|
  {
    if a == [] {
      assert a + b == b;
    } else {
      assert (a + b)[1..] == a[1..] + b;
      FlatCountAppend(a[1..], b);
    }
  }

  /** No side is flat exactly when the flat count is zero. */
  lemma {:induction false} NoFlatIffZeroCount(s: seq<Edge>)
    ensures (forall i :: 0 <= i < |s| ==> s[i] != Flat) <==> FlatCount(s) == 0
    decreases |s|
  {
    if s != [] {
      NoFlatIffZeroCount(s[1..]);
      assert forall i :: 1 <= i < |s| ==> s[i] == s[1..][i - 1];
    }
  }

  /** One step of a clockwise rotation: the last side moves to the front. */
  function Rotated(s: seq<Edge>): (t: seq<Edge>)
    requires |s| > 0
    ensures |t| == |s| && t[0] == s[|s| - 1]
    ensures forall i :: 1 <= i < |s| ==> t[i] == s[i - 1]
  {
    [s[|s| - 1]] + s[..|s| - 1]
  }

  /** `k` clockwise rotations. */
  function Turned(s: seq<Edge>, k: nat): (t: seq<Edge>)
    requires |s| > 0
    ensures |t| == |s|
  {
    if k == 0 then s else Rotated(Turned(s, k - 1))
  }

  lemma RotationKeepsFlatCount(s: seq<Edge>)
    requires |s| > 0
    ensures FlatCount(Rotated(s)) == FlatCount(s)
  {
    var last, front := [s[|s| - 1]], s[..|s| - 1];
    assert s == front + last;
    assert Rotated(s) == last + front;
    FlatCountAppend(front, last);
    FlatCountAppend(last, front);
  }

  lemma {:induction false} TurningKeepsFlatCount(s: seq<Edge>, k: nat)
    requires |s| > 0
    ensures FlatCount(Turned(s, k)) == FlatCount(s)
  {
    if k > 0 {
      TurningKeepsFlatCount(s, k - 1);
      RotationKeepsFlatCount(Turned(s, k - 1));
    }
  }

  /** Four clockwise rotations of a four-sided piece restore it. */
  lemma FourTurnsRestore(s: seq<Edge>)
    requires |s| == 4
    ensures Turned(s, 4) == s
  {
    var a, b, c, d := s[0], s[1], s[2], s[3];
    assert s == [a, b, c, d];
    RotatedFour(a, b, c, d);
    assert Turned(s, 1) == [d, a, b, c];
    RotatedFour(d, a, b, c);
    assert Turned(s, 2) == [c, d, a, b];
    RotatedFour(c, d, a, b);
    assert Turned(s, 3) == [b, c, d, a];
    RotatedFour(b, c, d, a);
  }

  lemma RotatedFour(a: Edge, b: Edge, c: Edge, d: Edge)
    ensures Rotated([a, b, c, d]) == [d, a, b, c]
  {
    assert [a, b, c, d][..3] == [a, b, c];
  }

  /** Flat meets flat; otherwise an indentation must meet an extrusion. */
  function MatchEdges(e1: Edge, e2: Edge): bool {
    if e1 == Flat || e2 == Flat then e1 == e2
    else (e1 == Indentation && e2 == Extrusion) || (e1 == Extrusion && e2 == Indentation)
  }

  lemma MatchEdgesSymmetric(e1: Edge, e2: Edge)
    ensures MatchEdges(e1, e2) == MatchEdges(e2, e1)
  {
  }

  /** Two edges match iff both are flat or they are two different non-flat edges. */
  lemma MatchEdgesMeaning(e1: Edge, e2: Edge)
    ensures MatchEdges(e1, e2) <==> (e1 == Flat && e2 == Flat) || (e1 != Flat && e2 != Flat && e1 != e2)
  {
  }

  // ---------------------------------------------------------------------------
  // Pieces

  /** A piece; its side list is fixed at four entries, so it is held as four fields. */
  class Piece {
    var top: Edge
    var right: Edge
    var bottom: Edge
    var left: Edge

    /** The sides in list order: top, right, bottom, left. */
    function Sides(): (s: seq<Edge>)
      reads this
      ensures |s| == 4
    {
      [top, right, bottom, left]
    }

    constructor (top: Edge, right: Edge, bottom: Edge, left: Edge)
      ensures Sides() == [top, right, bottom, left]
    {
      this.top, this.right, this.bottom, this.left := top, right, bottom, left;
    }

    /** A corner has exactly two flat sides. */
    method CheckCorner() returns (corner: bool)
      ensures corner <==> FlatCount(Sides()) == 2
    {
      var flatCount := CountFlat();
      corner := flatCount == 2;
    }

    /** An edge piece has exactly one flat side. */
    method CheckEdge() returns (edge: bool)
      ensures edge <==> FlatCount(Sides()) == 1
    {
      var flatCount := CountFlat();
      edge := flatCount == 1;
    }

    /** The counting loop shared by `CheckCorner` and `CheckEdge`. */
    method CountFlat() returns (flatCount: nat)
      ensures flatCount == FlatCount(Sides())
    {
      var sides := Sides();
      flatCount := 0;
      for i := 0 to 4
        invariant flatCount == FlatCount(sides[..i])
      {
        assert sides[..i + 1] == sides[..i] + [sides[i]];
        FlatCountAppend(sides[..i], [sides[i]]);
        if sides[i] == Flat {
          flatCount := flatCount + 1;
        }
      }
      assert sides[..4] == sides;
    }

    /** A middle piece has no flat side; the scan stops at the first flat one. */
    method CheckMiddle() returns (middle: bool)
      ensures middle <==> forall i :: 0 <= i < 4 ==> Sides()[i] != Flat
    {
      var sides := Sides();
      for i := 0 to 4
        invariant forall j :: 0 <= j < i ==> sides[j] != Flat
      {
        if sides[i] == Flat {
          return false;
        }
      }
      return true;
    }

    /** Rotates the side list by one: the old left becomes the top. */
    method RotateClockwise()
      modifies this
      ensures Sides() == Rotated(old(Sides()))
    {
      top, right, bottom, left := left, top, right, bottom;
    }
  }

  /** Corner, edge and middle are mutually exclusive, and rotation keeps the class. */
  lemma ClassificationExclusive(s: seq<Edge>, k: nat)
    requires |s| == 4
    ensures !(FlatCount(s) == 2 && FlatCount(s) == 1)
    ensures (forall i :: 0 <= i < 4 ==> s[i] != Flat) ==> FlatCount(s) != 1 && FlatCount(s) != 2
    ensures FlatCount(Turned(s, k)) == FlatCount(s)
  {
    NoFlatIffZeroCount(s);
    TurningKeepsFlatCount(s, k);
  }

  // ---------------------------------------------------------------------------
  // The board

  /** The pieces held by the cells of `b`. */
  function PiecesOn(b: seq<seq<Piece?>>): set<Piece> {
    set i, j | 0 <= i < |b| && 0 <= j < |b[i]| && b[i][j] != null :: b[i][j]
  }

  /** Filling an empty cell keeps every placed piece placed and adds the new one. */
  lemma FillingKeepsPieces(b: seq<seq<Piece?>>, r: int, c: int, piece: Piece)
    requires 0 <= r < |b| && 0 <= c < |b[r]| && b[r][c] == null
    ensures PiecesOn(b) <= PiecesOn(b[r := b[r][c := piece]])
    ensures piece in PiecesOn(b[r := b[r][c := piece]])
    ensures PiecesOn(b[r := b[r][c := piece]]) <= PiecesOn(b) + {piece}
  {
    var after := b[r := b[r][c := piece]];
    forall p | p in PiecesOn(after)
      ensures p in PiecesOn(b) + {piece}
    {
      var i, j :| 0 <= i < |after| && 0 <= j < |after[i]| && after[i][j] == p;
      if (i, j) != (r, c) {
        assert b[i][j] == p;
      }
    }
    forall p | p in PiecesOn(b)
      ensures p in PiecesOn(after)
    {
      var i, j :| 0 <= i < |b| && 0 <= j < |b[i]| && b[i][j] == p;
      assert after[i][j] == p;
    }
    assert after[r][c] == piece;
  }

  datatype Insertion = Inserted | InvalidPosition | OccupiedPosition

  class Puzzle {
    var board: seq<seq<Piece?>>
    var free: seq<Piece>

    /** The board is square. */
    predicate Valid()
      reads this
    {
      forall i :: 0 <= i < |board| ==> |board[i]| == |board|
    }

    /** The pieces currently placed on the board. */
    function Placed(): set<Piece>
      reads this
    {
      PiecesOn(board)
    }

    /**
     * An empty `size`-by-`size` board and the given free pieces; a negative
     * size builds no row at all, as the Java loop then never runs.
     */
    constructor (size: int, freePieces: seq<Piece>)
      ensures Valid() && |board| == (if size < 0 then 0 else size) && free == freePieces
      ensures forall i, j :: 0 <= i < |board| && 0 <= j < |board| ==> board[i][j] == null
    {
      var n: nat := if size < 0 then 0 else size;
      var rows: seq<seq<Piece?>> := [];
      for i := 0 to n
        invariant |rows| == i
        invariant forall k :: 0 <= k < i ==> rows[k] == seq(n, _ => null)
      {
        rows := rows + [seq(n, _ => null)];
      }
      board := rows;
      free := freePieces;
    }

    /**
     * Puts `piece` at (row, column) and drops it from the free list; an
     * out-of-range or occupied position is refused and changes nothing.
     */
    method InsertPiece(piece: Piece, row: int, column: int) returns (outcome: Insertion)
      requires Valid()
      modifies this
      ensures Valid() && |board| == old(|board|)
      ensures outcome == InvalidPosition <==> !(0 <= row < |board| && 0 <= column < |board|)
      ensures outcome == OccupiedPosition <==>
                0 <= row < |board| && 0 <= column < |board| && old(board[row][column]) != null
      ensures outcome != Inserted ==> board == old(board) && free == old(free)
      ensures outcome == Inserted ==>
                board == old(board)[row := old(board)[row][column := piece]] &&
                free == RemoveFirst(old(free), piece)
    {
      if row < 0 || column < 0 || row >= |board| || column >= |board| {
        return InvalidPosition;
      }
      if board[row][column] != null {
        return OccupiedPosition;
      }
      board := board[row := board[row][column := piece]];
      free := RemoveFirst(free, piece);
      outcome := Inserted;
    }
  }

  // ---------------------------------------------------------------------------
  // The solver

  /**
   * Whether a piece with sides `s` may go at (r, c): it must match the bottom
   * of the piece above and the right of the piece to the left, when present,
   * and be flat on every side along the border.
   */
  function Fits(puzzle: Puzzle, s: seq<Edge>, r: int, c: int): (ok: bool)
    requires |s| == 4 && puzzle.Valid()
    requires 0 <= r < |puzzle.board| && 0 <= c < |puzzle.board|
    reads puzzle, puzzle.Placed()
    ensures ok && r == 0 ==> s[0] == Flat
    ensures ok && c == 0 ==> s[3] == Flat
    ensures ok && r == |puzzle.board| - 1 ==> s[2] == Flat
    ensures ok && c == |puzzle.board| - 1 ==> s[1] == Flat
    ensures ok && r > 0 && puzzle.board[r - 1][c] != null ==> MatchEdges(s[0], puzzle.board[r - 1][c].bottom)
    ensures ok && c > 0 && puzzle.board[r][c - 1] != null ==> MatchEdges(s[3], puzzle.board[r][c - 1].right)
  {
    var b: seq<seq<Piece?>> := puzzle.board;
    var size := |b|;
    (if r > 0 && b[r - 1][c] != null then MatchEdges(s[0], b[r - 1][c].bottom)
     else !(r == 0 && s[0] != Flat)) &&
    (if c > 0 && b[r][c - 1] != null then MatchEdges(s[3], b[r][c - 1].right)
     else !(c == 0 && s[3] != Flat)) &&
    !(c == size - 1 && s[1] != Flat) &&
    !(r == size - 1 && s[2] != Flat)
  }

  /**
   * Tries `piece` at the empty cell (r, c) in each of four orientations,
   * inserting it at the first that fits.  A piece that fits in none ends in
   * its original orientation.
   */
  method TryPiece(puzzle: Puzzle, piece: Piece, r: int, c: int) returns (placed: bool)
    requires puzzle.Valid() && 0 <= r < |puzzle.board| && 0 <= c < |puzzle.board|
    requires puzzle.board[r][c] == null
    modifies puzzle, piece
    ensures puzzle.Valid() && |puzzle.board| == old(|puzzle.board|)
    ensures placed ==> puzzle.board == old(puzzle.board)[r := old(puzzle.board)[r][c := piece]]
    ensures placed ==> puzzle.free == RemoveFirst(old(puzzle.free), piece)
    ensures placed ==> Fits(puzzle, piece.Sides(), r, c)
    ensures placed ==> exists k :: 0 <= k < 4 && piece.Sides() == Turned(old(piece.Sides()), k)
    ensures placed && piece !in old(puzzle.Placed()) ==>
              exists k :: 0 <= k < 4 && piece.Sides() == Turned(old(piece.Sides()), k) &&
                forall j :: 0 <= j < k ==> old(!Fits(puzzle, Turned(piece.Sides(), j), r, c))
    ensures !placed ==> puzzle.board == old(puzzle.board) && puzzle.free == old(puzzle.free)
    ensures !placed ==> piece.Sides() == old(piece.Sides())
    ensures !placed && piece !in old(puzzle.Placed()) ==>
              forall k :: 0 <= k < 4 ==> !Fits(puzzle, Turned(piece.Sides(), k), r, c)
  {
    ghost var start := piece.Sides();
    var rotation := 0;
    while rotation < 4
      invariant 0 <= rotation <= 4
      invariant puzzle.board == old(puzzle.board) && puzzle.free == old(puzzle.free)
      invariant piece.Sides() == Turned(start, rotation)
      invariant piece !in old(puzzle.Placed()) ==>
                  forall k :: 0 <= k < rotation ==> !Fits(puzzle, Turned(start, k), r, c)
      invariant piece !in old(puzzle.Placed()) ==>
                  forall k :: 0 <= k < rotation ==> old(!Fits(puzzle, Turned(start, k), r, c))
    {
      if Fits(puzzle, piece.Sides(), r, c) {
        var outcome := puzzle.InsertPiece(piece, r, c);
        return true;
      }
      piece.RotateClockwise();
      rotation := rotation + 1;
    }
    FourTurnsRestore(start);
    return false;
  }

  /** Every cell is as before, or was empty and now holds a piece from `pool`. */
  ghost predicate OnlyFills(before: seq<seq<Piece?>>, after: seq<seq<Piece?>>, pool: seq<Piece>)
  {
    |after| == |before| &&
    (forall i :: 0 <= i < |before| ==> |after[i]| == |before[i]|) &&
    forall i, j :: 0 <= i < |before| && 0 <= j < |before[i]| ==>
      after[i][j] == before[i][j] || (before[i][j] == null && after[i][j] in pool)
  }

  /** Cell (i, j) comes before cell (r, c) in row-major order. */
  predicate Before(i: int, j: int, r: int, c: int) {
    i < r || (i == r && j < c)
  }

  /** No piece is twice in the free list, and no free piece is already on the board. */
  ghost predicate Clean(puzzle: Puzzle)
    reads puzzle
  {
    NoDuplicates(puzzle.free) && forall p :: p in puzzle.free ==> p !in puzzle.Placed()
  }

  /** Every cell from (r, c) on in row-major order still holds what `start` held. */
  ghost predicate UnvisitedFrom(start: seq<seq<Piece?>>, b: seq<seq<Piece?>>, r: int, c: int) {
    forall i, j :: 0 <= i < |b| && 0 <= j < |b[i]| && !Before(i, j, r, c) ==>
      i < |start| && j < |start[i]| && b[i][j] == start[i][j]
  }

  /** Placing a free piece keeps the free list duplicate-free and disjoint from the board. */
  lemma PlacingKeepsClean(free: seq<Piece>, b: seq<seq<Piece?>>, r: int, c: int, q: Piece)
    requires NoDuplicates(free) && forall p :: p in free ==> p !in PiecesOn(b)
    requires 0 <= r < |b| && 0 <= c < |b[r]| && b[r][c] == null
    ensures NoDuplicates(RemoveFirst(free, q))
    ensures forall p :: p in RemoveFirst(free, q) ==> p !in PiecesOn(b[r := b[r][c := q]])
  {
    RemoveFirstFromDistinct(free, q);
    FillingKeepsPieces(b, r, c, q);
  }

  // The solver's promise is argued on the board as a value: the sides on
  // each cell, so that a step can be compared with the state before it.

  /** A cell as a value: empty, or the four sides of the piece on it. */
  datatype Cell = Empty | Held(top: Edge, right: Edge, bottom: Edge, left: Edge)

  /** The sides of the pieces on the board, cell by cell. */
  ghost function Grid(puzzle: Puzzle): (g: seq<seq<Cell>>)
    requires puzzle.Valid()
    reads puzzle, puzzle.Placed()
    ensures |g| == |puzzle.board| && Square(g)
  {
    var b, n := puzzle.board, |puzzle.board|;
    var held := map p | p in PiecesOn(b) :: Held(p.top, p.right, p.bottom, p.left);
    seq(n, i requires 0 <= i < n =>
      seq(n, j requires 0 <= j < n =>
        if b[i][j] == null then Empty
        else
          assert b[i][j] in PiecesOn(b);
          held[b[i][j]]))
  }

  /** Each grid cell holds the sides of the piece on the board there. */
  lemma GridCells(puzzle: Puzzle)
    requires puzzle.Valid()
    ensures forall i, j :: 0 <= i < |puzzle.board| && 0 <= j < |puzzle.board| ==>
              Grid(puzzle)[i][j] == if puzzle.board[i][j] == null then Empty
                                    else Held(puzzle.board[i][j].top, puzzle.board[i][j].right,
                                              puzzle.board[i][j].bottom, puzzle.board[i][j].left)
  {
  }

  /** A square grid of cells. */
  predicate Square(g: seq<seq<Cell>>) {
    forall i :: 0 <= i < |g| ==> |g[i]| == |g|
  }

  /** The placement rule of `Fits`, read from a grid of values. */
  function FitsIn(g: seq<seq<Cell>>, s: seq<Edge>, r: int, c: int): bool
    requires |s| == 4 && Square(g) && 0 <= r < |g| && 0 <= c < |g|
  {
    (if r > 0 && g[r - 1][c].Held? then MatchEdges(s[0], g[r - 1][c].bottom)
     else !(r == 0 && s[0] != Flat)) &&
    (if c > 0 && g[r][c - 1].Held? then MatchEdges(s[3], g[r][c - 1].right)
     else !(c == 0 && s[3] != Flat)) &&
    !(c == |g| - 1 && s[1] != Flat) &&
    !(r == |g| - 1 && s[2] != Flat)
  }

  /** `Fits` on the puzzle is `FitsIn` on its grid. */
  lemma FitsAsGrid(puzzle: Puzzle)
    requires puzzle.Valid()
    ensures forall s, r, c :: |s| == 4 && 0 <= r < |puzzle.board| && 0 <= c < |puzzle.board| ==>
              Fits(puzzle, s, r, c) == FitsIn(Grid(puzzle), s, r, c)
  {
    var g := Grid(puzzle);
    GridCells(puzzle);
    forall s, r, c | |s| == 4 && 0 <= r < |puzzle.board| && 0 <= c < |puzzle.board|
      ensures Fits(puzzle, s, r, c) == FitsIn(g, s, r, c)
    {
      if r > 0 && puzzle.board[r - 1][c] != null {
        assert g[r - 1][c].bottom == puzzle.board[r - 1][c].bottom;
      }
      if c > 0 && puzzle.board[r][c - 1] != null {
        assert g[r][c - 1].right == puzzle.board[r][c - 1].right;
      }
    }
  }

  /**
   * `FitsIn` at (i, j) looks only at the cell above and the cell to the
   * left, so two grids that agree before (r, c) agree on it there.
   */
  lemma PrefixFitsIn(g0: seq<seq<Cell>>, g1: seq<seq<Cell>>, r: int, c: int)
    requires Square(g0) && Square(g1) && |g0| == |g1|
    requires forall i, j :: 0 <= i < |g0| && 0 <= j < |g0| && Before(i, j, r, c) ==> g1[i][j] == g0[i][j]
    ensures forall s, i, j :: |s| == 4 && 0 <= i < |g0| && 0 <= j < |g0| && Before(i, j, r, c) ==>
              FitsIn(g1, s, i, j) == FitsIn(g0, s, i, j)
  {
    forall s, i, j | |s| == 4 && 0 <= i < |g0| && 0 <= j < |g0| && Before(i, j, r, c)
      ensures FitsIn(g1, s, i, j) == FitsIn(g0, s, i, j)
    {
      if i > 0 {
        assert Before(i - 1, j, r, c);
      }
      if j > 0 {
        assert Before(i, j - 1, r, c);
      }
    }
  }

  /** The sides of a held cell, in list order. */
  function CellSides(x: Cell): (s: seq<Edge>)
    requires x.Held?
    ensures |s| == 4
  {
    [x.top, x.right, x.bottom, x.left]
  }

  /** The side lists of the free pieces. */
  ghost function FreeSides(puzzle: Puzzle): set<seq<Edge>>
    reads puzzle, set p | p in puzzle.free
  {
    set p | p in puzzle.free :: p.Sides()
  }

  /** Every cell before (r, c) that was empty in `start` and is now held fits its piece. */
  ghost predicate FilledFit(g: seq<seq<Cell>>, start: seq<seq<Piece?>>, r: int, c: int)
    requires Square(g) && |start| == |g| && forall i :: 0 <= i < |start| ==> |start[i]| == |start|
  {
    forall i, j :: 0 <= i < |g| && 0 <= j < |g| && Before(i, j, r, c) && start[i][j] == null && g[i][j].Held? ==>
      FitsIn(g, CellSides(g[i][j]), i, j)
  }

  /** Every cell before (r, c) still empty admits none of the side lists `free` in any orientation. */
  ghost predicate EmptyBlocked(g: seq<seq<Cell>>, free: set<seq<Edge>>, r: int, c: int)
    requires Square(g)
  {
    forall i, j :: 0 <= i < |g| && 0 <= j < |g| && Before(i, j, r, c) && g[i][j] == Empty ==>
      forall s :: s in free && |s| == 4 ==> forall t :: 0 <= t < 4 ==> !FitsIn(g, Turned(s, t), i, j)
  }

  /**
   * Scans the board row by row and fills each empty cell with the first free
   * piece that fits in some orientation.  When the free list has no
   * duplicates and shares no piece with the board, every cell the scan
   * fills fits its piece at the end, and every cell it leaves empty admits
   * none of the pieces still free.
   */
  method MatchPieces(puzzle: Puzzle) returns (solved: Puzzle)
    requires puzzle.Valid()
    modifies puzzle, set p | p in puzzle.free
    ensures solved == puzzle && puzzle.Valid()
    ensures OnlyFills(old(puzzle.board), puzzle.board, old(puzzle.free))
    ensures forall p :: p in puzzle.free ==> p in old(puzzle.free)
    ensures forall p :: p in old(puzzle.free) && p !in puzzle.Placed() ==> p.Sides() == old(p.Sides())
    ensures old(Clean(puzzle)) ==>
              forall i, j ::
                0 <= i < |puzzle.board| && 0 <= j < |puzzle.board| &&
                old(puzzle.board)[i][j] == null && puzzle.board[i][j] != null ==>
                  Fits(puzzle, puzzle.board[i][j].Sides(), i, j)
    ensures old(Clean(puzzle)) ==>
              forall i, j :: 0 <= i < |puzzle.board| && 0 <= j < |puzzle.board| && puzzle.board[i][j] == null ==>
                forall p :: p in puzzle.free ==> forall t :: 0 <= t < 4 ==> !Fits(puzzle, Turned(p.Sides(), t), i, j)
  {
    var size := |puzzle.board|;
    ghost var start := puzzle.board;
    ghost var clean := Clean(puzzle);
    ghost var g, fs := Grid(puzzle), FreeSides(puzzle);
    for r := 0 to size
      invariant puzzle.Valid() && |puzzle.board| == size
      invariant OnlyFills(start, puzzle.board, old(puzzle.free))
      invariant forall p :: p in puzzle.free ==> p in old(puzzle.free)
      invariant forall p :: p in old(puzzle.free) && p !in puzzle.Placed() ==> p.Sides() == old(p.Sides())
      invariant UnvisitedFrom(start, puzzle.board, r, 0)
      invariant clean ==> Clean(puzzle) && g == Grid(puzzle) && fs == FreeSides(puzzle)
      invariant clean ==> FilledFit(g, start, r, 0) && EmptyBlocked(g, fs, r, 0)
    {
      for c := 0 to size
        invariant puzzle.Valid() && |puzzle.board| == size
        invariant OnlyFills(start, puzzle.board, old(puzzle.free))
        invariant forall p :: p in puzzle.free ==> p in old(puzzle.free)
        invariant forall p :: p in old(puzzle.free) && p !in puzzle.Placed() ==> p.Sides() == old(p.Sides())
        invariant UnvisitedFrom(start, puzzle.board, r, c)
        invariant clean ==> Clean(puzzle) && g == Grid(puzzle) && fs == FreeSides(puzzle)
        invariant clean ==> FilledFit(g, start, r, c) && EmptyBlocked(g, fs, r, c)
      {
        g, fs := VisitCell(puzzle, r, c, start, clean, g, fs);
      }
      assert forall i, j :: Before(i, j, r + 1, 0) && 0 <= j < size ==> Before(i, j, r, size);
    }
    if clean {
      SolvedMeansFits(puzzle, start);
    }
    solved := puzzle;
  }

  /** At the end of the scan, the grid facts are the promised facts about `Fits`. */
  lemma SolvedMeansFits(puzzle: Puzzle, start: seq<seq<Piece?>>)
    requires puzzle.Valid() && |start| == |puzzle.board| && forall i :: 0 <= i < |start| ==> |start[i]| == |start|
    requires FilledFit(Grid(puzzle), start, |puzzle.board|, 0)
    requires EmptyBlocked(Grid(puzzle), FreeSides(puzzle), |puzzle.board|, 0)
    ensures forall i, j ::
              0 <= i < |puzzle.board| && 0 <= j < |puzzle.board| &&
              start[i][j] == null && puzzle.board[i][j] != null ==>
                Fits(puzzle, puzzle.board[i][j].Sides(), i, j)
    ensures forall i, j :: 0 <= i < |puzzle.board| && 0 <= j < |puzzle.board| && puzzle.board[i][j] == null ==>
              forall p :: p in puzzle.free ==> forall t :: 0 <= t < 4 ==> !Fits(puzzle, Turned(p.Sides(), t), i, j)
  {
    var g := Grid(puzzle);
    FitsAsGrid(puzzle);
    forall i, j | 0 <= i < |g| && 0 <= j < |g| && start[i][j] == null && puzzle.board[i][j] != null
      ensures Fits(puzzle, puzzle.board[i][j].Sides(), i, j)
    {
      assert Before(i, j, |g|, 0);
      assert CellSides(g[i][j]) == puzzle.board[i][j].Sides();
    }
    forall i, j, p, t | 0 <= i < |g| && 0 <= j < |g| && puzzle.board[i][j] == null && p in puzzle.free && 0 <= t < 4
      ensures !Fits(puzzle, Turned(p.Sides(), t), i, j)
    {
      assert Before(i, j, |g|, 0);
      assert p.Sides() in FreeSides(puzzle);
    }
  }

  /**
   * One step of the scan: fills (r, c) if it is empty.  The ghost values
   * `g` and `fs` are the grid and the free side lists before the step, and
   * `g'` and `fs'` after it.
   */
  method VisitCell(puzzle: Puzzle, r: int, c: int, ghost start: seq<seq<Piece?>>, ghost clean: bool,
                   ghost g: seq<seq<Cell>>, ghost fs: set<seq<Edge>>)
    returns (ghost g': seq<seq<Cell>>, ghost fs': set<seq<Edge>>)
    requires puzzle.Valid() && 0 <= r < |puzzle.board| && 0 <= c < |puzzle.board|
    requires |start| == |puzzle.board| && forall i :: 0 <= i < |start| ==> |start[i]| == |start|
    requires UnvisitedFrom(start, puzzle.board, r, c)
    requires clean ==> Clean(puzzle) && g == Grid(puzzle) && fs == FreeSides(puzzle)
    requires clean ==> FilledFit(g, start, r, c) && EmptyBlocked(g, fs, r, c)
    modifies puzzle, set p | p in puzzle.free
    ensures puzzle.Valid() && |puzzle.board| == old(|puzzle.board|)
    ensures OnlyFills(old(puzzle.board), puzzle.board, old(puzzle.free))
    ensures forall p :: p in puzzle.free ==> p in old(puzzle.free)
    ensures forall p :: p in old(puzzle.free) && p !in puzzle.Placed() ==> p.Sides() == old(p.Sides())
    ensures UnvisitedFrom(start, puzzle.board, r, c + 1)
    ensures clean ==> Clean(puzzle) && g' == Grid(puzzle) && fs' == FreeSides(puzzle)
    ensures clean ==> FilledFit(g', start, r, c + 1) && EmptyBlocked(g', fs', r, c + 1)
  {
    if puzzle.board[r][c] != null {
      g', fs' := g, fs;
      return;
    }
    FillGrid(puzzle, r, c, clean);
    g', fs' := Grid(puzzle), FreeSides(puzzle);
    if clean {
      StepKeepsSolved(g, g', fs, fs', start, r, c);
    }
  }

  /** `FillCell` restated on the grid of values, for a clean puzzle. */
  method FillGrid(puzzle: Puzzle, r: int, c: int, ghost clean: bool)
    requires puzzle.Valid() && 0 <= r < |puzzle.board| && 0 <= c < |puzzle.board|
    requires puzzle.board[r][c] == null
    requires clean ==> Clean(puzzle)
    modifies puzzle, set p | p in puzzle.free
    ensures puzzle.Valid() && |puzzle.board| == old(|puzzle.board|)
    ensures OnlyFills(old(puzzle.board), puzzle.board, old(puzzle.free))
    ensures forall p :: p in puzzle.free ==> p in old(puzzle.free)
    ensures forall p :: p in old(puzzle.free) && p !in puzzle.Placed() ==> p.Sides() == old(p.Sides())
    ensures forall i, j :: 0 <= i < |puzzle.board| && 0 <= j < |puzzle.board| && (i != r || j != c) ==>
              puzzle.board[i][j] == old(puzzle.board[i][j])
    ensures clean ==> Clean(puzzle)
    ensures clean ==> forall i, j :: 0 <= i < |puzzle.board| && 0 <= j < |puzzle.board| && (i != r || j != c) ==>
                        Grid(puzzle)[i][j] == old(Grid(puzzle))[i][j]
    ensures clean ==> FreeSides(puzzle) <= old(FreeSides(puzzle))
    ensures clean && Grid(puzzle)[r][c].Held? ==> FitsIn(Grid(puzzle), CellSides(Grid(puzzle)[r][c]), r, c)
    ensures clean && Grid(puzzle)[r][c] == Empty ==>
              forall s :: s in FreeSides(puzzle) && |s| == 4 ==>
                forall t :: 0 <= t < 4 ==> !FitsIn(Grid(puzzle), Turned(s, t), r, c)
  {
    FillClean(puzzle, r, c, clean);
    if clean {
      GridKept(puzzle);
      FreeSidesShrink(puzzle);
      FitsAsGrid(puzzle);
      GridCells(puzzle);
    }
  }

  /** `FillCell` on a clean puzzle: it stays clean and no piece on the board is turned. */
  method FillClean(puzzle: Puzzle, r: int, c: int, ghost clean: bool)
    requires puzzle.Valid() && 0 <= r < |puzzle.board| && 0 <= c < |puzzle.board|
    requires puzzle.board[r][c] == null
    requires clean ==> Clean(puzzle)
    modifies puzzle, set p | p in puzzle.free
    ensures puzzle.Valid() && |puzzle.board| == old(|puzzle.board|)
    ensures OnlyFills(old(puzzle.board), puzzle.board, old(puzzle.free))
    ensures forall p :: p in puzzle.free ==> p in old(puzzle.free)
    ensures forall p :: p in old(puzzle.free) && p !in puzzle.Placed() ==> p.Sides() == old(p.Sides())
    ensures forall i, j :: 0 <= i < |puzzle.board| && 0 <= j < |puzzle.board| && (i != r || j != c) ==>
              puzzle.board[i][j] == old(puzzle.board[i][j])
    ensures clean ==> Clean(puzzle)
    ensures clean ==> forall p :: p in old(puzzle.Placed()) ==> p.Sides() == old(p.Sides())
    ensures clean ==> forall p :: p in puzzle.free ==> p.Sides() == old(p.Sides())
    ensures puzzle.board[r][c] != null ==> Fits(puzzle, puzzle.board[r][c].Sides(), r, c)
    ensures clean && puzzle.board[r][c] == null ==>
              forall p :: p in puzzle.free ==> forall t :: 0 <= t < 4 ==> !Fits(puzzle, Turned(p.Sides(), t), r, c)
  {
    FillCell(puzzle, r, c);
    if clean {
      var b: seq<seq<Piece?>> := puzzle.board;
      if b[r][c] != null {
        var q: Piece := b[r][c];
        ghost var k :| 0 <= k < |old(puzzle.free)| && q == old(puzzle.free)[k] &&
                       b == old(puzzle.board)[r := old(puzzle.board)[r][c := q]] &&
                       puzzle.free == RemoveFirst(old(puzzle.free), q);
        PlacingKeepsClean(old(puzzle.free), old(puzzle.board), r, c, q);
      }
    }
  }

  /** A cell keeps its grid value while it holds the same piece with the same sides. */
  twostate lemma GridKept(puzzle: Puzzle)
    requires old(puzzle.Valid()) && puzzle.Valid() && |puzzle.board| == old(|puzzle.board|)
    ensures forall i, j ::
              0 <= i < |puzzle.board| && 0 <= j < |puzzle.board| &&
              puzzle.board[i][j] == old(puzzle.board[i][j]) &&
              (puzzle.board[i][j] == null || puzzle.board[i][j].Sides() == old(puzzle.board[i][j].Sides())) ==>
                Grid(puzzle)[i][j] == old(Grid(puzzle))[i][j]
  {
    GridCells(puzzle);
  }

  /** The side lists of the free pieces only shrink while the free list does and keeps its sides. */
  twostate lemma FreeSidesShrink(puzzle: Puzzle)
    requires forall p :: p in puzzle.free ==> p in old(puzzle.free) && p.Sides() == old(p.Sides())
    ensures FreeSides(puzzle) <= old(FreeSides(puzzle))
  {
    forall s | s in FreeSides(puzzle)
      ensures s in old(FreeSides(puzzle))
    {
      var p :| p in puzzle.free && p.Sides() == s;
      assert old(p.Sides()) in old(FreeSides(puzzle));
    }
  }

  /**
   * One step of the scan keeps the solver's promise: the cells before (r, c)
   * are unchanged, the free side lists only shrink, and (r, c) now either
   * holds a piece that fits or admits none of the free side lists.
   */
  lemma StepKeepsSolved(g0: seq<seq<Cell>>, g1: seq<seq<Cell>>, fs0: set<seq<Edge>>, fs1: set<seq<Edge>>,
                        start: seq<seq<Piece?>>, r: int, c: int)
    requires Square(g0) && Square(g1) && |g0| == |g1| && 0 <= r < |g0| && 0 <= c < |g0|
    requires |start| == |g0| && forall i :: 0 <= i < |start| ==> |start[i]| == |start|
    requires forall i, j :: 0 <= i < |g0| && 0 <= j < |g0| && Before(i, j, r, c) ==> g1[i][j] == g0[i][j]
    requires fs1 <= fs0
    requires FilledFit(g0, start, r, c) && EmptyBlocked(g0, fs0, r, c)
    requires g1[r][c].Held? ==> FitsIn(g1, CellSides(g1[r][c]), r, c)
    requires g1[r][c] == Empty ==>
               forall s :: s in fs1 && |s| == 4 ==> forall t :: 0 <= t < 4 ==> !FitsIn(g1, Turned(s, t), r, c)
    ensures FilledFit(g1, start, r, c + 1) && EmptyBlocked(g1, fs1, r, c + 1)
  {
    PrefixFitsIn(g0, g1, r, c);
  }

  /**
   * Offers every piece of a copy of the free list to the empty cell (r, c),
   * in list order, until one is placed.  A piece that is also on the board
   * keeps its orientation only if it is not placed here.
   */
  method FillCell(puzzle: Puzzle, r: int, c: int)
    requires puzzle.Valid() && 0 <= r < |puzzle.board| && 0 <= c < |puzzle.board|
    requires puzzle.board[r][c] == null
    modifies puzzle, set p | p in puzzle.free
    ensures puzzle.Valid() && |puzzle.board| == old(|puzzle.board|)
    ensures OnlyFills(old(puzzle.board), puzzle.board, old(puzzle.free))
    ensures forall p :: p in puzzle.free ==> p in old(puzzle.free)
    ensures forall p :: p in old(puzzle.free) && p !in puzzle.Placed() ==> p.Sides() == old(p.Sides())
    ensures puzzle.board[r][c] != null ==> Fits(puzzle, puzzle.board[r][c].Sides(), r, c)
    ensures puzzle.board[r][c] != null ==>
              exists k :: 0 <= k < |old(puzzle.free)| && puzzle.board[r][c] == old(puzzle.free)[k] &&
                puzzle.board == old(puzzle.board)[r := old(puzzle.board)[r][c := old(puzzle.free)[k]]] &&
                puzzle.free == RemoveFirst(old(puzzle.free), old(puzzle.free)[k]) &&
                forall j :: 0 <= j < k && old(puzzle.free)[j] !in old(puzzle.Placed()) ==>
                  forall t :: 0 <= t < 4 ==> old(!Fits(puzzle, Turned(puzzle.free[j].Sides(), t), r, c))
    ensures puzzle.board[r][c] == null ==>
              puzzle.board == old(puzzle.board) && puzzle.free == old(puzzle.free) &&
              forall p :: p in old(puzzle.free) ==> p.Sides() == old(p.Sides())
    ensures puzzle.board[r][c] == null ==>
              forall p :: p in old(puzzle.free) && p !in old(puzzle.Placed()) ==>
                forall t :: 0 <= t < 4 ==> !Fits(puzzle, Turned(p.Sides(), t), r, c)
  {
    var candidates := puzzle.free;
    for k := 0 to |candidates|
      invariant puzzle.board == old(puzzle.board) && puzzle.free == old(puzzle.free)
      invariant forall p :: p in old(puzzle.free) ==> p.Sides() == old(p.Sides())
      invariant forall j :: 0 <= j < k && candidates[j] !in old(puzzle.Placed()) ==>
                  forall t :: 0 <= t < 4 ==> !Fits(puzzle, Turned(candidates[j].Sides(), t), r, c)
      invariant forall j :: 0 <= j < k && candidates[j] !in old(puzzle.Placed()) ==>
                  forall t :: 0 <= t < 4 ==> old(!Fits(puzzle, Turned(puzzle.free[j].Sides(), t), r, c))
    {
      var piece := candidates[k];
      var placed := TryPiece(puzzle, piece, r, c);
      if placed {
        FillingKeepsPieces(old(puzzle.board), r, c, piece);
        RemoveFirstKeepsOthers(old(puzzle.free), piece);
        return;
      }
    }
  }
}
