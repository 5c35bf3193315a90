/**
 * Two-player chess on an 8x8 board: the per-piece movement rules, the board
 * layout after a reset, the scan for pieces between two squares, and the
 * console game loop that reads moves such as "e2 e4" or "resign".
 *
 * A square is (x, y) with x the row (rank 1 is row 0) and y the column
 * (file a is column 0).  White moves toward higher rows.
 */
module ChessGame {
  import opened Optional
  import opened Text

  datatype Kind = Pawn | Rook | Knight | Bishop | Queen | King

  datatype Piece = Piece(kind: Kind, white: bool)

  datatype Pos = Pos(x: int, y: int)

  type Square = Option<Piece>

  /** The board's contents, row by row. */
  type Grid = seq<seq<Square>>

  predicate OnBoard(p: Pos) {
    0 <= p.x < 8 && 0 <= p.y < 8
  }

  predicate IsGrid(g: Grid) {
    |g| == 8 && forall i :: 0 <= i < 8 ==> |g[i]| == 8
  }

  function At(g: Grid, p: Pos): Square
    requires IsGrid(g) && OnBoard(p)
  {
    g[p.x][p.y]
  }

  /** `g` with square `p` set to `sq`. */
  function Put(g: Grid, p: Pos, sq: Square): (r: Grid)
    requires IsGrid(g) && OnBoard(p)
    ensures IsGrid(r) && At(r, p) == sq
    ensures forall q :: OnBoard(q) && q != p ==> At(r, q) == At(g, q)
  {
    g[p.x := g[p.x][p.y := sq]]
  }

  function Abs(a: int): nat {
    if a < 0 then -a else a
  }

  /** `Integer.compare(a, b)` as used by the path scan: -1, 0 or 1. */
  function Compare(a: int, b: int): int {
    if a < b then -1 else if a > b then 1 else 0
  }

  // ---------------------------------------------------------------------------
  // Lines between two squares

  /** Start and end share a row, a column or a diagonal. */
  predicate Aligned(s: Pos, e: Pos) {
    s.x == e.x || s.y == e.y || Abs(e.x - s.x) == Abs(e.y - s.y)
  }

  /** Number of single steps from `s` to `e` along their line. */
  function Steps(s: Pos, e: Pos): nat {
    if Abs(e.x - s.x) >= Abs(e.y - s.y) then Abs(e.x - s.x) else Abs(e.y - s.y)
  }

  function Offset(d: int, k: int): int {
    if d > 0 then k else if d < 0 then -k else 0
  }

  /** The square `k` steps from `s` toward `e`. */
  function Along(s: Pos, e: Pos, k: int): Pos {
    Pos(s.x + Offset(e.x - s.x, k), s.y + Offset(e.y - s.y, k))
  }

  lemma AlongOnBoard(s: Pos, e: Pos, k: int)
    requires OnBoard(s) && OnBoard(e) && Aligned(s, e) && 0 <= k <= Steps(s, e)
    ensures OnBoard(Along(s, e, k))
    ensures Along(s, e, k) == e <==> k == Steps(s, e)
  {
  }

  /** Some square strictly between `s` and `e` on their line holds a piece. */
  predicate PathBlocked(g: Grid, s: Pos, e: Pos)
    requires IsGrid(g)
  {
    exists k :: 1 <= k < Steps(s, e) && OnBoard(Along(s, e, k)) && At(g, Along(s, e, k)).Some?
  }

  /** Neighbouring squares, and a square and itself, have nothing between them. */
  lemma AdjacentNeverBlocked(g: Grid, s: Pos, e: Pos)
    requires IsGrid(g) && Abs(e.x - s.x) <= 1 && Abs(e.y - s.y) <= 1
    ensures !PathBlocked(g, s, e)
  {
  }

  /** Only the squares strictly between matter: changing any other square does not change the answer. */
  lemma PathBlockedIgnoresEnds(g: Grid, s: Pos, e: Pos, p: Pos, sq: Square)
    requires IsGrid(g) && OnBoard(s) && OnBoard(e) && Aligned(s, e) && OnBoard(p)
    requires forall k :: 1 <= k < Steps(s, e) ==> Along(s, e, k) != p
    ensures PathBlocked(Put(g, p, sq), s, e) == PathBlocked(g, s, e)
  {
    if PathBlocked(g, s, e) {
      var k :| 1 <= k < Steps(s, e) && OnBoard(Along(s, e, k)) && At(g, Along(s, e, k)).Some?;
      assert At(Put(g, p, sq), Along(s, e, k)).Some?;
    }
    if PathBlocked(Put(g, p, sq), s, e) {
      var k :| 1 <= k < Steps(s, e) && OnBoard(Along(s, e, k)) && At(Put(g, p, sq), Along(s, e, k)).Some?;
      assert At(g, Along(s, e, k)).Some?;
    }
  }

  // ---------------------------------------------------------------------------
  // Movement rules; `white` is the colour of the moving piece

  /** The target is empty or holds a piece of the other colour. */
  predicate TargetOk(white: bool, g: Grid, e: Pos)
    requires IsGrid(g) && OnBoard(e)
  {
    At(g, e).None? || At(g, e).value.white != white
  }

  predicate PawnCanMove(white: bool, g: Grid, s: Pos, e: Pos)
    requires IsGrid(g) && OnBoard(s) && OnBoard(e)
  {
    var dir := if white then 1 else -1;
    var startRow := if white then 1 else 6;
    var dx := e.x - s.x;
    var dy := Abs(e.y - s.y);
    || (&& dy == 0 && At(g, s).Some? && At(g, e).None?
        && (|| s.x + dir == e.x
            || (s.x == startRow && s.x + 2 * dir == e.x && At(g, Pos(s.x + dir, s.y)).None?)))
    || (dx == dir && dy == 1 && At(g, e).Some? && At(g, e).value.white != white)
  }

  predicate RookCanMove(white: bool, g: Grid, s: Pos, e: Pos)
    requires IsGrid(g) && OnBoard(s) && OnBoard(e)
  {
    (s.x == e.x || s.y == e.y) && TargetOk(white, g, e) && !PathBlocked(g, s, e)
  }

  predicate KnightCanMove(white: bool, g: Grid, s: Pos, e: Pos)
    requires IsGrid(g) && OnBoard(s) && OnBoard(e)
  {
    var dx := Abs(s.x - e.x);
    var dy := Abs(s.y - e.y);
    ((dx == 2 && dy == 1) || (dx == 1 && dy == 2)) && TargetOk(white, g, e)
  }

  predicate BishopCanMove(white: bool, g: Grid, s: Pos, e: Pos)
    requires IsGrid(g) && OnBoard(s) && OnBoard(e)
  {
    Abs(s.x - e.x) == Abs(s.y - e.y) && TargetOk(white, g, e) && !PathBlocked(g, s, e)
  }

  predicate QueenCanMove(white: bool, g: Grid, s: Pos, e: Pos)
    requires IsGrid(g) && OnBoard(s) && OnBoard(e)
  {
    var dx := Abs(s.x - e.x);
    var dy := Abs(s.y - e.y);
    (dx == dy || dx == 0 || dy == 0) && TargetOk(white, g, e) && !PathBlocked(g, s, e)
  }

  predicate KingCanMove(white: bool, g: Grid, s: Pos, e: Pos)
    requires IsGrid(g) && OnBoard(s) && OnBoard(e)
  {
    var dx := Abs(s.x - e.x);
    var dy := Abs(s.y - e.y);
    ((dx == 1 && dy == 0) || (dx == 0 && dy == 1) || (dx == 1 && dy == 1)) && TargetOk(white, g, e)
  }

  predicate CanMove(p: Piece, g: Grid, s: Pos, e: Pos)
    requires IsGrid(g) && OnBoard(s) && OnBoard(e)
  {
    match p.kind
    case Pawn => PawnCanMove(p.white, g, s, e)
    case Rook => RookCanMove(p.white, g, s, e)
    case Knight => KnightCanMove(p.white, g, s, e)
    case Bishop => BishopCanMove(p.white, g, s, e)
    case Queen => QueenCanMove(p.white, g, s, e)
    case King => KingCanMove(p.white, g, s, e)
  }

  /** The move controller: no piece means no move; otherwise the piece's own rule decides. */
  predicate ValidateMove(piece: Square, g: Grid, s: Pos, e: Pos)
    requires IsGrid(g) && OnBoard(s) && OnBoard(e)
  {
    piece.Some? && CanMove(piece.value, g, s, e)
  }

  /**
   * A pawn only ever advances, by one row or (from its start row, over an
   * empty square) by two, in its own direction, and never lands on its own
   * colour; it changes column only when capturing.
   */
  lemma PawnOnlyAdvances(white: bool, g: Grid, s: Pos, e: Pos)
    requires IsGrid(g) && OnBoard(s) && OnBoard(e)
    requires PawnCanMove(white, g, s, e)
    ensures var dir := if white then 1 else -1;
      && (e.x - s.x == dir || (e.x - s.x == 2 * dir && s.x == (if white then 1 else 6) && e.y == s.y))
      && (e.y != s.y ==> At(g, e).Some? && At(g, e).value.white != white)
      && TargetOk(white, g, e)
  {
  }

  /** A queen moves exactly where a rook or a bishop of its colour could. */
  lemma QueenIsRookOrBishop(white: bool, g: Grid, s: Pos, e: Pos)
    requires IsGrid(g) && OnBoard(s) && OnBoard(e)
    ensures QueenCanMove(white, g, s, e) <==> RookCanMove(white, g, s, e) || BishopCanMove(white, g, s, e)
  {
  }

  /** A piece standing on a square can never "move" onto that same square. */
  lemma ZeroLengthMoveRefused(p: Piece, g: Grid, s: Pos)
    requires IsGrid(g) && OnBoard(s) && At(g, s) == Some(p)
    ensures !CanMove(p, g, s, s)
  {
  }

  /** Every accepted move lands on an empty square or captures an opposing piece. */
  lemma NeverCapturesOwnColour(p: Piece, g: Grid, s: Pos, e: Pos)
    requires IsGrid(g) && OnBoard(s) && OnBoard(e) && CanMove(p, g, s, e)
    ensures TargetOk(p.white, g, e)
  {
  }

  /**
   * Knights and kings look at nothing but the target square: two boards that
   * agree on the target give the same answer.
   */
  lemma KnightAndKingAreLocal(p: Piece, g: Grid, h: Grid, s: Pos, e: Pos)
    requires p.kind == Knight || p.kind == King
    requires IsGrid(g) && IsGrid(h) && OnBoard(s) && OnBoard(e) && At(g, e) == At(h, e)
    ensures CanMove(p, g, s, e) == CanMove(p, h, s, e)
  {
  }

  /** Rooks, bishops and queens never jump: a piece strictly between start and end blocks them. */
  lemma SlidersDoNotJump(p: Piece, g: Grid, s: Pos, e: Pos, k: int)
    requires p.kind == Rook || p.kind == Bishop || p.kind == Queen
    requires IsGrid(g) && OnBoard(s) && OnBoard(e) && Aligned(s, e)
    requires 1 <= k < Steps(s, e) && At(g, (AlongOnBoard(s, e, k); Along(s, e, k))).Some?
    ensures !CanMove(p, g, s, e)
  {
    AlongOnBoard(s, e, k);
  }

  // ---------------------------------------------------------------------------
  // The starting position

  function BackRank(col: int): Kind {
    if col == 0 || col == 7 then Rook
    else if col == 1 || col == 6 then Knight
    else if col == 2 || col == 5 then Bishop
    else if col == 3 then Queen
    else King
  }

  function InitialSquare(row: int, col: int): Square {
    if row == 0 || row == 7 then Some(Piece(BackRank(col), row == 0))
    else if row == 1 || row == 6 then Some(Piece(Pawn, row == 1))
    else None
  }

  function InitialGrid(): (g: Grid)
    ensures IsGrid(g)
  {
    seq(8, i => seq(8, j => InitialSquare(i, j)))
  }

  lemma InitialAt(p: Pos)
    requires OnBoard(p)
    ensures At(InitialGrid(), p) == InitialSquare(p.x, p.y)
  {
  }

  function Flip(sq: Square): Square {
    if sq.None? then None else Some(sq.value.(white := !sq.value.white))
  }

  /**
   * The starting position is symmetric: black's half is white's half
   * mirrored across the middle of the board with the colours swapped; rows
   * 2 to 5 are empty and each side has one king and one queen, on columns 4
   * and 3.
   */
  lemma InitialPositionSymmetric(p: Pos)
    requires OnBoard(p)
    ensures At(InitialGrid(), Pos(7 - p.x, p.y)) == Flip(At(InitialGrid(), p))
    ensures 2 <= p.x <= 5 <==> At(InitialGrid(), p).None?
    ensures At(InitialGrid(), p).Some? ==> (At(InitialGrid(), p).value.white <==> p.x <= 1)
    ensures At(InitialGrid(), p).Some? && At(InitialGrid(), p).value.kind == King <==> (p.x == 0 || p.x == 7) && p.y == 4
    ensures At(InitialGrid(), p).Some? && At(InitialGrid(), p).value.kind == Queen <==> (p.x == 0 || p.x == 7) && p.y == 3
  {
  }

  /**
   * In the starting position only pawns and knights can move: every other
   * piece is hemmed in by its own side.
   */
  lemma BackRankHemmedIn(s: Pos, e: Pos)
    requires OnBoard(s) && OnBoard(e) && At(InitialGrid(), s).Some?
    requires At(InitialGrid(), s).value.kind != Pawn && At(InitialGrid(), s).value.kind != Knight
    ensures !CanMove(At(InitialGrid(), s).value, InitialGrid(), s, e)
  {
    if Abs(e.x - s.x) <= 1 && Abs(e.y - s.y) <= 1 {
      NeighbourIsOwn(s, e);
    } else if Aligned(s, e) && Steps(s, e) >= 2 {
      FirstStepOwn(s, e);
    }
  }

  /** Next to a back-rank piece at the start there is only its own side. */
  lemma NeighbourIsOwn(s: Pos, e: Pos)
    requires OnBoard(s) && OnBoard(e) && At(InitialGrid(), s).Some?
    requires At(InitialGrid(), s).value.kind != Pawn && At(InitialGrid(), s).value.kind != Knight
    requires Abs(e.x - s.x) <= 1 && Abs(e.y - s.y) <= 1
    ensures !TargetOk(At(InitialGrid(), s).value.white, InitialGrid(), e)
  {
    InitialAt(s);
    InitialAt(e);
  }

  /** Along any line out of a back-rank piece at the start, the first square is occupied. */
  lemma FirstStepOwn(s: Pos, e: Pos)
    requires OnBoard(s) && OnBoard(e) && At(InitialGrid(), s).Some?
    requires At(InitialGrid(), s).value.kind != Pawn && At(InitialGrid(), s).value.kind != Knight
    requires Aligned(s, e) && Steps(s, e) >= 2
    ensures PathBlocked(InitialGrid(), s, e)
  {
    InitialAt(s);
    AlongOnBoard(s, e, 1);
    InitialAt(Along(s, e, 1));
    assert At(InitialGrid(), Along(s, e, 1)).Some?;
  }

  // ---------------------------------------------------------------------------
  // The board object

  class Chessboard {
    const boxes: array2<Square>

    predicate Valid() {
      boxes.Length0 == 8 && boxes.Length1 == 8
    }

    /** The board's contents as a value. */
    function Grid(): (g: Grid)
      requires Valid()
      reads boxes
      ensures IsGrid(g)
      ensures forall i, j :: 0 <= i < 8 && 0 <= j < 8 ==> g[i][j] == boxes[i, j]
    {
      seq(8, i requires 0 <= i < 8 reads boxes =>
        seq(8, j requires 0 <= j < 8 reads boxes => boxes[i, j]))
    }

    /** A new board has every square empty. */
    constructor ()
      ensures Valid() && fresh(boxes)
      ensures forall i, j :: 0 <= i < 8 && 0 <= j < 8 ==> boxes[i, j] == None
    {
      boxes := new Square[8, 8]((i, j) => None);
    }

    /** The square at `p`: the board's value view read at row `p.x`, column `p.y`. */
    function GetBox(p: Pos): (sq: Square)
      requires Valid() && OnBoard(p)
      reads boxes
      ensures sq == Grid()[p.x][p.y]
    {
      boxes[p.x, p.y]
    }

    /** Clears the board, then sets up both armies. */
    method ResetBoard()
      requires Valid()
      modifies boxes
      ensures forall i, j :: 0 <= i < 8 && 0 <= j < 8 ==> boxes[i, j] == InitialSquare(i, j)
      ensures Grid() == InitialGrid()
    {
      ClearBoard();
      PlacePawns();
      PlaceBackRanks();
      GridIsInitial();
    }

    method ClearBoard()
      requires Valid()
      modifies boxes
      ensures forall a, b :: 0 <= a < 8 && 0 <= b < 8 ==> boxes[a, b] == None
    {
      for i := 0 to 8
        invariant forall a, b :: 0 <= a < i && 0 <= b < 8 ==> boxes[a, b] == None
      {
        for j := 0 to 8
          invariant forall a, b :: 0 <= a < i && 0 <= b < 8 ==> boxes[a, b] == None
          invariant forall b :: 0 <= b < j ==> boxes[i, b] == None
        {
          boxes[i, j] := None;
        }
      }
    }

    /** White pawns on row 1, black pawns on row 6; nothing else changes. */
    method PlacePawns()
      requires Valid()
      modifies boxes
      ensures forall a, b :: 0 <= a < 8 && 0 <= b < 8 ==>
        boxes[a, b] == if a == 1 || a == 6 then Some(Piece(Pawn, a == 1)) else old(boxes[a, b])
    {
      for j := 0 to 8
        invariant forall a, b :: 0 <= a < 8 && 0 <= b < 8 ==>
          boxes[a, b] == if (a == 1 || a == 6) && b < j then Some(Piece(Pawn, a == 1)) else old(boxes[a, b])
      {
        boxes[1, j] := Some(Piece(Pawn, true));
        boxes[6, j] := Some(Piece(Pawn, false));
      }
    }

    /** The back ranks: white on row 0, black on row 7; rows 1 to 6 do not change. */
    method PlaceBackRanks()
      requires Valid()
      modifies boxes
      ensures forall j :: 0 <= j < 8 ==> boxes[0, j] == InitialSquare(0, j) && boxes[7, j] == InitialSquare(7, j)
      ensures forall a, b :: 1 <= a < 7 && 0 <= b < 8 ==> boxes[a, b] == old(boxes[a, b])
    {
      PlaceBackRank(0, true);
      PlaceBackRank(7, false);
    }

    /** Rook, knight, bishop, queen, king, bishop, knight, rook across `row`. */
    method PlaceBackRank(row: int, white: bool)
      requires Valid() && 0 <= row < 8
      modifies boxes
      ensures forall j :: 0 <= j < 8 ==> boxes[row, j] == Some(Piece(BackRank(j), white))
      ensures forall a, b :: 0 <= a < 8 && a != row && 0 <= b < 8 ==> boxes[a, b] == old(boxes[a, b])
    {
      boxes[row, 0] := Some(Piece(Rook, white));   boxes[row, 7] := Some(Piece(Rook, white));
      boxes[row, 1] := Some(Piece(Knight, white)); boxes[row, 6] := Some(Piece(Knight, white));
      boxes[row, 2] := Some(Piece(Bishop, white)); boxes[row, 5] := Some(Piece(Bishop, white));
      boxes[row, 3] := Some(Piece(Queen, white));
      boxes[row, 4] := Some(Piece(King, white));
    }

    lemma GridIsInitial()
      requires Valid()
      requires forall i, j :: 0 <= i < 8 && 0 <= j < 8 ==> boxes[i, j] == InitialSquare(i, j)
      ensures Grid() == InitialGrid()
    {
      assert forall i :: 0 <= i < 8 ==> Grid()[i] == InitialGrid()[i];
    }

    /** Puts `piece` on `e`, then empties `s`. */
    method MovePiece(s: Pos, e: Pos, piece: Square)
      requires Valid() && OnBoard(s) && OnBoard(e)
      modifies boxes
      ensures Grid() == Put(Put(old(Grid()), e, piece), s, None)
    {
      ghost var before := Grid();
      boxes[e.x, e.y] := piece;
      boxes[s.x, s.y] := None;
      ghost var g := Put(Put(before, e, piece), s, None);
      assert forall i :: 0 <= i < 8 ==> Grid()[i] == g[i];
    }

    /**
     * Walks from the square after `s` toward `e` and reports whether any
     * square before `e` holds a piece.  Start and end must share a row, a
     * column or a diagonal: otherwise the walk never reaches `e`.
     */
    method IsPathBlocked(s: Pos, e: Pos) returns (blocked: bool)
      requires Valid() && OnBoard(s) && OnBoard(e) && Aligned(s, e)
      ensures blocked == PathBlocked(Grid(), s, e)
    {
      var dx := Compare(e.x, s.x);
      var dy := Compare(e.y, s.y);
      var x, y := s.x + dx, s.y + dy;
      ghost var k := 1;
      ghost var n: int := Steps(s, e);
      while x != e.x || y != e.y
        invariant (s == e && k == 1 && x == e.x && y == e.y) || (1 <= k <= n && Pos(x, y) == Along(s, e, k))
        invariant forall j :: 1 <= j < k && j < n ==> At(Grid(), Along(s, e, j)).None?
        decreases n - k
      {
        AlongOnBoard(s, e, k);
        if boxes[x, y].Some? {
          assert At(Grid(), Along(s, e, k)).Some?;
          return true;
        }
        x, y := x + dx, y + dy;
        k := k + 1;
      }
      if s != e {
        AlongOnBoard(s, e, k);
      }
      return false;
    }
  }

  // ---------------------------------------------------------------------------
  // The game

  class Player {
    const name: string
    const whiteSide: bool

    constructor (name: string, whiteSide: bool)
      ensures this.name == name && this.whiteSide == whiteSide
    {
      this.name := name;
      this.whiteSide := whiteSide;
    }
  }

  datatype GameStatus = Active | WhiteWin | BlackWin | Draw

  datatype Move = Move(start: Pos, end: Pos, pieceMoved: Piece, pieceKilled: Square, player: Player)

  /** What the console reports for one input line. */
  datatype Notice = Resigned | BadFormat | NoPieceAtSource | NotYourPiece | InvalidMove | Moved(move: Move)

  datatype GameView = GameView(grid: Grid, turn: Player, status: GameStatus, history: seq<Move>)

  /** Exactly "[a-h][1-8] [a-h][1-8]". */
  predicate IsMoveText(t: string) {
    && |t| == 5
    && 'a' <= t[0] <= 'h' && '1' <= t[1] <= '8'
    && t[2] == ' '
    && 'a' <= t[3] <= 'h' && '1' <= t[4] <= '8'
  }

  /** The file letter gives the column and the rank digit the row. */
  function ParseSquare(file: char, rank: char): (p: Pos)
    requires 'a' <= file <= 'h' && '1' <= rank <= '8'
    ensures OnBoard(p)
  {
    Pos(rank as int - '1' as int, file as int - 'a' as int)
  }

  function SquareName(p: Pos): string
    requires OnBoard(p)
  {
    [('a' as int + p.y) as char, ('1' as int + p.x) as char]
  }

  function MoveText(s: Pos, e: Pos): string
    requires OnBoard(s) && OnBoard(e)
  {
    SquareName(s) + " " + SquareName(e)
  }

  /** Writing a move and reading it back gives the same squares, and every well-formed text is some move's text. */
  lemma MoveTextRoundTrip(s: Pos, e: Pos, t: string)
    requires OnBoard(s) && OnBoard(e)
    ensures IsMoveText(MoveText(s, e))
    ensures ParseSquare(MoveText(s, e)[0], MoveText(s, e)[1]) == s
    ensures ParseSquare(MoveText(s, e)[3], MoveText(s, e)[4]) == e
    ensures IsMoveText(t) ==> MoveText(ParseSquare(t[0], t[1]), ParseSquare(t[3], t[4])) == t
  {
    if IsMoveText(t) {
      var t' := MoveText(ParseSquare(t[0], t[1]), ParseSquare(t[3], t[4]));
      assert |t'| == 5;
      assert forall i :: 0 <= i < 5 ==> t'[i] == t[i];
    }
  }

  /** The input after `trim()` and `toLowerCase()`. */
  function Normalize(line: string): string {
    ToLower(Trim(line))
  }

  /** One pass of the console loop on one input line. */
  function PlayStep(v: GameView, white: Player, black: Player, line: string): (r: (GameView, Notice))
    requires IsGrid(v.grid)
    ensures IsGrid(r.0.grid)
  {
    var input := Normalize(line);
    if input == "resign" then
      (v.(status := if v.turn.whiteSide then BlackWin else WhiteWin), Resigned)
    else if !IsMoveText(input) then (v, BadFormat)
    else
      var s := ParseSquare(input[0], input[1]);
      var e := ParseSquare(input[3], input[4]);
      var piece := At(v.grid, s);
      if piece.None? then (v, NoPieceAtSource)
      else if piece.value.white != v.turn.whiteSide then (v, NotYourPiece)
      else if !ValidateMove(piece, v.grid, s, e) then (v, InvalidMove)
      else Played(v, white, black, s, e, piece.value)
  }

  /** A validated move: the piece goes to `e`, `s` is emptied, and the move is recorded; past 50 moves the game is drawn. */
  function Played(v: GameView, white: Player, black: Player, s: Pos, e: Pos, piece: Piece): (r: (GameView, Notice))
    requires IsGrid(v.grid) && OnBoard(s) && OnBoard(e)
    ensures IsGrid(r.0.grid)
  {
    var mv := Move(s, e, piece, At(v.grid, e), v.turn);
    var g := Put(Put(v.grid, e, Some(piece)), s, None);
    var history := v.history + [mv];
    if |history| > 50 then (GameView(g, v.turn, Draw, history), Moved(mv))
    else (GameView(g, if v.turn == white then black else white, v.status, history), Moved(mv))
  }

  /** Resigning hands the win to the other side and leaves the board as it is. */
  lemma ResignationGivesOpponentTheWin(v: GameView, white: Player, black: Player, line: string)
    requires IsGrid(v.grid) && Normalize(line) == "resign"
    ensures var r := PlayStep(v, white, black, line);
      && r.1 == Resigned && r.0.grid == v.grid && r.0.history == v.history
      && r.0.status == (if v.turn.whiteSide then BlackWin else WhiteWin)
  {
  }

  /**
   * A line is either refused, with board, history, turn and status
   * unchanged, or it moves one of the current player's pieces: the piece
   * lands on the end square, the start square is emptied, no other square
   * changes, whatever stood on the end square is recorded as captured, the
   * history grows by exactly that move and the turn passes to the other
   * player unless the fifty-move limit ends the game in a draw.
   */
  lemma PlayStepOutcomes(v: GameView, white: Player, black: Player, line: string)
    requires IsGrid(v.grid) && Normalize(line) != "resign"
    requires v.turn == white || v.turn == black
    ensures var r := PlayStep(v, white, black, line);
      match r.1
      case Moved(mv) =>
        && OnBoard(mv.start) && OnBoard(mv.end) && mv.start != mv.end
        && At(v.grid, mv.start) == Some(mv.pieceMoved)
        && mv.pieceMoved.white == v.turn.whiteSide && mv.player == v.turn
        && mv.pieceKilled == At(v.grid, mv.end)
        && TargetOk(mv.pieceMoved.white, v.grid, mv.end)
        && At(r.0.grid, mv.end) == Some(mv.pieceMoved) && At(r.0.grid, mv.start) == None
        && (forall q :: OnBoard(q) && q != mv.start && q != mv.end ==> At(r.0.grid, q) == At(v.grid, q))
        && r.0.history == v.history + [mv]
        && (|r.0.history| > 50 ==> r.0.status == Draw && r.0.turn == v.turn)
        && (|r.0.history| <= 50 ==> r.0.status == v.status && r.0.turn == (if v.turn == white then black else white))
      case _ => r.0 == v
  {
    var input := Normalize(line);
    var r := PlayStep(v, white, black, line);
    if IsMoveText(input) {
      var s := ParseSquare(input[0], input[1]);
      var e := ParseSquare(input[3], input[4]);
      var piece := At(v.grid, s);
      if piece.Some? && piece.value.white == v.turn.whiteSide && ValidateMove(piece, v.grid, s, e) {
        ZeroLengthMoveRefused(piece.value, v.grid, s);
        NeverCapturesOwnColour(piece.value, v.grid, s, e);
        var mv := Move(s, e, piece.value, At(v.grid, e), v.turn);
        var g1 := Put(v.grid, e, piece);
        var g := Put(g1, s, None);
        var history := v.history + [mv];
        assert r == if |history| > 50 then (GameView(g, v.turn, Draw, history), Moved(mv))
                    else (GameView(g, if v.turn == white then black else white, v.status, history), Moved(mv));
        assert At(g, e) == At(g1, e) == piece;
      } else {
        assert r.1 != Resigned && !r.1.Moved? && r.0 == v;
      }
    } else {
      assert r == (v, BadFormat);
    }
  }

  /** The state after reading `lines` until they run out or the game is over. */
  function PlayLines(v: GameView, white: Player, black: Player, lines: seq<string>): (r: GameView)
    requires IsGrid(v.grid)
    ensures IsGrid(r.grid)
    ensures v.status != Active ==> r == v
    decreases |lines|
  {
    if lines == [] || v.status != Active then v
    else PlayLines(PlayStep(v, white, black, lines[0]).0, white, black, lines[1..])
  }

  class ChessGame {
    const white: Player
    const black: Player
    const board: Chessboard
    var currentTurn: Player
    var status: GameStatus
    var moveHistory: seq<Move>

    predicate Valid()
      reads this
    {
      board.Valid()
    }

    function View(): (v: GameView)
      requires Valid()
      reads this, board.boxes
      ensures IsGrid(v.grid)
    {
      GameView(board.Grid(), currentTurn, status, moveHistory)
    }

    /** A new game: white to move on a freshly set-up board, nothing played yet. */
    constructor (white: Player, black: Player)
      ensures Valid() && fresh(board) && fresh(board.boxes)
      ensures this.white == white && this.black == black
      ensures View() == GameView(InitialGrid(), white, Active, [])
    {
      this.white := white;
      this.black := black;
      currentTurn := white;
      status := Active;
      moveHistory := [];
      board := new Chessboard();
      new;
      board.ResetBoard();
    }

    /** One pass of the console loop: the game must still be running. */
    method PlayTurn(line: string) returns (notice: Notice)
      requires Valid() && status == Active
      modifies this, board.boxes
      ensures Valid()
      ensures (View(), notice) == PlayStep(old(View()), white, black, line)
    {
      ghost var v := View();
      var input := Normalize(line);
      if input == "resign" {
        status := if currentTurn.whiteSide then BlackWin else WhiteWin;
        return Resigned;
      }
      if !IsMoveText(input) {
        return BadFormat;
      }
      var s := ParseSquare(input[0], input[1]);
      var e := ParseSquare(input[3], input[4]);
      var piece := board.GetBox(s);
      if piece.None? {
        return NoPieceAtSource;
      }
      if piece.value.white != currentTurn.whiteSide {
        return NotYourPiece;
      }
      if !ValidateMove(piece, board.Grid(), s, e) {
        return InvalidMove;
      }
      var captured := board.GetBox(e);
      board.MovePiece(s, e, piece);
      var mv := Move(s, e, piece.value, captured, currentTurn);
      assert PlayStep(v, white, black, line) == Played(v, white, black, s, e, piece.value);
      moveHistory := moveHistory + [mv];
      notice := Moved(mv);
      if |moveHistory| > 50 {
        status := Draw;
        return;
      }
      currentTurn := if currentTurn == white then black else white;
    }

    /** Reads lines until they run out or the game ends; returns how many were read. */
    method Play(lines: seq<string>) returns (consumed: nat)
      requires Valid()
      modifies this, board.boxes
      ensures Valid() && consumed <= |lines|
      ensures View() == PlayLines(old(View()), white, black, lines)
      ensures consumed < |lines| ==> status != Active
    {
      consumed := 0;
      while consumed < |lines| && status == Active
        invariant Valid() && consumed <= |lines|
        invariant PlayLines(View(), white, black, lines[consumed..]) == PlayLines(old(View()), white, black, lines)
        decreases |lines| - consumed
      {
        assert lines[consumed..][1..] == lines[consumed + 1..];
        var _ := PlayTurn(lines[consumed]);
        consumed := consumed + 1;
      }
    }
  }
}
