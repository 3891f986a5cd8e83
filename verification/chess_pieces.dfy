/**
  Pieces of the chess engine in ChessGame.java: the data model of a piece
  and of the 8x8 grid, the six move patterns (each subclass's
  `isValidMove`) and the six candidate generators (`getValidMoves`).

  Row 0 is White's back rank; White (colour 0) moves toward row 7.
  A square is (row, col); Java's `Point(x, y)` holds `x = row`, `y = col`.
 */
module ChessPieces {
  import opened Wrappers

  datatype Color = White | Black

  /** `1 - color` on the Java colour codes 0 and 1. */
  function Opponent(c: Color): Color {
    if c == White then Black else White
  }

  /** A Rook carries the `hasMoved` flag that gates castling; no other kind has one. */
  datatype Kind = Pawn | Rook(moved: bool) | Knight | Bishop | Queen | King

  /**
    A piece object. `id` stands for the object's identity, which the Java
    code compares with `==` (the en-passant test); `row`/`col` are the
    position the piece believes it has and `prevRow`/`prevCol` the position
    before its last `setPosition`.
   */
  datatype Piece = Piece(id: nat, kind: Kind, color: Color, row: int, col: int, prevRow: int, prevCol: int)

  datatype Square = Square(row: int, col: int)

  type Cell = Option<Piece>

  predicate IsGrid(g: seq<seq<Cell>>) {
    |g| == 8 && forall r :: 0 <= r < 8 ==> |g[r]| == 8
  }

  function EmptyGrid(): (g: seq<seq<Cell>>)
    ensures IsGrid(g)
  {
    seq(8, _ => seq(8, _ => None))
  }

  /** `Piece[8][8] grid`, indexed `grid[row][col]`; None is a null entry. */
  type Grid = g: seq<seq<Cell>> | IsGrid(g) witness EmptyGrid()

  predicate InBounds(r: int, c: int) {
    0 <= r < 8 && 0 <= c < 8
  }

  /**
    State the controller keeps outside the board and the pieces read:
    `whiteKingMoved`, `blackKingMoved` and `enPassantVulnerable`.
   */
  datatype Flags = Flags(whiteKingMoved: bool, blackKingMoved: bool, enPassant: Option<Piece>)

  function KingMoved(f: Flags, c: Color): bool {
    if c == White then f.whiteKingMoved else f.blackKingMoved
  }

  /** Has the piece a position on the grid (it was read out of some cell)? */
  predicate Located(p: Piece) {
    InBounds(p.row, p.col)
  }

  /** The piece stands on the cell its own fields name. */
  predicate OnSquare(g: Grid, p: Piece) {
    Located(p) && g[p.row][p.col] == Some(p)
  }

  // ---- cell queries ---------------------------------------------------------

  predicate IsEmpty(g: Grid, r: int, c: int)
    requires InBounds(r, c)
  {
    g[r][c].None?
  }

  predicate HoldsColor(g: Grid, r: int, c: int, color: Color)
    requires InBounds(r, c)
  {
    g[r][c].Some? && g[r][c].value.color == color
  }

  predicate HoldsEnemy(g: Grid, r: int, c: int, color: Color)
    requires InBounds(r, c)
  {
    g[r][c].Some? && g[r][c].value.color != color
  }

  /** `grid[r][c] instanceof Pawn && grid[r][c] == enPassantVulnerable` */
  predicate HoldsEnPassantPawn(g: Grid, f: Flags, r: int, c: int)
    requires InBounds(r, c)
  {
    g[r][c].Some? && g[r][c].value.kind == Pawn && f.enPassant.Some? && g[r][c].value.id == f.enPassant.value.id
  }

  /** `grid[r][c] instanceof Rook && !((Rook) grid[r][c]).hasMoved()` (of either colour) */
  predicate HoldsUnmovedRook(g: Grid, r: int, c: int)
    requires InBounds(r, c)
  {
    g[r][c].Some? && g[r][c].value.kind == Rook(false)
  }

  // ---- arithmetic helpers ---------------------------------------------------

  function Abs(x: int): nat {
    if x < 0 then -x else x
  }

  /** `Integer.compare(a, b)`: -1, 0 or 1. */
  function Compare(a: int, b: int): int {
    if a < b then -1 else if a > b then 1 else 0
  }

  /** Pawn direction: White +1, Black -1. */
  function Dir(c: Color): int {
    if c == White then 1 else -1
  }

  function StartRow(c: Color): int {
    if c == White then 1 else 6
  }

  // ---- the sliding walk -----------------------------------------------------

  /** `from` is heading for `to` in unit steps `s` (or is already there with s = 0). */
  predicate Toward(from: int, to: int, s: int) {
    (s == 0 && from == to) || (s == 1 && from <= to) || (s == -1 && from >= to)
  }

  /** Stepping by (sr, sc) from (cr, cc) lands on (tr, tc) after some number of steps. */
  predicate Lined(cr: int, cc: int, tr: int, tc: int, sr: int, sc: int) {
    Toward(cr, tr, sr) && Toward(cc, tc, sc) && (sr == 0 || sc == 0 || Abs(tr - cr) == Abs(tc - cc))
  }

  /**
    The `while (currentX != newCol || currentY != newRow)` loop of
    Rook.isValidMove and Bishop.isValidMove: from the current square up to
    (not including) the target, every square must be empty.
   */
  predicate PathClear(g: Grid, cr: int, cc: int, tr: int, tc: int, sr: int, sc: int)
    requires InBounds(cr, cc) && InBounds(tr, tc) && Lined(cr, cc, tr, tc, sr, sc)
    decreases Abs(tr - cr) + Abs(tc - cc)
  {
    (cr == tr && cc == tc) || (IsEmpty(g, cr, cc) && PathClear(g, cr + sr, cc + sc, tr, tc, sr, sc))
  }

  /** Rook.isValidMove: same row or column, nothing in between. */
  predicate RookLine(g: Grid, p: Piece, nr: int, nc: int)
    requires Located(p) && InBounds(nr, nc)
  {
    (p.row == nr || p.col == nc) &&
    var sr, sc := Compare(nr, p.row), Compare(nc, p.col);
    PathClear(g, p.row + sr, p.col + sc, nr, nc, sr, sc)
  }

  /** Bishop.isValidMove: equal row and column distance, nothing in between. */
  predicate BishopLine(g: Grid, p: Piece, nr: int, nc: int)
    requires Located(p) && InBounds(nr, nc)
  {
    Abs(nr - p.row) == Abs(nc - p.col) &&
    var sr, sc := Compare(nr, p.row), Compare(nc, p.col);
    PathClear(g, p.row + sr, p.col + sc, nr, nc, sr, sc)
  }

  /** Pawn.isValidMove, including the en-passant capture test. */
  predicate PawnPattern(g: Grid, f: Flags, p: Piece, nr: int, nc: int)
    requires Located(p) && InBounds(nr, nc)
  {
    var dir := Dir(p.color);
    (p.col == nc && IsEmpty(g, nr, nc) &&
      (nr == p.row + dir ||
       (p.row == StartRow(p.color) && nr == p.row + 2 * dir && IsEmpty(g, p.row + dir, p.col))))
    ||
    (Abs(nc - p.col) == 1 && nr == p.row + dir &&
      (HoldsEnemy(g, nr, nc, p.color) || HoldsEnPassantPawn(g, f, p.row, nc)))
  }

  /** Knight.isValidMove: the (1,2)/(2,1) offsets, whatever stands between. */
  predicate KnightPattern(p: Piece, nr: int, nc: int) {
    var dx, dy := Abs(nc - p.col), Abs(nr - p.row);
    (dx == 1 && dy == 2) || (dx == 2 && dy == 1)
  }

  /** The `for (int c = col + step; c != rookCol; c += step)` loop of King.isValidMove. */
  predicate CastleClear(g: Grid, row: int, c: int, rookCol: int, step: int)
    requires InBounds(row, c) && InBounds(row, rookCol) && Toward(c, rookCol, step)
    decreases Abs(rookCol - c)
  {
    c == rookCol || (IsEmpty(g, row, c) && CastleClear(g, row, c + step, rookCol, step))
  }

  /** King.isValidMove: one square any way, or a two-file castling move. */
  predicate KingPattern(g: Grid, f: Flags, p: Piece, nr: int, nc: int)
    requires Located(p) && InBounds(nr, nc)
  {
    (Abs(nr - p.row) <= 1 && Abs(nc - p.col) <= 1) ||
    (p.row == nr && Abs(nc - p.col) == 2 &&
      var kingside := nc > p.col;
      var rookCol := if kingside then 7 else 0;
      var step := if kingside then 1 else -1;
      HoldsUnmovedRook(g, p.row, rookCol) && !KingMoved(f, p.color) &&
      CastleClear(g, p.row, p.col + step, rookCol, step))
  }

  /** `piece.isValidMove(newRow, newCol, grid)`: the raw pattern, ignoring check. */
  predicate Pattern(g: Grid, f: Flags, p: Piece, nr: int, nc: int)
    requires Located(p) && InBounds(nr, nc)
  {
    match p.kind
    case Pawn => PawnPattern(g, f, p, nr, nc)
    case Rook(_) => RookLine(g, p, nr, nc)
    case Knight => KnightPattern(p, nr, nc)
    case Bishop => BishopLine(g, p, nr, nc)
    case Queen => RookLine(g, p, nr, nc) || BishopLine(g, p, nr, nc)
    case King => KingPattern(g, f, p, nr, nc)
  }

  /**
    The part of Board.isValidMove before the check simulation: on the board,
    not onto a piece of the mover's colour, and the piece's own pattern.
   */
  predicate PseudoLegal(g: Grid, f: Flags, p: Piece, s: Square)
    requires Located(p)
  {
    InBounds(s.row, s.col) && !HoldsColor(g, s.row, s.col, p.color) && Pattern(g, f, p, s.row, s.col)
  }

  // ---- candidate generators -------------------------------------------------

  predicate UnitDir(dr: int, dc: int) {
    -1 <= dr <= 1 && -1 <= dc <= 1 && (dr != 0 || dc != 0)
  }

  /** Squares left before a coordinate walking by `d` leaves 0..7. */
  function Budget(x: int, d: int): int {
    if d > 0 then 8 - x else if d < 0 then x + 1 else 0
  }

  /**
    One direction of the Rook/Bishop `getValidMoves` loop, looking at (r, c):
    empty squares are added and the walk goes on; the first occupied square
    is added only if it holds an enemy, and ends the walk.
   */
  function Ray(g: Grid, color: Color, r: int, c: int, dr: int, dc: int): seq<Square>
    requires UnitDir(dr, dc) && InBounds(r - dr, c - dc)
    decreases Budget(r, dr) + Budget(c, dc)
  {
    if !InBounds(r, c) then []
    else if IsEmpty(g, r, c) then [Square(r, c)] + Ray(g, color, r + dr, c + dc, dr, dc)
    else if HoldsEnemy(g, r, c, color) then [Square(r, c)]
    else []
  }

  /** Rook.getValidMoves: the rays in the order {0,1}, {1,0}, {0,-1}, {-1,0} (row step, column step). */
  function RookRays(g: Grid, color: Color, r: int, c: int): seq<Square>
    requires InBounds(r, c)
  {
    Ray(g, color, r, c + 1, 0, 1) + Ray(g, color, r + 1, c, 1, 0) +
    Ray(g, color, r, c - 1, 0, -1) + Ray(g, color, r - 1, c, -1, 0)
  }

  /** Bishop.getValidMoves: the rays in the order {1,1}, {1,-1}, {-1,1}, {-1,-1}. */
  function BishopRays(g: Grid, color: Color, r: int, c: int): seq<Square>
    requires InBounds(r, c)
  {
    Ray(g, color, r + 1, c + 1, 1, 1) + Ray(g, color, r + 1, c - 1, 1, -1) +
    Ray(g, color, r - 1, c + 1, -1, 1) + Ray(g, color, r - 1, c - 1, -1, -1)
  }

  /** The Knight/King `getValidMoves` loop: each offset on the board that is empty or hostile. */
  function Leaps(g: Grid, color: Color, r: int, c: int, offsets: seq<(int, int)>): seq<Square>
    decreases |offsets|
  {
    if |offsets| == 0 then []
    else
      var nr, nc := r + offsets[0].0, c + offsets[0].1;
      var here := if InBounds(nr, nc) && !HoldsColor(g, nr, nc, color) then [Square(nr, nc)] else [];
      here + Leaps(g, color, r, c, offsets[1..])
  }

  const KnightOffsets: seq<(int, int)> := [(2, 1), (1, 2), (-1, 2), (-2, 1), (-2, -1), (-1, -2), (1, -2), (2, -1)]
  const KingOffsets: seq<(int, int)> := [(1, 0), (1, 1), (0, 1), (-1, 1), (-1, 0), (-1, -1), (0, -1), (1, -1)]

  /** Pawn.getValidMoves reads `grid[row + direction]`, which exists unless the pawn is on its last rank. */
  predicate CanGenerate(p: Piece) {
    Located(p) && (p.kind == Pawn ==> 0 <= p.row + Dir(p.color) < 8)
  }

  /** One diagonal of Pawn.getValidMoves (`dc` is -1 or 1). */
  function PawnDiagonal(g: Grid, f: Flags, p: Piece, dc: int): seq<Square>
    requires Located(p) && 0 <= p.row + Dir(p.color) < 8
  {
    var r1, c1 := p.row + Dir(p.color), p.col + dc;
    if 0 <= c1 < 8 then
      if HoldsEnemy(g, r1, c1, p.color) then [Square(r1, c1)]
      else if HoldsEnPassantPawn(g, f, p.row, c1) then [Square(r1, c1)]
      else []
    else []
  }

  function PawnCandidates(g: Grid, f: Flags, p: Piece): seq<Square>
    requires Located(p) && 0 <= p.row + Dir(p.color) < 8
  {
    var dir := Dir(p.color);
    var forward :=
      if IsEmpty(g, p.row + dir, p.col) then
        [Square(p.row + dir, p.col)] +
        (if p.row == StartRow(p.color) && IsEmpty(g, p.row + 2 * dir, p.col) then [Square(p.row + 2 * dir, p.col)] else [])
      else [];
    forward + PawnDiagonal(g, f, p, -1) + PawnDiagonal(g, f, p, 1)
  }

  /** The castling part of King.getValidMoves; it takes the king to stand on column 4. */
  function CastleCandidates(g: Grid, f: Flags, p: Piece): seq<Square>
    requires Located(p)
  {
    if KingMoved(f, p.color) then []
    else
      (if IsEmpty(g, p.row, 5) && IsEmpty(g, p.row, 6) && HoldsUnmovedRook(g, p.row, 7)
       then [Square(p.row, p.col + 2)] else []) +
      (if IsEmpty(g, p.row, 1) && IsEmpty(g, p.row, 2) && IsEmpty(g, p.row, 3) && HoldsUnmovedRook(g, p.row, 0)
       then [Square(p.row, p.col - 2)] else [])
  }

  /** `piece.getValidMoves(grid)`, in the order the Java lists are built. */
  function Candidates(g: Grid, f: Flags, p: Piece): seq<Square>
    requires CanGenerate(p)
  {
    match p.kind
    case Pawn => PawnCandidates(g, f, p)
    case Rook(_) => RookRays(g, p.color, p.row, p.col)
    case Knight => Leaps(g, p.color, p.row, p.col, KnightOffsets)
    case Bishop => BishopRays(g, p.color, p.row, p.col)
    case Queen => RookRays(g, p.color, p.row, p.col) + BishopRays(g, p.color, p.row, p.col)
    case King => Leaps(g, p.color, p.row, p.col, KingOffsets) + CastleCandidates(g, f, p)
  }
}
