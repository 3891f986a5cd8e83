/**
  The Board class of ChessGame.java: moving pieces, finding the king,
  the attack scan, check, and move validation by simulate-and-undo.
  The row-major `for (row) for (col)` loops run over a square index
  i = 8 * row + col.
 */
module ChessBoard {
  import opened Wrappers
  import opened ChessPieces

  /** `grid[r][c] = cell` */
  function Put(g: Grid, r: int, c: int, cell: Cell): (h: Grid)
    requires InBounds(r, c)
    ensures h[r][c] == cell
    ensures forall i, j :: InBounds(i, j) && (i != r || j != c) ==> h[i][j] == g[i][j]
  {
    g[r := g[r][c := cell]]
  }

  /** Piece.setPosition: the old position becomes the previous one. */
  function SetPosition(p: Piece, r: int, c: int): Piece {
    p.(prevRow := p.row, prevCol := p.col, row := r, col := c)
  }

  /** Every piece on the grid records the cell it stands on. */
  ghost predicate Placed(g: Grid) {
    forall r, c :: InBounds(r, c) && g[r][c].Some? ==> g[r][c].value.row == r && g[r][c].value.col == c
  }

  function SquareOf(i: int): Square
    requires 0 <= i < 64
  {
    Square(i / 8, i % 8)
  }

  // ---- isSquareUnderAttack --------------------------------------------------

  /** The piece on (r, c) belongs to `attacker` and its pattern reaches (tr, tc). */
  predicate AttacksFrom(g: Grid, f: Flags, r: int, c: int, tr: int, tc: int, attacker: Color)
    requires Placed(g) && InBounds(r, c) && InBounds(tr, tc)
  {
    g[r][c].Some? && g[r][c].value.color == attacker && Pattern(g, f, g[r][c].value, tr, tc)
  }

  /** Board.isSquareUnderAttack's loop, from square index i on. */
  predicate AttackScan(g: Grid, f: Flags, tr: int, tc: int, attacker: Color, i: int)
    requires Placed(g) && InBounds(tr, tc) && 0 <= i <= 64
    decreases 64 - i
  {
    i < 64 && (AttacksFrom(g, f, i / 8, i % 8, tr, tc, attacker) || AttackScan(g, f, tr, tc, attacker, i + 1))
  }

  /** Some piece of `attacker` has a pattern move onto (tr, tc). */
  ghost predicate Attacked(g: Grid, f: Flags, tr: int, tc: int, attacker: Color)
    requires Placed(g) && InBounds(tr, tc)
  {
    exists r, c :: InBounds(r, c) && AttacksFrom(g, f, r, c, tr, tc, attacker)
  }

  lemma {:induction false} AttackScanFrom(g: Grid, f: Flags, tr: int, tc: int, attacker: Color, i: int)
    requires Placed(g) && InBounds(tr, tc) && 0 <= i <= 64
    ensures AttackScan(g, f, tr, tc, attacker, i) <==>
      exists j :: i <= j < 64 && AttacksFrom(g, f, j / 8, j % 8, tr, tc, attacker)
    decreases 64 - i
  {
    if i < 64 {
      AttackScanFrom(g, f, tr, tc, attacker, i + 1);
    }
  }

  /** The scan answers true exactly when some attacker's pattern reaches the square. */
  lemma AttackScanMatches(g: Grid, f: Flags, tr: int, tc: int, attacker: Color)
    requires Placed(g) && InBounds(tr, tc)
    ensures AttackScan(g, f, tr, tc, attacker, 0) <==> Attacked(g, f, tr, tc, attacker)
  {
    AttackScanFrom(g, f, tr, tc, attacker, 0);
    if Attacked(g, f, tr, tc, attacker) {
      var r, c :| InBounds(r, c) && AttacksFrom(g, f, r, c, tr, tc, attacker);
      var j := 8 * r + c;
      assert j / 8 == r && j % 8 == c;
    }
  }

  // ---- findKing ---------------------------------------------------------------

  predicate IsKingAt(g: Grid, r: int, c: int, color: Color)
    requires InBounds(r, c)
  {
    g[r][c].Some? && g[r][c].value.kind == King && g[r][c].value.color == color
  }

  ghost predicate HasKing(g: Grid, color: Color) {
    exists r, c :: InBounds(r, c) && IsKingAt(g, r, c, color)
  }

  /** Board.findKing's loop from square index i on: the first king of `color`. */
  function KingScan(g: Grid, color: Color, i: int): Option<Piece>
    requires 0 <= i <= 64
    decreases 64 - i
  {
    if i == 64 then None
    else if IsKingAt(g, i / 8, i % 8, color) then g[i / 8][i % 8]
    else KingScan(g, color, i + 1)
  }

  /** The scan returns the first king at or after index i, or None when there is none. */
  lemma {:induction false} KingScanFinds(g: Grid, color: Color, i: int)
    requires 0 <= i <= 64
    ensures var k := KingScan(g, color, i);
      k.Some? ==> exists j :: i <= j < 64 && IsKingAt(g, j / 8, j % 8, color) && g[j / 8][j % 8] == k &&
                                (forall m :: i <= m < j ==> !IsKingAt(g, m / 8, m % 8, color))
    ensures KingScan(g, color, i).None? ==> forall j :: i <= j < 64 ==> !IsKingAt(g, j / 8, j % 8, color)
    decreases 64 - i
  {
    if i < 64 {
      KingScanFinds(g, color, i + 1);
      if !IsKingAt(g, i / 8, i % 8, color) && KingScan(g, color, i).Some? {
        var j :| i + 1 <= j < 64 && IsKingAt(g, j / 8, j % 8, color) && g[j / 8][j % 8] == KingScan(g, color, i) &&
                 (forall m :: i + 1 <= m < j ==> !IsKingAt(g, m / 8, m % 8, color));
        assert forall m :: i <= m < j ==> !IsKingAt(g, m / 8, m % 8, color);
      }
    }
  }

  /**
    Board.findKing: the first king of `color` in row-major order; None
    (Java's null) exactly when there is none.
   */
  function FindKing(g: Grid, color: Color): (k: Option<Piece>)
    requires Placed(g)
    ensures k.None? <==> !HasKing(g, color)
    ensures k.Some? ==> InBounds(k.value.row, k.value.col) && g[k.value.row][k.value.col] == k && IsKingAt(g, k.value.row, k.value.col, color)
    ensures k.Some? ==> forall r, c :: InBounds(r, c) && 8 * r + c < 8 * k.value.row + k.value.col ==> !IsKingAt(g, r, c, color)
  {
    var k := KingScan(g, color, 0);
    KingScanFinds(g, color, 0);
    if k.None? then
      assert forall r, c :: InBounds(r, c) ==> !IsKingAt(g, r, c, color) by {
        forall r, c | InBounds(r, c) ensures !IsKingAt(g, r, c, color) {
          var j := 8 * r + c;
          assert j / 8 == r && j % 8 == c;
        }
      }
      k
    else
      var j :| 0 <= j < 64 && IsKingAt(g, j / 8, j % 8, color) && g[j / 8][j % 8] == k &&
               (forall m :: 0 <= m < j ==> !IsKingAt(g, m / 8, m % 8, color));
      assert forall r, c :: InBounds(r, c) && 8 * r + c < j ==> !IsKingAt(g, r, c, color) by {
        forall r, c | InBounds(r, c) && 8 * r + c < j ensures !IsKingAt(g, r, c, color) {
          var m := 8 * r + c;
          assert m / 8 == r && m % 8 == c;
        }
      }
      k
  }

  // ---- isCheck ------------------------------------------------------------------

  /** Board.isCheck: is the (first) king of `color` attacked by the other colour? */
  predicate IsCheck(g: Grid, f: Flags, color: Color)
    requires Placed(g) && HasKing(g, color)
  {
    var k := FindKing(g, color).value;
    AttackScan(g, f, k.row, k.col, Opponent(color), 0)
  }

  /** At most one king of `color` is on the grid. */
  ghost predicate OneKing(g: Grid, color: Color) {
    forall r1, c1, r2, c2 :: InBounds(r1, c1) && InBounds(r2, c2) && IsKingAt(g, r1, c1, color) && IsKingAt(g, r2, c2, color) ==>
      r1 == r2 && c1 == c2
  }

  /** With a single king, check means exactly that the king's square is attacked. */
  lemma CheckMeansKingAttacked(g: Grid, f: Flags, color: Color, r: int, c: int)
    requires Placed(g) && OneKing(g, color) && InBounds(r, c) && IsKingAt(g, r, c, color)
    ensures IsCheck(g, f, color) <==> Attacked(g, f, r, c, Opponent(color))
  {
    AttackScanMatches(g, f, r, c, Opponent(color));
  }

  // ---- isValidMove ------------------------------------------------------------

  /** The simulated move inside Board.isValidMove (before the undo). */
  function Simulate(g: Grid, p: Piece, nr: int, nc: int): Grid
    requires Located(p) && InBounds(nr, nc)
  {
    Put(Put(g, p.row, p.col, None), nr, nc, Some(SetPosition(p, nr, nc)))
  }

  /** The simulated position is well formed and the mover still has a king. */
  lemma SimulateKeepsKing(g: Grid, p: Piece, nr: int, nc: int)
    requires Placed(g) && OnSquare(g, p) && HasKing(g, p.color)
    requires InBounds(nr, nc) && !HoldsColor(g, nr, nc, p.color)
    ensures Placed(Simulate(g, p, nr, nc)) && HasKing(Simulate(g, p, nr, nc), p.color)
  {
    var h := Simulate(g, p, nr, nc);
    var r, c :| InBounds(r, c) && IsKingAt(g, r, c, p.color);
    if p.kind == King {
      assert IsKingAt(h, nr, nc, p.color);
    } else {
      assert IsKingAt(h, r, c, p.color);
    }
  }

  /**
    Board.isValidMove: on the board, not onto the mover's own colour, the
    piece's pattern, and the mover's king not attacked once the piece
    stands on the target (with whatever it captured removed -- except an
    en-passant victim, which the simulation leaves in place).
   */
  predicate IsValidMove(g: Grid, f: Flags, p: Piece, nr: int, nc: int)
    requires Placed(g) && OnSquare(g, p) && HasKing(g, p.color)
  {
    PseudoLegal(g, f, p, Square(nr, nc)) &&
    (SimulateKeepsKing(g, p, nr, nc);
     !IsCheck(Simulate(g, p, nr, nc), f, p.color))
  }

  /** The state a validity probe leaves behind: its answer, the grid and the probed piece. */
  datatype Probe = Probe(legal: bool, grid: Grid, piece: Piece)

  /**
    Board.isValidMove step by step as the Java code mutates and undoes:
    clear the origin, place the piece, setPosition, ask isCheck, put the
    piece back, restore the target, setPosition back.
   */
  function ValidMoveProbe(g: Grid, f: Flags, p: Piece, nr: int, nc: int): (pr: Probe)
    requires Placed(g) && OnSquare(g, p) && HasKing(g, p.color)
  {
    if !InBounds(nr, nc) then Probe(false, g, p)
    else if HoldsColor(g, nr, nc, p.color) then Probe(false, g, p)
    else if !Pattern(g, f, p, nr, nc) then Probe(false, g, p)
    else
      var original := g[nr][nc];
      var oldRow, oldCol := p.row, p.col;
      var moved := SetPosition(p, nr, nc);
      var g1 := Put(Put(g, oldRow, oldCol, None), nr, nc, Some(moved));
      SimulateKeepsKing(g, p, nr, nc);
      var inCheck := IsCheck(g1, f, p.color);
      var back := SetPosition(moved, oldRow, oldCol);
      var g2 := Put(Put(g1, oldRow, oldCol, Some(back)), nr, nc, original);
      Probe(!inCheck, g2, back)
  }

  /**
    The probe answers as IsValidMove and undoes its simulation: the piece is
    back where it was. A target that passes the board, colour and pattern
    tests leaves one trace, the piece's remembered previous square, now that
    target; any other target leaves no trace at all.
   */
  lemma ProbeUndoes(g: Grid, f: Flags, p: Piece, nr: int, nc: int)
    requires Placed(g) && OnSquare(g, p) && HasKing(g, p.color)
    ensures ValidMoveProbe(g, f, p, nr, nc).legal == IsValidMove(g, f, p, nr, nc)
    ensures var pr := ValidMoveProbe(g, f, p, nr, nc);
      pr.piece == if PseudoLegal(g, f, p, Square(nr, nc)) then p.(prevRow := nr, prevCol := nc) else p
    ensures var pr := ValidMoveProbe(g, f, p, nr, nc);
      pr.grid == Put(g, p.row, p.col, Some(pr.piece))
  {
    var pr := ValidMoveProbe(g, f, p, nr, nc);
    assert g[p.row][p.col := Some(p)] == g[p.row];
    assert Put(g, p.row, p.col, Some(p)) == g;
    if PseudoLegal(g, f, p, Square(nr, nc)) {
      var h := Put(g, p.row, p.col, Some(pr.piece));
      forall r | 0 <= r < 8 ensures pr.grid[r] == h[r] {
        assert |pr.grid[r]| == |h[r]| == 8;
        forall c | 0 <= c < 8 ensures pr.grid[r][c] == h[r][c] {
        }
      }
    }
  }

  /**
    Board.tryMove: a validity probe and, if it says yes, the same
    simulation again on the grid it left behind.
   */
  function TryMove(g: Grid, f: Flags, p: Piece, nr: int, nc: int): (pr: Probe)
    requires Placed(g) && OnSquare(g, p) && HasKing(g, p.color)
  {
    var first := ValidMoveProbe(g, f, p, nr, nc);
    ProbeUndoes(g, f, p, nr, nc);
    if !first.legal then first
    else
      var g0, p0 := first.grid, first.piece;
      assert OnSquare(g0, p0) && Placed(g0) by {
        assert g0 == Put(g, p.row, p.col, Some(p0));
      }
      assert HasKing(g0, p.color) by {
        var r, c :| InBounds(r, c) && IsKingAt(g, r, c, p.color);
        assert IsKingAt(g0, r, c, p.color);
      }
      var moved := SetPosition(p0, nr, nc);
      var g1 := Put(Put(g0, p0.row, p0.col, None), nr, nc, Some(moved));
      SimulateKeepsKing(g0, p0, nr, nc);
      var stillInCheck := IsCheck(g1, f, p.color);
      var back := SetPosition(moved, p0.row, p0.col);
      Probe(!stillInCheck, Put(Put(g1, p0.row, p0.col, Some(back)), nr, nc, g0[nr][nc]), back)
  }

  lemma PutTwice(g: Grid, r: int, c: int, x: Cell, y: Cell)
    requires InBounds(r, c)
    ensures Put(Put(g, r, c, x), r, c, y) == Put(g, r, c, y)
  {
    assert g[r][c := x][c := y] == g[r][c := y];
  }

  /**
    Board.tryMove answers exactly as Board.isValidMove: the second
    simulation runs on a grid that differs from the original only in the
    probed piece's remembered previous square, which the simulation
    overwrites. It leaves the grid as the probe did.
   */
  lemma TryMoveAgrees(g: Grid, f: Flags, p: Piece, nr: int, nc: int)
    requires Placed(g) && OnSquare(g, p) && HasKing(g, p.color)
    ensures TryMove(g, f, p, nr, nc).legal == IsValidMove(g, f, p, nr, nc)
    ensures TryMove(g, f, p, nr, nc).grid == ValidMoveProbe(g, f, p, nr, nc).grid
  {
    var first := ValidMoveProbe(g, f, p, nr, nc);
    ProbeUndoes(g, f, p, nr, nc);
    if first.legal {
      var g0, p0 := first.grid, first.piece;
      PutTwice(g, p.row, p.col, Some(p0), None);
      assert SetPosition(p0, nr, nc) == SetPosition(p, nr, nc);
      assert Put(Put(g0, p0.row, p0.col, None), nr, nc, Some(SetPosition(p0, nr, nc))) == Simulate(g, p, nr, nc);
      var h := TryMove(g, f, p, nr, nc).grid;
      forall r | 0 <= r < 8 ensures h[r] == first.grid[r] {
        assert |h[r]| == |first.grid[r]| == 8;
        forall c | 0 <= c < 8 ensures h[r][c] == first.grid[r][c] {
        }
      }
    }
  }

  // ---- movePiece and captureEnPassant ---------------------------------------

  /** The piece as it stands after Board.movePiece: new position, and a rook marks itself moved. */
  function Moved(p: Piece, nr: int, nc: int): Piece {
    var q := SetPosition(p, nr, nc);
    if p.kind.Rook? then q.(kind := Rook(true)) else q
  }

  /**
    Board.movePiece: the origin is emptied and the piece (with whatever
    stood on the target gone) stands on the target; no other cell changes.
   */
  function MovePiece(g: Grid, p: Piece, nr: int, nc: int): (h: Grid)
    requires Located(p) && InBounds(nr, nc)
    ensures h[nr][nc] == Some(Moved(p, nr, nc))
    ensures (p.row != nr || p.col != nc) ==> h[p.row][p.col].None?
    ensures forall r, c :: InBounds(r, c) && (r != p.row || c != p.col) && (r != nr || c != nc) ==> h[r][c] == g[r][c]
  {
    Put(Put(g, p.row, p.col, None), nr, nc, Some(Moved(p, nr, nc)))
  }

  /** A move keeps every piece recorded on the cell it stands on, the moved one included. */
  lemma MovePieceKeepsPlaced(g: Grid, p: Piece, nr: int, nc: int)
    requires Placed(g) && Located(p) && InBounds(nr, nc)
    ensures Placed(MovePiece(g, p, nr, nc))
    ensures OnSquare(MovePiece(g, p, nr, nc), Moved(p, nr, nc))
  {
  }

  /**
    For any piece but a rook, the real move yields the very position the
    validity check simulated; so a valid move of such a piece never leaves
    its own king attacked -- unless it also captures en passant or castles,
    which change more than this one move.
   */
  lemma MoveIsSimulated(g: Grid, f: Flags, p: Piece, nr: int, nc: int)
    requires Placed(g) && OnSquare(g, p) && HasKing(g, p.color) && !p.kind.Rook?
    requires IsValidMove(g, f, p, nr, nc)
    ensures MovePiece(g, p, nr, nc) == Simulate(g, p, nr, nc)
    ensures Placed(MovePiece(g, p, nr, nc)) && HasKing(MovePiece(g, p, nr, nc), p.color)
    ensures !IsCheck(MovePiece(g, p, nr, nc), f, p.color)
  {
    SimulateKeepsKing(g, p, nr, nc);
  }

  /** Board.captureEnPassant: empties the cell the en-passant pawn records as its own. */
  function CaptureEnPassant(g: Grid, pawn: Piece): (h: Grid)
    requires Located(pawn)
    ensures h[pawn.row][pawn.col].None?
    ensures forall r, c :: InBounds(r, c) && (r != pawn.row || c != pawn.col) ==> h[r][c] == g[r][c]
  {
    Put(g, pawn.row, pawn.col, None)
  }

  // ---- piece identities ---------------------------------------------------------

  /**
    No two cells hold pieces of the same identity: `id` stands for the Java
    object, which sits in one cell of `grid` at most.
   */
  ghost predicate DistinctIds(g: Grid) {
    forall r1, c1, r2, c2 ::
      InBounds(r1, c1) && InBounds(r2, c2) && g[r1][c1].Some? && g[r2][c2].Some? && g[r1][c1].value.id == g[r2][c2].value.id
      ==> r1 == r2 && c1 == c2
  }

  /** Emptying a cell keeps identities distinct. */
  lemma ClearKeepsIds(g: Grid, r: int, c: int)
    requires InBounds(r, c) && DistinctIds(g)
    ensures DistinctIds(Put(g, r, c, None))
  {
    var h := Put(g, r, c, None);
    forall r1, c1, r2, c2 | InBounds(r1, c1) && InBounds(r2, c2) && h[r1][c1].Some? && h[r2][c2].Some? &&
      h[r1][c1].value.id == h[r2][c2].value.id
      ensures r1 == r2 && c1 == c2
    {
      assert h[r1][c1] == g[r1][c1] && h[r2][c2] == g[r2][c2];
    }
  }

  /** Emptying a cell keeps each colour's king unique. */
  lemma ClearKeepsOneKing(g: Grid, r: int, c: int, color: Color)
    requires InBounds(r, c) && OneKing(g, color)
    ensures OneKing(Put(g, r, c, None), color)
  {
    var h := Put(g, r, c, None);
    forall r1, c1, r2, c2 | InBounds(r1, c1) && InBounds(r2, c2) && IsKingAt(h, r1, c1, color) && IsKingAt(h, r2, c2, color)
      ensures r1 == r2 && c1 == c2
    {
      assert IsKingAt(g, r1, c1, color) && IsKingAt(g, r2, c2, color);
    }
  }

  /**
    Board.movePiece of a piece standing on its own cell keeps identities
    distinct: the piece leaves its origin and takes its identity to the
    target, whatever stood there.
   */
  lemma MovePieceKeepsIds(g: Grid, p: Piece, nr: int, nc: int)
    requires OnSquare(g, p) && InBounds(nr, nc) && DistinctIds(g)
    ensures DistinctIds(MovePiece(g, p, nr, nc))
  {
    var h := MovePiece(g, p, nr, nc);
    assert forall r, c :: InBounds(r, c) && (r != nr || c != nc) && h[r][c].Some? ==>
      h[r][c] == g[r][c] && (r != p.row || c != p.col);
    assert forall r, c :: InBounds(r, c) && (r != nr || c != nc) && h[r][c].Some? ==> h[r][c].value.id != p.id;
  }

  /** The same move keeps each colour's king unique: a king takes its kind to the target and leaves its origin empty. */
  lemma MovePieceKeepsOneKing(g: Grid, p: Piece, nr: int, nc: int, color: Color)
    requires OnSquare(g, p) && InBounds(nr, nc) && OneKing(g, color)
    ensures OneKing(MovePiece(g, p, nr, nc), color)
  {
    var h := MovePiece(g, p, nr, nc);
    assert forall r, c :: InBounds(r, c) && (r != nr || c != nc) && h[r][c].Some? ==>
      h[r][c] == g[r][c] && (r != p.row || c != p.col);
    assert IsKingAt(h, nr, nc, color) <==> IsKingAt(g, p.row, p.col, color);
    forall r, c | InBounds(r, c) && (r != nr || c != nc) && IsKingAt(h, r, c, color)
      ensures IsKingAt(g, r, c, color) && !IsKingAt(h, nr, nc, color)
    {
      assert IsKingAt(g, r, c, color) && (r != p.row || c != p.col);
    }
    forall r1, c1, r2, c2 | InBounds(r1, c1) && InBounds(r2, c2) && IsKingAt(h, r1, c1, color) && IsKingAt(h, r2, c2, color)
      ensures r1 == r2 && c1 == c2
    {
      if (r1 != nr || c1 != nc) && (r2 != nr || c2 != nc) {
        assert IsKingAt(g, r1, c1, color) && IsKingAt(g, r2, c2, color);
      }
    }
  }
}
