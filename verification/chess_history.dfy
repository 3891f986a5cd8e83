/**
  Every validity probe in ChessGame.java leaves one trace: the probed
  piece's `previousRow`/`previousCol`. This module shows that nothing the
  board decides reads those fields, so grids that differ only there
  ("alike" grids) give the same answers.
 */
module ChessHistory {
  import opened Wrappers
  import opened ChessPieces
  import opened ChessBoard

  /** A piece without its remembered previous square. */
  function Forget(p: Piece): Piece {
    p.(prevRow := 0, prevCol := 0)
  }

  function ForgetCell(x: Cell): Cell {
    if x.Some? then Some(Forget(x.value)) else None
  }

  ghost predicate Alike(g1: Grid, g2: Grid) {
    forall r, c :: InBounds(r, c) ==> ForgetCell(g1[r][c]) == ForgetCell(g2[r][c])
  }

  lemma AlikeSymmetric(g1: Grid, g2: Grid)
    requires Alike(g1, g2)
    ensures Alike(g2, g1)
  {
  }

  lemma AlikeTransitive(g1: Grid, g2: Grid, g3: Grid)
    requires Alike(g1, g2) && Alike(g2, g3)
    ensures Alike(g1, g3)
  {
  }

  /** Rewriting one piece's previous square keeps the grid alike. */
  lemma RepositionIsAlike(g: Grid, p: Piece, q: Piece)
    requires OnSquare(g, p) && Forget(q) == Forget(p)
    ensures Alike(g, Put(g, p.row, p.col, Some(q)))
  {
  }

  lemma AlikeKeepsPlaced(g1: Grid, g2: Grid)
    requires Alike(g1, g2) && Placed(g1)
    ensures Placed(g2)
  {
    forall r, c | InBounds(r, c) && g2[r][c].Some?
      ensures g2[r][c].value.row == r && g2[r][c].value.col == c
    {
      assert ForgetCell(g1[r][c]) == ForgetCell(g2[r][c]);
    }
  }

  lemma AlikeKeepsKing(g1: Grid, g2: Grid, color: Color)
    requires Alike(g1, g2) && HasKing(g1, color)
    ensures HasKing(g2, color)
  {
    var r, c :| InBounds(r, c) && IsKingAt(g1, r, c, color);
    assert ForgetCell(g1[r][c]) == ForgetCell(g2[r][c]);
    assert IsKingAt(g2, r, c, color);
  }

  lemma {:induction false} PathClearAlike(g1: Grid, g2: Grid, cr: int, cc: int, tr: int, tc: int, sr: int, sc: int)
    requires Alike(g1, g2)
    requires InBounds(cr, cc) && InBounds(tr, tc) && Lined(cr, cc, tr, tc, sr, sc)
    ensures PathClear(g1, cr, cc, tr, tc, sr, sc) == PathClear(g2, cr, cc, tr, tc, sr, sc)
    decreases Abs(tr - cr) + Abs(tc - cc)
  {
    assert ForgetCell(g1[cr][cc]) == ForgetCell(g2[cr][cc]);
    if cr != tr || cc != tc {
      PathClearAlike(g1, g2, cr + sr, cc + sc, tr, tc, sr, sc);
    }
  }

  lemma {:induction false} CastleClearAlike(g1: Grid, g2: Grid, row: int, c: int, rookCol: int, step: int)
    requires Alike(g1, g2)
    requires InBounds(row, c) && InBounds(row, rookCol) && Toward(c, rookCol, step)
    ensures CastleClear(g1, row, c, rookCol, step) == CastleClear(g2, row, c, rookCol, step)
    decreases Abs(rookCol - c)
  {
    assert ForgetCell(g1[row][c]) == ForgetCell(g2[row][c]);
    if c != rookCol {
      CastleClearAlike(g1, g2, row, c + step, rookCol, step);
    }
  }

  /** A piece's pattern does not depend on any previous square, its own or others'. */
  lemma PatternAlike(g1: Grid, g2: Grid, f: Flags, p1: Piece, p2: Piece, nr: int, nc: int)
    requires Alike(g1, g2) && Forget(p1) == Forget(p2)
    requires Located(p1) && InBounds(nr, nc)
    ensures Pattern(g1, f, p1, nr, nc) == Pattern(g2, f, p2, nr, nc)
  {
    match p1.kind
    case Pawn => PawnPatternAlike(g1, g2, f, p1, p2, nr, nc);
    case King => KingPatternAlike(g1, g2, f, p1, p2, nr, nc);
    case Knight =>
    case _ => LinesAlike(g1, g2, p1, p2, nr, nc);
  }

  lemma PawnPatternAlike(g1: Grid, g2: Grid, f: Flags, p1: Piece, p2: Piece, nr: int, nc: int)
    requires Alike(g1, g2) && Forget(p1) == Forget(p2)
    requires Located(p1) && InBounds(nr, nc) && p1.kind == Pawn
    ensures PawnPattern(g1, f, p1, nr, nc) == PawnPattern(g2, f, p2, nr, nc)
  {
    assert ForgetCell(g1[nr][nc]) == ForgetCell(g2[nr][nc]);
    var dir := Dir(p1.color);
    if 0 <= p1.row + dir < 8 {
      assert ForgetCell(g1[p1.row + dir][p1.col]) == ForgetCell(g2[p1.row + dir][p1.col]);
    }
    assert ForgetCell(g1[p1.row][nc]) == ForgetCell(g2[p1.row][nc]);
  }

  lemma KingPatternAlike(g1: Grid, g2: Grid, f: Flags, p1: Piece, p2: Piece, nr: int, nc: int)
    requires Alike(g1, g2) && Forget(p1) == Forget(p2)
    requires Located(p1) && InBounds(nr, nc) && p1.kind == King
    ensures KingPattern(g1, f, p1, nr, nc) == KingPattern(g2, f, p2, nr, nc)
  {
    if p1.row == nr && Abs(nc - p1.col) == 2 {
      var kingside := nc > p1.col;
      var rookCol := if kingside then 7 else 0;
      var step := if kingside then 1 else -1;
      assert ForgetCell(g1[p1.row][rookCol]) == ForgetCell(g2[p1.row][rookCol]);
      CastleClearAlike(g1, g2, p1.row, p1.col + step, rookCol, step);
    }
  }

  /** The rook's and the bishop's lines depend only on which squares are empty. */
  lemma LinesAlike(g1: Grid, g2: Grid, p1: Piece, p2: Piece, nr: int, nc: int)
    requires Alike(g1, g2) && Forget(p1) == Forget(p2)
    requires Located(p1) && InBounds(nr, nc)
    ensures RookLine(g1, p1, nr, nc) == RookLine(g2, p2, nr, nc)
    ensures BishopLine(g1, p1, nr, nc) == BishopLine(g2, p2, nr, nc)
  {
    var sr, sc := Compare(nr, p1.row), Compare(nc, p1.col);
    if p1.row == nr || p1.col == nc || Abs(nr - p1.row) == Abs(nc - p1.col) {
      PathClearAlike(g1, g2, p1.row + sr, p1.col + sc, nr, nc, sr, sc);
    }
  }

  lemma {:induction false} AttackScanAlike(g1: Grid, g2: Grid, f: Flags, tr: int, tc: int, attacker: Color, i: int)
    requires Alike(g1, g2) && Placed(g1) && Placed(g2) && InBounds(tr, tc) && 0 <= i <= 64
    ensures AttackScan(g1, f, tr, tc, attacker, i) == AttackScan(g2, f, tr, tc, attacker, i)
    decreases 64 - i
  {
    if i < 64 {
      AttacksFromAlike(g1, g2, f, i / 8, i % 8, tr, tc, attacker);
      AttackScanAlike(g1, g2, f, tr, tc, attacker, i + 1);
    }
  }

  lemma AttacksFromAlike(g1: Grid, g2: Grid, f: Flags, r: int, c: int, tr: int, tc: int, attacker: Color)
    requires Alike(g1, g2) && Placed(g1) && Placed(g2) && InBounds(r, c) && InBounds(tr, tc)
    ensures AttacksFrom(g1, f, r, c, tr, tc, attacker) == AttacksFrom(g2, f, r, c, tr, tc, attacker)
  {
    assert ForgetCell(g1[r][c]) == ForgetCell(g2[r][c]);
    if g1[r][c].Some? {
      PatternAlike(g1, g2, f, g1[r][c].value, g2[r][c].value, tr, tc);
    }
  }

  lemma {:induction false} KingScanAlike(g1: Grid, g2: Grid, color: Color, i: int)
    requires Alike(g1, g2) && 0 <= i <= 64
    ensures ForgetCell(KingScan(g1, color, i)) == ForgetCell(KingScan(g2, color, i))
    decreases 64 - i
  {
    if i < 64 {
      assert ForgetCell(g1[i / 8][i % 8]) == ForgetCell(g2[i / 8][i % 8]);
      KingScanAlike(g1, g2, color, i + 1);
    }
  }

  lemma IsCheckAlike(g1: Grid, g2: Grid, f: Flags, color: Color)
    requires Alike(g1, g2) && Placed(g1) && HasKing(g1, color)
    ensures Placed(g2) && HasKing(g2, color)
    ensures IsCheck(g1, f, color) == IsCheck(g2, f, color)
  {
    AlikeKeepsPlaced(g1, g2);
    AlikeKeepsKing(g1, g2, color);
    KingScanAlike(g1, g2, color, 0);
    var k := FindKing(g1, color).value;
    AttackScanAlike(g1, g2, f, k.row, k.col, Opponent(color), 0);
  }

  /** Board.isValidMove does not depend on any previous square either. */
  lemma IsValidMoveAlike(g1: Grid, g2: Grid, f: Flags, p1: Piece, p2: Piece, nr: int, nc: int)
    requires Alike(g1, g2) && Forget(p1) == Forget(p2)
    requires Placed(g1) && OnSquare(g1, p1) && HasKing(g1, p1.color) && OnSquare(g2, p2)
    ensures Placed(g2) && HasKing(g2, p2.color)
    ensures IsValidMove(g1, f, p1, nr, nc) == IsValidMove(g2, f, p2, nr, nc)
  {
    AlikeKeepsPlaced(g1, g2);
    AlikeKeepsKing(g1, g2, p1.color);
    assert ForgetCell(g1[p1.row][p1.col]) == ForgetCell(g2[p1.row][p1.col]);
    if InBounds(nr, nc) {
      assert ForgetCell(g1[nr][nc]) == ForgetCell(g2[nr][nc]);
      PatternAlike(g1, g2, f, p1, p2, nr, nc);
      if PseudoLegal(g1, f, p1, Square(nr, nc)) {
        SimulateKeepsKing(g1, p1, nr, nc);
        var h1, h2 := Simulate(g1, p1, nr, nc), Simulate(g2, p2, nr, nc);
        assert Alike(h1, h2) by {
          forall r, c | InBounds(r, c) ensures ForgetCell(h1[r][c]) == ForgetCell(h2[r][c]) {
            assert ForgetCell(g1[r][c]) == ForgetCell(g2[r][c]);
          }
        }
        IsCheckAlike(h1, h2, f, p1.color);
      }
    }
  }

  // ---- candidate lists --------------------------------------------------------

  lemma {:induction false} RayAlike(g1: Grid, g2: Grid, color: Color, r: int, c: int, dr: int, dc: int)
    requires Alike(g1, g2) && UnitDir(dr, dc) && InBounds(r - dr, c - dc)
    ensures Ray(g1, color, r, c, dr, dc) == Ray(g2, color, r, c, dr, dc)
    decreases Budget(r, dr) + Budget(c, dc)
  {
    if InBounds(r, c) {
      assert ForgetCell(g1[r][c]) == ForgetCell(g2[r][c]);
      RayAlike(g1, g2, color, r + dr, c + dc, dr, dc);
    }
  }

  lemma {:induction false} LeapsAlike(g1: Grid, g2: Grid, color: Color, r: int, c: int, offsets: seq<(int, int)>)
    requires Alike(g1, g2)
    ensures Leaps(g1, color, r, c, offsets) == Leaps(g2, color, r, c, offsets)
    decreases |offsets|
  {
    if |offsets| > 0 {
      var nr, nc := r + offsets[0].0, c + offsets[0].1;
      if InBounds(nr, nc) {
        assert ForgetCell(g1[nr][nc]) == ForgetCell(g2[nr][nc]);
      }
      LeapsAlike(g1, g2, color, r, c, offsets[1..]);
    }
  }

  /** `getValidMoves` lists the same squares, in the same order, on alike grids. */
  lemma CandidatesAlike(g1: Grid, g2: Grid, f: Flags, p1: Piece, p2: Piece)
    requires Alike(g1, g2) && Forget(p1) == Forget(p2) && CanGenerate(p1)
    ensures CanGenerate(p2)
    ensures Candidates(g1, f, p1) == Candidates(g2, f, p2)
  {
    var r, c, color := p1.row, p1.col, p1.color;
    match p1.kind
    case Pawn =>
      PawnCandidatesAlike(g1, g2, f, p1, p2);
    case Rook(_) =>
      RookRaysAlike(g1, g2, color, r, c);
    case Knight =>
      LeapsAlike(g1, g2, color, r, c, KnightOffsets);
    case Bishop =>
      BishopRaysAlike(g1, g2, color, r, c);
    case Queen =>
      RookRaysAlike(g1, g2, color, r, c);
      BishopRaysAlike(g1, g2, color, r, c);
    case King =>
      LeapsAlike(g1, g2, color, r, c, KingOffsets);
      CastleCandidatesAlike(g1, g2, f, p1, p2);
  }

  lemma PawnCandidatesAlike(g1: Grid, g2: Grid, f: Flags, p1: Piece, p2: Piece)
    requires Alike(g1, g2) && Forget(p1) == Forget(p2) && Located(p1) && 0 <= p1.row + Dir(p1.color) < 8
    ensures PawnCandidates(g1, f, p1) == PawnCandidates(g2, f, p2)
  {
    var r, c, dir := p1.row, p1.col, Dir(p1.color);
    assert ForgetCell(g1[r + dir][c]) == ForgetCell(g2[r + dir][c]);
    if 0 <= r + 2 * dir < 8 {
      assert ForgetCell(g1[r + 2 * dir][c]) == ForgetCell(g2[r + 2 * dir][c]);
    }
    PawnDiagonalAlike(g1, g2, f, p1, p2, -1);
    PawnDiagonalAlike(g1, g2, f, p1, p2, 1);
  }

  lemma PawnDiagonalAlike(g1: Grid, g2: Grid, f: Flags, p1: Piece, p2: Piece, dc: int)
    requires Alike(g1, g2) && Forget(p1) == Forget(p2) && Located(p1) && 0 <= p1.row + Dir(p1.color) < 8
    ensures PawnDiagonal(g1, f, p1, dc) == PawnDiagonal(g2, f, p2, dc)
  {
    var r, c := p1.row, p1.col + dc;
    if 0 <= c < 8 {
      assert ForgetCell(g1[r + Dir(p1.color)][c]) == ForgetCell(g2[r + Dir(p1.color)][c]);
      assert ForgetCell(g1[r][c]) == ForgetCell(g2[r][c]);
    }
  }

  lemma CastleCandidatesAlike(g1: Grid, g2: Grid, f: Flags, p1: Piece, p2: Piece)
    requires Alike(g1, g2) && Forget(p1) == Forget(p2) && Located(p1)
    ensures CastleCandidates(g1, f, p1) == CastleCandidates(g2, f, p2)
  {
    var r := p1.row;
    assert ForgetCell(g1[r][0]) == ForgetCell(g2[r][0]);
    assert ForgetCell(g1[r][1]) == ForgetCell(g2[r][1]);
    assert ForgetCell(g1[r][2]) == ForgetCell(g2[r][2]);
    assert ForgetCell(g1[r][3]) == ForgetCell(g2[r][3]);
    assert ForgetCell(g1[r][5]) == ForgetCell(g2[r][5]);
    assert ForgetCell(g1[r][6]) == ForgetCell(g2[r][6]);
    assert ForgetCell(g1[r][7]) == ForgetCell(g2[r][7]);
  }

  lemma RookRaysAlike(g1: Grid, g2: Grid, color: Color, r: int, c: int)
    requires Alike(g1, g2) && InBounds(r, c)
    ensures RookRays(g1, color, r, c) == RookRays(g2, color, r, c)
  {
    RayAlike(g1, g2, color, r, c + 1, 0, 1);
    RayAlike(g1, g2, color, r + 1, c, 1, 0);
    RayAlike(g1, g2, color, r, c - 1, 0, -1);
    RayAlike(g1, g2, color, r - 1, c, -1, 0);
  }

  lemma BishopRaysAlike(g1: Grid, g2: Grid, color: Color, r: int, c: int)
    requires Alike(g1, g2) && InBounds(r, c)
    ensures BishopRays(g1, color, r, c) == BishopRays(g2, color, r, c)
  {
    RayAlike(g1, g2, color, r + 1, c + 1, 1, 1);
    RayAlike(g1, g2, color, r + 1, c - 1, 1, -1);
    RayAlike(g1, g2, color, r - 1, c + 1, -1, 1);
    RayAlike(g1, g2, color, r - 1, c - 1, -1, -1);
  }

  /** Board.movePiece of the same piece (up to its previous square) on alike grids gives alike grids. */
  lemma MovePieceAlike(g1: Grid, g2: Grid, p1: Piece, p2: Piece, nr: int, nc: int)
    requires Alike(g1, g2) && Forget(p1) == Forget(p2) && Located(p1) && InBounds(nr, nc)
    ensures Moved(p1, nr, nc) == Moved(p2, nr, nc)
    ensures Alike(MovePiece(g1, p1, nr, nc), MovePiece(g2, p2, nr, nc))
  {
    var h1, h2 := MovePiece(g1, p1, nr, nc), MovePiece(g2, p2, nr, nc);
    forall r, c | InBounds(r, c) ensures ForgetCell(h1[r][c]) == ForgetCell(h2[r][c]) {
      assert ForgetCell(g1[r][c]) == ForgetCell(g2[r][c]);
    }
  }
}
