/**
  Board.isCheckmate of ChessGame.java: scan the side's pieces in row-major
  order, list each one's candidate moves, and `tryMove` them until one
  works. Each probe leaves its trace in the grid (see ChessHistory), so the
  scan threads the grid through; a pawn on its last rank makes
  `getValidMoves` index past the board, which ends the scan with a fault.
 */
module ChessMate {
  import opened Wrappers
  import opened ChessPieces
  import opened ChessCandidates
  import opened ChessBoard
  import opened ChessHistory

  /** The `for (Point move : moves)` loop for the piece on (r, c): does any `tryMove` succeed? */
  function TryEach(g: Grid, f: Flags, r: int, c: int, moves: seq<Square>): (res: (bool, Grid))
    requires Placed(g) && InBounds(r, c) && g[r][c].Some? && HasKing(g, g[r][c].value.color)
    ensures Placed(res.1) && Alike(g, res.1)
    ensures res.1[r][c].Some? && HasKing(res.1, g[r][c].value.color)
    decreases |moves|
  {
    var p := g[r][c].value;
    if |moves| == 0 then (false, g)
    else
      var pr := TryMove(g, f, p, moves[0].row, moves[0].col);
      TryMoveAgrees(g, f, p, moves[0].row, moves[0].col);
      ProbeUndoes(g, f, p, moves[0].row, moves[0].col);
      RepositionIsAlike(g, p, pr.piece);
      AlikeKeepsPlaced(g, pr.grid);
      AlikeKeepsKing(g, pr.grid, p.color);
      if pr.legal then (true, pr.grid)
      else
        var res := TryEach(pr.grid, f, r, c, moves[1..]);
        AlikeTransitive(g, pr.grid, res.1);
        res
  }

  datatype Verdict = Escape | NoEscape | Fault

  /** The piece on square index j belongs to `color`. */
  predicate OwnsAt(g: Grid, color: Color, j: int)
    requires 0 <= j < 64
  {
    g[j / 8][j % 8].Some? && g[j / 8][j % 8].value.color == color
  }

  /** The row-major scan of Board.isCheckmate from square index i on. */
  function MateScan(g: Grid, f: Flags, color: Color, i: int): (res: (Verdict, Grid))
    requires Placed(g) && HasKing(g, color) && 0 <= i <= 64
    ensures Placed(res.1) && Alike(g, res.1)
    decreases 64 - i
  {
    if i == 64 then (NoEscape, g)
    else if OwnsAt(g, color, i) then
      var p := g[i / 8][i % 8].value;
      if !CanGenerate(p) then (Fault, g)
      else
        var (found, g1) := TryEach(g, f, i / 8, i % 8, Candidates(g, f, p));
        if found then (Escape, g1)
        else
          var res := MateScan(g1, f, color, i + 1);
          AlikeTransitive(g, g1, res.1);
          res
    else MateScan(g, f, color, i + 1)
  }

  /**
    Board.isCheckmate: Some(true) when `color` is in check and no move
    works, Some(false) otherwise, None when the scan faulted.
   */
  function IsCheckmate(g: Grid, f: Flags, color: Color): (res: (Option<bool>, Grid))
    requires Placed(g) && HasKing(g, color)
    ensures Placed(res.1) && Alike(g, res.1)
  {
    if !IsCheck(g, f, color) then (Some(false), g)
    else
      var (v, h) := MateScan(g, f, color, 0);
      (if v == Fault then None else Some(v == NoEscape), h)
  }

  // ---- what the scan decides ---------------------------------------------------

  /** A king that has not moved stands on column 4, the square its castling candidates start from. */
  ghost predicate KingsHome(g: Grid, f: Flags) {
    forall r, c :: InBounds(r, c) && g[r][c].Some? && g[r][c].value.kind == King && !KingMoved(f, g[r][c].value.color) ==> c == 4
  }

  /** The piece on square index j has some valid move. */
  ghost predicate EscapesFrom(g: Grid, f: Flags, color: Color, j: int)
    requires Placed(g) && HasKing(g, color) && 0 <= j < 64
  {
    OwnsAt(g, color, j) &&
    exists nr, nc :: IsValidMove(g, f, g[j / 8][j % 8].value, nr, nc)
  }

  /** The piece on square index j is a pawn of `color` on its last rank. */
  predicate StuckAt(g: Grid, color: Color, j: int)
    requires 0 <= j < 64
  {
    OwnsAt(g, color, j) && !CanGenerate(g[j / 8][j % 8].value)
  }

  /** Some piece of `color` has a move Board.isValidMove accepts. */
  ghost predicate CanEscape(g: Grid, f: Flags, color: Color)
    requires Placed(g) && HasKing(g, color)
  {
    exists r, c, nr, nc :: InBounds(r, c) && g[r][c].Some? && g[r][c].value.color == color &&
      IsValidMove(g, f, g[r][c].value, nr, nc)
  }

  /** Some pawn of `color` stands on its last rank. */
  ghost predicate Stuck(g: Grid, color: Color) {
    exists r, c :: InBounds(r, c) && g[r][c].Some? && g[r][c].value.color == color && !CanGenerate(g[r][c].value)
  }

  /** For a piece on its square, some candidate passes tryMove iff it has any valid move at all. */
  lemma SomeCandidateValid(g: Grid, f: Flags, p: Piece, moves: seq<Square>)
    requires Placed(g) && OnSquare(g, p) && HasKing(g, p.color) && CanGenerate(p) && KingsHome(g, f)
    requires moves == Candidates(g, f, p)
    ensures (exists k :: 0 <= k < |moves| && IsValidMove(g, f, p, moves[k].row, moves[k].col)) <==>
      (exists nr, nc :: IsValidMove(g, f, p, nr, nc))
  {
    if exists nr, nc :: IsValidMove(g, f, p, nr, nc) {
      var nr, nc :| IsValidMove(g, f, p, nr, nc);
      CandidatesArePseudoLegal(g, f, p, Square(nr, nc));
      var k :| 0 <= k < |moves| && moves[k] == Square(nr, nc);
      assert IsValidMove(g, f, p, moves[k].row, moves[k].col);
    }
  }

  /** One step of the move loop: the first candidate's probe, and what the loop does next. */
  lemma TryEachStep(g: Grid, f: Flags, r: int, c: int, moves: seq<Square>)
    requires Placed(g) && InBounds(r, c) && g[r][c].Some? && HasKing(g, g[r][c].value.color) && |moves| > 0
    ensures var p := g[r][c].value;
      var pr := TryMove(g, f, p, moves[0].row, moves[0].col);
      pr.legal == IsValidMove(g, f, p, moves[0].row, moves[0].col) &&
      Alike(g, pr.grid) && Placed(pr.grid) && pr.grid[r][c].Some? && HasKing(pr.grid, p.color) &&
      TryEach(g, f, r, c, moves) == (if pr.legal then (true, pr.grid) else TryEach(pr.grid, f, r, c, moves[1..]))
  {
    var p := g[r][c].value;
    var pr := TryMove(g, f, p, moves[0].row, moves[0].col);
    TryMoveAgrees(g, f, p, moves[0].row, moves[0].col);
    ProbeUndoes(g, f, p, moves[0].row, moves[0].col);
    RepositionIsAlike(g, p, pr.piece);
    AlikeKeepsPlaced(g, pr.grid);
    AlikeKeepsKing(g, pr.grid, p.color);
  }

  lemma {:induction false} TryEachFinds(g0: Grid, g: Grid, f: Flags, r: int, c: int, moves: seq<Square>)
    requires Alike(g0, g) && Placed(g0) && InBounds(r, c) && g0[r][c].Some? && HasKing(g0, g0[r][c].value.color)
    requires Placed(g) && g[r][c].Some? && HasKing(g, g[r][c].value.color)
    ensures TryEach(g, f, r, c, moves).0 <==>
      exists k :: 0 <= k < |moves| && IsValidMove(g0, f, g0[r][c].value, moves[k].row, moves[k].col)
    decreases |moves|
  {
    if |moves| > 0 {
      var p0, p := g0[r][c].value, g[r][c].value;
      assert ForgetCell(g0[r][c]) == ForgetCell(g[r][c]);
      TryEachStep(g, f, r, c, moves);
      var pr := TryMove(g, f, p, moves[0].row, moves[0].col);
      IsValidMoveAlike(g0, g, f, p0, p, moves[0].row, moves[0].col);
      if !pr.legal {
        AlikeTransitive(g0, g, pr.grid);
        TryEachFinds(g0, pr.grid, f, r, c, moves[1..]);
        if exists k :: 0 <= k < |moves| && IsValidMove(g0, f, p0, moves[k].row, moves[k].col) {
          var k :| 0 <= k < |moves| && IsValidMove(g0, f, p0, moves[k].row, moves[k].col);
          assert k != 0;
          assert moves[1..][k - 1] == moves[k];
        }
      }
    }
  }

  /** The move loop of the piece on (r, c) succeeds iff that piece has a valid move in the original grid. */
  lemma PieceFinds(g0: Grid, g: Grid, f: Flags, r: int, c: int)
    requires Alike(g0, g) && Placed(g0) && KingsHome(g0, f) && Placed(g) && InBounds(r, c)
    requires g[r][c].Some? && CanGenerate(g[r][c].value)
    requires HasKing(g0, g[r][c].value.color) && HasKing(g, g[r][c].value.color)
    ensures g0[r][c].Some?
    ensures TryEach(g, f, r, c, Candidates(g, f, g[r][c].value)).0 <==>
      exists nr, nc :: IsValidMove(g0, f, g0[r][c].value, nr, nc)
  {
    assert ForgetCell(g0[r][c]) == ForgetCell(g[r][c]);
    var p0, p := g0[r][c].value, g[r][c].value;
    assert OnSquare(g0, p0);
    CandidatesAlike(g, g0, f, p, p0);
    var moves := Candidates(g0, f, p0);
    TryEachFinds(g0, g, f, r, c, moves);
    SomeCandidateValid(g0, f, p0, moves);
  }

  /** One square of the scan: whether its piece's move loop succeeds. */
  lemma ScanStepFinds(g0: Grid, g: Grid, f: Flags, color: Color, i: int)
    requires Alike(g0, g) && Placed(g0) && HasKing(g0, color) && KingsHome(g0, f)
    requires Placed(g) && HasKing(g, color) && 0 <= i < 64
    requires OwnsAt(g, color, i) && CanGenerate(g[i / 8][i % 8].value)
    ensures TryEach(g, f, i / 8, i % 8, Candidates(g, f, g[i / 8][i % 8].value)).0 <==> EscapesFrom(g0, f, color, i)
  {
    var r, c := i / 8, i % 8;
    PieceFinds(g0, g, f, r, c);
    assert ForgetCell(g0[r][c]) == ForgetCell(g[r][c]);
  }

  /** The scan at a piece of the side that can list its moves runs that piece's move loop first. */
  lemma MateScanUnfolds(g: Grid, f: Flags, color: Color, i: int)
    requires Placed(g) && HasKing(g, color) && 0 <= i < 64
    requires OwnsAt(g, color, i) && CanGenerate(g[i / 8][i % 8].value)
    ensures var res := TryEach(g, f, i / 8, i % 8, Candidates(g, f, g[i / 8][i % 8].value));
      MateScan(g, f, color, i) == (if res.0 then (Escape, res.1) else MateScan(res.1, f, color, i + 1))
  {
  }

  /** One square of the scan: a piece of the side that can list its moves. */
  lemma ScanStep(g0: Grid, g: Grid, f: Flags, color: Color, i: int)
    requires Alike(g0, g) && Placed(g0) && HasKing(g0, color) && KingsHome(g0, f)
    requires Placed(g) && HasKing(g, color) && 0 <= i < 64
    requires OwnsAt(g, color, i) && CanGenerate(g[i / 8][i % 8].value)
    ensures var res := TryEach(g, f, i / 8, i % 8, Candidates(g, f, g[i / 8][i % 8].value));
      (res.0 <==> EscapesFrom(g0, f, color, i)) &&
      Alike(g0, res.1) && Placed(res.1) && HasKing(res.1, color) && OwnsAt(g0, color, i) && !StuckAt(g0, color, i) &&
      MateScan(g, f, color, i) == (if res.0 then (Escape, res.1) else MateScan(res.1, f, color, i + 1))
  {
    var r, c := i / 8, i % 8;
    assert ForgetCell(g0[r][c]) == ForgetCell(g[r][c]);
    var res := TryEach(g, f, r, c, Candidates(g, f, g[r][c].value));
    ScanStepFinds(g0, g, f, color, i);
    MateScanUnfolds(g, f, color, i);
    AlikeTransitive(g0, g, res.1);
  }

  /** What one square contributes to the scan. */
  datatype SquareScan = NotOwn | LastRankPawn | Movable | Immobile

  ghost function SquareScanAt(g: Grid, f: Flags, color: Color, j: int): SquareScan
    requires Placed(g) && HasKing(g, color) && 0 <= j < 64
  {
    if !OwnsAt(g, color, j) then NotOwn
    else if !CanGenerate(g[j / 8][j % 8].value) then LastRankPawn
    else if EscapesFrom(g, f, color, j) then Movable
    else Immobile
  }

  /** The scan's decision from per-square outcomes: the first decisive square wins. */
  function FirstVerdict(squares: seq<SquareScan>, i: nat): Verdict
    decreases |squares| - i
  {
    if i >= |squares| then NoEscape
    else match squares[i]
      case LastRankPawn => Fault
      case Movable => Escape
      case _ => FirstVerdict(squares, i + 1)
  }

  lemma {:induction false} FirstVerdictMeaning(squares: seq<SquareScan>, i: nat)
    ensures FirstVerdict(squares, i) == Escape ==> exists j :: i <= j < |squares| && squares[j] == Movable
    ensures FirstVerdict(squares, i) == Fault ==> exists j :: i <= j < |squares| && squares[j] == LastRankPawn
    ensures FirstVerdict(squares, i) == NoEscape <==>
      forall j :: i <= j < |squares| ==> squares[j] == NotOwn || squares[j] == Immobile
    decreases |squares| - i
  {
    if i < |squares| {
      FirstVerdictMeaning(squares, i + 1);
    }
  }

  ghost function SquareScans(g: Grid, f: Flags, color: Color): (s: seq<SquareScan>)
    requires Placed(g) && HasKing(g, color)
    ensures |s| == 64 && forall j :: 0 <= j < 64 ==> s[j] == SquareScanAt(g, f, color, j)
  {
    seq(64, j requires 0 <= j < 64 => SquareScanAt(g, f, color, j))
  }

  /** What the threaded scan does at square i, by what that square holds in the original grid. */
  lemma ScanAt(g0: Grid, g: Grid, f: Flags, color: Color, i: int)
    requires Alike(g0, g) && Placed(g0) && HasKing(g0, color) && KingsHome(g0, f)
    requires Placed(g) && HasKing(g, color) && 0 <= i < 64
    ensures var s := SquareScanAt(g0, f, color, i);
      (s == NotOwn ==> MateScan(g, f, color, i) == MateScan(g, f, color, i + 1)) &&
      (s == LastRankPawn ==> MateScan(g, f, color, i).0 == Fault) &&
      (s == Movable ==> MateScan(g, f, color, i).0 == Escape) &&
      (s == Immobile ==>
         exists g1: Grid :: Alike(g0, g1) && Placed(g1) && HasKing(g1, color) &&
                            MateScan(g, f, color, i) == MateScan(g1, f, color, i + 1))
  {
    assert ForgetCell(g0[i / 8][i % 8]) == ForgetCell(g[i / 8][i % 8]);
    if OwnsAt(g, color, i) && CanGenerate(g[i / 8][i % 8].value) {
      ScanStep(g0, g, f, color, i);
    }
  }

  /** The threaded scan decides as the first decisive square of the original grid. */
  lemma {:induction false} MateScanIsFirstVerdict(g0: Grid, g: Grid, f: Flags, color: Color, i: int)
    requires Alike(g0, g) && Placed(g0) && HasKing(g0, color) && KingsHome(g0, f)
    requires Placed(g) && HasKing(g, color) && 0 <= i <= 64
    ensures MateScan(g, f, color, i).0 == FirstVerdict(SquareScans(g0, f, color), i)
    decreases 64 - i
  {
    if i < 64 {
      var squares := SquareScans(g0, f, color);
      assert squares[i] == SquareScanAt(g0, f, color, i);
      ScanAt(g0, g, f, color, i);
      if squares[i] == NotOwn {
        MateScanIsFirstVerdict(g0, g, f, color, i + 1);
      } else if squares[i] == Immobile {
        var g1: Grid :| Alike(g0, g1) && Placed(g1) && HasKing(g1, color) &&
          MateScan(g, f, color, i) == MateScan(g1, f, color, i + 1);
        MateScanIsFirstVerdict(g0, g1, f, color, i + 1);
      }
    }
  }

  /** Square indices and (row, column) pairs name the same cells. */
  lemma IndexOfSquare(r: int, c: int)
    requires InBounds(r, c)
    ensures 0 <= 8 * r + c < 64 && (8 * r + c) / 8 == r && (8 * r + c) % 8 == c
  {
  }

  /** A pawn on its last rank has no valid move: every pawn move goes one row forward. */
  lemma LastRankPawnImmobile(g: Grid, f: Flags, p: Piece, nr: int, nc: int)
    requires Placed(g) && OnSquare(g, p) && HasKing(g, p.color) && !CanGenerate(p)
    ensures !IsValidMove(g, f, p, nr, nc)
  {
    if InBounds(nr, nc) {
      assert !PawnPattern(g, f, p, nr, nc);
    }
  }

  lemma MovableFromEscape(g: Grid, f: Flags, color: Color)
    requires Placed(g) && HasKing(g, color) && CanEscape(g, f, color)
    ensures exists j :: 0 <= j < 64 && SquareScans(g, f, color)[j] == Movable
  {
    var r, c, nr, nc :| InBounds(r, c) && g[r][c].Some? && g[r][c].value.color == color &&
      IsValidMove(g, f, g[r][c].value, nr, nc);
    IndexOfSquare(r, c);
    var j := 8 * r + c;
    if !CanGenerate(g[r][c].value) {
      LastRankPawnImmobile(g, f, g[r][c].value, nr, nc);
    }
    assert EscapesFrom(g, f, color, j);
    assert SquareScans(g, f, color)[j] == Movable;
  }

  lemma MovableMeansCanEscape(g: Grid, f: Flags, color: Color)
    requires Placed(g) && HasKing(g, color)
    ensures (exists j :: 0 <= j < 64 && SquareScans(g, f, color)[j] == Movable) <==> CanEscape(g, f, color)
  {
    var squares := SquareScans(g, f, color);
    if exists j :: 0 <= j < 64 && squares[j] == Movable {
      var j :| 0 <= j < 64 && squares[j] == Movable;
      var nr, nc :| IsValidMove(g, f, g[j / 8][j % 8].value, nr, nc);
      assert InBounds(j / 8, j % 8);
    }
    if CanEscape(g, f, color) {
      MovableFromEscape(g, f, color);
    }
  }

  lemma LastRankMeansStuck(g: Grid, f: Flags, color: Color)
    requires Placed(g) && HasKing(g, color)
    ensures (exists j :: 0 <= j < 64 && SquareScans(g, f, color)[j] == LastRankPawn) <==> Stuck(g, color)
  {
    var squares := SquareScans(g, f, color);
    if exists j :: 0 <= j < 64 && squares[j] == LastRankPawn {
      var j :| 0 <= j < 64 && squares[j] == LastRankPawn;
      assert InBounds(j / 8, j % 8);
    }
    if Stuck(g, color) {
      var r, c :| InBounds(r, c) && g[r][c].Some? && g[r][c].value.color == color && !CanGenerate(g[r][c].value);
      IndexOfSquare(r, c);
      assert squares[8 * r + c] == LastRankPawn;
    }
  }

  /**
    What Board.isCheckmate's scan decides, for a position whose unmoved
    kings stand on column 4: it finds an escape only if one exists; it
    reports none exactly when no piece of the side has a valid move and no
    pawn of the side is on its last rank; it faults only because of such
    a pawn.
   */
  lemma MateScanMeaning(g: Grid, f: Flags, color: Color)
    requires Placed(g) && HasKing(g, color) && KingsHome(g, f)
    ensures MateScan(g, f, color, 0).0 == Escape ==> CanEscape(g, f, color)
    ensures MateScan(g, f, color, 0).0 == Fault ==> Stuck(g, color)
    ensures MateScan(g, f, color, 0).0 == NoEscape <==> !CanEscape(g, f, color) && !Stuck(g, color)
  {
    MateScanIsFirstVerdict(g, g, f, color, 0);
    FirstVerdictMeaning(SquareScans(g, f, color), 0);
    MovableMeansCanEscape(g, f, color);
    LastRankMeansStuck(g, f, color);
  }

  /**
    Board.isCheckmate, when no pawn of the side stands on its last rank:
    true exactly when the side is in check and has no valid move.
   */
  lemma CheckmateMeaning(g: Grid, f: Flags, color: Color)
    requires Placed(g) && HasKing(g, color) && KingsHome(g, f) && !Stuck(g, color)
    ensures IsCheckmate(g, f, color).0 == Some(IsCheck(g, f, color) && !CanEscape(g, f, color))
  {
    MateScanMeaning(g, f, color);
  }

  /** Whether the side has a valid move does not depend on any previous square. */
  lemma CanEscapeAlike(g1: Grid, g2: Grid, f: Flags, color: Color)
    requires Alike(g1, g2) && Placed(g1) && HasKing(g1, color)
    ensures Placed(g2) && HasKing(g2, color)
    ensures CanEscape(g1, f, color) <==> CanEscape(g2, f, color)
  {
    AlikeKeepsPlaced(g1, g2);
    AlikeKeepsKing(g1, g2, color);
    AlikeSymmetric(g1, g2);
    if CanEscape(g1, f, color) {
      var r, c, nr, nc :| InBounds(r, c) && g1[r][c].Some? && g1[r][c].value.color == color &&
        IsValidMove(g1, f, g1[r][c].value, nr, nc);
      assert ForgetCell(g1[r][c]) == ForgetCell(g2[r][c]);
      IsValidMoveAlike(g1, g2, f, g1[r][c].value, g2[r][c].value, nr, nc);
    }
    if CanEscape(g2, f, color) {
      var r, c, nr, nc :| InBounds(r, c) && g2[r][c].Some? && g2[r][c].value.color == color &&
        IsValidMove(g2, f, g2[r][c].value, nr, nc);
      assert ForgetCell(g1[r][c]) == ForgetCell(g2[r][c]);
      IsValidMoveAlike(g2, g1, f, g2[r][c].value, g1[r][c].value, nr, nc);
    }
  }

  lemma StuckAlike(g1: Grid, g2: Grid, color: Color)
    requires Alike(g1, g2)
    ensures Stuck(g1, color) <==> Stuck(g2, color)
  {
    if Stuck(g1, color) {
      var r, c :| InBounds(r, c) && g1[r][c].Some? && g1[r][c].value.color == color && !CanGenerate(g1[r][c].value);
      assert ForgetCell(g1[r][c]) == ForgetCell(g2[r][c]);
    }
    if Stuck(g2, color) {
      var r, c :| InBounds(r, c) && g2[r][c].Some? && g2[r][c].value.color == color && !CanGenerate(g2[r][c].value);
      assert ForgetCell(g1[r][c]) == ForgetCell(g2[r][c]);
    }
  }
}
