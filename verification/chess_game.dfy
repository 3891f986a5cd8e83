/**
  The controller of ChessGame.java: the click handler (select a piece of
  the side to move, then click a target), the special moves (castling,
  en passant, promotion), and the post-move logic (en-passant flag, king
  flags, turn switch, check and checkmate). The Swing frame, panel and
  dialogs are not modelled; the status label and the checkmate message
  are kept as strings.
 */
module ChessGame {
  import opened Wrappers
  import opened ChessPieces
  import opened ChessCandidates
  import opened ChessBoard
  import opened ChessHistory
  import opened ChessMate

  /**
    Playing; Over after the checkmate dialog (the program exits); Crashed
    when a handler threw (a missing king in isCheck, a pawn on its last rank
    in getValidMoves) -- the model stops there.
   */
  datatype Status = Playing | Over(winner: Color) | Crashed

  datatype Game = Game(
    grid: Grid,
    flags: Flags,
    current: Color,
    selected: Option<Square>,
    highlights: seq<Square>,
    caption: string,
    status: Status)

  function SideName(c: Color): string {
    if c == White then "White" else "Black"
  }

  function TurnLabel(c: Color): string {
    SideName(c) + "'s turn"
  }

  const CheckLabel: string := "Check!"

  /** The checkmate dialog names the side that did not just get mated. */
  function MateMessage(mated: Color): string {
    "Checkmate! " + SideName(Opponent(mated)) + " wins!"
  }

  // ---- the initial position (Board.initializeBoard) -------------------------

  const BackRank: seq<Kind> := [Rook(false), Knight, Bishop, Queen, King, Bishop, Knight, Rook(false)]

  /** Piece identities: 0-7 White's back rank, 8-15 White's pawns, 16-23 Black's pawns, 24-31 Black's back rank. */
  function InitialCell(r: int, c: int): Cell
    requires InBounds(r, c)
  {
    if r == 0 then Some(Piece(c, BackRank[c], White, 0, c, 0, c))
    else if r == 1 then Some(Piece(8 + c, Pawn, White, 1, c, 1, c))
    else if r == 6 then Some(Piece(16 + c, Pawn, Black, 6, c, 6, c))
    else if r == 7 then Some(Piece(24 + c, BackRank[c], Black, 7, c, 7, c))
    else None
  }

  function InitialGrid(): Grid {
    var g := seq(8, r requires 0 <= r < 8 => seq(8, c requires 0 <= c < 8 => InitialCell(r, c)));
    assert IsGrid(g);
    g
  }

  /** The game as the ChessGame constructor leaves it. */
  function NewGame(): Game {
    Game(InitialGrid(), Flags(false, false, None), White, None, [], TurnLabel(White), Playing)
  }

  // ---- invariants -------------------------------------------------------------

  /** The en-passant pawn's recorded square is on the board (captureEnPassant clears it). */
  predicate EpTracked(f: Flags) {
    f.enPassant.Some? ==> Located(f.enPassant.value)
  }

  /**
    The en-passant pawn still stands on the cell it records, up to its
    remembered previous square (the Java field and the grid cell hold the
    same object).
   */
  ghost predicate EpOnBoard(g: Grid, f: Flags) {
    f.enPassant.Some? ==>
      Located(f.enPassant.value) && g[f.enPassant.value.row][f.enPassant.value.col].Some? &&
      Forget(g[f.enPassant.value.row][f.enPassant.value.col].value) == Forget(f.enPassant.value)
  }

  /** Every piece is one object in one cell, each side has at most one king, and the en-passant pawn is in place. */
  ghost predicate Identities(g: Grid, f: Flags) {
    DistinctIds(g) && OneKing(g, White) && OneKing(g, Black) && EpOnBoard(g, f)
  }

  /** The facts every handler relies on. */
  ghost predicate WellFormed(game: Game) {
    Placed(game.grid) && KingsHome(game.grid, game.flags) && EpTracked(game.flags) &&
    Identities(game.grid, game.flags) &&
    (game.status == Playing ==> HasKing(game.grid, game.current)) &&
    (game.selected.Some? ==>
      var s := game.selected.value;
      InBounds(s.row, s.col) && game.grid[s.row][s.col].Some? && game.grid[s.row][s.col].value.color == game.current)
  }

  lemma KingsHomeAlike(g1: Grid, g2: Grid, f: Flags)
    requires Alike(g1, g2) && KingsHome(g1, f)
    ensures KingsHome(g2, f)
  {
    forall r, c | InBounds(r, c) && g2[r][c].Some? && g2[r][c].value.kind == King && !KingMoved(f, g2[r][c].value.color)
      ensures c == 4
    {
      assert ForgetCell(g1[r][c]) == ForgetCell(g2[r][c]);
    }
  }

  /** Grids alike up to remembered previous squares agree on identities, kings and the en-passant pawn. */
  lemma IdentitiesAlike(g1: Grid, g2: Grid, f: Flags)
    requires Alike(g1, g2) && Identities(g1, f)
    ensures Identities(g2, f)
  {
    forall r, c | InBounds(r, c)
      ensures g1[r][c].Some? == g2[r][c].Some?
      ensures g1[r][c].Some? ==> g1[r][c].value.id == g2[r][c].value.id && Forget(g1[r][c].value) == Forget(g2[r][c].value)
      ensures IsKingAt(g1, r, c, White) == IsKingAt(g2, r, c, White) && IsKingAt(g1, r, c, Black) == IsKingAt(g2, r, c, Black)
    {
      assert ForgetCell(g1[r][c]) == ForgetCell(g2[r][c]);
    }
  }

  // ---- selection (handlePieceSelection, highlightValidMoves) --------------------

  /** highlightValidMoves' loop: the candidates a validity probe accepts, in order. */
  function Highlight(g: Grid, f: Flags, r: int, c: int, moves: seq<Square>): (res: (seq<Square>, Grid))
    requires Placed(g) && InBounds(r, c) && g[r][c].Some? && HasKing(g, g[r][c].value.color)
    ensures Placed(res.1) && Alike(g, res.1)
    ensures res.1[r][c].Some? && HasKing(res.1, g[r][c].value.color)
    decreases |moves|
  {
    var p := g[r][c].value;
    if |moves| == 0 then ([], g)
    else
      var pr := ValidMoveProbe(g, f, p, moves[0].row, moves[0].col);
      ProbeUndoes(g, f, p, moves[0].row, moves[0].col);
      RepositionIsAlike(g, p, pr.piece);
      AlikeKeepsPlaced(g, pr.grid);
      AlikeKeepsKing(g, pr.grid, p.color);
      var rest := Highlight(pr.grid, f, r, c, moves[1..]);
      AlikeTransitive(g, pr.grid, rest.1);
      ((if pr.legal then [moves[0]] else []) + rest.0, rest.1)
  }

  /** handlePieceSelection: a piece of the side to move becomes selected and its valid moves are highlighted. */
  function Select(game: Game, sq: Square): Game
    requires WellFormed(game) && game.status == Playing && InBounds(sq.row, sq.col)
  {
    var cell := game.grid[sq.row][sq.col];
    if cell.Some? && cell.value.color == game.current then
      if !CanGenerate(cell.value) then game.(selected := Some(sq), highlights := [], status := Crashed)
      else
        var (marks, g1) := Highlight(game.grid, game.flags, sq.row, sq.col, Candidates(game.grid, game.flags, cell.value));
        game.(grid := g1, selected := Some(sq), highlights := marks)
    else game.(highlights := [])
  }

  // ---- movement (handlePieceMovement, handleSpecialMoves) --------------------------

  function RookCornerCol(p: Piece, nc: int): int {
    if nc > p.col then 7 else 0
  }

  /** The king is making a castling move: two files sideways. */
  predicate IsCastling(p: Piece, nc: int) {
    p.kind == King && Abs(nc - p.col) == 2
  }

  /** handleCastling: the rook in the corner on the king's side jumps to file 5 (kingside) or 3. */
  function Castle(g: Grid, p: Piece, nc: int): Grid
    requires Placed(g) && Located(p) && g[p.row][RookCornerCol(p, nc)].Some?
  {
    var rook := g[p.row][RookCornerCol(p, nc)].value;
    MovePiece(g, rook, p.row, if nc > p.col then 5 else 3)
  }

  /** The en-passant branch of handleSpecialMoves: a pawn moving sideways onto an empty square while a pawn is vulnerable. */
  predicate IsEnPassant(g: Grid, f: Flags, p: Piece, nr: int, nc: int)
    requires InBounds(nr, nc)
  {
    p.kind == Pawn && f.enPassant.Some? && nc != p.col && g[nr][nc].None?
  }

  /** handleSpecialMoves before the piece itself moves (promotion: see PromotionOverwritten). */
  function SpecialMoves(g: Grid, f: Flags, p: Piece, nr: int, nc: int): Grid
    requires Placed(g) && Located(p) && InBounds(nr, nc) && EpTracked(f)
    requires IsCastling(p, nc) ==> g[p.row][RookCornerCol(p, nc)].Some?
  {
    var g1 := if IsCastling(p, nc) then Castle(g, p, nc) else g;
    if IsEnPassant(g1, f, p, nr, nc) then CaptureEnPassant(g1, f.enPassant.value) else g1
  }

  /** The piece promotePawn would create for the dialog's answer (a closed dialog gives a Queen). */
  function PromotionKind(choice: int): Kind {
    if choice == 1 then Rook(false) else if choice == 2 then Bishop else if choice == 3 then Knight else Queen
  }

  /** promotePawn: `board.setPiece(row, col, newPiece)` on the target square. */
  function Promote(g: Grid, color: Color, nr: int, nc: int, choice: int, id: nat): Grid
    requires InBounds(nr, nc)
  {
    Put(g, nr, nc, Some(Piece(id, PromotionKind(choice), color, nr, nc, nr, nc)))
  }

  /**
    promotePawn runs before movePiece, which then puts the pawn on the very
    square the new piece was placed on: whatever the player chose, the
    board ends up as if no promotion had happened.
   */
  lemma PromotionOverwritten(g: Grid, p: Piece, nr: int, nc: int, choice: int, id: nat)
    requires p.kind == Pawn && Located(p) && InBounds(nr, nc) && (p.row != nr || p.col != nc)
    ensures MovePiece(Promote(g, p.color, nr, nc, choice, id), p, nr, nc) == MovePiece(g, p, nr, nc)
    ensures MovePiece(Promote(g, p.color, nr, nc, choice, id), p, nr, nc)[nr][nc].value.kind == Pawn
  {
    var g1 := Promote(g, p.color, nr, nc, choice, id);
    var a, b := MovePiece(g1, p, nr, nc), MovePiece(g, p, nr, nc);
    forall r | 0 <= r < 8 ensures a[r] == b[r] {
      assert |a[r]| == |b[r]| == 8;
      forall c | 0 <= c < 8 ensures a[r][c] == b[r][c] {
      }
    }
  }

  /**
    The flag updates of handlePostMoveLogic: the moved piece is the
    en-passant target exactly when it is a pawn that just moved two rows,
    and a king move marks the mover's king as moved.
   */
  function FlagsAfter(f: Flags, mover: Color, moved: Piece): Flags {
    var ep := if moved.kind == Pawn && Abs(moved.row - moved.prevRow) == 2 then Some(moved) else None;
    Flags(f.whiteKingMoved || (moved.kind == King && mover == White),
          f.blackKingMoved || (moved.kind == King && mover == Black), ep)
  }

  /**
    handlePostMoveLogic, given the board after movePiece and the moved
    piece. On checkmate the caption holds the text of the dialog shown
    before the program exits; the status label itself keeps "Check!".
   */
  function PostMove(g: Grid, f: Flags, mover: Color, moved: Piece): Game
    requires Placed(g)
  {
    var f1 := FlagsAfter(f, mover, moved);
    var next := Opponent(mover);
    if FindKing(g, next).None? then Game(g, f1, next, None, [], TurnLabel(next), Crashed)
    else if !IsCheck(g, f1, next) then Game(g, f1, next, None, [], TurnLabel(next), Playing)
    else
      var (mate, h) := IsCheckmate(g, f1, next);
      if mate.None? then Game(h, f1, next, None, [], CheckLabel, Crashed)
      else if mate.value then Game(h, f1, next, None, [], MateMessage(next), Over(mover))
      else Game(h, f1, next, None, [], CheckLabel, Playing)
  }

  /** The board after a move the probe accepted: special moves, then movePiece. */
  function Played(g: Grid, f: Flags, p: Piece, nr: int, nc: int): Grid
    requires Placed(g) && Located(p) && InBounds(nr, nc) && EpTracked(f)
    requires IsCastling(p, nc) ==> g[p.row][RookCornerCol(p, nc)].Some?
  {
    var g1 := SpecialMoves(g, f, p, nr, nc);
    MovePiece(g1, p, nr, nc)
  }

  /**
    A valid castling move stays on the king's row, the king has not moved,
    and an unmoved rook waits in the corner on that side (the pattern
    checked all three).
   */
  lemma CastlingFindsRook(g: Grid, f: Flags, p: Piece, nr: int, nc: int)
    requires Placed(g) && OnSquare(g, p) && HasKing(g, p.color)
    requires IsValidMove(g, f, p, nr, nc) && IsCastling(p, nc)
    ensures nr == p.row && !KingMoved(f, p.color)
    ensures HoldsUnmovedRook(g, p.row, RookCornerCol(p, nc))
  {
    assert KingPattern(g, f, p, nr, nc);
  }

  /** handlePieceMovement: probe the move; if valid, play it and run the post-move logic. */
  function Move(game: Game, sq: Square): Game
    requires WellFormed(game) && game.status == Playing && game.selected.Some? && InBounds(sq.row, sq.col)
  {
    var from := game.selected.value;
    var g, f := game.grid, game.flags;
    var p := g[from.row][from.col].value;
    var probe := ValidMoveProbe(g, f, p, sq.row, sq.col);
    ProbeUndoes(g, f, p, sq.row, sq.col);
    RepositionIsAlike(g, p, probe.piece);
    AlikeKeepsPlaced(g, probe.grid);
    if !probe.legal then game.(grid := probe.grid, selected := None, highlights := [])
    else
      var p1 := probe.piece;
      assert IsCastling(p1, sq.col) ==> probe.grid[p1.row][RookCornerCol(p1, sq.col)].Some? by {
        if IsCastling(p1, sq.col) {
          CastlingFindsRook(g, f, p, sq.row, sq.col);
          assert ForgetCell(g[p.row][RookCornerCol(p, sq.col)]) == ForgetCell(probe.grid[p.row][RookCornerCol(p, sq.col)]);
        }
      }
      var g3 := Played(probe.grid, f, p1, sq.row, sq.col);
      PlayedKeepsPlaced(probe.grid, f, p1, sq.row, sq.col);
      PostMove(g3, f, game.current, Moved(p1, sq.row, sq.col))
  }

  lemma PlayedKeepsPlaced(g: Grid, f: Flags, p: Piece, nr: int, nc: int)
    requires Placed(g) && Located(p) && InBounds(nr, nc) && EpTracked(f)
    requires IsCastling(p, nc) ==> g[p.row][RookCornerCol(p, nc)].Some?
    ensures Placed(Played(g, f, p, nr, nc))
  {
    var g1 := if IsCastling(p, nc) then Castle(g, p, nc) else g;
    if IsCastling(p, nc) {
      var rook := g[p.row][RookCornerCol(p, nc)].value;
      MovePieceKeepsPlaced(g, rook, p.row, if nc > p.col then 5 else 3);
    }
    var g2 := SpecialMoves(g, f, p, nr, nc);
    assert Placed(g2);
    MovePieceKeepsPlaced(g2, p, nr, nc);
  }

  /** mouseClicked: select when nothing is selected, otherwise try to move the selected piece. */
  function Click(game: Game, sq: Square): Game
    requires WellFormed(game) && InBounds(sq.row, sq.col)
  {
    if game.status != Playing then game
    else if game.selected.None? then Select(game, sq)
    else Move(game, sq)
  }

  // ---- what a click does ----------------------------------------------------------

  /** Playing the same move on alike grids gives alike grids. */
  lemma PlayedAlike(g1: Grid, g2: Grid, f: Flags, p1: Piece, p2: Piece, nr: int, nc: int)
    requires Alike(g1, g2) && Forget(p1) == Forget(p2) && Placed(g1) && Located(p1) && InBounds(nr, nc) && EpTracked(f)
    requires IsCastling(p1, nc) ==> g1[p1.row][RookCornerCol(p1, nc)].Some?
    ensures Placed(g2) && Located(p2) && (IsCastling(p2, nc) ==> g2[p2.row][RookCornerCol(p2, nc)].Some?)
    ensures Alike(Played(g1, f, p1, nr, nc), Played(g2, f, p2, nr, nc))
  {
    AlikeKeepsPlaced(g1, g2);
    var a1: Grid := if IsCastling(p1, nc) then Castle(g1, p1, nc) else g1;
    var a2: Grid := if IsCastling(p2, nc) then Castle(g2, p2, nc) else g2;
    if IsCastling(p1, nc) {
      var corner := RookCornerCol(p1, nc);
      assert ForgetCell(g1[p1.row][corner]) == ForgetCell(g2[p1.row][corner]);
      MovePieceAlike(g1, g2, g1[p1.row][corner].value, g2[p1.row][corner].value, p1.row, if nc > p1.col then 5 else 3);
    }
    assert Alike(a1, a2);
    assert ForgetCell(a1[nr][nc]) == ForgetCell(a2[nr][nc]);
    var b1, b2 := SpecialMoves(g1, f, p1, nr, nc), SpecialMoves(g2, f, p2, nr, nc);
    assert Alike(b1, b2);
    MovePieceAlike(b1, b2, p1, p2, nr, nc);
  }

  /**
    A move keeps unmoved kings on column 4 under the updated flags: the
    moved piece marks its own king as moved if it is one, the castling
    rook is no king, and every other king stays where it stood.
   */
  lemma PlayedKeepsKingsHome(g: Grid, f: Flags, p: Piece, nr: int, nc: int)
    requires Placed(g) && Located(p) && InBounds(nr, nc) && EpTracked(f) && KingsHome(g, f)
    requires IsCastling(p, nc) ==> HoldsUnmovedRook(g, p.row, RookCornerCol(p, nc))
    ensures KingsHome(Played(g, f, p, nr, nc), FlagsAfter(f, p.color, Moved(p, nr, nc)))
  {
    var f1 := FlagsAfter(f, p.color, Moved(p, nr, nc));
    var g1: Grid := if IsCastling(p, nc) then Castle(g, p, nc) else g;
    var g2 := SpecialMoves(g, f, p, nr, nc);
    var h := Played(g, f, p, nr, nc);
    assert forall r, c :: InBounds(r, c) && g1[r][c].Some? && g1[r][c].value.kind == King ==> g1[r][c] == g[r][c];
    assert forall r, c :: InBounds(r, c) && g2[r][c].Some? ==> g2[r][c] == g1[r][c];
    forall r, c | InBounds(r, c) && h[r][c].Some? && h[r][c].value.kind == King && !KingMoved(f1, h[r][c].value.color)
      ensures c == 4
    {
      if r != nr || c != nc {
        assert h[r][c] == g2[r][c];
      }
    }
  }

  /**
    The pawn an en-passant capture takes is the one beside the capturing
    pawn, on the target's file: the pattern found the vulnerable pawn's
    identity there, and that identity is in one cell only.
   */
  lemma EpVictimBeside(g: Grid, f: Flags, p: Piece, nr: int, nc: int)
    requires Placed(g) && OnSquare(g, p) && HasKing(g, p.color) && DistinctIds(g) && EpOnBoard(g, f)
    requires IsValidMove(g, f, p, nr, nc) && IsEnPassant(g, f, p, nr, nc)
    ensures HoldsEnPassantPawn(g, f, p.row, nc)
    ensures f.enPassant.value.row == p.row && f.enPassant.value.col == nc
  {
    assert PawnPattern(g, f, p, nr, nc);
    var ep := f.enPassant.value;
    assert g[ep.row][ep.col].value.id == ep.id;
  }

  /**
    A move keeps identities distinct and each king unique: the castling
    rook and the mover each carry their identity to an empty or captured
    cell, and an en-passant capture only empties a cell.
   */
  lemma PlayedKeepsIdentities(g: Grid, f: Flags, p: Piece, nr: int, nc: int)
    requires Placed(g) && OnSquare(g, p) && InBounds(nr, nc) && EpTracked(f)
    requires DistinctIds(g) && OneKing(g, White) && OneKing(g, Black)
    requires IsCastling(p, nc) ==> g[p.row][RookCornerCol(p, nc)].Some? && p.col == 4
    requires IsEnPassant(g, f, p, nr, nc) ==> f.enPassant.value.row != p.row || f.enPassant.value.col != p.col
    ensures var h := Played(g, f, p, nr, nc);
      DistinctIds(h) && OneKing(h, White) && OneKing(h, Black)
  {
    var g1: Grid := if IsCastling(p, nc) then Castle(g, p, nc) else g;
    if IsCastling(p, nc) {
      var rook := g[p.row][RookCornerCol(p, nc)].value;
      var crossed := if nc > p.col then 5 else 3;
      MovePieceKeepsIds(g, rook, p.row, crossed);
      MovePieceKeepsOneKing(g, rook, p.row, crossed, White);
      MovePieceKeepsOneKing(g, rook, p.row, crossed, Black);
    }
    assert OnSquare(g1, p);
    var g2 := SpecialMoves(g, f, p, nr, nc);
    if IsEnPassant(g1, f, p, nr, nc) {
      var ep := f.enPassant.value;
      ClearKeepsIds(g1, ep.row, ep.col);
      ClearKeepsOneKing(g1, ep.row, ep.col, White);
      ClearKeepsOneKing(g1, ep.row, ep.col, Black);
    }
    assert OnSquare(g2, p);
    MovePieceKeepsIds(g2, p, nr, nc);
    MovePieceKeepsOneKing(g2, p, nr, nc, White);
    MovePieceKeepsOneKing(g2, p, nr, nc, Black);
  }

  /** handlePostMoveLogic hands the turn over, clears the selection and only probes the grid. */
  lemma PostMoveHandsOver(g: Grid, f: Flags, mover: Color, moved: Piece)
    requires Placed(g)
    ensures var after := PostMove(g, f, mover, moved);
      after.current == Opponent(mover) && after.flags == FlagsAfter(f, mover, moved) &&
      after.selected.None? && after.highlights == [] && Alike(g, after.grid)
    ensures PostMove(g, f, mover, moved).status == Playing ==> HasKing(g, Opponent(mover))
  {
  }

  /** The post-move logic keeps the invariants when the kings were home under the new flags. */
  lemma PostMoveWellFormed(g: Grid, f: Flags, mover: Color, moved: Piece)
    requires Placed(g) && Located(moved) && KingsHome(g, FlagsAfter(f, mover, moved)) && Identities(g, FlagsAfter(f, mover, moved))
    ensures WellFormed(PostMove(g, f, mover, moved))
  {
    var after := PostMove(g, f, mover, moved);
    PostMoveHandsOver(g, f, mover, moved);
    AlikeKeepsPlaced(g, after.grid);
    KingsHomeAlike(g, after.grid, after.flags);
    IdentitiesAlike(g, after.grid, after.flags);
    if after.status == Playing {
      AlikeKeepsKing(g, after.grid, after.current);
    }
  }

  /** No king for the side to move next: isCheck dereferences null. */
  lemma PostMoveNoKing(g: Grid, f: Flags, mover: Color, moved: Piece)
    requires Placed(g) && !HasKing(g, Opponent(mover))
    ensures PostMove(g, f, mover, moved).status == Crashed
  {
  }

  /** Not in check: play goes on with the next side's turn label. */
  lemma PostMoveQuiet(g: Grid, f: Flags, mover: Color, moved: Piece)
    requires Placed(g) && HasKing(g, Opponent(mover)) && !IsCheck(g, FlagsAfter(f, mover, moved), Opponent(mover))
    ensures PostMove(g, f, mover, moved).status == Playing
    ensures PostMove(g, f, mover, moved).caption == TurnLabel(Opponent(mover))
  {
  }

  /**
    In check, with no pawn stuck on its last rank: the mover wins exactly
    when the side in check has no valid move; otherwise play goes on under
    the "Check!" label.
   */
  lemma PostMoveCheck(g: Grid, f: Flags, mover: Color, moved: Piece)
    requires Placed(g) && KingsHome(g, FlagsAfter(f, mover, moved)) && HasKing(g, Opponent(mover))
    requires IsCheck(g, FlagsAfter(f, mover, moved), Opponent(mover)) && !Stuck(g, Opponent(mover))
    ensures var after := PostMove(g, f, mover, moved);
      after.status == Over(mover) <==> !CanEscape(g, FlagsAfter(f, mover, moved), Opponent(mover))
    ensures var after := PostMove(g, f, mover, moved);
      if after.status == Over(mover) then after.caption == MateMessage(Opponent(mover))
      else after.status == Playing && after.caption == CheckLabel
  {
    CheckmateMeaning(g, FlagsAfter(f, mover, moved), Opponent(mover));
  }

  /** A crash needs a missing king or a pawn of the side to move on its last rank. */
  lemma PostMoveCrash(g: Grid, f: Flags, mover: Color, moved: Piece)
    requires Placed(g) && KingsHome(g, FlagsAfter(f, mover, moved))
    requires PostMove(g, f, mover, moved).status == Crashed
    ensures !HasKing(g, Opponent(mover)) || Stuck(g, Opponent(mover))
  {
    var f1, next := FlagsAfter(f, mover, moved), Opponent(mover);
    if HasKing(g, next) {
      MateScanMeaning(g, f1, next);
    }
  }

  /** A piece of the side to move is selected and the clicked square is a valid move for it. */
  ghost predicate ValidChoice(game: Game, sq: Square) {
    WellFormed(game) && game.status == Playing && game.selected.Some? && InBounds(sq.row, sq.col) &&
    var from := game.selected.value;
    IsValidMove(game.grid, game.flags, game.grid[from.row][from.col].value, sq.row, sq.col)
  }

  /** The board after the selected piece's valid move, special moves included. */
  ghost function ChosenMove(game: Game, sq: Square): Grid
    requires ValidChoice(game, sq)
  {
    var from := game.selected.value;
    var p := game.grid[from.row][from.col].value;
    if IsCastling(p, sq.col) then
      CastlingFindsRook(game.grid, game.flags, p, sq.row, sq.col);
      Played(game.grid, game.flags, p, sq.row, sq.col)
    else Played(game.grid, game.flags, p, sq.row, sq.col)
  }

  /** The board a valid move produces keeps pieces on their squares and unmoved kings at home. */
  lemma ChosenMoveKeeps(game: Game, sq: Square)
    requires ValidChoice(game, sq)
    ensures var from := game.selected.value;
      var moved := Moved(game.grid[from.row][from.col].value, sq.row, sq.col);
      Placed(ChosenMove(game, sq)) && KingsHome(ChosenMove(game, sq), FlagsAfter(game.flags, game.current, moved))
  {
    var from := game.selected.value;
    var g, f := game.grid, game.flags;
    var p := g[from.row][from.col].value;
    if IsCastling(p, sq.col) {
      CastlingFindsRook(g, f, p, sq.row, sq.col);
    }
    PlayedKeepsPlaced(g, f, p, sq.row, sq.col);
    PlayedKeepsKingsHome(g, f, p, sq.row, sq.col);
  }

  /**
    The board a valid move produces keeps every piece a distinct object and
    each king unique, and the en-passant flag it leaves names the pawn on
    the target.
   */
  lemma ValidMoveKeepsIdentities(g: Grid, f: Flags, p: Piece, nr: int, nc: int)
    requires Placed(g) && OnSquare(g, p) && HasKing(g, p.color) && KingsHome(g, f) && EpTracked(f) && Identities(g, f)
    requires IsValidMove(g, f, p, nr, nc)
    ensures InBounds(nr, nc) && (IsCastling(p, nc) ==> g[p.row][RookCornerCol(p, nc)].Some?)
    ensures Identities(Played(g, f, p, nr, nc), FlagsAfter(f, p.color, Moved(p, nr, nc)))
  {
    if IsCastling(p, nc) {
      CastlingMovesRook(g, f, p, nr, nc);
    }
    if IsEnPassant(g, f, p, nr, nc) {
      EpVictimBeside(g, f, p, nr, nc);
    }
    PlayedKeepsIdentities(g, f, p, nr, nc);
    assert Played(g, f, p, nr, nc)[nr][nc] == Some(Moved(p, nr, nc));
  }

  /** The same, for the selected piece of a game. */
  lemma ChosenMoveKeepsIdentities(game: Game, sq: Square)
    requires ValidChoice(game, sq)
    ensures var from := game.selected.value;
      var moved := Moved(game.grid[from.row][from.col].value, sq.row, sq.col);
      Identities(ChosenMove(game, sq), FlagsAfter(game.flags, game.current, moved))
  {
    var from := game.selected.value;
    var p := game.grid[from.row][from.col].value;
    assert OnSquare(game.grid, p);
    ValidMoveKeepsIdentities(game.grid, game.flags, p, sq.row, sq.col);
  }

  /**
    Board.isValidMove's probe followed by the move itself plays the same
    move as on the grid before the probe, up to remembered previous squares.
   */
  lemma ProbeThenPlay(g: Grid, f: Flags, p: Piece, nr: int, nc: int)
    requires Placed(g) && OnSquare(g, p) && HasKing(g, p.color) && EpTracked(f) && IsValidMove(g, f, p, nr, nc)
    ensures InBounds(nr, nc) && (IsCastling(p, nc) ==> g[p.row][RookCornerCol(p, nc)].Some?)
    ensures var probe := ValidMoveProbe(g, f, p, nr, nc);
      probe.legal && Placed(probe.grid) && Located(probe.piece) &&
      (IsCastling(probe.piece, nc) ==> probe.grid[probe.piece.row][RookCornerCol(probe.piece, nc)].Some?) &&
      Moved(probe.piece, nr, nc) == Moved(p, nr, nc) &&
      Placed(Played(probe.grid, f, probe.piece, nr, nc)) &&
      Alike(Played(g, f, p, nr, nc), Played(probe.grid, f, probe.piece, nr, nc))
  {
    var probe := ValidMoveProbe(g, f, p, nr, nc);
    ProbeUndoes(g, f, p, nr, nc);
    assert probe.piece == p.(prevRow := nr, prevCol := nc);
    RepositionIsAlike(g, p, probe.piece);
    AlikeKeepsPlaced(g, probe.grid);
    if IsCastling(p, nc) {
      CastlingFindsRook(g, f, p, nr, nc);
    }
    PlayedAlike(g, probe.grid, f, p, probe.piece, nr, nc);
    PlayedKeepsPlaced(probe.grid, f, probe.piece, nr, nc);
  }

  lemma ValidMoveSetup(game: Game, sq: Square)
    requires ValidChoice(game, sq)
    ensures var from := game.selected.value;
      var h := ChosenMove(game, sq);
      var moved := Moved(game.grid[from.row][from.col].value, sq.row, sq.col);
      Placed(h) && KingsHome(h, FlagsAfter(game.flags, game.current, moved)) &&
      exists g3: Grid :: Placed(g3) && Alike(h, g3) && KingsHome(g3, FlagsAfter(game.flags, game.current, moved)) &&
        Move(game, sq) == PostMove(g3, game.flags, game.current, moved)
  {
    var from := game.selected.value;
    var g, f := game.grid, game.flags;
    var p := g[from.row][from.col].value;
    var h := ChosenMove(game, sq);
    var f1 := FlagsAfter(f, game.current, Moved(p, sq.row, sq.col));
    ChosenMoveKeeps(game, sq);
    ProbeThenPlay(g, f, p, sq.row, sq.col);
    var probe := ValidMoveProbe(g, f, p, sq.row, sq.col);
    var g3 := Played(probe.grid, f, probe.piece, sq.row, sq.col);
    assert h == Played(g, f, p, sq.row, sq.col);
    KingsHomeAlike(h, g3, f1);
    assert Move(game, sq) == PostMove(g3, f, game.current, Moved(p, sq.row, sq.col));
  }

  /** A valid move of the selected piece hands a well-formed game to the opponent. */
  lemma ValidMoveHandsOver(game: Game, sq: Square)
    requires ValidChoice(game, sq)
    ensures var from := game.selected.value;
      var p := game.grid[from.row][from.col].value;
      var after := Move(game, sq);
      after.current == Opponent(game.current) && after.selected.None? && after.highlights == [] &&
      after.flags == FlagsAfter(game.flags, game.current, Moved(p, sq.row, sq.col)) &&
      WellFormed(after)
  {
    var from := game.selected.value;
    var p := game.grid[from.row][from.col].value;
    var h := ChosenMove(game, sq);
    var moved := Moved(p, sq.row, sq.col);
    var f1 := FlagsAfter(game.flags, game.current, moved);
    ValidMoveSetup(game, sq);
    var g3: Grid :| Placed(g3) && Alike(h, g3) && KingsHome(g3, f1) && Move(game, sq) == PostMove(g3, game.flags, game.current, moved);
    PostMoveHandsOver(g3, game.flags, game.current, moved);
    ChosenMoveKeepsIdentities(game, sq);
    IdentitiesAlike(h, g3, f1);
    PostMoveWellFormed(g3, game.flags, game.current, moved);
  }

  /**
    A valid move of the selected piece leaves the board movePiece and the
    special moves produce, up to remembered previous squares, with every
    unmoved king still at home.
   */
  lemma ValidMovePlayed(game: Game, sq: Square)
    requires ValidChoice(game, sq)
    ensures Alike(Move(game, sq).grid, ChosenMove(game, sq))
    ensures KingsHome(ChosenMove(game, sq), Move(game, sq).flags)
  {
    var from := game.selected.value;
    var p := game.grid[from.row][from.col].value;
    var h := ChosenMove(game, sq);
    var moved := Moved(p, sq.row, sq.col);
    var f1 := FlagsAfter(game.flags, game.current, moved);
    ValidMoveSetup(game, sq);
    var g3: Grid :| Placed(g3) && Alike(h, g3) && KingsHome(g3, f1) && Move(game, sq) == PostMove(g3, game.flags, game.current, moved);
    PostMoveHandsOver(g3, game.flags, game.current, moved);
    AlikeTransitive(h, g3, Move(game, sq).grid);
    AlikeSymmetric(h, Move(game, sq).grid);
  }

  /**
    The outcome of a valid move, read off the position it produces: the
    mover wins exactly when the opponent, in check and with no pawn stuck
    on its last rank, has no valid move.
   */
  lemma ValidMoveMates(game: Game, sq: Square)
    requires ValidChoice(game, sq)
    ensures var from := game.selected.value;
      var p := game.grid[from.row][from.col].value;
      var h := ChosenMove(game, sq);
      var after, next := Move(game, sq), Opponent(game.current);
      Placed(h) &&
      (HasKing(h, next) && IsCheck(h, after.flags, next) && !Stuck(h, next) ==>
        (after.status == Over(game.current) <==> !CanEscape(h, after.flags, next)) &&
        (after.status != Over(game.current) ==> after.status == Playing))
  {
    var from := game.selected.value;
    var p := game.grid[from.row][from.col].value;
    var h := ChosenMove(game, sq);
    var moved := Moved(p, sq.row, sq.col);
    var f1, next := FlagsAfter(game.flags, game.current, moved), Opponent(game.current);
    ValidMoveSetup(game, sq);
    var g3: Grid :| Placed(g3) && Alike(h, g3) && KingsHome(g3, f1) && Move(game, sq) == PostMove(g3, game.flags, game.current, moved);
    PostMoveHandsOver(g3, game.flags, game.current, moved);
    if HasKing(h, next) && IsCheck(h, f1, next) && !Stuck(h, next) {
      IsCheckAlike(h, g3, f1, next);
      CanEscapeAlike(h, g3, f1, next);
      StuckAlike(h, g3, next);
      PostMoveCheck(g3, game.flags, game.current, moved);
    }
  }

  /** After a valid move the game goes on, unchecked, when the opponent is not in check; it crashes only without a king or with a pawn stuck on its last rank. */
  lemma ValidMoveContinues(game: Game, sq: Square)
    requires ValidChoice(game, sq)
    ensures var from := game.selected.value;
      var p := game.grid[from.row][from.col].value;
      var h := ChosenMove(game, sq);
      var after, next := Move(game, sq), Opponent(game.current);
      Placed(h) &&
      (!HasKing(h, next) ==> after.status == Crashed) &&
      (HasKing(h, next) && !IsCheck(h, after.flags, next) ==> after.status == Playing) &&
      (after.status == Crashed ==> !HasKing(h, next) || Stuck(h, next))
  {
    var from := game.selected.value;
    var p := game.grid[from.row][from.col].value;
    var h := ChosenMove(game, sq);
    var moved := Moved(p, sq.row, sq.col);
    var f1, next := FlagsAfter(game.flags, game.current, moved), Opponent(game.current);
    ValidMoveSetup(game, sq);
    var g3: Grid :| Placed(g3) && Alike(h, g3) && KingsHome(g3, f1) && Move(game, sq) == PostMove(g3, game.flags, game.current, moved);
    PostMoveHandsOver(g3, game.flags, game.current, moved);
    AlikeSymmetric(h, g3);
    StuckAlike(h, g3, next);
    if HasKing(h, next) {
      IsCheckAlike(h, g3, f1, next);
      if !IsCheck(h, f1, next) {
        PostMoveQuiet(g3, game.flags, game.current, moved);
      }
    } else {
      if HasKing(g3, next) {
        AlikeKeepsKing(g3, h, next);
      }
      PostMoveNoKing(g3, game.flags, game.current, moved);
    }
    if Move(game, sq).status == Crashed {
      PostMoveCrash(g3, game.flags, game.current, moved);
      if HasKing(g3, next) {
        AlikeKeepsKing(g3, h, next);
      }
    }
  }

  /** One step of highlightValidMoves: the first candidate's probe, and what the loop does next. */
  lemma HighlightStep(g: Grid, f: Flags, r: int, c: int, moves: seq<Square>)
    requires Placed(g) && InBounds(r, c) && g[r][c].Some? && HasKing(g, g[r][c].value.color) && |moves| > 0
    ensures var p := g[r][c].value;
      var pr := ValidMoveProbe(g, f, p, moves[0].row, moves[0].col);
      pr.legal == IsValidMove(g, f, p, moves[0].row, moves[0].col) &&
      Alike(g, pr.grid) && Placed(pr.grid) && pr.grid[r][c].Some? && HasKing(pr.grid, p.color) &&
      Highlight(g, f, r, c, moves).0 ==
        (if pr.legal then [moves[0]] else []) + Highlight(pr.grid, f, r, c, moves[1..]).0
  {
    var p := g[r][c].value;
    var pr := ValidMoveProbe(g, f, p, moves[0].row, moves[0].col);
    ProbeUndoes(g, f, p, moves[0].row, moves[0].col);
    RepositionIsAlike(g, p, pr.piece);
    AlikeKeepsPlaced(g, pr.grid);
    AlikeKeepsKing(g, pr.grid, p.color);
  }

  /** highlightValidMoves keeps exactly the candidates Board.isValidMove accepts on the original grid. */
  lemma {:induction false} HighlightFinds(g0: Grid, g: Grid, f: Flags, r: int, c: int, moves: seq<Square>)
    requires Alike(g0, g) && Placed(g0) && InBounds(r, c) && g0[r][c].Some? && HasKing(g0, g0[r][c].value.color)
    requires Placed(g) && g[r][c].Some? && HasKing(g, g[r][c].value.color)
    ensures forall s :: s in Highlight(g, f, r, c, moves).0 <==>
      s in moves && IsValidMove(g0, f, g0[r][c].value, s.row, s.col)
    decreases |moves|
  {
    if |moves| > 0 {
      var p0, p := g0[r][c].value, g[r][c].value;
      assert ForgetCell(g0[r][c]) == ForgetCell(g[r][c]);
      HighlightStep(g, f, r, c, moves);
      var pr := ValidMoveProbe(g, f, p, moves[0].row, moves[0].col);
      IsValidMoveAlike(g0, g, f, p0, p, moves[0].row, moves[0].col);
      AlikeTransitive(g0, g, pr.grid);
      HighlightFinds(g0, pr.grid, f, r, c, moves[1..]);
      var valid := iset s: Square | IsValidMove(g0, f, p0, s.row, s.col);
      KeepFirst(moves, Highlight(g, f, r, c, moves).0, Highlight(pr.grid, f, r, c, moves[1..]).0, pr.legal, valid);
    }
  }

  /** A filter that keeps the head exactly when it is valid, and filters the tail, keeps exactly the valid members. */
  lemma KeepFirst(moves: seq<Square>, kept: seq<Square>, keptRest: seq<Square>, keep: bool, valid: iset<Square>)
    requires |moves| > 0 && (keep <==> moves[0] in valid)
    requires kept == (if keep then [moves[0]] else []) + keptRest
    requires forall s :: s in keptRest <==> s in moves[1..] && s in valid
    ensures forall s :: s in kept <==> s in moves && s in valid
  {
    forall s ensures s in moves <==> s == moves[0] || s in moves[1..] {
      assert moves == [moves[0]] + moves[1..];
    }
  }

  /**
    Selecting a piece of the side to move highlights exactly its valid
    moves; clicking anything else with nothing selected only clears the
    highlights.
   */
  lemma SelectHighlightsValidMoves(game: Game, sq: Square)
    requires WellFormed(game) && game.status == Playing && game.selected.None? && InBounds(sq.row, sq.col)
    ensures var cell, after := game.grid[sq.row][sq.col], Click(game, sq);
      cell.Some? && cell.value.color == game.current && CanGenerate(cell.value) ==>
        after.selected == Some(sq) && after.status == Playing && Alike(game.grid, after.grid) &&
        forall nr, nc :: Square(nr, nc) in after.highlights <==> IsValidMove(game.grid, game.flags, cell.value, nr, nc)
    ensures var cell := game.grid[sq.row][sq.col];
      cell.Some? && cell.value.color == game.current && !CanGenerate(cell.value) ==> Click(game, sq).status == Crashed
    ensures var cell := game.grid[sq.row][sq.col];
      !(cell.Some? && cell.value.color == game.current) ==> Click(game, sq) == game.(highlights := [])
  {
    var g, f := game.grid, game.flags;
    var cell := g[sq.row][sq.col];
    if cell.Some? && cell.value.color == game.current && CanGenerate(cell.value) {
      var p := cell.value;
      var moves := Candidates(g, f, p);
      HighlightFinds(g, g, f, sq.row, sq.col, moves);
      forall nr, nc | IsValidMove(g, f, p, nr, nc) ensures Square(nr, nc) in moves {
        CandidatesArePseudoLegal(g, f, p, Square(nr, nc));
      }
    }
  }

  /**
    An invalid target cancels the selection and changes nothing else: the
    same side is to move, the flags stand, and the grid differs only in
    remembered previous squares.
   */
  lemma InvalidMoveCancels(game: Game, sq: Square)
    requires WellFormed(game) && game.status == Playing && game.selected.Some? && InBounds(sq.row, sq.col)
    requires var from := game.selected.value;
      !IsValidMove(game.grid, game.flags, game.grid[from.row][from.col].value, sq.row, sq.col)
    ensures var after := Click(game, sq);
      after.selected.None? && after.highlights == [] && after.current == game.current &&
      after.flags == game.flags && after.status == Playing && after.caption == game.caption &&
      Alike(game.grid, after.grid)
  {
    var from := game.selected.value;
    var p := game.grid[from.row][from.col].value;
    ProbeUndoes(game.grid, game.flags, p, sq.row, sq.col);
    RepositionIsAlike(game.grid, p, ValidMoveProbe(game.grid, game.flags, p, sq.row, sq.col).piece);
  }

  /**
    In a game in play the side to move has exactly one king, so isCheck,
    which asks about the first king the scan finds, means that this king's
    square is attacked.
   */
  lemma CheckMeansOwnKingAttacked(game: Game, r: int, c: int)
    requires WellFormed(game) && game.status == Playing && InBounds(r, c) && IsKingAt(game.grid, r, c, game.current)
    ensures forall r2, c2 :: InBounds(r2, c2) && IsKingAt(game.grid, r2, c2, game.current) ==> r2 == r && c2 == c
    ensures IsCheck(game.grid, game.flags, game.current) <==> Attacked(game.grid, game.flags, r, c, Opponent(game.current))
  {
    CheckMeansKingAttacked(game.grid, game.flags, game.current, r, c);
  }

  /** The side to move changes on a click exactly when the selected piece makes a valid move. */
  lemma ClickSwitchesTurn(game: Game, sq: Square)
    requires WellFormed(game) && InBounds(sq.row, sq.col)
    ensures Click(game, sq).current != game.current <==>
      game.status == Playing && game.selected.Some? &&
      IsValidMove(game.grid, game.flags, game.grid[game.selected.value.row][game.selected.value.col].value, sq.row, sq.col)
  {
    if game.status == Playing && game.selected.Some? {
      var from := game.selected.value;
      var p := game.grid[from.row][from.col].value;
      if IsValidMove(game.grid, game.flags, p, sq.row, sq.col) {
        ValidMoveHandsOver(game, sq);
      } else {
        InvalidMoveCancels(game, sq);
      }
    }
  }

  /** Every click keeps the invariants the handlers rely on. */
  lemma ClickKeepsWellFormed(game: Game, sq: Square)
    requires WellFormed(game) && InBounds(sq.row, sq.col)
    ensures WellFormed(Click(game, sq))
  {
    if game.status == Playing {
      var g, f := game.grid, game.flags;
      if game.selected.None? {
        var cell := g[sq.row][sq.col];
        if cell.Some? && cell.value.color == game.current && CanGenerate(cell.value) {
          var after := Click(game, sq);
          KingsHomeAlike(g, after.grid, f);
          AlikeKeepsPlaced(g, after.grid);
          AlikeKeepsKing(g, after.grid, game.current);
          IdentitiesAlike(g, after.grid, f);
          assert ForgetCell(g[sq.row][sq.col]) == ForgetCell(after.grid[sq.row][sq.col]);
        }
      } else {
        var from := game.selected.value;
        var p := g[from.row][from.col].value;
        if IsValidMove(g, f, p, sq.row, sq.col) {
          ValidMoveHandsOver(game, sq);
        } else {
          var after := Click(game, sq);
          InvalidMoveCancels(game, sq);
          KingsHomeAlike(g, after.grid, f);
          IdentitiesAlike(g, after.grid, f);
          AlikeKeepsPlaced(g, after.grid);
          AlikeKeepsKing(g, after.grid, game.current);
        }
      }
    }
  }

  /**
    What a valid move does to the flags and the two squares it involves:
    the en-passant flag names the moved piece exactly when a pawn moved
    two rows, only the mover's king flag can change (when the king moved),
    the piece stands on the target and its origin is empty.
   */
  lemma ValidMoveFlags(game: Game, sq: Square)
    requires ValidChoice(game, sq)
    ensures var from := game.selected.value;
      var p, after := game.grid[from.row][from.col].value, Move(game, sq);
      (after.flags.enPassant.Some? <==> p.kind == Pawn && Abs(sq.row - p.row) == 2) &&
      KingMoved(after.flags, game.current) == (KingMoved(game.flags, game.current) || p.kind == King) &&
      KingMoved(after.flags, Opponent(game.current)) == KingMoved(game.flags, Opponent(game.current))
  {
    ValidMoveHandsOver(game, sq);
  }

  /**
    The moved piece stands on the target, its origin is empty, and a
    pawn's double step leaves the en-passant flag naming the pawn on the
    target square.
   */
  lemma ValidMoveSquares(game: Game, sq: Square)
    requires ValidChoice(game, sq)
    ensures var from := game.selected.value;
      var p, after := game.grid[from.row][from.col].value, Move(game, sq);
      ForgetCell(after.grid[sq.row][sq.col]) == ForgetCell(Some(Moved(p, sq.row, sq.col))) &&
      after.grid[from.row][from.col].None? &&
      (after.flags.enPassant.Some? ==> ForgetCell(after.grid[sq.row][sq.col]) == ForgetCell(after.flags.enPassant))
  {
    var from := game.selected.value;
    var p := game.grid[from.row][from.col].value;
    var after := Move(game, sq);
    ValidMoveHandsOver(game, sq);
    ValidMovePlayed(game, sq);
    var h := ChosenMove(game, sq);
    PlayedPlacesMover(game, sq);
    assert ForgetCell(after.grid[sq.row][sq.col]) == ForgetCell(h[sq.row][sq.col]);
    assert ForgetCell(after.grid[from.row][from.col]) == ForgetCell(h[from.row][from.col]);
  }

  /** The board after a valid move holds the moved piece on the target and nothing on the origin. */
  lemma PlayedPlacesMover(game: Game, sq: Square)
    requires ValidChoice(game, sq)
    ensures var from := game.selected.value;
      var h := ChosenMove(game, sq);
      h[sq.row][sq.col] == Some(Moved(game.grid[from.row][from.col].value, sq.row, sq.col)) &&
      h[from.row][from.col].None?
  {
    var from := game.selected.value;
    assert (sq.row, sq.col) != (from.row, from.col);
  }

  /**
    A valid castling move puts the king two files over and the corner rook
    on the file the king crossed; the king's and the rook's starting
    squares are left empty.
   */
  lemma CastlingMovesRook(g: Grid, f: Flags, p: Piece, nr: int, nc: int)
    requires Placed(g) && OnSquare(g, p) && HasKing(g, p.color) && KingsHome(g, f) && EpTracked(f)
    requires IsValidMove(g, f, p, nr, nc) && IsCastling(p, nc)
    ensures HoldsUnmovedRook(g, p.row, RookCornerCol(p, nc))
    ensures var h, corner := Played(g, f, p, nr, nc), RookCornerCol(p, nc);
      var crossed := if nc > p.col then 5 else 3;
      p.col == 4 && nr == p.row &&
      h[nr][nc] == Some(Moved(p, nr, nc)) && h[p.row][p.col].None? &&
      h[p.row][crossed] == Some(Moved(g[p.row][corner].value, p.row, crossed)) && h[p.row][corner].None?
  {
    CastlingFindsRook(g, f, p, nr, nc);
  }

  /**
    A valid en-passant capture empties the square the vulnerable pawn
    recorded as its own, besides moving the capturing pawn.
   */
  lemma EnPassantRemovesPawn(g: Grid, f: Flags, p: Piece, nr: int, nc: int)
    requires Placed(g) && OnSquare(g, p) && HasKing(g, p.color) && EpTracked(f)
    requires IsValidMove(g, f, p, nr, nc) && IsEnPassant(g, f, p, nr, nc)
    ensures var h, victim := Played(g, f, p, nr, nc), f.enPassant.value;
      h[nr][nc] == Some(Moved(p, nr, nc)) && h[p.row][p.col].None? &&
      ((victim.row != nr || victim.col != nc) ==> h[victim.row][victim.col].None?)
    ensures var h, victim := Played(g, f, p, nr, nc), f.enPassant.value;
      forall r, c :: InBounds(r, c) && (r != nr || c != nc) && (r != p.row || c != p.col) && (r != victim.row || c != victim.col) ==>
        h[r][c] == g[r][c]
  {
  }

  /**
    In a game, a valid en-passant capture takes the pawn beside the
    capturing one, on the target's file: that cell and the origin are
    emptied, the capturing pawn stands on the target, and no other cell
    changes.
   */
  lemma EnPassantTakesPawnBeside(game: Game, sq: Square)
    requires ValidChoice(game, sq)
    requires var from := game.selected.value;
      IsEnPassant(game.grid, game.flags, game.grid[from.row][from.col].value, sq.row, sq.col)
    ensures var from := game.selected.value;
      var p := game.grid[from.row][from.col].value;
      HoldsEnPassantPawn(game.grid, game.flags, p.row, sq.col) &&
      game.flags.enPassant.value.row == p.row && game.flags.enPassant.value.col == sq.col
    ensures var from := game.selected.value;
      var p, h := game.grid[from.row][from.col].value, ChosenMove(game, sq);
      h[sq.row][sq.col] == Some(Moved(p, sq.row, sq.col)) && h[p.row][p.col].None? && h[p.row][sq.col].None? &&
      forall r, c :: InBounds(r, c) && (r != sq.row || c != sq.col) && (r != p.row || c != p.col) && (r != p.row || c != sq.col) ==>
        h[r][c] == game.grid[r][c]
  {
    var from := game.selected.value;
    var g, f := game.grid, game.flags;
    var p := g[from.row][from.col].value;
    assert OnSquare(g, p);
    EpVictimBeside(g, f, p, sq.row, sq.col);
    EnPassantRemovesPawn(g, f, p, sq.row, sq.col);
  }

  /**
    A move that neither castles nor captures en passant, by any piece but a
    rook, leaves the board exactly as the validity check simulated it, so
    the mover's king is not attacked afterwards.
   */
  lemma PlainMoveKeepsKingSafe(g: Grid, f: Flags, p: Piece, nr: int, nc: int)
    requires Placed(g) && OnSquare(g, p) && HasKing(g, p.color) && EpTracked(f) && !p.kind.Rook?
    requires IsValidMove(g, f, p, nr, nc) && !IsCastling(p, nc) && !IsEnPassant(g, f, p, nr, nc)
    ensures Played(g, f, p, nr, nc) == Simulate(g, p, nr, nc)
    ensures HasKing(Played(g, f, p, nr, nc), p.color) && !IsCheck(Played(g, f, p, nr, nc), f, p.color)
  {
    MoveIsSimulated(g, f, p, nr, nc);
  }

  /** On the starting board the only kings stand on e1 (White) and e8 (Black). */
  lemma InitialKing(r: int, c: int)
    requires InBounds(r, c)
    ensures var cell := InitialGrid()[r][c];
      cell.Some? ==> cell.value.row == r && cell.value.col == c
    ensures var cell := InitialGrid()[r][c];
      cell.Some? && cell.value.kind == King <==> (r == 0 || r == 7) && c == 4
    ensures var cell := InitialGrid()[r][c];
      cell.Some? && cell.value.kind == King ==> cell.value.color == (if r == 0 then White else Black)
  {
    assert InitialGrid()[r][c] == InitialCell(r, c);
  }

  /** The starting position keeps the invariants, with the kings on e1 and e8 and White to move. */
  lemma NewGameWellFormed()
    ensures WellFormed(NewGame()) && NewGame().current == White
    ensures IsKingAt(InitialGrid(), 0, 4, White) && IsKingAt(InitialGrid(), 7, 4, Black)
    ensures OneKing(InitialGrid(), White) && OneKing(InitialGrid(), Black)
  {
    var g := InitialGrid();
    forall r, c | InBounds(r, c)
      ensures g[r][c].Some? ==> g[r][c].value.row == r && g[r][c].value.col == c
      ensures g[r][c].Some? && g[r][c].value.kind == King ==> c == 4 && g[r][c].value.color == (if r == 0 then White else Black)
      ensures (g[r][c].Some? && g[r][c].value.kind == King) == ((r == 0 || r == 7) && c == 4)
    {
      InitialKing(r, c);
    }
    InitialKing(0, 4);
    InitialKing(7, 4);
    assert IsKingAt(g, 0, 4, White);
    InitialIdsDistinct();
  }

  /** The starting board gives its 32 pieces the identities 0 to 31, one per piece. */
  lemma InitialIdsDistinct()
    ensures DistinctIds(InitialGrid())
    ensures forall r, c :: InBounds(r, c) && InitialGrid()[r][c].Some? ==> 0 <= InitialGrid()[r][c].value.id < 32
  {
    var g := InitialGrid();
    forall r, c | InBounds(r, c)
      ensures g[r][c].Some? <==> r == 0 || r == 1 || r == 6 || r == 7
      ensures g[r][c].Some? ==> g[r][c].value.id == (if r == 0 then 0 else if r == 1 then 8 else if r == 6 then 16 else 24) + c
    {
      assert g[r][c] == InitialCell(r, c);
    }
  }
}
