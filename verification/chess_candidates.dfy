/**
  What the candidate generators of ChessGame.java produce, stated against
  the move patterns: for every kind, a square is in `getValidMoves` exactly
  when the piece's own `isValidMove` accepts it and it is not held by the
  mover's colour (pawns: exactly when the pattern accepts it).
 */
module ChessCandidates {
  import opened ChessPieces

  /** One ray holds exactly the squares along it reached over empty squares and not held by `color`. */
  lemma {:induction false} RayMembers(g: Grid, color: Color, r: int, c: int, dr: int, dc: int, s: Square)
    requires UnitDir(dr, dc) && InBounds(r - dr, c - dc)
    ensures s in Ray(g, color, r, c, dr, dc) <==>
      InBounds(r, c) && InBounds(s.row, s.col) && Lined(r, c, s.row, s.col, dr, dc) &&
      PathClear(g, r, c, s.row, s.col, dr, dc) && !HoldsColor(g, s.row, s.col, color)
    decreases Budget(r, dr) + Budget(c, dc)
  {
    if InBounds(r, c) && IsEmpty(g, r, c) {
      RayMembers(g, color, r + dr, c + dc, dr, dc, s);
      assert Ray(g, color, r, c, dr, dc) == [Square(r, c)] + Ray(g, color, r + dr, c + dc, dr, dc);
      if s != Square(r, c) && InBounds(s.row, s.col) {
        LinedStep(r, c, s.row, s.col, dr, dc);
      }
    }
  }

  /** Off its target, a walk is lined up with it exactly when its next square is on the board and lined up too. */
  lemma LinedStep(r: int, c: int, tr: int, tc: int, dr: int, dc: int)
    requires UnitDir(dr, dc) && InBounds(r, c) && InBounds(tr, tc) && (tr != r || tc != c)
    ensures Lined(r, c, tr, tc, dr, dc) <==> InBounds(r + dr, c + dc) && Lined(r + dr, c + dc, tr, tc, dr, dc)
  {
  }

  /** Whatever a ray yields lies on the board, along the ray's direction. */
  lemma {:induction false} RayGeometry(g: Grid, color: Color, r: int, c: int, dr: int, dc: int, s: Square)
    requires UnitDir(dr, dc) && InBounds(r - dr, c - dc)
    ensures s in Ray(g, color, r, c, dr, dc) ==> InBounds(s.row, s.col) && Lined(r, c, s.row, s.col, dr, dc)
    decreases Budget(r, dr) + Budget(c, dc)
  {
    if InBounds(r, c) && IsEmpty(g, r, c) {
      RayGeometry(g, color, r + dr, c + dc, dr, dc, s);
    }
  }

  /** Rook.getValidMoves yields exactly the squares Rook.isValidMove accepts that are not the mover's own. */
  lemma RookRaysMatch(g: Grid, p: Piece, s: Square)
    requires OnSquare(g, p)
    ensures s in RookRays(g, p.color, p.row, p.col) <==>
      InBounds(s.row, s.col) && !HoldsColor(g, s.row, s.col, p.color) && RookLine(g, p, s.row, s.col)
  {
    var r, c := p.row, p.col;
    var sr, sc := Compare(s.row, r), Compare(s.col, c);
    RayGeometry(g, p.color, r, c + 1, 0, 1, s);
    RayGeometry(g, p.color, r + 1, c, 1, 0, s);
    RayGeometry(g, p.color, r, c - 1, 0, -1, s);
    RayGeometry(g, p.color, r - 1, c, -1, 0, s);
    if InBounds(s.row, s.col) && (s.row == r || s.col == c) && s != Square(r, c) {
      RayMembers(g, p.color, r + sr, c + sc, sr, sc, s);
    }
  }

  /** Bishop.getValidMoves yields exactly the squares Bishop.isValidMove accepts that are not the mover's own. */
  lemma BishopRaysMatch(g: Grid, p: Piece, s: Square)
    requires OnSquare(g, p)
    ensures s in BishopRays(g, p.color, p.row, p.col) <==>
      InBounds(s.row, s.col) && !HoldsColor(g, s.row, s.col, p.color) && BishopLine(g, p, s.row, s.col)
  {
    var r, c := p.row, p.col;
    var sr, sc := Compare(s.row, r), Compare(s.col, c);
    BishopRayOf(g, p, s);
    if InBounds(s.row, s.col) && Abs(s.row - r) == Abs(s.col - c) && s != Square(r, c) {
      RayMembers(g, p.color, r + sr, c + sc, sr, sc, s);
    }
  }

  /** A square can only come from the one diagonal ray that points at it. */
  lemma BishopRayOf(g: Grid, p: Piece, s: Square)
    requires OnSquare(g, p)
    ensures var r, c := p.row, p.col;
      var sr, sc := Compare(s.row, r), Compare(s.col, c);
      s in BishopRays(g, p.color, r, c) <==>
        InBounds(s.row, s.col) && Abs(s.row - r) == Abs(s.col - c) && s != Square(r, c) &&
        s in Ray(g, p.color, r + sr, c + sc, sr, sc)
  {
    var r, c := p.row, p.col;
    RayGeometry(g, p.color, r + 1, c + 1, 1, 1, s);
    RayGeometry(g, p.color, r + 1, c - 1, 1, -1, s);
    RayGeometry(g, p.color, r - 1, c + 1, -1, 1, s);
    RayGeometry(g, p.color, r - 1, c - 1, -1, -1, s);
  }

  /** The leap loop keeps exactly the offsets that land on the board off the mover's own pieces. */
  lemma {:induction false} LeapsMembers(g: Grid, color: Color, r: int, c: int, offsets: seq<(int, int)>, s: Square)
    ensures s in Leaps(g, color, r, c, offsets) <==>
      InBounds(s.row, s.col) && !HoldsColor(g, s.row, s.col, color) && (s.row - r, s.col - c) in offsets
    decreases |offsets|
  {
    if |offsets| > 0 {
      var o, rest := offsets[0], offsets[1..];
      LeapsMembers(g, color, r, c, rest, s);
      assert offsets == [o] + rest;
      var d := (s.row - r, s.col - c);
      assert d in offsets <==> d == o || d in rest;
      assert d == o <==> s == Square(r + o.0, c + o.1);
    }
  }

  lemma PawnCandidatesMatch(g: Grid, f: Flags, p: Piece, s: Square)
    requires OnSquare(g, p) && p.kind == Pawn && 0 <= p.row + Dir(p.color) < 8
    ensures s in PawnCandidates(g, f, p) <==> InBounds(s.row, s.col) && PawnPattern(g, f, p, s.row, s.col)
  {
  }

  lemma CastleTargets(g: Grid, f: Flags, p: Piece, s: Square)
    requires OnSquare(g, p) && p.kind == King && p.col == 4
    ensures s in CastleCandidates(g, f, p) <==>
      InBounds(s.row, s.col) && p.row == s.row && Abs(s.col - p.col) == 2 && KingPattern(g, f, p, s.row, s.col)
  {
    if InBounds(s.row, s.col) && p.row == s.row && s.col == 6 {
      assert CastleClear(g, p.row, 7, 7, 1);
      assert CastleClear(g, p.row, 6, 7, 1) <==> IsEmpty(g, p.row, 6);
    }
    if InBounds(s.row, s.col) && p.row == s.row && s.col == 2 {
      assert CastleClear(g, p.row, 0, 0, -1);
      assert CastleClear(g, p.row, 1, 0, -1) <==> IsEmpty(g, p.row, 1);
      assert CastleClear(g, p.row, 2, 0, -1) <==> IsEmpty(g, p.row, 2) && IsEmpty(g, p.row, 1);
    }
  }

  /** The Knight offset table holds exactly the (2,1)/(1,2) jumps. */
  lemma KnightOffsetsAre(dr: int, dc: int)
    ensures (dr, dc) in KnightOffsets <==> (Abs(dc) == 1 && Abs(dr) == 2) || (Abs(dc) == 2 && Abs(dr) == 1)
  {
  }

  /** The King offset table holds exactly the eight neighbours. */
  lemma KingOffsetsAre(dr: int, dc: int)
    ensures (dr, dc) in KingOffsets <==> Abs(dr) <= 1 && Abs(dc) <= 1 && (dr != 0 || dc != 0)
  {
  }

  lemma KnightLeapsMatch(g: Grid, p: Piece, s: Square)
    requires Located(p)
    ensures s in Leaps(g, p.color, p.row, p.col, KnightOffsets) <==>
      InBounds(s.row, s.col) && !HoldsColor(g, s.row, s.col, p.color) && KnightPattern(p, s.row, s.col)
  {
    LeapsMembers(g, p.color, p.row, p.col, KnightOffsets, s);
    KnightOffsetsAre(s.row - p.row, s.col - p.col);
  }

  lemma KingLeapsMatch(g: Grid, p: Piece, s: Square)
    requires OnSquare(g, p)
    ensures s in Leaps(g, p.color, p.row, p.col, KingOffsets) <==>
      InBounds(s.row, s.col) && !HoldsColor(g, s.row, s.col, p.color) &&
      Abs(s.row - p.row) <= 1 && Abs(s.col - p.col) <= 1
  {
    LeapsMembers(g, p.color, p.row, p.col, KingOffsets, s);
    KingOffsetsAre(s.row - p.row, s.col - p.col);
  }

  lemma KingCandidatesMatch(g: Grid, f: Flags, p: Piece, s: Square)
    requires OnSquare(g, p) && p.kind == King
    requires p.col == 4 || KingMoved(f, p.color)
    ensures s in Leaps(g, p.color, p.row, p.col, KingOffsets) + CastleCandidates(g, f, p) <==>
      InBounds(s.row, s.col) && !HoldsColor(g, s.row, s.col, p.color) && KingPattern(g, f, p, s.row, s.col)
  {
    KingLeapsMatch(g, p, s);
    if p.col == 4 {
      CastleTargets(g, f, p, s);
    }
  }

  /**
    For every piece standing on its own square, `getValidMoves` lists
    exactly the squares Board.isValidMove lets past its bounds, own-colour
    and pattern tests -- except that a pawn's en-passant diagonal is listed
    whatever stands on it, so a pawn may list a square of its own colour.
    A king must stand on column 4 unless it has moved: the castling
    candidates are computed as `col + 2` and `col - 2` from wherever the
    king stands.
   */
  lemma CandidatesArePseudoLegal(g: Grid, f: Flags, p: Piece, s: Square)
    requires OnSquare(g, p) && CanGenerate(p)
    requires p.kind == King ==> p.col == 4 || KingMoved(f, p.color)
    ensures s in Candidates(g, f, p) <==>
      InBounds(s.row, s.col) && Pattern(g, f, p, s.row, s.col) &&
      (p.kind != Pawn ==> !HoldsColor(g, s.row, s.col, p.color))
    ensures PseudoLegal(g, f, p, s) ==> s in Candidates(g, f, p)
  {
    match p.kind
    case Pawn =>
      PawnCandidatesMatch(g, f, p, s);
    case Rook(_) =>
      RookRaysMatch(g, p, s);
    case Knight =>
      KnightLeapsMatch(g, p, s);
    case Bishop =>
      BishopRaysMatch(g, p, s);
    case Queen =>
      RookRaysMatch(g, p, s);
      BishopRaysMatch(g, p, s);
    case King =>
      KingCandidatesMatch(g, f, p, s);
  }
}
