/**
  What the engine's moves keep: list/board consistency, the king cache, and
  the answers of the self-check filter on positions that satisfy `Valid`.
*/
module EngineProofs {
  import opened Util
  import opened Pieces
  import opened Engine

  // ---------------------------------------------------------------------------
  // Lists after a move

  /** Dropping one entry of a repetition-free list drops exactly that value. */
  lemma DropFacts(l: seq<Piece>, k: nat)
    requires k < |l| && Distinct(l)
    ensures Distinct(l[..k] + l[k + 1..])
    ensures forall x :: x in l[..k] + l[k + 1..] <==> x in l && x != l[k]
  {
    var r := l[..k] + l[k + 1..];
    assert forall i :: 0 <= i < |r| ==> r[i] == if i < k then l[i] else l[i + 1];
    forall x | x in l && x != l[k]
      ensures x in r
    {
      var i :| 0 <= i < |l| && l[i] == x;
      if i < k {
        assert r[i] == x;
      } else {
        assert r[i - 1] == x;
      }
    }
  }

  /** The board a move leaves: the moved piece on `dest`, `origin` empty, the rest untouched. */
  ghost predicate MovedBoard(b: Board, b2: Board, mover: Piece, m: Move) {
    && Shaped(b) && Shaped(b2) && InBounds(m.origin) && InBounds(m.dest)
    && At(b, m.origin) == Some(mover)
    && At(b2, m.dest) == Some(MoveTo(mover, m.dest))
    && At(b2, m.origin) == None
    && (forall c :: InBounds(c) && c != m.origin && c != m.dest ==> At(b2, c) == At(b, c))
  }

  /** The mover's own list, with the mover relocated, lists the mover's side of the new board. */
  lemma MoverSide(b: Board, b2: Board, l: seq<Piece>, mover: Piece, m: Move)
    requires PosMatches(b) && Lists(b, l, mover.color) && MovedBoard(b, b2, mover, m)
    requires Enterable(b, m.dest, mover.color)
    ensures Lists(b2, Relocate(l, mover, m.dest), mover.color)
  {
    var l2 := Relocate(l, mover, m.dest);
    var moved := MoveTo(mover, m.dest);
    forall i | 0 <= i < |l2|
      ensures l2[i].color == mover.color && InBounds(l2[i].pos) && At(b2, l2[i].pos) == Some(l2[i])
    {
      if l[i] != mover {
        assert l[i].pos != m.origin;
        assert l[i].pos != m.dest;
      }
    }
    forall c | InBounds(c) && At(b2, c).Some? && At(b2, c).value.color == mover.color
      ensures At(b2, c).value in l2
    {
      if c == m.dest {
        assert mover in l;
        var i :| 0 <= i < |l| && l[i] == mover;
        assert l2[i] == moved;
      } else {
        var q := At(b, c).value;
        assert q in l;
        var i :| 0 <= i < |l| && l[i] == q;
        assert q.pos == c && c != m.origin;
        assert l2[i] == q;
      }
    }
    forall i, j | 0 <= i < j < |l2|
      ensures l2[i] != l2[j]
    {
      if l[i] == mover {
        assert l[j] != mover;
        assert l[j].pos != m.dest;
      } else if l[j] == mover {
        assert l[i].pos != m.dest;
      }
    }
  }

  /** The opponent's list, minus the captured piece if there is one, lists the opponent's side of the new board. */
  lemma OtherSide(b: Board, b2: Board, l: seq<Piece>, l2: seq<Piece>, mover: Piece, m: Move)
    requires PosMatches(b) && Lists(b, l, Opp(mover.color)) && MovedBoard(b, b2, mover, m)
    requires At(b, m.dest).None? ==> l2 == l
    requires At(b, m.dest).Some? ==> exists k :: 0 <= k < |l| && l[k] == At(b, m.dest).value && l2 == l[..k] + l[k + 1..]
    ensures Lists(b2, Relocate(l2, mover, m.dest), Opp(mover.color))
  {
    var gone := if At(b, m.dest).Some? then Some(At(b, m.dest).value) else None;
    assert Distinct(l2) && forall x :: x in l2 <==> x in l && (gone.None? || x != gone.value) by {
      if gone.Some? {
        var k :| 0 <= k < |l| && l[k] == At(b, m.dest).value && l2 == l[..k] + l[k + 1..];
        DropFacts(l, k);
      }
    }
    assert Relocate(l2, mover, m.dest) == l2 by {
      forall i | 0 <= i < |l2|
        ensures l2[i] != mover
      {
        assert l2[i] in l;
      }
    }
    forall i | 0 <= i < |l2|
      ensures l2[i].color == Opp(mover.color) && InBounds(l2[i].pos) && At(b2, l2[i].pos) == Some(l2[i])
    {
      assert l2[i] in l;
      assert l2[i].pos != m.origin;
    }
    forall c | InBounds(c) && At(b2, c).Some? && At(b2, c).value.color == Opp(mover.color)
      ensures At(b2, c).value in l2
    {
      assert c != m.dest && c != m.origin;
      assert At(b, c).value in l;
    }
  }

  lemma AdvanceBoard(p: Position, m: Move)
    requires Consistent(p) && InBounds(m.origin) && InBounds(m.dest) && At(p.board, m.origin).Some?
    requires Advance(p, m).Ok?
    requires Enterable(p.board, m.dest, At(p.board, m.origin).value.color)
    ensures MovedBoard(p.board, Advance(p, m).value.board, At(p.board, m.origin).value, m)
  {
  }

  /** `result`'s list edit succeeds exactly when the destination is not the mover's own. */
  lemma AdvanceOk(p: Position, m: Move)
    requires Consistent(p) && InBounds(m.origin) && InBounds(m.dest) && At(p.board, m.origin).Some?
    ensures Advance(p, m).Ok? <==> Enterable(p.board, m.dest, At(p.board, m.origin).value.color)
  {
    var mover := At(p.board, m.origin).value;
    if At(p.board, m.dest).Some? {
      var cap := At(p.board, m.dest).value;
      var other := Roster(p, Opp(mover.color));
      if cap.color == mover.color {
        assert forall i :: 0 <= i < |other| ==> other[i] != cap;
      } else {
        assert cap in other;
      }
    }
  }

  /** Moving a piece onto a square not held by its own side keeps the lists and the board consistent. */
  lemma AdvanceConsistent(p: Position, m: Move)
    requires Consistent(p) && InBounds(m.origin) && InBounds(m.dest) && At(p.board, m.origin).Some?
    requires Enterable(p.board, m.dest, At(p.board, m.origin).value.color)
    ensures Advance(p, m).Ok? && Consistent(Advance(p, m).value)
  {
    AdvanceOk(p, m);
    var mover := At(p.board, m.origin).value;
    var q := Advance(p, m).value;
    AdvanceBoard(p, m);
    var other := Roster(p, Opp(mover.color));
    var rest := other;
    if At(p.board, m.dest).Some? {
      var k := FirstIndex(other, At(p.board, m.dest).value);
      rest := other[..k] + other[k + 1..];
    }
    MoverSide(p.board, q.board, Roster(p, mover.color), mover, m);
    OtherSide(p.board, q.board, other, rest, mover, m);
  }

  // ---------------------------------------------------------------------------
  // The king cache after a move

  /** Two cells hold the same kind of man: both empty, or pieces of equal colour and type. */
  predicate SameMan(a: Option<Piece>, b: Option<Piece>) {
    a.None? == b.None? && (a.Some? ==> a.value.color == b.value.color && a.value.kind == b.value.kind)
  }

  /**
    If the cache matched before the move and follows a moving king, it matches
    after: a side whose king moves has no other king on the board.
  */
  lemma CacheAfterMove(p: Position, q: Position, m: Move)
    requires KingCacheMatches(p) && Shaped(q.board) && InBounds(m.origin) && InBounds(m.dest)
    requires At(p.board, m.origin).Some?
    requires var mover := At(p.board, m.origin).value;
      && At(q.board, m.dest).Some? && At(q.board, m.dest).value.color == mover.color
      && At(q.board, m.dest).value.kind == mover.kind
      && At(q.board, m.origin).None?
      && (forall c :: InBounds(c) && c != m.origin && c != m.dest ==> SameMan(At(q.board, c), At(p.board, c)))
      && KingPos(q, mover.color) == (if mover.kind == King then m.dest else KingPos(p, mover.color))
      && KingPos(q, Opp(mover.color)) == KingPos(p, Opp(mover.color))
    ensures KingCacheMatches(q)
  {
    var mover := At(p.board, m.origin).value;
    forall c | InBounds(c) && At(q.board, c).Some? && At(q.board, c).value.kind == King
      ensures KingPos(q, At(q.board, c).value.color) == c
    {
      if c != m.dest {
        assert SameMan(At(q.board, c), At(p.board, c));
      }
    }
  }

  /**
    `result` on a valid position succeeds exactly for a piece of the side to
    move going to a square not held by its own side, and the position it
    leaves is valid again.
  */
  lemma ApplyValid(p: Position, m: Move)
    requires Valid(p) && InBounds(m.origin) && InBounds(m.dest)
    ensures Apply(p, m).Ok? <==>
      At(p.board, m.origin).Some? && At(p.board, m.origin).value.color == p.turn &&
      Enterable(p.board, m.dest, p.turn)
    ensures Apply(p, m).Ok? ==> Valid(Apply(p, m).value)
  {
    if At(p.board, m.origin).Some? && At(p.board, m.origin).value.color == p.turn {
      var mover := At(p.board, m.origin).value;
      AdvanceOk(p, m);
      if Enterable(p.board, m.dest, p.turn) {
        AdvanceConsistent(p, m);
        AdvanceBoard(p, m);
        var q := Advance(p, m).value;
        var q' := if mover.kind == King then WithKing(q, mover.color, m.dest) else q;
        CacheAfterMove(p, q', m);
        AuditMeansValid(q');
      }
    }
  }

  /** `result_copy` as written keeps list/board consistency; only the cache may go stale. */
  lemma ApplyCopyConsistent(p: Position, m: Move)
    requires Consistent(p) && InBounds(m.origin) && InBounds(m.dest)
    ensures ApplyCopy(p, m).Ok? <==>
      At(p.board, m.origin).Some? && At(p.board, m.origin).value.color == p.turn &&
      Enterable(p.board, m.dest, p.turn)
    ensures ApplyCopy(p, m).Ok? ==> Consistent(ApplyCopy(p, m).value)
  {
    if At(p.board, m.origin).Some? && At(p.board, m.origin).value.color == p.turn {
      var c := CreateCopy(p);
      assert Enterable(c.board, m.dest, p.turn) <==> Enterable(p.board, m.dest, p.turn);
      AdvanceOk(c, m);
      if Enterable(p.board, m.dest, p.turn) {
        AdvanceConsistent(c, m);
      }
    }
  }

  // ---------------------------------------------------------------------------
  // The starting position

  /** Every square of the setup, row by row: the man on it, or none. */
  lemma SetupCells(c: Coord)
    requires InBounds(c)
    ensures var o := At(SetupBoard(), c);
      && (o.Some? ==> o.value.pos == c && o.value.home == c)
      && (o.Some? && o.value.kind == King ==>
            (c == Coord(0, 0) && o.value.color == Black) || (c == Coord(4, 3) && o.value.color == White))
  {
    assert c.row == 0 || c.row == 1 || c.row == 2 || c.row == 3 || c.row == 4;
    assert c.col == 0 || c.col == 1 || c.col == 2 || c.col == 3;
  }

  /** The parent position's lists, in board-scan order. */
  lemma SetupLists()
    ensures Setup().black == [NewPiece(Black, King, 0, 0), NewPiece(Black, Knight, 0, 1), NewPiece(Black, Bishop, 0, 2), NewPiece(Black, Rook, 0, 3), NewPiece(Black, Pawn, 1, 0)]
    ensures Setup().white == [NewPiece(White, Pawn, 3, 3), NewPiece(White, Rook, 4, 0), NewPiece(White, Bishop, 4, 1), NewPiece(White, Knight, 4, 2), NewPiece(White, King, 4, 3)]
  {
    SetupBlack();
    SetupWhite();
  }

  /** Black fills row 0 and the first cell of row 1. */
  lemma SetupBlack()
    ensures Scan(SetupBoard(), Black, Rows * Cols) ==
      [NewPiece(Black, King, 0, 0), NewPiece(Black, Knight, 0, 1), NewPiece(Black, Bishop, 0, 2), NewPiece(Black, Rook, 0, 3), NewPiece(Black, Pawn, 1, 0)]
  {
    var b := SetupBoard();
    BlackFirstRows();
    ScanRow(b, Black, 2, 8);
    assert RowOf(b, Black, 2) == [];
    ScanRow(b, Black, 3, 12);
    assert RowOf(b, Black, 3) == [];
    ScanRow(b, Black, 4, 16);
    assert RowOf(b, Black, 4) == [];
  }

  /** The first two rows hold all five black pieces. */
  lemma BlackFirstRows()
    ensures Scan(SetupBoard(), Black, 8) ==
      [NewPiece(Black, King, 0, 0), NewPiece(Black, Knight, 0, 1), NewPiece(Black, Bishop, 0, 2), NewPiece(Black, Rook, 0, 3), NewPiece(Black, Pawn, 1, 0)]
  {
    var b := SetupBoard();
    var row0 := [NewPiece(Black, King, 0, 0), NewPiece(Black, Knight, 0, 1), NewPiece(Black, Bishop, 0, 2), NewPiece(Black, Rook, 0, 3)];
    ScanRow(b, Black, 0, 0);
    assert RowOf(b, Black, 0) == row0;
    assert Scan(b, Black, 4) == row0;
    ScanRow(b, Black, 1, 4);
    assert RowOf(b, Black, 1) == [NewPiece(Black, Pawn, 1, 0)];
  }

  /** White fills the last cell of row 3 and row 4. */
  lemma SetupWhite()
    ensures Scan(SetupBoard(), White, Rows * Cols) ==
      [NewPiece(White, Pawn, 3, 3), NewPiece(White, Rook, 4, 0), NewPiece(White, Bishop, 4, 1), NewPiece(White, Knight, 4, 2), NewPiece(White, King, 4, 3)]
  {
    var b := SetupBoard();
    var row4 := [NewPiece(White, Rook, 4, 0), NewPiece(White, Bishop, 4, 1), NewPiece(White, Knight, 4, 2), NewPiece(White, King, 4, 3)];
    WhiteFirstRows();
    ScanRow(b, White, 4, 16);
    assert RowOf(b, White, 4) == row4;
    assert Scan(b, White, 20) == [NewPiece(White, Pawn, 3, 3)] + row4;
  }

  /** The first four rows hold one white piece, the pawn at (3, 3). */
  lemma WhiteFirstRows()
    ensures Scan(SetupBoard(), White, 16) == [NewPiece(White, Pawn, 3, 3)]
  {
    var b := SetupBoard();
    ScanRow(b, White, 0, 0);
    assert RowOf(b, White, 0) == [];
    assert Scan(b, White, 4) == [];
    ScanRow(b, White, 1, 4);
    assert RowOf(b, White, 1) == [];
    assert Scan(b, White, 8) == [];
    ScanRow(b, White, 2, 8);
    assert RowOf(b, White, 2) == [];
    assert Scan(b, White, 12) == [];
    ScanRow(b, White, 3, 12);
    assert RowOf(b, White, 3) == [NewPiece(White, Pawn, 3, 3)];
  }

  /** The pieces of colour `col` in one cell: the cell's piece, or none. */
  function Keep(o: Option<Piece>, col: Color): seq<Piece> {
    if o.Some? && o.value.color == col then [o.value] else []
  }

  /** The pieces of colour `col` in row `r`, left to right. */
  function RowOf(b: Board, col: Color, r: int): seq<Piece>
    requires Shaped(b) && 0 <= r < Rows
  {
    Keep(At(b, Coord(r, 0)), col) + Keep(At(b, Coord(r, 1)), col) + Keep(At(b, Coord(r, 2)), col) + Keep(At(b, Coord(r, 3)), col)
  }

  /** Scanning one more row, which starts at cell `k`, appends that row's pieces of the colour. */
  lemma ScanRow(b: Board, col: Color, r: int, k: int)
    requires Shaped(b) && 0 <= r < Rows && k == r * Cols
    ensures Scan(b, col, k + Cols) == Scan(b, col, k) + RowOf(b, col, r)
  {
    assert CellOf(k) == Coord(r, 0) && CellOf(k + 1) == Coord(r, 1);
    assert CellOf(k + 2) == Coord(r, 2) && CellOf(k + 3) == Coord(r, 3);
    assert Scan(b, col, k + 1) == Scan(b, col, k) + Keep(At(b, Coord(r, 0)), col);
    assert Scan(b, col, k + 2) == Scan(b, col, k + 1) + Keep(At(b, Coord(r, 1)), col);
    assert Scan(b, col, k + 3) == Scan(b, col, k + 2) + Keep(At(b, Coord(r, 2)), col);
    assert Scan(b, col, k + 4) == Scan(b, col, k + 3) + Keep(At(b, Coord(r, 3)), col);
  }

  /** The parent position satisfies the invariant, with the kings cached where they stand. */
  lemma SetupValid()
    ensures Valid(Setup())
  {
    var p := Setup();
    forall c | InBounds(c) {
      SetupCells(c);
    }
    assert PosMatches(p.board);
    ScanLists(p.board, Black, Rows * Cols);
    ScanLists(p.board, White, Rows * Cols);
    RowMajorDistinct(p.black);
    RowMajorDistinct(p.white);
  }

  /**
    `initial_pos` is the parent position itself: every setup piece already
    has its starting square equal to its current one, so the copy changes nothing.
  */
  lemma InitialIsSetup()
    ensures Initial() == Setup()
  {
    var b := SetupBoard();
    forall c | InBounds(c)
      ensures At(CopyBoard(b), c) == At(b, c)
    {
      SetupCells(c);
    }
    BoardExt(CopyBoard(b), b);
  }

  /** The game starts valid, white to move, five men a side, kings in opposite corners. */
  lemma InitialFacts()
    ensures Valid(Initial()) && Initial().turn == White
    ensures |Initial().black| == 5 && |Initial().white| == 5
    ensures KingPos(Initial(), Black) == Coord(0, 0) && KingPos(Initial(), White) == Coord(4, 3)
    ensures RowMajor(Initial().black) && RowMajor(Initial().white)
  {
    InitialIsSetup();
    SetupValid();
    SetupLists();
  }

  /**
    The as-written `result_copy` loses track of a moving king: white's king
    steps from (4,3) to the empty (3,2) in the initial position, a move its
    generator offers, and the copy's cache still names (4,3).
  */
  lemma StaleCacheWitness()
    ensures var p := Initial();
      var m := Move(Coord(4, 3), Coord(3, 2));
      && Generated(p, m)
      && ApplyCopy(p, m).Ok?
      && At(ApplyCopy(p, m).value.board, Coord(3, 2)).value.kind == King
      && !KingCacheMatches(ApplyCopy(p, m).value)
  {
    InitialIsSetup();
    var p := Initial();
    var m := Move(Coord(4, 3), Coord(3, 2));
    assert Vacant(p.board, m.dest);
    assert Dist(m.origin, m.dest) == 1;
  }

  // ---------------------------------------------------------------------------
  // The self-check filter on valid positions

  /**
    On a valid position whose side to move has its king on the cached square,
    `would_be_check` answers whether, once the move is made, some piece of the
    opponent's list reaches the square where the mover's king then stands.
  */
  lemma WouldBeCheckMeaning(p: Position, m: Move)
    requires Valid(p) && Candidate(p, m)
    requires InBounds(KingPos(p, p.turn)) && At(p.board, KingPos(p, p.turn)).Some?
    requires At(p.board, KingPos(p, p.turn)).value.kind == King
    requires At(p.board, KingPos(p, p.turn)).value.color == p.turn
    ensures var t := Probe(p, m);
      var mover := At(p.board, m.origin).value;
      KingPos(t, p.turn) == (if mover.kind == King then m.dest else KingPos(p, p.turn))
    ensures var t := Probe(p, m);
      var l := Roster(t, Opp(p.turn));
      WouldBeCheck(p, m).0 <==>
        exists i :: 0 <= i < |l| && InBounds(l[i].pos) && At(t.board, l[i].pos).Some? &&
          KingPos(t, p.turn) in Destinations(l[i], t.board)
  {
    var t := Probe(p, m);
    ProbePlaced(p, m);
    var k := KingPos(t, p.turn);
    assert !Vacant(t.board, k);
    assert WouldBeCheck(p, m).0 == IsCheck(t);
  }

  /** Under the invariant, checkmate means every generated move leaves the mover in check. */
  lemma CheckmateMeansNoEscape(p: Position)
    requires Valid(p)
    ensures IsCheckmate(p).0 <==> forall m :: Generated(p, m) ==> WouldBeCheck(p, m).0
  {
    var moves := LegalMoves(p).0;
    if moves != [] {
      assert moves[0] in moves;
    }
  }

  /**
    A piece captured by the probed move stays in the opponent's list, but it
    never reaches the mover's king: its generator reads the colour of its
    cell, which now holds the mover, and so treats the king as its own man.
  */
  lemma CapturedNeverChecks(p: Position, m: Move)
    requires Valid(p) && Candidate(p, m) && At(p.board, m.dest).Some?
    requires InBounds(KingPos(p, p.turn)) && At(p.board, KingPos(p, p.turn)).Some?
    requires At(p.board, KingPos(p, p.turn)).value.kind == King
    requires At(p.board, KingPos(p, p.turn)).value.color == p.turn
    ensures var t := Probe(p, m);
      var cap := At(p.board, m.dest).value;
      && cap in Roster(t, Opp(p.turn))
      && cap.pos == m.dest && At(t.board, cap.pos).Some?
      && KingPos(t, p.turn) !in Destinations(cap, t.board)
  {
    var t := Probe(p, m);
    var cap := At(p.board, m.dest).value;
    var mover := At(p.board, m.origin).value;
    var l := Roster(p, Opp(p.turn));
    assert cap in l;
    var i :| 0 <= i < |l| && l[i] == cap;
    assert Roster(t, Opp(p.turn))[i] == cap;
    assert !Enterable(t.board, KingPos(t, p.turn), p.turn);
  }
}
