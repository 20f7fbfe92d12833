/**
  The MicroChess position engine: a board, the side to move, one list of live
  pieces per colour, and a cache of each king's square.

  The original mutates a position in place and shares piece objects between
  the board and the lists. Here a position is a value and every operation
  returns the position it leaves behind. A piece is identified by its value;
  under `Consistent` (each listed piece stands on its own cell, lists are
  colour-pure and repetition-free) two distinct pieces never have equal values,
  so value equality is object identity.
*/
module Engine {
  import opened Util
  import opened Pieces

  /** A move: the square the piece leaves and the square it lands on. */
  datatype Move = Move(origin: Coord, dest: Coord)

  /** What `winner()` reports: a side has won, a draw, or the game goes on (-1). */
  datatype Outcome = Won(side: Color) | Draw | Undecided

  /** The invalid-use faults (`ValueError`) the engine raises. */
  datatype Fault =
    | EmptyOrigin      // no piece on the origin square
    | WrongMover       // the origin piece is not of the side to move
    | NotInList        // the captured piece is missing from the list it is removed from
    | PosMismatch      // after a move, a piece's stored square differs from its cell
    | KingPosMismatch  // after a move, a king's cell differs from the king cache

  datatype Position = Position(
    board: Board,
    turn: Color,
    black: seq<Piece>,
    white: seq<Piece>,
    blackKing: Coord,
    whiteKing: Coord)

  function Roster(p: Position, c: Color): seq<Piece> {
    if c == Black then p.black else p.white
  }

  function KingPos(p: Position, c: Color): Coord {
    if c == Black then p.blackKing else p.whiteKing
  }

  function WithKing(p: Position, c: Color, k: Coord): (r: Position)
    ensures KingPos(r, c) == k && KingPos(r, Opp(c)) == KingPos(p, Opp(c))
    ensures r.board == p.board && r.turn == p.turn && r.black == p.black && r.white == p.white
  {
    if c == Black then p.(blackKing := k) else p.(whiteKing := k)
  }

  /** Board, turn and both lists agree; only the king cache may differ. */
  predicate SameLayout(p: Position, q: Position) {
    q.board == p.board && q.turn == p.turn && q.black == p.black && q.white == p.white
  }

  // ---------------------------------------------------------------------------
  // The invariant

  /** Every piece on the board stores the square of its cell. */
  ghost predicate PosMatches(b: Board) {
    Shaped(b) && forall c :: InBounds(c) && At(b, c).Some? ==> At(b, c).value.pos == c
  }

  /** `l` lists, without repetition, exactly the pieces of colour `col` on the board. */
  ghost predicate Lists(b: Board, l: seq<Piece>, col: Color) {
    && Shaped(b)
    && (forall i :: 0 <= i < |l| ==> l[i].color == col && InBounds(l[i].pos) && At(b, l[i].pos) == Some(l[i]))
    && (forall c :: InBounds(c) && At(b, c).Some? && At(b, c).value.color == col ==> At(b, c).value in l)
    && Distinct(l)
  }

  /** No entry of `l` repeats. */
  ghost predicate Distinct(l: seq<Piece>) {
    forall i, j :: 0 <= i < j < |l| ==> l[i] != l[j]
  }

  /** Board and lists agree; holds of every position the engine builds. */
  ghost predicate Consistent(p: Position) {
    PosMatches(p.board) && Lists(p.board, p.black, Black) && Lists(p.board, p.white, White)
  }

  /** Every king on the board sits on the square the cache records for its colour. */
  ghost predicate KingCacheMatches(p: Position) {
    Shaped(p.board) &&
    forall c :: InBounds(c) && At(p.board, c).Some? && At(p.board, c).value.kind == King ==>
      KingPos(p, At(p.board, c).value.color) == c
  }

  /** The invariant `result` asserts after every move, together with list consistency. */
  ghost predicate Valid(p: Position) {
    Consistent(p) && KingCacheMatches(p)
  }

  /** Every listed piece stands on an occupied cell, which the generators read. */
  predicate Placed(b: Board, l: seq<Piece>) {
    Shaped(b) && forall i :: 0 <= i < |l| ==> InBounds(l[i].pos) && At(b, l[i].pos).Some?
  }

  // ---------------------------------------------------------------------------
  // Row-major scans

  function Index(c: Coord): int {
    c.row * Cols + c.col
  }

  function CellOf(i: int): Coord {
    Coord(i / Cols, i % Cols)
  }

  lemma IndexCell(c: Coord, i: int)
    ensures InBounds(c) ==> CellOf(Index(c)) == c && 0 <= Index(c) < Rows * Cols
    ensures 0 <= i < Rows * Cols ==> InBounds(CellOf(i)) && Index(CellOf(i)) == i
  {
  }

  /** A list ordered by board scan (row by row, left to right). */
  predicate RowMajor(l: seq<Piece>) {
    forall i, j :: 0 <= i < j < |l| ==> Index(l[i].pos) < Index(l[j].pos)
  }

  /** The pieces of colour `col` among the first `k` cells in row-major order. */
  function Scan(b: Board, col: Color, k: int): seq<Piece>
    requires Shaped(b) && 0 <= k <= Rows * Cols
  {
    if k == 0 then []
    else
      IndexCell(CellOf(k - 1), k - 1);
      var cell := At(b, CellOf(k - 1));
      if cell.Some? && cell.value.color == col then Scan(b, col, k - 1) + [cell.value] else Scan(b, col, k - 1)
  }

  /** `l` lists in row-major order exactly the pieces of colour `col` among the first `k` cells. */
  ghost predicate ScanOf(b: Board, col: Color, k: int, l: seq<Piece>) {
    && Shaped(b)
    && (forall i :: 0 <= i < |l| ==>
          l[i].color == col && InBounds(l[i].pos) && At(b, l[i].pos) == Some(l[i]) && Index(l[i].pos) < k)
    && (forall c :: InBounds(c) && Index(c) < k && At(b, c).Some? && At(b, c).value.color == col ==>
          At(b, c).value in l)
    && RowMajor(l)
  }

  /** On a board whose pieces store their squares, the scan of the first `k` cells is such a list. */
  lemma {:induction false} ScanLists(b: Board, col: Color, k: int)
    requires PosMatches(b) && 0 <= k <= Rows * Cols
    ensures ScanOf(b, col, k, Scan(b, col, k))
  {
    if k > 0 {
      ScanLists(b, col, k - 1);
      IndexCell(CellOf(k - 1), k - 1);
      var cell := At(b, CellOf(k - 1));
      if cell.Some? && cell.value.color == col {
        ScanAppend(b, col, k, Scan(b, col, k - 1));
      } else {
        ScanSkip(b, col, k, Scan(b, col, k - 1));
      }
    }
  }

  /** Scanning one more cell that holds a piece of colour `col` appends that piece. */
  lemma ScanAppend(b: Board, col: Color, k: int, prev: seq<Piece>)
    requires PosMatches(b) && 0 < k <= Rows * Cols && ScanOf(b, col, k - 1, prev)
    requires InBounds(CellOf(k - 1)) && At(b, CellOf(k - 1)).Some? && At(b, CellOf(k - 1)).value.color == col
    ensures ScanOf(b, col, k, prev + [At(b, CellOf(k - 1)).value])
  {
    var q := At(b, CellOf(k - 1)).value;
    var l := prev + [q];
    IndexCell(CellOf(k - 1), k - 1);
    assert Index(q.pos) == k - 1;
    forall i | 0 <= i < |l|
      ensures l[i].color == col && InBounds(l[i].pos) && At(b, l[i].pos) == Some(l[i]) && Index(l[i].pos) < k
    {
      if i < |prev| {
        assert l[i] == prev[i];
      }
    }
    forall c | InBounds(c) && Index(c) < k && At(b, c).Some? && At(b, c).value.color == col
      ensures At(b, c).value in l
    {
      if Index(c) == k - 1 {
        IndexCell(c, 0);
      }
    }
    forall i, j | 0 <= i < j < |l|
      ensures Index(l[i].pos) < Index(l[j].pos)
    {
      assert l[i] == prev[i];
      if j < |prev| {
        assert l[j] == prev[j];
      }
    }
  }

  /** Scanning one more cell that holds no piece of colour `col` keeps the list. */
  lemma ScanSkip(b: Board, col: Color, k: int, prev: seq<Piece>)
    requires PosMatches(b) && 0 < k <= Rows * Cols && ScanOf(b, col, k - 1, prev)
    requires InBounds(CellOf(k - 1)) && !(At(b, CellOf(k - 1)).Some? && At(b, CellOf(k - 1)).value.color == col)
    ensures ScanOf(b, col, k, prev)
  {
    forall c | InBounds(c) && Index(c) < k && At(b, c).Some? && At(b, c).value.color == col
      ensures At(b, c).value in prev
    {
      if Index(c) == k - 1 {
        IndexCell(c, 0);
      }
    }
  }

  lemma RowMajorDistinct(l: seq<Piece>)
    requires RowMajor(l)
    ensures forall i, j :: 0 <= i < j < |l| ==> l[i] != l[j]
  {
  }

  // ---------------------------------------------------------------------------
  // Construction and copying

  function NewPiece(color: Color, kind: Kind, row: int, col: int): Piece {
    Piece(color, kind, Coord(row, col), Coord(row, col))
  }

  /** The starting layout of `MicroChess.__init__`. */
  function SetupBoard(): (b: Board)
    ensures Shaped(b)
  {
    [ [Some(NewPiece(Black, King, 0, 0)), Some(NewPiece(Black, Knight, 0, 1)),
       Some(NewPiece(Black, Bishop, 0, 2)), Some(NewPiece(Black, Rook, 0, 3))],
      [Some(NewPiece(Black, Pawn, 1, 0)), None, None, None],
      [None, None, None, None],
      [None, None, None, Some(NewPiece(White, Pawn, 3, 3))],
      [Some(NewPiece(White, Rook, 4, 0)), Some(NewPiece(White, Bishop, 4, 1)),
       Some(NewPiece(White, Knight, 4, 2)), Some(NewPiece(White, King, 4, 3))] ]
  }

  /** The parent position: white to move, lists by scan, kings where the setup puts them. */
  function Setup(): Position {
    var b := SetupBoard();
    Position(b, White, Scan(b, Black, Rows * Cols), Scan(b, White, Rows * Cols), Coord(0, 0), Coord(4, 3))
  }

  /** A copied cell: a new piece of the same colour and type built at the stored square. */
  function Renew(o: Option<Piece>): Option<Piece> {
    match o
    case None => None
    case Some(q) => Some(Piece(q.color, q.kind, q.pos, q.pos))
  }

  function CopyBoard(b: Board): (r: Board)
    requires Shaped(b)
    ensures Shaped(r)
    ensures forall c :: InBounds(c) ==> At(r, c) == Renew(At(b, c))
  {
    seq(Rows, i requires 0 <= i < Rows => seq(Cols, j requires 0 <= j < Cols => Renew(b[i][j])))
  }

  /** `create_copy`: fresh pieces on the same cells, lists rebuilt by board scan, turn and cache copied. */
  function CreateCopy(p: Position): (r: Position)
    requires Shaped(p.board)
    ensures Shaped(r.board)
    ensures forall c :: InBounds(c) ==> (At(r.board, c).Some? <==> At(p.board, c).Some?)
    ensures forall c :: InBounds(c) && At(p.board, c).Some? ==>
      var q := At(p.board, c).value;
      At(r.board, c) == Some(Piece(q.color, q.kind, q.pos, q.pos))
    ensures r.turn == p.turn && r.blackKing == p.blackKing && r.whiteKing == p.whiteKing
    ensures PosMatches(p.board) ==> Consistent(r) && RowMajor(r.black) && RowMajor(r.white)
    ensures Valid(p) ==> Valid(r)
  {
    var b := CopyBoard(p.board);
    var r := Position(b, p.turn, Scan(b, Black, Rows * Cols), Scan(b, White, Rows * Cols), p.blackKing, p.whiteKing);
    assert PosMatches(p.board) ==> PosMatches(b);
    assert PosMatches(p.board) ==> RowMajor(r.black) && RowMajor(r.white) by {
      if PosMatches(p.board) {
        ScanLists(b, Black, Rows * Cols);
        ScanLists(b, White, Rows * Cols);
      }
    }
    assert PosMatches(p.board) ==> Lists(b, r.black, Black) && Lists(b, r.white, White) by {
      if PosMatches(p.board) {
        ScanLists(b, Black, Rows * Cols);
        ScanLists(b, White, Rows * Cols);
        RowMajorDistinct(r.black);
        RowMajorDistinct(r.white);
        forall c | InBounds(c) {
          IndexCell(c, 0);
        }
      }
    }
    r
  }

  /** `initial_pos`: a copy of the parent position. */
  function Initial(): Position {
    CreateCopy(Setup())
  }

  // ---------------------------------------------------------------------------
  // Check detection

  /** Reaching `k` from a non-empty list: from its head or from its tail. */
  lemma ReachSplit(b: Board, l: seq<Piece>, k: Coord)
    requires Placed(b, l) && l != []
    ensures Placed(b, l[1..])
    ensures (exists i :: 0 <= i < |l| && k in Destinations(l[i], b)) <==>
      (k in Destinations(l[0], b) || exists i :: 0 <= i < |l[1..]| && k in Destinations(l[1..][i], b))
  {
    assert forall i :: 1 <= i < |l| ==> l[1..][i - 1] == l[i];
  }

  /** `is_check`'s loop: does a listed piece reach `k`, skipping those the short-cut rules out? */
  function Attacked(b: Board, l: seq<Piece>, k: Coord): (r: bool)
    requires Placed(b, l)
    ensures !Vacant(b, k) ==> (r <==> exists i :: 0 <= i < |l| && k in Destinations(l[i], b))
  {
    if l == [] then false
    else
      ReachSplit(b, l, k);
      if CantCheck(l[0].kind, l[0].pos, k) then
        (if !Vacant(b, k) then CantCheckSound(l[0], b, k); Attacked(b, l[1..], k) else Attacked(b, l[1..], k))
      else if k in Destinations(l[0], b) then true
      else Attacked(b, l[1..], k)
  }

  /** `is_check`: is the cached king of the side to move reached by an opposing listed piece? */
  function IsCheck(p: Position): (r: bool)
    requires Placed(p.board, Roster(p, Opp(p.turn)))
    ensures !Vacant(p.board, KingPos(p, p.turn)) ==>
      (r <==> (exists i :: 0 <= i < |Roster(p, Opp(p.turn))| &&
                KingPos(p, p.turn) in Destinations(Roster(p, Opp(p.turn))[i], p.board)))
  {
    Attacked(p.board, Roster(p, Opp(p.turn)), KingPos(p, p.turn))
  }

  // ---------------------------------------------------------------------------
  // Simulated moves (`would_be_check`)

  /** Every entry equal to `q` now stands on `c`: the list shares the piece `move_to` moved. */
  function Relocate(l: seq<Piece>, q: Piece, c: Coord): (r: seq<Piece>)
    ensures |r| == |l|
    ensures forall i :: 0 <= i < |l| ==> r[i] == if l[i] == q then MoveTo(q, c) else l[i]
  {
    seq(|l|, i requires 0 <= i < |l| => if l[i] == q then MoveTo(q, c) else l[i])
  }

  /** The origin holds a piece of the side to move and the destination is on the board and not its own. */
  predicate Candidate(p: Position, m: Move) {
    && Shaped(p.board) && InBounds(m.origin) && At(p.board, m.origin).Some?
    && At(p.board, m.origin).value.color == p.turn
    && Enterable(p.board, m.dest, p.turn)
  }

  /** The position `would_be_check` inspects: the move made, the cache moved with a king. */
  function Probe(p: Position, m: Move): (r: Position)
    requires Candidate(p, m)
  {
    var mover := At(p.board, m.origin).value;
    var q := if mover.kind == King then WithKing(p, mover.color, m.dest) else p;
    q.(board := Put(Put(p.board, m.dest, Some(MoveTo(mover, m.dest))), m.origin, None),
       black := Relocate(p.black, mover, m.dest),
       white := Relocate(p.white, mover, m.dest))
  }

  lemma ProbePlaced(p: Position, m: Move)
    requires Consistent(p) && Candidate(p, m)
    ensures Placed(Probe(p, m).board, Roster(Probe(p, m), Opp(p.turn)))
    ensures Probe(p, m).turn == p.turn
  {
    var mover := At(p.board, m.origin).value;
    var t := Probe(p, m);
    var l := Roster(p, Opp(p.turn));
    assert Roster(t, Opp(p.turn)) == l by {
      forall i | 0 <= i < |l| ensures l[i] != mover { }
    }
    forall i | 0 <= i < |l|
      ensures InBounds(l[i].pos) && At(t.board, l[i].pos).Some?
    {
      assert l[i].pos != m.origin;
    }
  }

  lemma BoardExt(b1: Board, b2: Board)
    requires Shaped(b1) && Shaped(b2)
    requires forall c :: InBounds(c) ==> At(b1, c) == At(b2, c)
    ensures b1 == b2
  {
    forall r | 0 <= r < Rows
      ensures b1[r] == b2[r]
    {
      forall j | 0 <= j < Cols
        ensures b1[r][j] == b2[r][j]
      {
        assert At(b1, Coord(r, j)) == At(b2, Coord(r, j));
      }
    }
  }

  /**
    `would_be_check`: make the move, ask `is_check`, undo the move. The undo
    puts the king cache back to the ORIGIN square, not to its saved value, so
    the only trace a call can leave is a repaired cache for a moving king.
  */
  function WouldBeCheck(p: Position, m: Move): (r: (bool, Position))
    requires Consistent(p) && Candidate(p, m)
    ensures var mover := At(p.board, m.origin).value;
      r.1 == if mover.kind == King then WithKing(p, mover.color, m.origin) else p
    ensures SameLayout(p, r.1)
    ensures Valid(p) ==> r.1 == p
  {
    var mover := At(p.board, m.origin).value;
    var saveOld := At(p.board, m.origin);
    var saveNew := At(p.board, m.dest);
    var t := Probe(p, m);
    ProbePlaced(p, m);
    var ret := IsCheck(t);
    var moved := MoveTo(mover, m.dest);
    var t1 := if mover.kind == King then WithKing(t, mover.color, m.origin) else t;
    var back := t1.(board := Put(Put(t.board, m.origin, Some(MoveTo(moved, m.origin))), m.dest, saveNew),
                    black := Relocate(t.black, moved, m.origin),
                    white := Relocate(t.white, moved, m.origin));
    RestoreExact(p, m);
    (ret, back)
  }

  lemma RestoreExact(p: Position, m: Move)
    requires Consistent(p) && Candidate(p, m)
    ensures var mover := At(p.board, m.origin).value;
      var t := Probe(p, m);
      var moved := MoveTo(mover, m.dest);
      && Put(Put(t.board, m.origin, Some(MoveTo(moved, m.origin))), m.dest, At(p.board, m.dest)) == p.board
      && Relocate(t.black, moved, m.origin) == p.black
      && Relocate(t.white, moved, m.origin) == p.white
  {
    var mover := At(p.board, m.origin).value;
    var t := Probe(p, m);
    var moved := MoveTo(mover, m.dest);
    assert MoveTo(moved, m.origin) == mover;
    BoardExt(Put(Put(t.board, m.origin, Some(MoveTo(moved, m.origin))), m.dest, At(p.board, m.dest)), p.board);
    forall l | l == p.black || l == p.white
      ensures Relocate(Relocate(l, mover, m.dest), moved, m.origin) == l
    {
      forall i | 0 <= i < |l|
        ensures Relocate(Relocate(l, mover, m.dest), moved, m.origin)[i] == l[i]
      {
      }
    }
  }

  // ---------------------------------------------------------------------------
  // Legal moves, checkmate, winner

  /** Consistency and candidacy depend on board, turn and lists only, never on the king cache. */
  lemma LayoutKeeps(p: Position, q: Position, ms: seq<Move>)
    requires SameLayout(p, q) && Consistent(p) && |ms| > 0
    requires forall m :: m in ms ==> Candidate(p, m)
    ensures Consistent(q)
    ensures forall m :: m in ms[1..] ==> Candidate(q, m)
  {
    forall m | m in ms[1..] ensures Candidate(q, m) {
      assert m in ms;
    }
  }

  function MovesOf(q: Piece, ds: seq<Coord>): (r: seq<Move>)
    ensures |r| == |ds| && forall i :: 0 <= i < |ds| ==> r[i] == Move(q.pos, ds[i])
  {
    seq(|ds|, i requires 0 <= i < |ds| => Move(q.pos, ds[i]))
  }

  /** For each listed piece in list order, a move to each of its destinations in generator order. */
  function CandidatesFrom(b: Board, l: seq<Piece>): seq<Move>
    requires Placed(b, l)
  {
    if l == [] then [] else MovesOf(l[0], Destinations(l[0], b)) + CandidatesFrom(b, l[1..])
  }

  /** Every move tried leaves some listed piece's square for one of that piece's destinations. */
  lemma {:induction false} CandidatesSound(b: Board, l: seq<Piece>)
    requires Placed(b, l)
    ensures forall m :: m in CandidatesFrom(b, l) ==>
      exists i :: 0 <= i < |l| && m.origin == l[i].pos && m.dest in Destinations(l[i], b)
  {
    if l != [] {
      CandidatesSound(b, l[1..]);
      var here := MovesOf(l[0], Destinations(l[0], b));
      forall m | m in CandidatesFrom(b, l)
        ensures exists i :: 0 <= i < |l| && m.origin == l[i].pos && m.dest in Destinations(l[i], b)
      {
        if m in here {
          var k :| 0 <= k < |here| && here[k] == m;
          assert m.origin == l[0].pos && m.dest in Destinations(l[0], b);
        } else {
          assert m in CandidatesFrom(b, l[1..]);
          var i :| 0 <= i < |l[1..]| && m.origin == l[1..][i].pos && m.dest in Destinations(l[1..][i], b);
          assert l[1..][i] == l[i + 1];
        }
      }
    }
  }

  /** Every destination of every listed piece is tried. */
  lemma {:induction false} CandidatesComplete(b: Board, l: seq<Piece>)
    requires Placed(b, l)
    ensures forall i, d :: 0 <= i < |l| && d in Destinations(l[i], b) ==> Move(l[i].pos, d) in CandidatesFrom(b, l)
  {
    if l != [] {
      CandidatesComplete(b, l[1..]);
      var here := MovesOf(l[0], Destinations(l[0], b));
      forall i, d | 0 <= i < |l| && d in Destinations(l[i], b)
        ensures Move(l[i].pos, d) in CandidatesFrom(b, l)
      {
        if i == 0 {
          var k :| 0 <= k < |Destinations(l[0], b)| && Destinations(l[0], b)[k] == d;
          assert here[k] == Move(l[0].pos, d);
        } else {
          assert l[i] == l[1..][i - 1];
        }
      }
    }
  }

  /** The origin holds a piece of the side to move and the destination is one its generator lists. */
  predicate Generated(p: Position, m: Move) {
    && Shaped(p.board) && InBounds(m.origin) && At(p.board, m.origin).Some?
    && At(p.board, m.origin).value.color == p.turn
    && At(p.board, m.origin).value.pos == m.origin
    && m.dest in Destinations(At(p.board, m.origin).value, p.board)
  }

  /** The moves `player_legal_moves` tries, before the self-check filter. */
  function Candidates(p: Position): (r: seq<Move>)
    requires Consistent(p)
    ensures forall m :: m in r <==> Generated(p, m)
    ensures forall m :: m in r ==> Candidate(p, m)
  {
    var l := Roster(p, p.turn);
    var r := CandidatesFrom(p.board, l);
    CandidatesSound(p.board, l);
    CandidatesComplete(p.board, l);
    assert forall m :: Generated(p, m) ==> m in r by {
      forall m | Generated(p, m)
        ensures m in r
      {
        var q := At(p.board, m.origin).value;
        assert q in l;
        var i :| 0 <= i < |l| && l[i] == q;
      }
    }
    r
  }

  /**
    The self-check filter, in order, threading the position through each
    `would_be_check` call exactly as the original's mutations do.
  */
  function Screen(p: Position, ms: seq<Move>): (r: (seq<Move>, Position))
    requires Consistent(p)
    requires forall m :: m in ms ==> Candidate(p, m)
    ensures SameLayout(p, r.1)
    ensures forall m :: m in r.0 ==> m in ms
    ensures Valid(p) ==> r == (Unchecked(p, ms), p)
    decreases |ms|
  {
    if ms == [] then ([], p)
    else
      var w := WouldBeCheck(p, ms[0]);
      LayoutKeeps(p, w.1, ms);
      var s := Screen(w.1, ms[1..]);
      var r := (if w.0 then s.0 else [ms[0]] + s.0, s.1);
      assert Valid(p) ==> r == (Unchecked(p, ms), p) by {
        if Valid(p) {
          assert w.1 == p;
          assert s == (Unchecked(p, ms[1..]), p);
          assert [] + s.0 == s.0;
        }
      }
      r
  }

  /** The filter against one fixed position: the moves after which the mover is not in check. */
  function Unchecked(p: Position, ms: seq<Move>): (r: seq<Move>)
    requires Consistent(p)
    requires forall m :: m in ms ==> Candidate(p, m)
    ensures forall m :: m in r <==> m in ms && !WouldBeCheck(p, m).0
  {
    if ms == [] then []
    else (if WouldBeCheck(p, ms[0]).0 then [] else [ms[0]]) + Unchecked(p, ms[1..])
  }

  /** `player_legal_moves`. */
  function LegalMoves(p: Position): (r: (seq<Move>, Position))
    requires Consistent(p)
    ensures SameLayout(p, r.1)
    ensures forall m :: m in r.0 ==> Generated(p, m) && Candidate(p, m)
    ensures Valid(p) ==> r.1 == p
    ensures Valid(p) ==> forall m :: m in r.0 <==> Generated(p, m) && !WouldBeCheck(p, m).0
  {
    Screen(p, Candidates(p))
  }

  /** `is_checkmate`'s second loop: true unless some move is found not to leave the mover in check. */
  function Recheck(p: Position, ms: seq<Move>): (r: (bool, Position))
    requires Consistent(p)
    requires forall m :: m in ms ==> Candidate(p, m)
    ensures SameLayout(p, r.1)
    ensures Valid(p) ==> r == (forall m :: m in ms ==> WouldBeCheck(p, m).0, p)
    decreases |ms|
  {
    if ms == [] then (true, p)
    else
      var w := WouldBeCheck(p, ms[0]);
      LayoutKeeps(p, w.1, ms);
      if !w.0 then (false, w.1) else Recheck(w.1, ms[1..])
  }

  /** `is_checkmate`: the side to move has no move that passes the self-check filter. */
  function IsCheckmate(p: Position): (r: (bool, Position))
    requires Consistent(p)
    ensures SameLayout(p, r.1)
    ensures Valid(p) ==> r == (LegalMoves(p).0 == [], p)
  {
    var (moves, p1) := LegalMoves(p);
    if |moves| == 0 then (true, p1)
    else
      assert forall m :: m in moves ==> Candidate(p1, m);
      Recheck(p1, moves)
  }

  /** `winner`: checkmate (stalemate included) first, then the two-lone-kings draw. */
  function Winner(p: Position): (r: (Outcome, Position))
    requires Consistent(p)
    ensures SameLayout(p, r.1)
    ensures r.0.Won? ==> r.0.side == Opp(p.turn)
    ensures r.0 == Draw ==> |p.black| == 1 && |p.white| == 1
    ensures Valid(p) ==> r.1 == p
    ensures Valid(p) ==> (r.0.Won? <==> LegalMoves(p).0 == [])
    ensures Valid(p) ==> (r.0 == Draw <==> LegalMoves(p).0 != [] && |p.black| == 1 && |p.white| == 1)
  {
    var (mate, p1) := IsCheckmate(p);
    if mate then (Won(Opp(p.turn)), p1)
    else if |p.black| == 1 && |p.white| == 1 then (Draw, p1)
    else (Undecided, p1)
  }

  // ---------------------------------------------------------------------------
  // Making moves (`result`, `result_copy`)

  /** The index of the first entry equal to `x`. */
  function FirstIndex(l: seq<Piece>, x: Piece): (i: nat)
    requires x in l
    ensures i < |l| && l[i] == x && x !in l[..i]
  {
    if l[0] == x then 0 else 1 + FirstIndex(l[1..], x)
  }

  /** `list.remove`: drop the first entry equal to `x`, or fail when there is none. */
  function RemoveFirst(l: seq<Piece>, x: Piece): (r: Option<seq<Piece>>)
    ensures r.None? <==> x !in l
  {
    if l == [] then None
    else if l[0] == x then Some(l[1..])
    else
      match RemoveFirst(l[1..], x)
      case None => None
      case Some(t) => Some([l[0]] + t)
  }

  /** A successful removal keeps the entries before and after the first occurrence, in order. */
  lemma {:induction false} RemoveFirstDrops(l: seq<Piece>, x: Piece)
    requires x in l
    ensures RemoveFirst(l, x) == Some(l[..FirstIndex(l, x)] + l[FirstIndex(l, x) + 1..])
  {
    var k := FirstIndex(l, x);
    if k == 0 {
      assert l[0] == x;
      assert RemoveFirst(l, x) == Some(l[1..]);
      assert l[..k] + l[k + 1..] == l[1..];
    } else {
      var t := l[1..];
      RemoveFirstDrops(t, x);
      var j := FirstIndex(t, x);
      assert k == j + 1;
      assert RemoveFirst(l, x) == Some([l[0]] + (t[..j] + t[j + 1..]));
      assert l[..k] == [l[0]] + t[..j];
      assert l[k + 1..] == t[j + 1..];
      assert [l[0]] + (t[..j] + t[j + 1..]) == ([l[0]] + t[..j]) + t[j + 1..];
    }
  }

  /**
    The lists after move `m` from `p` to `q`: the mover's list keeps its
    order with the mover's entry relocated, and the opponent's list loses
    exactly its first entry for the captured piece, if any, keeping the
    order of the rest.
  */
  predicate Moved(p: Position, m: Move, q: Position)
    requires Shaped(p.board) && InBounds(m.origin) && InBounds(m.dest) && At(p.board, m.origin).Some?
  {
    var mover := At(p.board, m.origin).value;
    var other := Roster(p, Opp(mover.color));
    && Roster(q, mover.color) == Relocate(Roster(p, mover.color), mover, m.dest)
    && (At(p.board, m.dest).None? ==> Roster(q, Opp(mover.color)) == Relocate(other, mover, m.dest))
    && (At(p.board, m.dest).Some? ==>
          var cap := At(p.board, m.dest).value;
          cap in other &&
          Roster(q, Opp(mover.color)) == Relocate(other[..FirstIndex(other, cap)] + other[FirstIndex(other, cap) + 1..], mover, m.dest))
  }

  /** The shared part of `result` and `result_copy`: capture, relocate, clear the origin, flip the turn. */
  function Advance(p: Position, m: Move): (r: Result<Position, Fault>)
    requires Shaped(p.board) && InBounds(m.origin) && InBounds(m.dest) && At(p.board, m.origin).Some?
    ensures r.Err? ==> r.error == NotInList
    ensures r.Err? <==>
      (At(p.board, m.dest).Some? && At(p.board, m.dest).value !in Roster(p, Opp(At(p.board, m.origin).value.color)))
    ensures r.Ok? ==> Shaped(r.value.board) && At(r.value.board, m.origin) == None
    ensures r.Ok? && m.origin != m.dest ==>
      At(r.value.board, m.dest) == Some(MoveTo(At(p.board, m.origin).value, m.dest))
    ensures r.Ok? ==> forall c :: InBounds(c) && c != m.origin && c != m.dest ==> At(r.value.board, c) == At(p.board, c)
    ensures r.Ok? ==> r.value.turn == Opp(p.turn) && r.value.blackKing == p.blackKing && r.value.whiteKing == p.whiteKing
    ensures r.Ok? ==> Moved(p, m, r.value)
  {
    var mover := At(p.board, m.origin).value;
    var captured := At(p.board, m.dest);
    var lists :=
      if captured.None? then Some((p.black, p.white))
      else if mover.color == Black then
        (match RemoveFirst(p.white, captured.value)
         case None => None
         case Some(w) => RemoveFirstDrops(p.white, captured.value); Some((p.black, w)))
      else
        (match RemoveFirst(p.black, captured.value)
         case None => None
         case Some(bl) => RemoveFirstDrops(p.black, captured.value); Some((bl, p.white)));
    if lists.None? then Err(NotInList)
    else
      var bl := lists.value.0;
      var wh := lists.value.1;
      Ok(Position(
        Put(Put(p.board, m.dest, Some(MoveTo(mover, m.dest))), m.origin, None),
        Opp(p.turn),
        Relocate(bl, mover, m.dest),
        Relocate(wh, mover, m.dest),
        p.blackKing,
        p.whiteKing))
  }

  /** One square is sound: its piece (if any) stores the square and, if a king, the cache agrees. */
  predicate CellSound(p: Position, c: Coord)
    requires Shaped(p.board) && InBounds(c)
  {
    At(p.board, c).Some? ==>
      At(p.board, c).value.pos == c &&
      (At(p.board, c).value.kind == King ==> KingPos(p, At(p.board, c).value.color) == c)
  }

  /** The closing loop of `result`: scan cells from index `i` on and report the first fault. */
  function AuditFrom(p: Position, i: int): (r: Option<Fault>)
    requires Shaped(p.board) && 0 <= i <= Rows * Cols
    decreases Rows * Cols - i
    ensures r.None? <==> forall c :: InBounds(c) && Index(c) >= i ==> CellSound(p, c)
  {
    if i == Rows * Cols then None
    else
      IndexCell(CellOf(i), i);
      var c := CellOf(i);
      var rest := AuditFrom(p, i + 1);
      assert forall d :: InBounds(d) && Index(d) == i ==> d == c by {
        forall d | InBounds(d) && Index(d) == i {
          IndexCell(d, 0);
        }
      }
      match At(p.board, c)
      case None => rest
      case Some(q) =>
        if q.pos != c then Some(PosMismatch)
        else if q.kind == King && KingPos(p, q.color) != c then Some(KingPosMismatch)
        else rest
  }

  lemma AuditMeansValid(p: Position)
    requires Shaped(p.board)
    ensures AuditFrom(p, 0).None? <==> PosMatches(p.board) && KingCacheMatches(p)
  {
    forall c | InBounds(c)
      ensures Index(c) >= 0
    {
      IndexCell(c, 0);
    }
  }

  /**
    `result`: make the move on this position. Fails on an empty origin (the
    original reads the colour of the origin square first, an attribute error
    there), when the origin piece is not of the side to move, when the
    captured piece is not in the opponent's list (a piece of the mover's own
    colour), and finally when the board / cache check that closes the
    original fails.
  */
  function Apply(p: Position, m: Move): (r: Result<Position, Fault>)
    requires Shaped(p.board) && InBounds(m.origin) && InBounds(m.dest)
    ensures At(p.board, m.origin).None? ==> r == Err(EmptyOrigin)
    ensures At(p.board, m.origin).Some? && At(p.board, m.origin).value.color != p.turn ==> r == Err(WrongMover)
    ensures r.Ok? ==> At(p.board, m.origin).Some? && PosMatches(r.value.board) && KingCacheMatches(r.value)
    ensures r.Ok? ==> r.value.turn == Opp(p.turn)
    ensures r.Ok? ==> Shaped(r.value.board) && At(r.value.board, m.origin) == None
    ensures r.Ok? && m.origin != m.dest ==>
      At(r.value.board, m.dest) == Some(MoveTo(At(p.board, m.origin).value, m.dest))
    ensures r.Ok? ==> forall c :: InBounds(c) && c != m.origin && c != m.dest ==> At(r.value.board, c) == At(p.board, c)
    ensures r.Ok? ==> var mover := At(p.board, m.origin).value;
      KingPos(r.value, mover.color) == (if mover.kind == King then m.dest else KingPos(p, mover.color)) &&
      KingPos(r.value, Opp(mover.color)) == KingPos(p, Opp(mover.color))
    ensures r.Ok? ==> Moved(p, m, r.value)
  {
    if At(p.board, m.origin).None? then Err(EmptyOrigin)
    else
      var mover := At(p.board, m.origin).value;
      if p.turn != mover.color then Err(WrongMover)
      else
        match Advance(p, m)
        case Err(e) => Err(e)
        case Ok(q) =>
          var q' := if mover.kind == King then WithKing(q, mover.color, m.dest) else q;
          AuditMeansValid(q');
          match AuditFrom(q', 0)
          case Some(e) => Err(e)
          case None => Ok(q')
  }

  /**
    `result_copy` as written: make the move on a copy, leaving this position
    as it was. Unlike `result`, it never moves the copy's king cache, so after
    a king move the copy's cache names the square the king left.
  */
  function ApplyCopy(p: Position, m: Move): (r: Result<Position, Fault>)
    requires Shaped(p.board) && InBounds(m.origin) && InBounds(m.dest)
    ensures At(p.board, m.origin).None? ==> r == Err(EmptyOrigin)
    ensures At(p.board, m.origin).Some? && At(p.board, m.origin).value.color != p.turn ==> r == Err(WrongMover)
    ensures r.Ok? ==> At(p.board, m.origin).Some? && r.value.turn == Opp(p.turn)
    ensures r.Ok? ==> r.value.blackKing == p.blackKing && r.value.whiteKing == p.whiteKing
    ensures r.Ok? ==> Shaped(r.value.board) && At(r.value.board, m.origin) == None
    ensures r.Ok? && m.origin != m.dest ==> var q := At(p.board, m.origin).value;
      At(r.value.board, m.dest) == Some(Piece(q.color, q.kind, m.dest, q.pos))
    ensures r.Ok? ==> forall c :: InBounds(c) && c != m.origin && c != m.dest ==>
      At(r.value.board, c) == Renew(At(p.board, c))
  {
    if At(p.board, m.origin).None? then Err(EmptyOrigin)
    else
      var mover := At(p.board, m.origin).value;
      if p.turn != mover.color then Err(WrongMover)
      else Advance(CreateCopy(p), m)
  }
}
