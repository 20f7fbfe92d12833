/**
  The piece model of MicroChess: colours, piece types, the 5 x 4 board, the
  per-type destination generators and the per-type "cannot check" short-cuts.

  A generator takes the square of a piece and the board and lists the squares
  the piece could move to next, ignoring check. Like the original, a generator
  reads the mover's colour from the board cell it starts on (to decide what is
  friendly), while the pawn's direction comes from the pawn's own colour.
*/
module Pieces {
  import opened Util

  /** Board dimensions: `Rows` rows (BOARD_LENGTH) by `Cols` columns (BOARD_WIDTH). */
  const Rows: int := 5
  const Cols: int := 4

  /** BLACK is colour 0 and WHITE colour 1. */
  datatype Color = Black | White

  /** The other side (`1 - color`). */
  function Opp(c: Color): (r: Color)
    ensures r != c
  {
    if c == Black then White else Black
  }

  /** The piece types that can be built. The queen is left out: its constructor is unusable. */
  datatype Kind = King | Rook | Bishop | Knight | Pawn

  /** The numeric piece-type constants (KING = 0, QUEEN = 1, ROOK = 2, ...). */
  function Code(k: Kind): (r: nat)
    ensures r != 1 && r <= 5
  {
    match k
    case King => 0
    case Rook => 2
    case Bishop => 3
    case Knight => 4
    case Pawn => 5
  }

  /** A square, as (row, column) counted from the upper corner. */
  datatype Coord = Coord(row: int, col: int)

  /** A displacement (row delta, column delta). */
  datatype Vec = Vec(dr: int, dc: int)

  /** A piece: its colour and type never change; `pos` is where it stands, `home` its original square. */
  datatype Piece = Piece(color: Color, kind: Kind, pos: Coord, home: Coord)

  /** Rows of cells; a cell is empty (`None`) or holds a piece. */
  type Board = seq<seq<Option<Piece>>>

  predicate InBounds(c: Coord) {
    0 <= c.row < Rows && 0 <= c.col < Cols
  }

  predicate Shaped(b: Board) {
    |b| == Rows && forall r :: 0 <= r < Rows ==> |b[r]| == Cols
  }

  function At(b: Board, c: Coord): Option<Piece>
    requires Shaped(b) && InBounds(c)
  {
    b[c.row][c.col]
  }

  /** The board with cell `c` replaced by `v`. */
  function Put(b: Board, c: Coord, v: Option<Piece>): (r: Board)
    requires Shaped(b) && InBounds(c)
    ensures Shaped(r)
    ensures forall d :: InBounds(d) ==> At(r, d) == if d == c then v else At(b, d)
  {
    b[c.row := b[c.row][c.col := v]]
  }

  /** `move_to`: only the current square changes. */
  function MoveTo(q: Piece, c: Coord): (r: Piece)
    ensures r.pos == c
    ensures r.color == q.color && r.kind == q.kind && r.home == q.home
  {
    q.(pos := c)
  }

  predicate Vacant(b: Board, c: Coord) {
    Shaped(b) && InBounds(c) && At(b, c).None?
  }

  /** `c` holds a piece whose colour differs from `own`. */
  predicate Hostile(b: Board, c: Coord, own: Color) {
    Shaped(b) && InBounds(c) && At(b, c).Some? && At(b, c).value.color != own
  }

  /** A piece of colour `own` may land on `c`: on the board and not held by its own side. */
  predicate Enterable(b: Board, c: Coord, own: Color) {
    Vacant(b, c) || Hostile(b, c, own)
  }

  // ---------------------------------------------------------------------------
  // Geometry

  /** `n` steps of a unit component `d` (-1, 0 or 1): `n * d`, written without multiplication. */
  function Scale(n: int, d: int): int {
    if d == 1 then n else if d == -1 then -n else 0
  }

  /** The square `n` unit steps `v` away from `c`. */
  function Shift(c: Coord, v: Vec, n: int): Coord {
    Coord(c.row + Scale(n, v.dr), c.col + Scale(n, v.dc))
  }

  function Offset(a: Coord, e: Coord): Vec {
    Vec(e.row - a.row, e.col - a.col)
  }

  /** The unit step pointing from `a` towards `e`. */
  function Dir(a: Coord, e: Coord): Vec {
    Vec(Sign(e.row - a.row), Sign(e.col - a.col))
  }

  /** Chebyshev distance. */
  function Dist(a: Coord, e: Coord): int {
    Max(Abs(e.row - a.row), Abs(e.col - a.col))
  }

  predicate IsUnit(v: Vec) {
    -1 <= v.dr <= 1 && -1 <= v.dc <= 1 && (v.dr != 0 || v.dc != 0)
  }

  const Diagonal: seq<Vec> := [Vec(-1, -1), Vec(1, 1), Vec(1, -1), Vec(-1, 1)]
  const Straight: seq<Vec> := [Vec(0, 1), Vec(1, 0), Vec(-1, 0), Vec(0, -1)]
  const KnightJumps: seq<Vec> :=
    [Vec(-1, 2), Vec(2, -1), Vec(-1, -2), Vec(-2, -1), Vec(2, 1), Vec(1, 2), Vec(-2, 1), Vec(1, -2)]
  /** The pawn's capture list: the same entry twice, whose row delta black overrides with -1. */
  const PawnCaptureOffsets: seq<Vec> := [Vec(1, -1), Vec(1, -1)]

  lemma ShiftGeometry(a: Coord, v: Vec, n: int)
    requires IsUnit(v) && n >= 1
    ensures Dir(a, Shift(a, v, n)) == v
    ensures Dist(a, Shift(a, v, n)) == n
  {
    var e := Shift(a, v, n);
    if v.dr == 1 {
      assert e.row - a.row == n;
    } else if v.dr == -1 {
      assert e.row - a.row == -n;
    } else {
      assert e.row - a.row == 0;
    }
    if v.dc == 1 {
      assert e.col - a.col == n;
    } else if v.dc == -1 {
      assert e.col - a.col == -n;
    } else {
      assert e.col - a.col == 0;
    }
  }

  /** A ray that is still on the board after `n` steps has taken fewer than `Rows` steps. */
  lemma ShiftBound(a: Coord, v: Vec, n: int)
    requires InBounds(a) && IsUnit(v) && n >= 1 && InBounds(Shift(a, v, n))
    ensures n < Rows
  {
    ShiftGeometry(a, v, n);
  }

  // ---------------------------------------------------------------------------
  // Sliding pieces (`continuous_legal_moves`)

  /**
    The squares of one ray, starting `n` steps out from `a`: it runs while the
    square is on the board and not friendly, and stops after the first piece.
  */
  function Ray(b: Board, own: Color, a: Coord, v: Vec, n: int): seq<Coord>
    requires Shaped(b) && InBounds(a) && IsUnit(v) && n >= 1
    decreases Rows - n
  {
    var c := Shift(a, v, n);
    if !Enterable(b, c, own) then []
    else if At(b, c).Some? then [c]
    else
      ShiftBound(a, v, n);
      [c] + Ray(b, own, a, v, n + 1)
  }

  /**
    `r` is a run of consecutive squares `n`, `n + 1`, ... steps out from `a`,
    each enterable and all but the last empty; the square after it cannot be
    entered, unless the run already ends on a piece.
  */
  ghost predicate Run(b: Board, own: Color, a: Coord, v: Vec, n: int, r: seq<Coord>) {
    && (forall i :: 0 <= i < |r| ==> r[i] == Shift(a, v, n + i) && Enterable(b, r[i], own))
    && (forall i :: 0 <= i < |r| - 1 ==> Vacant(b, r[i]))
    && (!Enterable(b, Shift(a, v, n + |r|), own) || (|r| > 0 && !Vacant(b, r[|r| - 1])))
  }

  /** Every ray is such a run. */
  lemma {:induction false} RayShape(b: Board, own: Color, a: Coord, v: Vec, n: int)
    requires Shaped(b) && InBounds(a) && IsUnit(v) && n >= 1
    ensures Run(b, own, a, v, n, Ray(b, own, a, v, n))
    decreases Rows - n
  {
    var c := Shift(a, v, n);
    if !Enterable(b, c, own) {
      assert Ray(b, own, a, v, n) == [];
      assert n + 0 == n;
    } else if At(b, c).Some? {
      assert Ray(b, own, a, v, n) == [c];
      assert n + 0 == n;
    } else {
      ShiftBound(a, v, n);
      var rest := Ray(b, own, a, v, n + 1);
      assert Ray(b, own, a, v, n) == [c] + rest;
      RayShape(b, own, a, v, n + 1);
      RayCons(b, own, a, v, n, rest);
    }
  }

  /** Putting an empty enterable square `n` steps out in front of a run from `n + 1` gives a run from `n`. */
  lemma RayCons(b: Board, own: Color, a: Coord, v: Vec, n: int, rest: seq<Coord>)
    requires Enterable(b, Shift(a, v, n), own) && Vacant(b, Shift(a, v, n))
    requires Run(b, own, a, v, n + 1, rest)
    ensures Run(b, own, a, v, n, [Shift(a, v, n)] + rest)
  {
    var r := [Shift(a, v, n)] + rest;
    forall i | 1 <= i < |r|
      ensures r[i] == Shift(a, v, n + i) && Enterable(b, r[i], own)
    {
      assert r[i] == rest[i - 1];
      assert n + 1 + (i - 1) == n + i;
    }
    forall i | 1 <= i < |r| - 1
      ensures Vacant(b, r[i])
    {
      assert r[i] == rest[i - 1];
    }
    assert n + |r| == n + 1 + |rest|;
    assert |rest| > 0 ==> r[|r| - 1] == rest[|rest| - 1];
  }

  /** `e` is on a line (rank, file or diagonal) from `a` and every square strictly between is vacant. */
  predicate Sighted(b: Board, a: Coord, e: Coord) {
    && Dist(a, e) >= 1
    && e == Shift(a, Dir(a, e), Dist(a, e))
    && forall j :: 1 <= j < Dist(a, e) ==> Vacant(b, Shift(a, Dir(a, e), j))
  }

  lemma RaySighted(b: Board, own: Color, a: Coord, v: Vec)
    requires Shaped(b) && InBounds(a) && IsUnit(v)
    ensures forall e :: e in Ray(b, own, a, v, 1) ==> Enterable(b, e, own) && Dir(a, e) == v && Sighted(b, a, e)
  {
    var r := Ray(b, own, a, v, 1);
    RayShape(b, own, a, v, 1);
    forall e | e in r
      ensures Enterable(b, e, own) && Dir(a, e) == v && Sighted(b, a, e)
    {
      var i :| 0 <= i < |r| && r[i] == e;
      ShiftGeometry(a, v, 1 + i);
      forall j | 1 <= j < 1 + i
        ensures Vacant(b, Shift(a, v, j))
      {
        assert r[j - 1] == Shift(a, v, j);
      }
    }
  }

  /** Every square up to and including the first non-vacant enterable one is on the ray. */
  lemma RayComplete(b: Board, own: Color, a: Coord, v: Vec, k: int)
    requires Shaped(b) && InBounds(a) && IsUnit(v) && k >= 1
    requires Enterable(b, Shift(a, v, k), own)
    requires forall j :: 1 <= j < k ==> Vacant(b, Shift(a, v, j))
    ensures Shift(a, v, k) in Ray(b, own, a, v, 1)
  {
    var r := Ray(b, own, a, v, 1);
    RayShape(b, own, a, v, 1);
    var L := |r|;
    assert L > 0 && L < k ==> Vacant(b, r[L - 1]) by {
      if L > 0 && L < k {
        assert r[L - 1] == Shift(a, v, L);
      }
    }
    assert L + 1 < k ==> Vacant(b, Shift(a, v, 1 + L));
    assert k - 1 < L;
    assert r[k - 1] == Shift(a, v, k);
  }

  lemma RayExact(b: Board, own: Color, a: Coord, v: Vec)
    requires Shaped(b) && InBounds(a) && IsUnit(v)
    ensures forall e :: Enterable(b, e, own) && Dir(a, e) == v && Sighted(b, a, e) ==> e in Ray(b, own, a, v, 1)
  {
    forall e | Enterable(b, e, own) && Dir(a, e) == v && Sighted(b, a, e)
      ensures e in Ray(b, own, a, v, 1)
    {
      RayComplete(b, own, a, v, Dist(a, e));
    }
  }

  /** The rays in the directions `dirs`, one after the other. */
  function Slide(b: Board, own: Color, a: Coord, dirs: seq<Vec>): seq<Coord>
    requires Shaped(b) && InBounds(a)
    requires forall i :: 0 <= i < |dirs| ==> IsUnit(dirs[i])
  {
    if dirs == [] then [] else Ray(b, own, a, dirs[0], 1) + Slide(b, own, a, dirs[1..])
  }

  /** Every square of the rays can be entered, lies in one of the directions, and has a clear line. */
  lemma {:induction false} SlideSound(b: Board, own: Color, a: Coord, dirs: seq<Vec>)
    requires Shaped(b) && InBounds(a)
    requires forall i :: 0 <= i < |dirs| ==> IsUnit(dirs[i])
    ensures forall e :: e in Slide(b, own, a, dirs) ==> Enterable(b, e, own) && Dir(a, e) in dirs && Sighted(b, a, e)
  {
    if dirs != [] {
      SlideSound(b, own, a, dirs[1..]);
      RaySighted(b, own, a, dirs[0]);
      forall e | e in Slide(b, own, a, dirs)
        ensures Enterable(b, e, own) && Dir(a, e) in dirs && Sighted(b, a, e)
      {
        if e !in Ray(b, own, a, dirs[0], 1) {
          assert e in Slide(b, own, a, dirs[1..]);
          assert Dir(a, e) in dirs[1..];
        }
      }
    }
  }

  /** Every enterable square with a clear line in one of the directions is on the rays. */
  lemma {:induction false} SlideComplete(b: Board, own: Color, a: Coord, dirs: seq<Vec>)
    requires Shaped(b) && InBounds(a)
    requires forall i :: 0 <= i < |dirs| ==> IsUnit(dirs[i])
    ensures forall e :: Enterable(b, e, own) && Dir(a, e) in dirs && Sighted(b, a, e) ==> e in Slide(b, own, a, dirs)
  {
    if dirs != [] {
      SlideComplete(b, own, a, dirs[1..]);
      RayExact(b, own, a, dirs[0]);
      forall e | Enterable(b, e, own) && Dir(a, e) in dirs && Sighted(b, a, e)
        ensures e in Slide(b, own, a, dirs)
      {
        if Dir(a, e) != dirs[0] {
          assert Dir(a, e) in dirs[1..];
        }
      }
    }
  }

  // ---------------------------------------------------------------------------
  // Stepping pieces

  /** The squares `a + o` for the offsets `o` in order, kept when enterable. */
  function Steps(b: Board, own: Color, a: Coord, offs: seq<Vec>): (r: seq<Coord>)
    ensures forall e :: e in r <==> Enterable(b, e, own) && Offset(a, e) in offs
  {
    if offs == [] then []
    else
      var c := Coord(a.row + offs[0].dr, a.col + offs[0].dc);
      (if Enterable(b, c, own) then [c] else []) + Steps(b, own, a, offs[1..])
  }

  lemma KingOffsets(a: Coord, e: Coord)
    ensures Offset(a, e) in Straight + Diagonal <==> Dist(a, e) == 1
  {
  }

  lemma KnightOffsets(a: Coord, e: Coord)
    ensures Offset(a, e) in KnightJumps <==>
      (Abs(e.row - a.row) == 1 && Abs(e.col - a.col) == 2) || (Abs(e.row - a.row) == 2 && Abs(e.col - a.col) == 1)
  {
  }

  lemma StraightDirs(a: Coord, e: Coord)
    requires Dist(a, e) >= 1
    ensures Dir(a, e) in Straight <==> e.row == a.row || e.col == a.col
  {
  }

  lemma DiagonalDirs(a: Coord, e: Coord)
    requires Dist(a, e) >= 1 && e == Shift(a, Dir(a, e), Dist(a, e))
    ensures Dir(a, e) in Diagonal <==> Abs(e.row - a.row) == Abs(e.col - a.col)
  {
    var d := Dir(a, e);
    if d.dr != 0 && d.dc != 0 {
      assert Abs(e.row - a.row) == Dist(a, e) by {
        assert e.row - a.row == Dist(a, e) * d.dr;
      }
      assert Abs(e.col - a.col) == Dist(a, e) by {
        assert e.col - a.col == Dist(a, e) * d.dc;
      }
    }
  }

  // ---------------------------------------------------------------------------
  // The per-type generators (`legal_moves` of each piece class)

  function KingMoves(b: Board, a: Coord): (r: seq<Coord>)
    requires Shaped(b) && InBounds(a) && At(b, a).Some?
    ensures forall e :: e in r <==> Enterable(b, e, At(b, a).value.color) && Dist(a, e) == 1
  {
    var own := At(b, a).value.color;
    var r := Steps(b, own, a, Straight + Diagonal);
    assert forall e :: e in r <==> Enterable(b, e, own) && Dist(a, e) == 1 by {
      forall e {
        KingOffsets(a, e);
      }
    }
    r
  }

  function RookMoves(b: Board, a: Coord): (r: seq<Coord>)
    requires Shaped(b) && InBounds(a) && At(b, a).Some?
    ensures forall e :: e in r <==>
      (Enterable(b, e, At(b, a).value.color) && Sighted(b, a, e) && (e.row == a.row || e.col == a.col))
  {
    var own := At(b, a).value.color;
    var r := Slide(b, own, a, Straight);
    SlideSound(b, own, a, Straight);
    SlideComplete(b, own, a, Straight);
    assert forall e :: e in r <==> Enterable(b, e, own) && Sighted(b, a, e) && (e.row == a.row || e.col == a.col) by {
      forall e | Sighted(b, a, e) {
        StraightDirs(a, e);
      }
    }
    r
  }

  function BishopMoves(b: Board, a: Coord): (r: seq<Coord>)
    requires Shaped(b) && InBounds(a) && At(b, a).Some?
    ensures forall e :: e in r <==>
      (Enterable(b, e, At(b, a).value.color) && Sighted(b, a, e) && Abs(e.row - a.row) == Abs(e.col - a.col))
  {
    var own := At(b, a).value.color;
    var r := Slide(b, own, a, Diagonal);
    SlideSound(b, own, a, Diagonal);
    SlideComplete(b, own, a, Diagonal);
    assert forall e :: e in r <==> Enterable(b, e, own) && Sighted(b, a, e) && Abs(e.row - a.row) == Abs(e.col - a.col) by {
      forall e | Sighted(b, a, e) {
        DiagonalDirs(a, e);
      }
    }
    r
  }

  function KnightMoves(b: Board, a: Coord): (r: seq<Coord>)
    requires Shaped(b) && InBounds(a) && At(b, a).Some?
    ensures forall e :: e in r <==> (Enterable(b, e, At(b, a).value.color) &&
      ((Abs(e.row - a.row) == 1 && Abs(e.col - a.col) == 2) || (Abs(e.row - a.row) == 2 && Abs(e.col - a.col) == 1)))
  {
    var own := At(b, a).value.color;
    var r := Steps(b, own, a, KnightJumps);
    assert forall e :: e in r <==> (Enterable(b, e, own) &&
      ((Abs(e.row - a.row) == 1 && Abs(e.col - a.col) == 2) || (Abs(e.row - a.row) == 2 && Abs(e.col - a.col) == 1))) by {
      forall e {
        KnightOffsets(a, e);
      }
    }
    r
  }

  /** The one square a pawn of `color` pushes to: down for black, up for white. */
  function PushSquare(a: Coord, color: Color): Coord {
    if color == Black then Coord(a.row + 1, a.col) else Coord(a.row - 1, a.col)
  }

  /** The one square a pawn of `color` captures on, as the capture list and black's row override make it. */
  function CaptureSquare(a: Coord, color: Color): Coord {
    if color == Black then Coord(a.row - 1, a.col - 1) else Coord(a.row + 1, a.col - 1)
  }

  /** One capture probe per entry of the capture list. */
  function PawnCaptures(b: Board, a: Coord, color: Color, own: Color, offs: seq<Vec>): (r: seq<Coord>)
    requires forall i :: 0 <= i < |offs| ==> offs[i] == Vec(1, -1)
    ensures forall e :: e in r ==> e == CaptureSquare(a, color) && Hostile(b, e, own)
    ensures multiset(r)[CaptureSquare(a, color)] == if Hostile(b, CaptureSquare(a, color), own) then |offs| else 0
  {
    if offs == [] then []
    else
      var dx := if color == Black then -1 else offs[0].dr;
      var c := Coord(a.row + dx, a.col + offs[0].dc);
      (if Hostile(b, c, own) then [c] else []) + PawnCaptures(b, a, color, own, offs[1..])
  }

  /** The forward step: one square, only onto an empty square, never two. */
  function PawnPush(b: Board, a: Coord, color: Color): (r: seq<Coord>)
    requires Shaped(b) && InBounds(a)
    ensures forall e :: e in r <==> e == PushSquare(a, color) && Vacant(b, e)
    ensures |r| <= 1
  {
    var x := a.row;
    var y := a.col;
    var blackPush := if color == Black && 0 <= x + 1 < Rows && At(b, Coord(x + 1, y)).None? then [Coord(x + 1, y)] else [];
    var whitePush := if color == White && 0 <= x - 1 < Rows && At(b, Coord(x - 1, y)).None? then [Coord(x - 1, y)] else [];
    blackPush + whitePush
  }

  /** The pawn generator; `color` is the pawn's own colour, which fixes its direction. */
  function PawnMoves(b: Board, a: Coord, color: Color): (r: seq<Coord>)
    requires Shaped(b) && InBounds(a) && At(b, a).Some?
    ensures forall e :: e in r ==>
      (e == PushSquare(a, color) && Vacant(b, e)) ||
      (e == CaptureSquare(a, color) && Hostile(b, e, At(b, a).value.color))
    ensures Vacant(b, PushSquare(a, color)) ==> PushSquare(a, color) in r
    ensures multiset(r)[CaptureSquare(a, color)] ==
      if Hostile(b, CaptureSquare(a, color), At(b, a).value.color) then 2 else 0
  {
    var push := PawnPush(b, a, color);
    var caps := PawnCaptures(b, a, color, At(b, a).value.color, PawnCaptureOffsets);
    assert multiset(push)[CaptureSquare(a, color)] == 0 by {
      assert CaptureSquare(a, color) !in push;
    }
    assert multiset(push + caps) == multiset(push) + multiset(caps);
    push + caps
  }

  /** `get_legal_moves`: dispatch on the piece type. */
  function Destinations(q: Piece, b: Board): (r: seq<Coord>)
    requires Shaped(b) && InBounds(q.pos) && At(b, q.pos).Some?
    ensures forall e :: e in r ==> InBounds(e) && Enterable(b, e, At(b, q.pos).value.color) && e != q.pos
  {
    match q.kind
    case King => KingMoves(b, q.pos)
    case Rook => RookMoves(b, q.pos)
    case Bishop => BishopMoves(b, q.pos)
    case Knight => KnightMoves(b, q.pos)
    case Pawn => PawnMoves(b, q.pos, q.color)
  }

  // ---------------------------------------------------------------------------
  // "Cannot check" short-cuts (`cant_check_fxn`)

  predicate CantCheck(kind: Kind, a: Coord, k: Coord) {
    match kind
    case King => Abs(a.row - k.row) > 1 || Abs(a.col - k.col) > 1
    case Rook => a.row != k.row && a.col != k.col
    case Bishop => Abs(a.row - k.row) != Abs(a.col - k.col)
    case Knight =>
      !(Abs(a.row - k.row) == 1 && Abs(a.col - k.col) == 2) &&
      !(Abs(a.row - k.row) == 2 && Abs(a.col - k.col) == 1)
    case Pawn => Abs(a.row - k.row) != 1 || Abs(a.col - k.col) != 1
  }

  /**
    The short-cut never hides a real attack. For the pawn this needs the target
    to be occupied (as a king's square is): a pawn's push square is one step
    straight ahead, which the pawn short-cut rules out although the pawn may
    move there when it is empty.
  */
  lemma CantCheckSound(q: Piece, b: Board, k: Coord)
    requires Shaped(b) && InBounds(q.pos) && At(b, q.pos).Some?
    requires CantCheck(q.kind, q.pos, k)
    requires q.kind == Pawn ==> !Vacant(b, k)
    ensures k !in Destinations(q, b)
  {
    if q.kind == Pawn {
      assert k !in PawnMoves(b, q.pos, q.color);
    }
  }
}
