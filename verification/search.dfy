/**
  The minimax agent. Values are from black's point of view: black maximises,
  white minimises, a black win is +infinity, a white win -infinity, a draw 0,
  and a position at the depth limit is scored by the heuristic.
*/
module Search {
  import opened Util
  import opened Pieces
  import opened Engine
  import opened EngineProofs

  /** A minimax value: the heuristic's integers extended with the two infinities. */
  datatype Score = NegInf | Fin(n: int) | PosInf

  predicate Leq(a: Score, b: Score) {
    a == NegInf || b == PosInf || (a.Fin? && b.Fin? && a.n <= b.n)
  }

  /** `cand` replaces `cur` in the scan: `>=` when maximising, `<=` when minimising. */
  predicate Replaces(maximise: bool, cand: Score, cur: Score) {
    if maximise then Leq(cur, cand) else Leq(cand, cur)
  }

  /** Either of two values replaces the other. */
  lemma ReplacesTotal(maximise: bool, a: Score, b: Score)
    ensures Replaces(maximise, a, b) || Replaces(maximise, b, a)
  {
  }

  lemma ReplacesTrans(maximise: bool, a: Score, b: Score, c: Score)
    requires Replaces(maximise, a, b) && Replaces(maximise, b, c)
    ensures Replaces(maximise, a, c)
  {
  }

  /** The agent: a heuristic from positions to integers and a search depth. */
  datatype Agent = Agent(heuristic: Position -> int, depth: nat)

  /**
    The position `result_copy` hands to the recursion: the move made on a
    fresh copy, the turn passed, and the king cache copied as it was.
  */
  function Child(p: Position, m: Move): (r: Position)
    requires Consistent(p) && Candidate(p, m)
    ensures Consistent(r) && r.turn == Opp(p.turn)
    ensures r.blackKing == p.blackKing && r.whiteKing == p.whiteKing
  {
    ApplyCopyConsistent(p, m);
    ApplyCopy(p, m).value
  }

  /**
    The loop over the children: keep the running best value and move, and let
    every child whose value is at least as good replace them, so that among
    equal values the last one wins.
  */
  function Pick(maximise: bool, ms: seq<Move>, vals: seq<Score>, value: Score, best: Option<Move>): (r: (Score, Option<Move>))
    requires |ms| == |vals|
    decreases |ms|
  {
    if ms == [] then (value, best)
    else if Replaces(maximise, vals[0], value) then Pick(maximise, ms[1..], vals[1..], vals[0], Some(ms[0]))
    else Pick(maximise, ms[1..], vals[1..], value, best)
  }

  /** When no child can replace the starting pair, `Pick` returns it unchanged. */
  lemma {:induction false} PickKeeps(maximise: bool, ms: seq<Move>, vals: seq<Score>, value: Score, best: Option<Move>)
    requires |ms| == |vals|
    requires forall j :: 0 <= j < |vals| ==> !Replaces(maximise, vals[j], value)
    ensures Pick(maximise, ms, vals, value, best) == (value, best)
    decreases |ms|
  {
    if ms != [] {
      assert forall j :: 1 <= j < |vals| ==> vals[j] == vals[1..][j - 1];
      PickKeeps(maximise, ms[1..], vals[1..], value, best);
    }
  }

  /**
    When some child can replace the starting pair, `Pick` returns the child
    value that no other value beats, together with the LAST move attaining it.
  */
  lemma {:induction false} PickSpec(maximise: bool, ms: seq<Move>, vals: seq<Score>, value: Score, best: Option<Move>)
    requires |ms| == |vals|
    requires exists j :: 0 <= j < |vals| && Replaces(maximise, vals[j], value)
    ensures exists i :: PickedAt(maximise, ms, vals, value, Pick(maximise, ms, vals, value, best), i)
    decreases |ms|
  {
    var tm := ms[1..];
    var tv := vals[1..];
    assert forall j :: 1 <= j < |vals| ==> vals[j] == tv[j - 1];
    if Replaces(maximise, vals[0], value) {
      if exists j :: 0 <= j < |tv| && Replaces(maximise, tv[j], vals[0]) {
        PickSpec(maximise, tm, tv, vals[0], Some(ms[0]));
        var i :| PickedAt(maximise, tm, tv, vals[0], Pick(maximise, tm, tv, vals[0], Some(ms[0])), i);
        PickTakeLater(maximise, ms, vals, value, best, i);
      } else {
        PickTakeFirst(maximise, ms, vals, value, best);
      }
    } else {
      PickSpec(maximise, tm, tv, value, best);
      var i :| PickedAt(maximise, tm, tv, value, Pick(maximise, tm, tv, value, best), i);
      PickSkipFirst(maximise, ms, vals, value, best, i);
    }
  }

  /**
    `r` is `Pick`'s answer at index `i`: the value there replaces the start and
    every value, and no later value replaces it.
  */
  ghost predicate PickedAt(maximise: bool, ms: seq<Move>, vals: seq<Score>, value: Score, r: (Score, Option<Move>), i: int) {
    && |ms| == |vals|
    && 0 <= i < |vals|
    && r == (vals[i], Some(ms[i]))
    && Replaces(maximise, vals[i], value)
    && (forall j :: 0 <= j < |vals| ==> Replaces(maximise, vals[i], vals[j]))
    && (forall j :: i < j < |vals| ==> !Replaces(maximise, vals[j], vals[i]))
  }

  /** The first child replaces the start and a later one then wins. */
  lemma PickTakeLater(maximise: bool, ms: seq<Move>, vals: seq<Score>, value: Score, best: Option<Move>, i: int)
    requires |ms| == |vals| > 0 && Replaces(maximise, vals[0], value)
    requires PickedAt(maximise, ms[1..], vals[1..], vals[0], Pick(maximise, ms[1..], vals[1..], vals[0], Some(ms[0])), i)
    ensures PickedAt(maximise, ms, vals, value, Pick(maximise, ms, vals, value, best), i + 1)
  {
    var tv := vals[1..];
    assert forall j :: 1 <= j < |vals| ==> vals[j] == tv[j - 1];
    assert vals[i + 1] == tv[i];
    ReplacesTrans(maximise, tv[i], vals[0], value);
  }

  /** The first child replaces the start and nothing later replaces it. */
  lemma PickTakeFirst(maximise: bool, ms: seq<Move>, vals: seq<Score>, value: Score, best: Option<Move>)
    requires |ms| == |vals| > 0 && Replaces(maximise, vals[0], value)
    requires forall j :: 1 <= j < |vals| ==> !Replaces(maximise, vals[j], vals[0])
    ensures PickedAt(maximise, ms, vals, value, Pick(maximise, ms, vals, value, best), 0)
  {
    var tv := vals[1..];
    assert forall j :: 0 <= j < |tv| ==> tv[j] == vals[j + 1];
    PickKeeps(maximise, ms[1..], tv, vals[0], Some(ms[0]));
    forall j | 0 <= j < |vals|
      ensures Replaces(maximise, vals[0], vals[j])
    {
      ReplacesTotal(maximise, vals[0], vals[j]);
    }
  }

  /** The first child does not replace the start; the rest decides. */
  lemma PickSkipFirst(maximise: bool, ms: seq<Move>, vals: seq<Score>, value: Score, best: Option<Move>, i: int)
    requires |ms| == |vals| > 0 && !Replaces(maximise, vals[0], value)
    requires PickedAt(maximise, ms[1..], vals[1..], value, Pick(maximise, ms[1..], vals[1..], value, best), i)
    ensures PickedAt(maximise, ms, vals, value, Pick(maximise, ms, vals, value, best), i + 1)
  {
    var tv := vals[1..];
    assert forall j :: 1 <= j < |vals| ==> vals[j] == tv[j - 1];
    assert vals[i + 1] == tv[i];
    ReplacesTotal(maximise, vals[0], value);
    ReplacesTrans(maximise, tv[i], value, vals[0]);
  }

  /** Started from the worst value, `Pick` settles on one of the moves it is given, if there is one. */
  lemma PickFromExtreme(maximise: bool, ms: seq<Move>, vals: seq<Score>)
    requires |ms| == |vals|
    ensures var r := Pick(maximise, ms, vals, if maximise then NegInf else PosInf, None);
      (r.1.Some? <==> |ms| > 0) && (r.1.Some? ==> r.1.value in ms)
  {
    if ms != [] {
      var start := if maximise then NegInf else PosInf;
      assert Replaces(maximise, vals[0], start);
      PickSpec(maximise, ms, vals, start, None);
    }
  }

  /** The value of a decided game: a black win, a white win, or a draw. */
  function Terminal(w: Outcome): (r: Score)
    ensures w == Draw ==> r == Fin(0)
    ensures w == Won(Black) ==> forall s :: Leq(s, r)
    ensures w == Won(White) ==> forall s :: Leq(r, s)
  {
    if w == Draw then Fin(0) else if w == Won(Black) then PosInf else NegInf
  }

  /**
    `minimax`: the value of `p` searched `depth` plies deep, the move that
    attains it, and the position the search leaves in its caller's `pos`.
    The position is threaded through the `winner` calls (up to three) and the
    `player_legal_moves` call exactly as the engine leaves it, so a stale
    king cache inherited from `result_copy` is seen, and repaired, as it is
    there; the children are copies and leave the root untouched.
  */
  function Minimax(p: Position, depth: nat, h: Position -> int): (r: (Score, Option<Move>, Position))
    requires Consistent(p)
    ensures r.1.Some? ==> r.1.value in LegalMoves(Winner(p).1).0
    ensures Valid(p) ==> (r.1.None? <==> Winner(p).0 != Undecided || depth == 0)
    ensures SameLayout(p, r.2)
    ensures Valid(p) ==> r.2 == p
    decreases depth, 1
  {
    var (w1, p1) := Winner(p);
    if w1 != Undecided then
      var (w2, p2) := Winner(p1);
      if w2 == Draw then (Fin(0), None, p2)
      else
        var (w3, p3) := Winner(p2);
        (if w3 == Won(Black) then PosInf else NegInf, None, p3)
    else if depth == 0 then (Fin(h(p1)), None, p1)
    else
      var (moves, p2) := LegalMoves(p1);
      var vals := ChildValues(p2, moves, depth - 1, h);
      PickFromExtreme(p2.turn == Black, moves, vals);
      var (value, best) := Pick(p2.turn == Black, moves, vals, if p2.turn == Black then NegInf else PosInf, None);
      (value, best, p2)
  }

  /** The children's values in move order. */
  function ChildValues(p: Position, ms: seq<Move>, d: nat, h: Position -> int): (r: seq<Score>)
    requires Consistent(p)
    requires forall m :: m in ms ==> Candidate(p, m)
    ensures |r| == |ms|
    decreases d + 1, 0
  {
    seq(|ms|, i requires 0 <= i < |ms| => assert ms[i] in ms; ChildValue(p, ms[i], d, h))
  }

  /** The minimax value, `d` plies deep, of the child move `m` leads to. */
  function ChildValue(p: Position, m: Move, d: nat, h: Position -> int): Score
    requires Consistent(p) && Candidate(p, m)
    decreases d, 2
  {
    Minimax(Child(p, m), d, h).0
  }

  /** `choose_next_move`: the move minimax picks at the agent's depth. */
  function ChooseNextMove(agent: Agent, p: Position): (r: (Option<Move>, Position))
    requires Consistent(p)
    ensures r.0.Some? ==> Generated(p, r.0.value)
    ensures Valid(p) && r.0.Some? ==> r.0.value in LegalMoves(p).0
    ensures Valid(p) ==> (r.0.None? <==> Winner(p).0 != Undecided || agent.depth == 0)
    ensures SameLayout(p, r.1)
    ensures Valid(p) ==> r.1 == p
  {
    var (_, best, q) := Minimax(p, agent.depth, agent.heuristic);
    (best, q)
  }

  // ---------------------------------------------------------------------------
  // What the search computes

  /** A decided valid position is worth its outcome, with no move. */
  lemma MinimaxDecided(p: Position, depth: nat, h: Position -> int)
    requires Valid(p) && Winner(p).0 != Undecided
    ensures Minimax(p, depth, h) == (Terminal(Winner(p).0), None, p)
  {
  }

  /** A side to move with no legal move has lost, stalemate included: +inf if white is stuck, -inf if black is. */
  lemma MinimaxNoMoves(p: Position, depth: nat, h: Position -> int)
    requires Valid(p) && LegalMoves(p).0 == []
    ensures Minimax(p, depth, h) == (if p.turn == White then PosInf else NegInf, None, p)
  {
  }

  /** One piece a side with a move to make is a draw, worth 0 at every depth. */
  lemma MinimaxDraw(p: Position, depth: nat, h: Position -> int)
    requires Valid(p) && LegalMoves(p).0 != [] && |p.black| == 1 && |p.white| == 1
    ensures Minimax(p, depth, h) == (Fin(0), None, p)
  {
  }

  /** An undecided position at the depth limit is worth its heuristic value. */
  lemma MinimaxLeaf(p: Position, h: Position -> int)
    requires Valid(p) && Winner(p).0 == Undecided
    ensures Minimax(p, 0, h) == (Fin(h(p)), None, p)
  {
  }

  /**
    `r` is the outcome of a scan over `ms` with values `vals`: a move of `ms`
    whose value no other value beats, and the last one with that value.
  */
  ghost predicate BestOf(maximise: bool, ms: seq<Move>, vals: seq<Score>, r: (Score, Option<Move>)) {
    && |vals| == |ms|
    && r.1.Some?
    && (exists i :: 0 <= i < |ms| && ms[i] == r.1.value && r.0 == vals[i] &&
          forall j :: i < j < |ms| ==> vals[j] != vals[i])
    && (forall j :: 0 <= j < |ms| ==> Replaces(maximise, r.0, vals[j]))
  }

  /** Started from the worst value, `Pick` returns a best value and the last move attaining it. */
  lemma PickBest(maximise: bool, ms: seq<Move>, vals: seq<Score>)
    requires |ms| == |vals| > 0
    ensures BestOf(maximise, ms, vals, Pick(maximise, ms, vals, if maximise then NegInf else PosInf, None))
  {
    var start := if maximise then NegInf else PosInf;
    assert Replaces(maximise, vals[0], start);
    PickSpec(maximise, ms, vals, start, None);
    var i :| PickedAt(maximise, ms, vals, start, Pick(maximise, ms, vals, start, None), i);
    forall j | i < j < |vals|
      ensures vals[j] != vals[i]
    {
      assert !Replaces(maximise, vals[j], vals[i]);
    }
  }

  /** One step of `minimax` above the depth limit on an undecided position. */
  lemma MinimaxStep(p: Position, depth: nat, h: Position -> int)
    requires Valid(p) && Winner(p).0 == Undecided && depth > 0
    ensures LegalMoves(p).0 != []
    ensures var r := Minimax(p, depth, h);
      (r.0, r.1) == Pick(p.turn == Black, LegalMoves(p).0, ChildValues(p, LegalMoves(p).0, depth - 1, h),
                         if p.turn == Black then NegInf else PosInf, None)
  {
    var (w1, p1) := Winner(p);
    assert p1 == p && w1 == Undecided;
    var (moves, p2) := LegalMoves(p1);
    assert p2 == p && moves != [];
  }

  /**
    Above the depth limit an undecided position is worth the best of its
    children for the side to move (the largest for black, the smallest for
    white), and the move returned is the last legal move whose child attains
    it; `ChildValues` holds the children's minimax values in move order.
  */
  lemma MinimaxBest(p: Position, depth: nat, h: Position -> int)
    requires Valid(p) && Winner(p).0 == Undecided && depth > 0
    ensures var r := Minimax(p, depth, h);
      BestOf(p.turn == Black, LegalMoves(p).0, ChildValues(p, LegalMoves(p).0, depth - 1, h), (r.0, r.1))
  {
    MinimaxStep(p, depth, h);
    var moves := LegalMoves(p).0;
    PickBest(p.turn == Black, moves, ChildValues(p, moves, depth - 1, h));
  }
}
