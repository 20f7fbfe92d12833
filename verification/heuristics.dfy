/**
  Position evaluations for black: material weighted by piece type, with the
  weights given per type code (rook, bishop, knight, pawn; kings count 0).
*/
module Heuristics {
  import opened Util
  import opened Pieces
  import opened Engine
  import opened EngineProofs

  /** The weight table `[0, 0] + w` read at a type code; missing when the code lies past its end. */
  function Weight(k: Kind, w: seq<int>): (r: Option<int>)
    ensures r.Some? <==> Code(k) < |w| + 2
    ensures k == King ==> r == Some(0)
    ensures r.Some? && k != King ==> r.value == w[Code(k) - 2]
  {
    var table := [0, 0] + w;
    if Code(k) < |table| then Some(table[Code(k)]) else None
  }

  /** The summed weights of one side's list; missing when some piece has no weight. */
  function SideValue(l: seq<Piece>, w: seq<int>): (r: Option<int>)
    ensures |w| >= 4 ==> r.Some?
  {
    if l == [] then Some(0)
    else
      match (Weight(l[0].kind, w), SideValue(l[1..], w))
      case (Some(a), Some(b)) => Some(a + b)
      case _ => None
  }

  /** `value_based_heuristic`: black's material minus white's, or a failed lookup. */
  function ValueBased(p: Position, w: seq<int>): (r: Option<int>)
    ensures r.None? <==>
      (exists i :: 0 <= i < |p.black| && Code(p.black[i].kind) >= |w| + 2) ||
      (exists i :: 0 <= i < |p.white| && Code(p.white[i].kind) >= |w| + 2)
  {
    SideValueFails(p.black, w);
    SideValueFails(p.white, w);
    match (SideValue(p.black, w), SideValue(p.white, w))
    case (Some(b), Some(v)) => Some(b - v)
    case _ => None
  }

  /** The weights of `simple_heuristic`: rook 6, bishop 3, knight 3, pawn 1. */
  const SimpleWeights: seq<int> := [6, 3, 3, 1]

  /** How many pieces of a list have type `k`. */
  function Count(l: seq<Piece>, k: Kind): (r: nat)
    ensures r <= |l|
  {
    if l == [] then 0 else (if l[0].kind == k then 1 else 0) + Count(l[1..], k)
  }

  /** The material of a side counted by type: each rook, bishop, knight and pawn at its weight. */
  function Material(l: seq<Piece>, w: seq<int>): int
    requires |w| >= 4
  {
    Count(l, Rook) * w[0] + Count(l, Bishop) * w[1] + Count(l, Knight) * w[2] + Count(l, Pawn) * w[3]
  }

  /**
    With a full table the side value is the weighted count of its types:
    it ignores order, colour, squares and kings.
  */
  lemma {:induction false} SideValueCounts(l: seq<Piece>, w: seq<int>)
    requires |w| >= 4
    ensures SideValue(l, w) == Some(Material(l, w))
  {
    if l != [] {
      SideValueCounts(l[1..], w);
      MaterialAdd(l, w);
    }
  }

  /** The first piece adds its weight to the material of the rest. */
  lemma MaterialAdd(l: seq<Piece>, w: seq<int>)
    requires |w| >= 4 && l != []
    ensures Weight(l[0].kind, w).Some?
    ensures Material(l, w) == Weight(l[0].kind, w).value + Material(l[1..], w)
  {
    var t := l[1..];
    var k := l[0].kind;
    var r, bi, n, pa := Count(t, Rook), Count(t, Bishop), Count(t, Knight), Count(t, Pawn);
    assert Count(l, Rook) == r + (if k == Rook then 1 else 0);
    assert Count(l, Bishop) == bi + (if k == Bishop then 1 else 0);
    assert Count(l, Knight) == n + (if k == Knight then 1 else 0);
    assert Count(l, Pawn) == pa + (if k == Pawn then 1 else 0);
    Distribute(r, k == Rook, w[0]);
    Distribute(bi, k == Bishop, w[1]);
    Distribute(n, k == Knight, w[2]);
    Distribute(pa, k == Pawn, w[3]);
  }

  /** One more of a type adds one more weight. */
  lemma Distribute(c: nat, more: bool, x: int)
    ensures (c + (if more then 1 else 0)) * x == c * x + (if more then x else 0)
  {
  }

  /** A lookup fails exactly when some listed piece's type code lies past the table. */
  lemma {:induction false} SideValueFails(l: seq<Piece>, w: seq<int>)
    ensures SideValue(l, w).None? <==> exists i :: 0 <= i < |l| && Code(l[i].kind) >= |w| + 2
  {
    if l != [] {
      SideValueFails(l[1..], w);
      assert forall i :: 1 <= i < |l| ==> l[i] == l[1..][i - 1];
      if exists i :: 0 <= i < |l[1..]| && Code(l[1..][i].kind) >= |w| + 2 {
        var i :| 0 <= i < |l[1..]| && Code(l[1..][i].kind) >= |w| + 2;
        assert Code(l[i + 1].kind) >= |w| + 2;
      }
    }
  }

  /** With a full table `value_based_heuristic` always answers: the material difference. */
  lemma ValueBasedMaterial(p: Position, w: seq<int>)
    requires |w| >= 4
    ensures ValueBased(p, w) == Some(Material(p.black, w) - Material(p.white, w))
  {
    SideValueCounts(p.black, w);
    SideValueCounts(p.white, w);
  }

  /** `simple_heuristic`. */
  function Simple(p: Position): (r: int)
    ensures r == Material(p.black, SimpleWeights) - Material(p.white, SimpleWeights)
  {
    ValueBasedMaterial(p, SimpleWeights);
    ValueBased(p, SimpleWeights).value
  }

  /** `uniform_heuristic`: every listed piece, kings included, counts one whatever its type. */
  function Uniform(p: Position): (r: int)
    ensures r == (Count(p.black, King) + Count(p.black, Rook) + Count(p.black, Bishop) + Count(p.black, Knight) + Count(p.black, Pawn))
               - (Count(p.white, King) + Count(p.white, Rook) + Count(p.white, Bishop) + Count(p.white, Knight) + Count(p.white, Pawn))
  {
    CountTotal(p.black);
    CountTotal(p.white);
    |p.black| - |p.white|
  }

  /**
    The uniform count equals the value-based one with all weights 1 whenever
    both sides have as many kings, since the value table weighs kings 0.
  */
  lemma UniformIsUnitWeights(p: Position)
    requires Count(p.black, King) == Count(p.white, King)
    ensures ValueBased(p, [1, 1, 1, 1]) == Some(Uniform(p))
  {
    ValueBasedMaterial(p, [1, 1, 1, 1]);
    CountTotal(p.black);
    CountTotal(p.white);
  }

  /** A list's size splits by type. */
  lemma {:induction false} CountTotal(l: seq<Piece>)
    ensures |l| == Count(l, King) + Count(l, Rook) + Count(l, Bishop) + Count(l, Knight) + Count(l, Pawn)
  {
    if l != [] {
      CountTotal(l[1..]);
    }
  }

  /** Swapping the two lists negates the evaluation. */
  lemma ValueBasedSwap(p: Position, w: seq<int>)
    ensures var q := p.(black := p.white, white := p.black);
      ValueBased(q, w).Some? <==> ValueBased(p, w).Some?
    ensures var q := p.(black := p.white, white := p.black);
      ValueBased(q, w).Some? ==> ValueBased(q, w).value == -ValueBased(p, w).value
  {
    var q := p.(black := p.white, white := p.black);
    if SideValue(p.black, w).Some? && SideValue(p.white, w).Some? {
      assert ValueBased(p, w) == Some(SideValue(p.black, w).value - SideValue(p.white, w).value);
      assert ValueBased(q, w) == Some(SideValue(p.white, w).value - SideValue(p.black, w).value);
    }
  }

  /** The starting position is level: every full weight table, and the uniform count, give 0. */
  lemma InitialLevel(w: seq<int>)
    requires |w| >= 4
    ensures ValueBased(Initial(), w) == Some(0)
    ensures Simple(Initial()) == 0
    ensures Uniform(Initial()) == 0
  {
    InitialIsSetup();
    SetupLevel(w);
  }

  lemma SetupLevel(w: seq<int>)
    requires |w| >= 4
    ensures ValueBased(Setup(), w) == Some(0)
    ensures Simple(Setup()) == 0
    ensures Uniform(Setup()) == 0
  {
    SetupCounts();
    Balanced(Setup(), w);
  }

  /** Sides with the same count of every type are level under every evaluation. */
  lemma Balanced(p: Position, w: seq<int>)
    requires |w| >= 4
    requires forall k :: Count(p.black, k) == Count(p.white, k)
    ensures ValueBased(p, w) == Some(0)
    ensures Simple(p) == 0
    ensures Uniform(p) == 0
  {
    ValueBasedMaterial(p, w);
    CountTotal(p.black);
    CountTotal(p.white);
  }

  /** Each side starts with one man of every type. */
  lemma SetupCounts()
    ensures forall k :: Count(Setup().black, k) == 1 && Count(Setup().white, k) == 1
    ensures |Setup().black| == 5 && |Setup().white| == 5
  {
    SetupLists();
    forall k
      ensures Count(Setup().black, k) == 1 && Count(Setup().white, k) == 1
    {
      CountOfFive(Setup().black, k);
      CountOfFive(Setup().white, k);
    }
  }

  /** The count of a type in a list of five, entry by entry. */
  lemma CountOfFive(l: seq<Piece>, k: Kind)
    requires |l| == 5
    ensures Count(l, k) == (if l[0].kind == k then 1 else 0) + (if l[1].kind == k then 1 else 0)
      + (if l[2].kind == k then 1 else 0) + (if l[3].kind == k then 1 else 0) + (if l[4].kind == k then 1 else 0)
  {
    var t1, t2, t3, t4 := l[1..], l[2..], l[3..], l[4..];
    assert t1[1..] == t2 && t2[1..] == t3 && t3[1..] == t4 && t4[1..] == [];
    assert t1[0] == l[1] && t2[0] == l[2] && t3[0] == l[3] && t4[0] == l[4];
    assert Count(t4, k) == (if l[4].kind == k then 1 else 0);
    assert Count(t3, k) == (if l[3].kind == k then 1 else 0) + Count(t4, k);
    assert Count(t2, k) == (if l[2].kind == k then 1 else 0) + Count(t3, k);
    assert Count(t1, k) == (if l[1].kind == k then 1 else 0) + Count(t2, k);
  }
}
