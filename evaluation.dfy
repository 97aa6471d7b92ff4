/** The AI's static evaluation of a board (EvaluateBoard): for each side i, every coordinate
    holding a piece adds its closeness to side i's headquarters times its strength, to side i's
    defense when the piece is side i's and to the other side's attack otherwise; the AI's total
    minus the opponent's, plus ten per piece of material lead, is the value. */
module Evaluation {
  import opened Points
  import opened Pieces
  import opened Grid
  import opened Rules
  import opened Beliefs
  import opened Characters

  /** The strength of piece p in the pass for side i: sixteen minus its rank, where the rank is
      the true one in the AI's own pass and the belief (Chusa when unset) in the other pass,
      whoever owns the piece. */
  function Strength(p: Piece, ai: int, i: int): int {
    NumKinds - (if i == ai then p.kind else if p.supposition != None then p.supposition else Chusa)
  }

  /** Fourteen minus the distance from coordinate j to side i's headquarters. */
  function Closeness(i: int, j: int): int
    requires 0 <= i <= 1 && 0 <= j < NumCells
  {
    Height + Width - DistanceToHeadquarters(i, PointOf(j))
  }

  /** What coordinate j adds in the pass for side i: to `defense[i]` when `owned` (the piece is
      side i's), to `attack[1 - i]` otherwise. */
  function Term(g: Cells, ai: int, i: int, owned: bool, j: int): int
    requires Wellformed(g) && 0 <= i <= 1 && 0 <= j < NumCells
  {
    var p := AtIndex(g, j);
    if p.IsPiece() && (p.owner == i) == owned then Closeness(i, j) * Strength(p, ai, i) else 0
  }

  /** The sum of the terms of coordinates 0..n-1 in row-major order. */
  function PassSum(g: Cells, ai: int, i: int, owned: bool, n: int): int
    requires Wellformed(g) && 0 <= i <= 1 && 0 <= n <= NumCells
  {
    if n == 0 then 0 else PassSum(g, ai, i, owned, n - 1) + Term(g, ai, i, owned, n - 1)
  }

  /** `EvaluateBoard()` for the AI of side ai: `attack[ai]` is gathered in the opponent's pass
      and `attack[opp]` in the AI's pass. */
  function Evaluate(g: Cells, ai: int): int
    requires Wellformed(g) && 0 <= ai <= 1
  {
    var opp := 1 - ai;
    var attackAi, defenseAi := PassSum(g, ai, opp, false, NumCells), PassSum(g, ai, ai, true, NumCells);
    var attackOpp, defenseOpp := PassSum(g, ai, ai, false, NumCells), PassSum(g, ai, opp, true, NumCells);
    (attackAi + defenseAi) - (attackOpp + defenseOpp) + ScoreOf(g, ai) * 10
  }

  // ---------------------------------------------------------------------------------------------
  // Range

  /** The largest term: closeness 14 times strength 16. */
  const MaxTerm: int := 224

  lemma ProductRange(a: int, b: int)
    requires 3 <= a <= 14 && 1 <= b <= 16
    ensures 3 <= a * b <= MaxTerm
  {
    assert a * b <= 14 * b;
    assert a * b >= 3 * b;
  }

  /** A sound piece has strength 1..16 in either pass: its rank or belief is one of the sixteen
      ranks, or the belief is unset and Chusa stands in. */
  lemma StrengthRange(p: Piece, ai: int, i: int)
    requires PieceSound(p, ai) && p.IsPiece()
    ensures 1 <= Strength(p, ai, i) <= NumKinds
  {
  }

  /** On a sound board every counted term lies in 3..224 and every other term is zero. */
  lemma TermRange(g: Cells, ai: int, i: int, owned: bool, j: int)
    requires Wellformed(g) && Sound(g, ai) && 0 <= i <= 1 && 0 <= j < NumCells
    ensures 0 <= Term(g, ai, i, owned, j) <= MaxTerm
    ensures var p := AtIndex(g, j); p.IsPiece() && (p.owner == i) == owned ==> 3 <= Term(g, ai, i, owned, j)
  {
    var p := AtIndex(g, j);
    DistanceFacts(i, PointOf(j));
    if p.IsPiece() && (p.owner == i) == owned {
      assert PieceSound(p, ai) by {
        if IsPlaceholderIndex(j) { assert p == g[j - 1]; } else { assert p == g[j]; }
      }
      StrengthRange(p, ai, i);
      ProductRange(Closeness(i, j), Strength(p, ai, i));
    }
  }

  lemma {:induction false} PassSumRange(g: Cells, ai: int, i: int, owned: bool, n: int)
    requires Wellformed(g) && Sound(g, ai) && 0 <= i <= 1 && 0 <= n <= NumCells
    ensures 0 <= PassSum(g, ai, i, owned, n) <= MaxTerm * n
  {
    if n > 0 {
      PassSumRange(g, ai, i, owned, n - 1);
      TermRange(g, ai, i, owned, n - 1);
    }
  }

  /** The evaluation of a sound board is bounded well inside the 32-bit range, so the C++ sums
      never wrap and every evaluation exceeds INT_MIN. */
  lemma EvaluateRange(g: Cells, ai: int)
    requires Wellformed(g) && Sound(g, ai) && 0 <= ai <= 1
    ensures -2 * MaxTerm * NumCells - 10 * NumCells <= Evaluate(g, ai) <= 2 * MaxTerm * NumCells + 10 * NumCells
  {
    PassSumRange(g, ai, 0, true, NumCells);
    PassSumRange(g, ai, 0, false, NumCells);
    PassSumRange(g, ai, 1, true, NumCells);
    PassSumRange(g, ai, 1, false, NumCells);
    ScoresAreOpposite(g);
  }

  // ---------------------------------------------------------------------------------------------
  // Material

  lemma {:induction false} PassSumMonotone(g: Cells, h: Cells, ai: int, i: int, owned: bool, n: int, w: int)
    requires Wellformed(g) && Wellformed(h) && 0 <= i <= 1 && 0 <= n <= NumCells
    requires forall k :: 0 <= k < n ==> Term(h, ai, i, owned, k) <= Term(g, ai, i, owned, k)
    ensures PassSum(h, ai, i, owned, n) <= PassSum(g, ai, i, owned, n)
    ensures 0 <= w < n && Term(h, ai, i, owned, w) < Term(g, ai, i, owned, w) ==>
      PassSum(h, ai, i, owned, n) < PassSum(g, ai, i, owned, n)
  {
    if n > 0 {
      PassSumMonotone(g, h, ai, i, owned, n - 1, w);
    }
  }

  lemma {:induction false} PiecesUpToMonotone(g: Cells, h: Cells, id: int, n: int, w: int)
    requires Wellformed(g) && Wellformed(h) && 0 <= n <= NumCells
    requires forall k :: 0 <= k < n ==> OwnsPieceAt(h, id, k) ==> OwnsPieceAt(g, id, k)
    ensures PiecesUpTo(h, id, n) <= PiecesUpTo(g, id, n)
    ensures 0 <= w < n && OwnsPieceAt(g, id, w) && !OwnsPieceAt(h, id, w) ==>
      PiecesUpTo(h, id, n) < PiecesUpTo(g, id, n)
  {
    if n > 0 {
      PiecesUpToMonotone(g, h, id, n - 1, w);
    }
  }

  /** The board with the piece on raw cell j taken off, as `Delete` leaves it. */
  function Removed(g: Cells, j: int): (h: Cells)
    requires Wellformed(g) && 0 <= j < NumCells && !IsPlaceholderIndex(j)
    ensures Wellformed(h)
  {
    g[j := Piece(None, None, if j < 24 then 0 else 1)]
  }

  /** The removal is `Delete` at the point of raw cell j. */
  lemma RemovedIsDelete(g: Cells, j: int)
    requires Wellformed(g) && 0 <= j < NumCells && !IsPlaceholderIndex(j)
    ensures Removed(g, j) == Delete(g, PointOf(j))
  {
    var p := PointOf(j);
    assert Index(Normalize(p)) == j;
    assert DeletedPiece(p) == Piece(None, None, if j < 24 then 0 else 1) by {
      HalfRows(p);
    }
  }

  /** Taking a piece off changes no term upward; it leaves unchanged the terms of the passes the
      piece was not counted in, and lowers its own term where it was. */
  lemma RemovedTerm(g: Cells, ai: int, j: int, i: int, owned: bool, k: int)
    requires Wellformed(g) && Sound(g, ai) && 0 <= j < NumCells && !IsPlaceholderIndex(j) && g[j].IsPiece()
    requires 0 <= i <= 1 && 0 <= k < NumCells
    ensures Term(Removed(g, j), ai, i, owned, k) <= Term(g, ai, i, owned, k)
    ensures (g[j].owner == i) != owned ==> Term(Removed(g, j), ai, i, owned, k) == Term(g, ai, i, owned, k)
    ensures (g[j].owner == i) == owned ==> Term(Removed(g, j), ai, i, owned, j) < Term(g, ai, i, owned, j)
  {
    var h := Removed(g, j);
    RemovedAt(g, j, k);
    RemovedAt(g, j, j);
    TermRange(g, ai, i, owned, k);
    TermRange(g, ai, i, owned, j);
    if AtIndex(h, k) == AtIndex(g, k) {
      assert Term(h, ai, i, owned, k) == Term(g, ai, i, owned, k);
    } else {
      assert Term(h, ai, i, owned, k) == 0;
    }
  }

  /** After a removal a coordinate reads what it read before, or, where it read cell j, no piece. */
  lemma RemovedAt(g: Cells, j: int, k: int)
    requires Wellformed(g) && 0 <= j < NumCells && !IsPlaceholderIndex(j) && 0 <= k < NumCells
    ensures AtIndex(Removed(g, j), k) == AtIndex(g, k) ||
      (AtIndex(g, k) == g[j] && !AtIndex(Removed(g, j), k).IsPiece())
    ensures AtIndex(g, j) == g[j] && !AtIndex(Removed(g, j), j).IsPiece()
  {
  }

  /** One pass's sum after a removal: unchanged where the piece was not counted, lower where it was. */
  lemma RemovedPass(g: Cells, ai: int, j: int, i: int, owned: bool)
    requires Wellformed(g) && Sound(g, ai) && 0 <= j < NumCells && !IsPlaceholderIndex(j) && g[j].IsPiece()
    requires 0 <= i <= 1
    ensures (g[j].owner == i) != owned ==> PassSum(Removed(g, j), ai, i, owned, NumCells) == PassSum(g, ai, i, owned, NumCells)
    ensures (g[j].owner == i) == owned ==> PassSum(Removed(g, j), ai, i, owned, NumCells) < PassSum(g, ai, i, owned, NumCells)
  {
    var h := Removed(g, j);
    forall k | 0 <= k < NumCells
      ensures Term(h, ai, i, owned, k) <= Term(g, ai, i, owned, k)
      ensures (g[j].owner == i) != owned ==> Term(g, ai, i, owned, k) <= Term(h, ai, i, owned, k)
    {
      RemovedTerm(g, ai, j, i, owned, k);
    }
    RemovedTerm(g, ai, j, i, owned, j);
    PassSumMonotone(g, h, ai, i, owned, NumCells, j);
    if (g[j].owner == i) != owned {
      PassSumMonotone(h, g, ai, i, owned, NumCells, j);
    }
  }

  /** The piece count of side id after a removal: one lower for the piece's owner, unchanged for
      the other side. */
  lemma RemovedPieces(g: Cells, j: int, id: int)
    requires Wellformed(g) && 0 <= j < NumCells && !IsPlaceholderIndex(j) && g[j].IsPiece()
    ensures g[j].owner != id ==> PiecesUpTo(Removed(g, j), id, NumCells) == PiecesUpTo(g, id, NumCells)
    ensures g[j].owner == id ==> PiecesUpTo(Removed(g, j), id, NumCells) < PiecesUpTo(g, id, NumCells)
  {
    var h := Removed(g, j);
    assert forall k :: 0 <= k < NumCells ==> OwnsPieceAt(h, id, k) ==> OwnsPieceAt(g, id, k);
    PiecesUpToMonotone(g, h, id, NumCells, j);
    if g[j].owner != id {
      assert forall k :: 0 <= k < NumCells ==> OwnsPieceAt(g, id, k) ==> OwnsPieceAt(h, id, k);
      PiecesUpToMonotone(h, g, id, NumCells, j);
    }
  }

  /** Taking an opponent's piece off the board always raises the AI's evaluation. */
  lemma CaptureRaisesEvaluation(g: Cells, ai: int, j: int)
    requires Wellformed(g) && Sound(g, ai) && 0 <= ai <= 1
    requires 0 <= j < NumCells && !IsPlaceholderIndex(j) && g[j].IsPiece() && g[j].owner == 1 - ai
    ensures Evaluate(Removed(g, j), ai) > Evaluate(g, ai)
  {
    CaptureParts(g, ai, j);
    EvaluateOrder(Removed(g, j), g, ai);
  }

  /** The parts of the evaluation after the opponent loses the piece on raw cell j: the AI's two
      sums stay, the opponent's two fall, and the AI's material lead grows. */
  lemma CaptureParts(g: Cells, ai: int, j: int)
    requires Wellformed(g) && Sound(g, ai) && 0 <= ai <= 1
    requires 0 <= j < NumCells && !IsPlaceholderIndex(j) && g[j].IsPiece() && g[j].owner == 1 - ai
    ensures var h := Removed(g, j);
      PassSum(h, ai, 1 - ai, false, NumCells) == PassSum(g, ai, 1 - ai, false, NumCells) &&
      PassSum(h, ai, ai, true, NumCells) == PassSum(g, ai, ai, true, NumCells) &&
      PassSum(h, ai, ai, false, NumCells) < PassSum(g, ai, ai, false, NumCells) &&
      PassSum(h, ai, 1 - ai, true, NumCells) < PassSum(g, ai, 1 - ai, true, NumCells) &&
      ScoreOf(h, ai) > ScoreOf(g, ai)
  {
    var h, opp := Removed(g, j), 1 - ai;
    assert PassSum(h, ai, opp, false, NumCells) == PassSum(g, ai, opp, false, NumCells) by {
      RemovedPass(g, ai, j, opp, false);
    }
    assert PassSum(h, ai, ai, true, NumCells) == PassSum(g, ai, ai, true, NumCells) by {
      RemovedPass(g, ai, j, ai, true);
    }
    assert PassSum(h, ai, ai, false, NumCells) < PassSum(g, ai, ai, false, NumCells) by {
      RemovedPass(g, ai, j, ai, false);
    }
    assert PassSum(h, ai, opp, true, NumCells) < PassSum(g, ai, opp, true, NumCells) by {
      RemovedPass(g, ai, j, opp, true);
    }
    assert ScoreOf(h, ai) > ScoreOf(g, ai) by {
      RemovedPieces(g, j, ai);
      RemovedPieces(g, j, opp);
    }
  }

  /** Losing one of its own pieces always lowers the AI's evaluation. */
  lemma LossLowersEvaluation(g: Cells, ai: int, j: int)
    requires Wellformed(g) && Sound(g, ai) && 0 <= ai <= 1
    requires 0 <= j < NumCells && !IsPlaceholderIndex(j) && g[j].IsPiece() && g[j].owner == ai
    ensures Evaluate(Removed(g, j), ai) < Evaluate(g, ai)
  {
    LossParts(g, ai, j);
    EvaluateOrder(g, Removed(g, j), ai);
  }

  /** The parts of the evaluation after the AI loses the piece on raw cell j: its own two sums
      fall, the opponent's stay, and its material lead shrinks. */
  lemma LossParts(g: Cells, ai: int, j: int)
    requires Wellformed(g) && Sound(g, ai) && 0 <= ai <= 1
    requires 0 <= j < NumCells && !IsPlaceholderIndex(j) && g[j].IsPiece() && g[j].owner == ai
    ensures var h := Removed(g, j);
      PassSum(h, ai, 1 - ai, false, NumCells) < PassSum(g, ai, 1 - ai, false, NumCells) &&
      PassSum(h, ai, ai, true, NumCells) < PassSum(g, ai, ai, true, NumCells) &&
      PassSum(h, ai, ai, false, NumCells) == PassSum(g, ai, ai, false, NumCells) &&
      PassSum(h, ai, 1 - ai, true, NumCells) == PassSum(g, ai, 1 - ai, true, NumCells) &&
      ScoreOf(h, ai) < ScoreOf(g, ai)
  {
    var h, opp := Removed(g, j), 1 - ai;
    assert PassSum(h, ai, opp, false, NumCells) < PassSum(g, ai, opp, false, NumCells) by {
      RemovedPass(g, ai, j, opp, false);
    }
    assert PassSum(h, ai, ai, true, NumCells) < PassSum(g, ai, ai, true, NumCells) by {
      RemovedPass(g, ai, j, ai, true);
    }
    assert PassSum(h, ai, ai, false, NumCells) == PassSum(g, ai, ai, false, NumCells) by {
      RemovedPass(g, ai, j, ai, false);
    }
    assert PassSum(h, ai, opp, true, NumCells) == PassSum(g, ai, opp, true, NumCells) by {
      RemovedPass(g, ai, j, opp, true);
    }
    assert ScoreOf(h, ai) < ScoreOf(g, ai) by {
      RemovedPieces(g, j, ai);
      RemovedPieces(g, j, opp);
    }
  }

  /** The evaluation compared part by part: no higher sums on the AI's side, no lower ones on
      the opponent's and a lower material lead give a lower evaluation. */
  lemma EvaluateOrder(g: Cells, h: Cells, ai: int)
    requires Wellformed(g) && Wellformed(h) && 0 <= ai <= 1
    requires PassSum(h, ai, 1 - ai, false, NumCells) <= PassSum(g, ai, 1 - ai, false, NumCells)
    requires PassSum(h, ai, ai, true, NumCells) <= PassSum(g, ai, ai, true, NumCells)
    requires PassSum(h, ai, ai, false, NumCells) >= PassSum(g, ai, ai, false, NumCells)
    requires PassSum(h, ai, 1 - ai, true, NumCells) >= PassSum(g, ai, 1 - ai, true, NumCells)
    requires ScoreOf(h, ai) < ScoreOf(g, ai)
    ensures Evaluate(h, ai) < Evaluate(g, ai)
  {
  }
}
