/** The AI's one-ply search (MovePiece): every pair of raw coordinates is tried, sources in
    row-major order and, for each, destinations in row-major order; a candidate is played
    speculatively, evaluated and undone, and the first candidate with the strictly greatest
    evaluation is committed. */
module Search {
  import opened Points
  import opened Pieces
  import opened Grid
  import opened Rules
  import opened Beliefs
  import opened Evaluation

  /** The value `best_evaluation_value` starts from: INT_MIN of a 32-bit int. */
  const IntMin: int := -0x8000_0000

  /** Raw coordinate s holds a piece of side id that has a square to go to. */
  predicate SourceUsable(g: Cells, id: int, s: int)
    requires Wellformed(g) && 0 <= s < NumCells
  {
    AtIndex(g, s).owner == id && PlaceableUpTo(g, PointOf(s), NumCells) > 0
  }

  function MoveOf(s: int, d: int): (m: Move)
    requires 0 <= s < NumCells && 0 <= d < NumCells
    ensures MoveInBounds(m)
  {
    Move(PointOf(s), PointOf(d))
  }

  /** The pair (s, d) is tried: a usable source and a valid move. */
  predicate Candidate(g: Cells, id: int, s: int, d: int)
    requires Wellformed(g) && 0 <= s < NumCells && 0 <= d < NumCells
  {
    SourceUsable(g, id, s) && IsMoveValid(g, MoveOf(s, d))
  }

  /** The placeable-square test on the source never rules out a valid move: the candidates are
      exactly the valid moves from a coordinate holding a piece of side id. */
  lemma PlaceableFilterIsRedundant(g: Cells, id: int, s: int, d: int)
    requires Wellformed(g) && 0 <= s < NumCells && 0 <= d < NumCells
    ensures Candidate(g, id, s, d) <==> AtIndex(g, s).owner == id && IsMoveValid(g, MoveOf(s, d))
  {
    PlaceableIsValidMoves(g, PointOf(s), NumCells);
    if IsMoveValid(g, MoveOf(s, d)) {
      assert ValidTo(g, PointOf(s), d);
    }
  }

  /** A candidate is a move of side id's own movable piece to a square it may enter. */
  lemma CandidateIsOwnMove(g: Cells, id: int, s: int, d: int)
    requires Wellformed(g) && 0 <= s < NumCells && 0 <= d < NumCells && Candidate(g, id, s, d)
    ensures At(g, MoveOf(s, d).src).owner == id && MayLeave(g, MoveOf(s, d)) && IsStraight(MoveOf(s, d))
  {
    AtIndexIsAt(g, s);
    MoveRejections(g, MoveOf(s, d));
  }

  /** The evaluation after playing candidate (s, d) speculatively; it always exceeds INT_MIN. */
  function ValueOf(g: Cells, id: int, s: int, d: int): (v: int)
    requires Wellformed(g) && Sound(g, id) && 0 <= id <= 1
    requires 0 <= s < NumCells && 0 <= d < NumCells && Candidate(g, id, s, d)
    ensures IntMin < v
  {
    var m := MoveOf(s, d);
    CandidateIsOwnMove(g, id, s, d);
    ValidMoveIsSupposable(g, id, m);
    SupposeBattleKeepsSound(g, id, id, m);
    EvaluateRange(SupposeBattleCells(g, id, m), id);
    Evaluate(SupposeBattleCells(g, id, m), id)
  }

  datatype Pick = Pick(src: int, dest: int)

  /** `best_evaluation_value` and the coordinates of `best_move`, if one was taken. */
  datatype Choice = Choice(value: int, pick: Option<Pick>)

  /** What the search sees at every pair of raw coordinates: the evaluation of a candidate, or
      nothing for a pair that is skipped. */
  type Scores = seq<seq<Option<int>>>

  predicate Shaped(t: Scores) {
    |t| == NumCells && forall s :: 0 <= s < NumCells ==> |t[s]| == NumCells
  }

  function Entry(g: Cells, id: int, s: int, d: int): Option<int>
    requires Wellformed(g) && Sound(g, id) && 0 <= id <= 1 && 0 <= s < NumCells && 0 <= d < NumCells
  {
    if Candidate(g, id, s, d) then Some(ValueOf(g, id, s, d)) else Nothing
  }

  /** The entries of source s for destinations 0..n-1. */
  ghost function Row(g: Cells, id: int, s: int, n: int): (r: seq<Option<int>>)
    requires Wellformed(g) && Sound(g, id) && 0 <= id <= 1 && 0 <= s < NumCells && 0 <= n <= NumCells
    ensures |r| == n
  {
    if n == 0 then [] else Row(g, id, s, n - 1) + [Entry(g, id, s, n - 1)]
  }

  /** The rows of sources 0..n-1. */
  ghost function Rows(g: Cells, id: int, n: int): (t: Scores)
    requires Wellformed(g) && Sound(g, id) && 0 <= id <= 1 && 0 <= n <= NumCells
    ensures |t| == n && forall s :: 0 <= s < n ==> |t[s]| == NumCells
  {
    if n == 0 then [] else Rows(g, id, n - 1) + [Row(g, id, n - 1, NumCells)]
  }

  ghost function Table(g: Cells, id: int): (t: Scores)
    requires Wellformed(g) && Sound(g, id) && 0 <= id <= 1
    ensures Shaped(t)
  {
    Rows(g, id, NumCells)
  }

  /** Whether sources 0..n-1 are usable. */
  ghost function UsableUpTo(g: Cells, id: int, n: int): (u: seq<bool>)
    requires Wellformed(g) && 0 <= n <= NumCells
    ensures |u| == n
  {
    if n == 0 then [] else UsableUpTo(g, id, n - 1) + [SourceUsable(g, id, n - 1)]
  }

  ghost function Usable(g: Cells, id: int): (u: seq<bool>)
    requires Wellformed(g)
    ensures |u| == NumCells
  {
    UsableUpTo(g, id, NumCells)
  }

  lemma {:induction false} RowAt(g: Cells, id: int, s: int, n: int, d: int)
    requires Wellformed(g) && Sound(g, id) && 0 <= id <= 1 && 0 <= s < NumCells && 0 <= d < n <= NumCells
    ensures Row(g, id, s, n)[d] == Entry(g, id, s, d)
  {
    if d < n - 1 {
      RowAt(g, id, s, n - 1, d);
    }
  }

  lemma {:induction false} RowsAt(g: Cells, id: int, n: int, s: int)
    requires Wellformed(g) && Sound(g, id) && 0 <= id <= 1 && 0 <= s < n <= NumCells
    ensures Rows(g, id, n)[s] == Row(g, id, s, NumCells)
  {
    if s < n - 1 {
      RowsAt(g, id, n - 1, s);
    }
  }

  lemma {:induction false} UsableAt(g: Cells, id: int, n: int, s: int)
    requires Wellformed(g) && 0 <= s < n <= NumCells
    ensures UsableUpTo(g, id, n)[s] == SourceUsable(g, id, s)
  {
    if s < n - 1 {
      UsableAt(g, id, n - 1, s);
    }
  }

  /** The table holds exactly the candidates, each with its evaluation. */
  lemma TableAt(g: Cells, id: int, s: int, d: int)
    requires Wellformed(g) && Sound(g, id) && 0 <= id <= 1 && 0 <= s < NumCells && 0 <= d < NumCells
    ensures Table(g, id)[s][d].Some? <==> Candidate(g, id, s, d)
    ensures Table(g, id)[s][d].Some? ==> Table(g, id)[s][d].value == ValueOf(g, id, s, d)
    ensures Usable(g, id)[s] == SourceUsable(g, id, s)
  {
    RowsAt(g, id, NumCells, s);
    RowAt(g, id, s, NumCells, d);
    UsableAt(g, id, NumCells, s);
  }

  /** Every score exceeds the initial best value. */
  predicate AboveMin(t: Scores)
    requires Shaped(t)
  {
    forall s, d :: 0 <= s < NumCells && 0 <= d < NumCells && t[s][d].Some? ==> IntMin < t[s][d].value
  }

  /** A skipped source has no candidate. */
  predicate Consistent(t: Scores, u: seq<bool>)
    requires Shaped(t) && |u| == NumCells
  {
    forall s, d :: 0 <= s < NumCells && 0 <= d < NumCells && !u[s] ==> t[s][d].Nothing?
  }

  lemma TableFacts(g: Cells, id: int)
    requires Wellformed(g) && Sound(g, id) && 0 <= id <= 1
    ensures AboveMin(Table(g, id)) && Consistent(Table(g, id), Usable(g, id))
  {
    forall s, d | 0 <= s < NumCells && 0 <= d < NumCells
      ensures Table(g, id)[s][d].Some? ==> IntMin < Table(g, id)[s][d].value
      ensures !Usable(g, id)[s] ==> Table(g, id)[s][d].Nothing?
    {
      TableAt(g, id, s, d);
    }
  }

  /** One destination of the inner loop: a candidate replaces the best only if strictly better. */
  function Consider(t: Scores, c: Choice, s: int, d: int): Choice
    requires Shaped(t) && 0 <= s < NumCells && 0 <= d < NumCells
  {
    if t[s][d].Some? && c.value < t[s][d].value then Choice(t[s][d].value, Some(Pick(s, d))) else c
  }

  /** The inner loop over destinations 0..n-1 of source s. */
  function DestFold(t: Scores, c: Choice, s: int, n: int): Choice
    requires Shaped(t) && 0 <= s < NumCells && 0 <= n <= NumCells
  {
    if n == 0 then c else Consider(t, DestFold(t, c, s, n - 1), s, n - 1)
  }

  /** The outer loop over sources 0..n-1; a source that is not usable is skipped. */
  function SrcFold(t: Scores, u: seq<bool>, n: int): Choice
    requires Shaped(t) && |u| == NumCells && 0 <= n <= NumCells
  {
    if n == 0 then Choice(IntMin, Nothing)
    else
      var c := SrcFold(t, u, n - 1);
      if u[n - 1] then DestFold(t, c, n - 1, NumCells) else c
  }

  /** The choice the search makes for side id on board g. */
  ghost function Choose(g: Cells, id: int): Choice
    requires Wellformed(g) && Sound(g, id) && 0 <= id <= 1
  {
    SrcFold(Table(g, id), Usable(g, id), NumCells)
  }

  /** The search's variables `best_evaluation_value` and `best_move` hold choice c. */
  predicate Tracks(c: Choice, value: int, move: Move) {
    c.value == value &&
    (c.pick.Some? ==>
      0 <= c.pick.value.src < NumCells && 0 <= c.pick.value.dest < NumCells &&
      move == MoveOf(c.pick.value.src, c.pick.value.dest))
  }

  /** (s1, d1) comes before (s2, d2) in the search order. */
  predicate Before(s1: int, d1: int, s2: int, d2: int) {
    s1 < s2 || (s1 == s2 && d1 < d2)
  }

  ghost predicate HasCandidate(g: Cells, id: int)
    requires Wellformed(g)
  {
    exists s, d :: 0 <= s < NumCells && 0 <= d < NumCells && Candidate(g, id, s, d)
  }

  /** What the loops have established once every pair before (ns, nd) was tried: no pick means
      no score so far; a pick is a scored pair with the recorded value, no score so far is higher,
      and every earlier score is strictly lower. */
  predicate Explains(t: Scores, c: Choice, ns: int, nd: int)
    requires Shaped(t)
  {
    (c.pick.Nothing? ==>
      c.value == IntMin &&
      forall s, d :: 0 <= s < NumCells && 0 <= d < NumCells && Before(s, d, ns, nd) ==> t[s][d].Nothing?) &&
    (c.pick.Some? ==>
      var p := c.pick.value;
      0 <= p.src < NumCells && 0 <= p.dest < NumCells && Before(p.src, p.dest, ns, nd) &&
      t[p.src][p.dest] == Some(c.value) &&
      (forall s, d :: 0 <= s < NumCells && 0 <= d < NumCells && Before(s, d, ns, nd) && t[s][d].Some? ==>
         t[s][d].value <= c.value) &&
      (forall s, d :: 0 <= s < NumCells && 0 <= d < NumCells && Before(s, d, p.src, p.dest) && t[s][d].Some? ==>
         t[s][d].value < c.value))
  }

  lemma ConsiderExplains(t: Scores, c: Choice, s: int, d: int)
    requires Shaped(t) && AboveMin(t) && 0 <= s < NumCells && 0 <= d < NumCells
    requires Explains(t, c, s, d)
    ensures Explains(t, Consider(t, c, s, d), s, d + 1)
  {
    if t[s][d].Some? && c.value >= t[s][d].value {
      assert c.pick.Some?;
    }
  }

  lemma {:induction false} DestFoldExplains(t: Scores, c: Choice, s: int, n: int)
    requires Shaped(t) && AboveMin(t) && 0 <= s < NumCells && 0 <= n <= NumCells
    requires Explains(t, c, s, 0)
    ensures Explains(t, DestFold(t, c, s, n), s, n)
  {
    if n > 0 {
      DestFoldExplains(t, c, s, n - 1);
      ConsiderExplains(t, DestFold(t, c, s, n - 1), s, n - 1);
    }
  }

  /** Having tried every destination of source s is the same as having reached source s + 1. */
  lemma ExplainsNextSource(t: Scores, c: Choice, s: int)
    requires Shaped(t) && 0 <= s < NumCells
    requires Explains(t, c, s, NumCells)
    ensures Explains(t, c, s + 1, 0)
  {
  }

  /** A skipped source has no candidate, so skipping it loses nothing. */
  lemma ExplainsSkip(t: Scores, u: seq<bool>, c: Choice, s: int)
    requires Shaped(t) && |u| == NumCells && Consistent(t, u) && 0 <= s < NumCells
    requires Explains(t, c, s, 0) && !u[s]
    ensures Explains(t, c, s + 1, 0)
  {
  }

  lemma {:induction false} SrcFoldExplains(t: Scores, u: seq<bool>, n: int)
    requires Shaped(t) && |u| == NumCells && AboveMin(t) && Consistent(t, u) && 0 <= n <= NumCells
    ensures Explains(t, SrcFold(t, u, n), n, 0)
  {
    if n > 0 {
      SrcFoldExplains(t, u, n - 1);
      var c := SrcFold(t, u, n - 1);
      if u[n - 1] {
        DestFoldExplains(t, c, n - 1, NumCells);
        ExplainsNextSource(t, DestFold(t, c, n - 1, NumCells), n - 1);
      } else {
        ExplainsSkip(t, u, c, n - 1);
      }
    }
  }

  /** The search picks a move exactly when there is a candidate; the pick is a candidate, no
      candidate evaluates higher, and every candidate before it in the search order evaluates
      strictly lower, so ties keep the first. */
  lemma ChooseIsFirstMaximum(g: Cells, id: int)
    requires Wellformed(g) && Sound(g, id) && 0 <= id <= 1
    ensures var c := Choose(g, id);
      (c.pick.Some? <==> HasCandidate(g, id)) &&
      (c.pick.Some? ==>
        var p := c.pick.value;
        0 <= p.src < NumCells && 0 <= p.dest < NumCells &&
        Candidate(g, id, p.src, p.dest) && c.value == ValueOf(g, id, p.src, p.dest) &&
        (forall s, d :: 0 <= s < NumCells && 0 <= d < NumCells && Candidate(g, id, s, d) ==>
           ValueOf(g, id, s, d) <= c.value) &&
        (forall s, d :: 0 <= s < NumCells && 0 <= d < NumCells && Before(s, d, p.src, p.dest) && Candidate(g, id, s, d) ==>
           ValueOf(g, id, s, d) < c.value))
  {
    var t, u := Table(g, id), Usable(g, id);
    TableFacts(g, id);
    SrcFoldExplains(t, u, NumCells);
    var c := Choose(g, id);
    assert Explains(t, c, NumCells, 0);
    if c.pick.Some? {
      var p := c.pick.value;
      TableAt(g, id, p.src, p.dest);
      forall s, d | 0 <= s < NumCells && 0 <= d < NumCells && Candidate(g, id, s, d)
        ensures ValueOf(g, id, s, d) <= c.value
        ensures Before(s, d, p.src, p.dest) ==> ValueOf(g, id, s, d) < c.value
      {
        TableAt(g, id, s, d);
      }
    } else {
      forall s, d | 0 <= s < NumCells && 0 <= d < NumCells
        ensures !Candidate(g, id, s, d)
      {
        TableAt(g, id, s, d);
      }
    }
  }

  /** The move the search commits. */
  ghost function Chosen(g: Cells, id: int): (m: Move)
    requires Wellformed(g) && Sound(g, id) && 0 <= id <= 1 && HasCandidate(g, id)
    ensures MoveInBounds(m) && IsMoveValid(g, m) && At(g, m.src).owner == id && IsStraight(m)
  {
    ChooseIsFirstMaximum(g, id);
    var p := Choose(g, id).pick.value;
    CandidateIsOwnMove(g, id, p.src, p.dest);
    MoveOf(p.src, p.dest)
  }

  // ---------------------------------------------------------------------------------------------
  // The whole turn

  /** Every valid move's battle stays inside the table (no flag guards a flag). */
  ghost predicate BattlesDefined(g: Cells)
    requires Wellformed(g)
  {
    forall m :: MoveInBounds(m) && IsMoveValid(g, m) ==> BattleDefined(g, m)
  }

  /** What `MovePiece` needs of the board, the log and its side. */
  ghost predicate TurnDefined(g: Cells, log: seq<LogEntry>, id: int) {
    Wellformed(g) && Sound(g, id) && 0 <= id <= 1 && (forall e <- log :: EntryWellformed(e)) &&
    (log != [] ==> SuppositionDefined(g, log[|log| - 1], id, log[|log| - 1].destPiece)) &&
    HasCandidate(g, id) && BattlesDefined(g)
  }

  lemma KindsAgreeSameCandidate(g: Cells, h: Cells, id: int, s: int, d: int)
    requires Wellformed(g) && Wellformed(h) && KindsAgree(g, h) && 0 <= s < NumCells && 0 <= d < NumCells
    ensures Candidate(g, id, s, d) == Candidate(h, id, s, d)
  {
    KindsAgreeSamePlaceable(g, h, PointOf(s), NumCells);
    KindsAgreeSameRules(g, h, MoveOf(s, d));
  }

  lemma KindsAgreeKeepCandidates(g: Cells, h: Cells, id: int)
    requires Wellformed(g) && Wellformed(h) && KindsAgree(g, h) && HasCandidate(g, id)
    ensures HasCandidate(h, id)
  {
    var s, d :| 0 <= s < NumCells && 0 <= d < NumCells && Candidate(g, id, s, d);
    KindsAgreeSameCandidate(g, h, id, s, d);
  }

  lemma KindsAgreeKeepBattles(g: Cells, h: Cells)
    requires Wellformed(g) && Wellformed(h) && KindsAgree(g, h) && BattlesDefined(g)
    ensures BattlesDefined(h)
  {
    forall m | MoveInBounds(m) && IsMoveValid(h, m)
      ensures BattleDefined(h, m)
    {
      KindsAgreeSameRules(g, h, m);
      KindsAgreeSameBattle(g, h, m);
    }
  }

  /** The board and log after the inference from the opponent's last move, if there was one.
      The inference changes beliefs only: the board after it is as sound, has the same
      candidates and the same battles, and the log keeps its length. */
  ghost function BeforeSearch(g: Cells, log: seq<LogEntry>, id: int): (r: (Cells, seq<LogEntry>))
    requires TurnDefined(g, log, id)
    ensures Wellformed(r.0) && Sound(r.0, id) && KindsAgree(g, r.0) && HasCandidate(r.0, id) && BattlesDefined(r.0)
    ensures |r.1| == |log| && forall e <- r.1 :: EntryWellformed(e)
  {
    if log == [] then (g, log)
    else
      var r := AfterSupposition(g, log, id, log[|log| - 1].destPiece);
      AfterSuppositionFrame(g, log, id, log[|log| - 1].destPiece);
      KindsAgreeKeepCandidates(g, r.0, id);
      KindsAgreeKeepBattles(g, r.0);
      r
  }

  /** The committed move is valid, its battle is defined, and the inference from it is too. */
  lemma ChosenIsPlayable(g: Cells, id: int)
    requires Wellformed(g) && Sound(g, id) && 0 <= id <= 1 && HasCandidate(g, id) && BattlesDefined(g)
    ensures var m := Chosen(g, id);
      BattleDefined(g, m) && At(g, m.src).IsMovable() && InTable(At(g, m.src).kind)
  {
    var m := Chosen(g, id);
    MoveRejections(g, m);
  }

  /** The move the turn commits: the search's choice on the board the first inference left. */
  ghost function Committed(g: Cells, log: seq<LogEntry>, id: int): (m: Move)
    requires TurnDefined(g, log, id)
    ensures MoveInBounds(m) && IsMoveValid(BeforeSearch(g, log, id).0, m)
  {
    Chosen(BeforeSearch(g, log, id).0, id)
  }

  /** What the search's result (`best_evaluation_value`, `best_move`) leaves for the rest of
      the turn: a move was found, it is the committed one, its battle and the inference from it
      are defined, and what they do is the turn's effect. */
  lemma TurnEffectUnfolds(g0: Cells, log0: seq<LogEntry>, id: int, value: int, m: Move)
    requires TurnDefined(g0, log0, id)
    requires Tracks(Choose(BeforeSearch(g0, log0, id).0, id), value, m)
    ensures Choose(BeforeSearch(g0, log0, id).0, id).pick.Some? && m == Committed(g0, log0, id)
    ensures var (g1, l1) := BeforeSearch(g0, log0, id);
      BattleDefined(g1, m) && SuppositionDefined(BattleCells(g1, m), Logged(g1, m), id, Logged(g1, m).srcPiece) &&
      TurnEffect(g0, log0, id) == AfterSupposition(BattleCells(g1, m), l1 + [Logged(g1, m)], id, Logged(g1, m).srcPiece)
  {
    var g1 := BeforeSearch(g0, log0, id).0;
    ChooseIsFirstMaximum(g1, id);
    ChosenIsPlayable(g1, id);
  }

  /** The board and log after `MovePiece`: the inference from the opponent's move, the chosen
      move's battle, and the inference from that battle. */
  ghost function TurnEffect(g: Cells, log: seq<LogEntry>, id: int): (Cells, seq<LogEntry>)
    requires TurnDefined(g, log, id)
  {
    var (g1, l1) := BeforeSearch(g, log, id);
    var m := Committed(g, log, id);
    ChosenIsPlayable(g1, id);
    var e := Logged(g1, m);
    AfterSupposition(BattleCells(g1, m), l1 + [e], id, e.srcPiece)
  }

  /** A turn commits exactly one move, the search's choice on the board the first inference
      left: the log grows by that one entry and the board stays sound. */
  lemma TurnCommitsChoice(g: Cells, log: seq<LogEntry>, id: int)
    requires TurnDefined(g, log, id)
    ensures var (g3, l3) := TurnEffect(g, log, id);
      var g1 := BeforeSearch(g, log, id).0;
      |l3| == |log| + 1 && l3[..|log|] == BeforeSearch(g, log, id).1 &&
      l3[|log|].move == Committed(g, log, id) && l3[|log|].srcPiece == At(g1, Committed(g, log, id).src) &&
      Wellformed(g3) && Sound(g3, id)
  {
    var (g1, l1) := BeforeSearch(g, log, id);
    var m := Committed(g, log, id);
    ChosenIsPlayable(g1, id);
    var e := Logged(g1, m);
    BattleKeepsSound(g1, id, m);
    AfterSuppositionFrame(BattleCells(g1, m), l1 + [e], id, e.srcPiece);
    var (g3, l3) := TurnEffect(g, log, id);
    assert l3[..|log|] == (l1 + [e])[..|l1|];
  }
}
