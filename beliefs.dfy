/** What the AI believes about the opponent's hidden pieces: the range a belief keeps, the
    inference that draws a belief from the last move, and the frame facts that a belief update
    changes no kind and no owner, so the rules see the same board. */
module Beliefs {
  import opened Points
  import opened Pieces
  import opened TableFacts
  import opened Grid
  import opened Rules

  // ---------------------------------------------------------------------------------------------
  // The range of kinds and beliefs

  /** A rank the inference can produce: Taisho..Spy, the ranks with a row and a column in the table. */
  predicate IsBelief(k: Kind) {
    Taisho <= k <= Spy
  }

  /** A rank the human player can tag one of the AI's pieces with: any of the sixteen ranks,
      the mine and the flag included. */
  predicate IsTag(k: Kind) {
    Taisho <= k <= Flag
  }

  /** A cell holds the placeholder, nothing, or a real rank. Its belief is unset, or, seen by
      side ai's AI: on a piece of the opponent's a rank the inference can produce, and on one of
      the AI's own pieces any rank the human player may have tagged it with. */
  predicate PieceSound(p: Piece, ai: int) {
    (p.kind == DummyHeadquarters || p.kind == None || p.IsPiece()) &&
    (p.supposition == None || (if p.owner == ai then IsTag(p.supposition) else IsBelief(p.supposition)))
  }

  predicate Sound(g: Cells, ai: int) {
    forall i :: 0 <= i < |g| ==> PieceSound(g[i], ai)
  }

  lemma AtIsSound(g: Cells, ai: int, p: Point)
    requires Wellformed(g) && Sound(g, ai) && InBounds(p)
    ensures PieceSound(At(g, p), ai)
  {
  }

  lemma StoreKeepsSound(g: Cells, ai: int, p: Point, piece: Piece)
    requires Wellformed(g) && Sound(g, ai) && InBounds(p) && PieceSound(piece, ai)
    ensures Sound(Store(g, p, piece), ai)
  {
  }

  lemma BattleKeepsSound(g: Cells, ai: int, m: Move)
    requires Wellformed(g) && Sound(g, ai) && MoveInBounds(m) && BattleDefined(g, m)
    ensures Sound(BattleCells(g, m), ai)
  {
    AtIsSound(g, ai, m.src);
  }

  lemma SupposeBattleKeepsSound(g: Cells, ai: int, supposer: int, m: Move)
    requires Wellformed(g) && Sound(g, ai) && MoveInBounds(m) && SupposedBattleDefined(g, supposer, m)
    ensures Sound(SupposeBattleCells(g, supposer, m), ai)
  {
    AtIsSound(g, ai, m.src);
  }

  /** On a sound board, a move of side id that passes the checks every valid move passes (a
      movable source, no own piece at the destination) can be played speculatively by side id:
      its own piece has a rank in the table, and the defender is empty or an opponent's piece
      whose belief is unset or in the table. */
  lemma ValidMoveIsSupposable(g: Cells, id: int, m: Move)
    requires Wellformed(g) && Sound(g, id) && MoveInBounds(m)
    requires MayLeave(g, m) && At(g, m.src).owner == id
    ensures SupposedBattleDefined(g, id, m)
  {
    AtIsSound(g, id, m.dest);
  }

  // ---------------------------------------------------------------------------------------------
  // Inference from the lost battle (SupposeOpponentsFormation)

  /** The ranks that can make a valid forward move of two cells. */
  predicate CanAdvanceTwo(k: Kind) {
    k == Plane || k == Tank || k == Engineer || k == Cavalry
  }

  /** Rank k beats the AI's piece of rank `ais`, read off the table as "ais attacking k loses";
      with `forwardOnly` it must also be able to advance two cells. */
  predicate Eligible(ais: Kind, k: Kind, forwardOnly: bool)
    requires InTable(ais) && InTable(k)
  {
    (!forwardOnly || CanAdvanceTwo(k)) && Lookup(ais, k) == Lose
  }

  /** Which of the ranks 0..Spy are eligible. */
  function EligibleRanks(ais: Kind, forwardOnly: bool): (e: seq<bool>)
    requires InTable(ais)
    ensures |e| == Spy + 1
    ensures forall k :: 0 <= k <= Spy ==> e[k] == Eligible(ais, k, forwardOnly)
  {
    seq(Spy + 1, k requires 0 <= k <= Spy => Eligible(ais, k, forwardOnly))
  }

  /** The scan i, i - 1, ..., 0 over e: the first index it finds marked, or None. */
  function ScanDown(e: seq<bool>, i: int): int
    requires -1 <= i < |e|
    decreases i + 1
  {
    if i < 0 then None
    else if e[i] then i
    else ScanDown(e, i - 1)
  }

  /** The first eligible rank in the scan i, i - 1, ..., 0, or None. */
  function FirstBeater(ais: Kind, i: int, forwardOnly: bool): Kind
    requires InTable(ais) && -1 <= i <= Spy
  {
    ScanDown(EligibleRanks(ais, forwardOnly), i)
  }

  /** The downward scan finds the highest marked index not above i, and None exactly when no
      index 0..i is marked. */
  lemma {:induction false} ScanDownIsFirst(e: seq<bool>, i: int)
    requires -1 <= i < |e| && |e| < None
    ensures var r := ScanDown(e, i);
      (r == None <==> forall k :: 0 <= k <= i ==> !e[k]) &&
      (r != None ==> 0 <= r <= i && e[r] && forall k :: r < k <= i ==> !e[k])
    decreases i + 1
  {
    if 0 <= i {
      ScanDownIsFirst(e, i - 1);
    }
  }

  /** The scan returns the highest eligible rank not above i, and returns None exactly when no
      rank 0..i is eligible. */
  lemma FirstBeaterIsFirst(ais: Kind, i: int, forwardOnly: bool)
    requires InTable(ais) && -1 <= i <= Spy
    ensures var r := FirstBeater(ais, i, forwardOnly);
      (r == None <==> forall k :: 0 <= k <= i ==> !Eligible(ais, k, forwardOnly)) &&
      (r != None ==> 0 <= r <= i && Eligible(ais, r, forwardOnly) &&
                     forall k :: r < k <= i ==> !Eligible(ais, k, forwardOnly))
  {
    ScanDownIsFirst(EligibleRanks(ais, forwardOnly), i);
  }

  /** An eligible rank wins when it attacks the AI's piece: the table is antisymmetric. */
  lemma EligibleBeats(ais: Kind, k: Kind, forwardOnly: bool)
    requires InTable(ais) && InTable(k) && Eligible(ais, k, forwardOnly)
    ensures Lookup(k, ais) == Win
  {
    TableIsAntisymmetric(ais, k);
  }

  /** Every table read the inference makes is in range: it reads the row of the AI's piece
      unless an earlier test already decided, and the flag has no row. */
  predicate BeliefDefined(g: Cells, m: Move, moverOwner: int, ais: Piece)
    requires Wellformed(g) && MoveInBounds(m) && IsStraight(m)
  {
    var d := Oriented(m.dest.Subtract(m.src), moverOwner);
    HitsObstacle(g, m) || 2 <= Abs(d.x) || 2 <= d.y || ais.kind == None || InTable(ais.kind)
  }

  /** The rank inferred for the piece that moved along m on board g: an obstructed path means a
      plane, a sideways move of two or more an engineer, a retreat of two or more a plane, an
      advance of two or more a cavalry unless a forward-moving rank is known to beat the AI's
      piece `ais`, and any other move the weakest rank that beats `ais`. The displacement is
      seen from the mover's side. */
  function NewBelief(g: Cells, m: Move, moverOwner: int, ais: Piece): Kind
    requires Wellformed(g) && MoveInBounds(m) && IsStraight(m) && BeliefDefined(g, m, moverOwner, ais)
  {
    var d := Oriented(m.dest.Subtract(m.src), moverOwner);
    if HitsObstacle(g, m) then Plane
    else if 2 <= Abs(d.x) then Engineer
    else if 2 <= d.y then Plane
    else if d.y <= -2 then
      (if ais.kind == None then Cavalry
       else var b := FirstBeater(ais.kind, Spy, true); if b == None then Cavalry else b)
    else if ais.kind != None then FirstBeater(ais.kind, Spy, false)
    else None
  }

  /** The inference yields a rank Taisho..Spy, or None only for a short move with nothing known
      about the AI's piece or no rank that beats it. */
  lemma NewBeliefRange(g: Cells, m: Move, moverOwner: int, ais: Piece)
    requires Wellformed(g) && MoveInBounds(m) && IsStraight(m) && BeliefDefined(g, m, moverOwner, ais)
    ensures var r, d := NewBelief(g, m, moverOwner, ais), Oriented(m.dest.Subtract(m.src), moverOwner);
      (r == None || IsBelief(r)) &&
      (r == None ==> !HitsObstacle(g, m) && Abs(d.x) < 2 && -2 < d.y < 2)
  {
    if ais.kind != None && InTable(ais.kind) {
      FirstBeaterIsFirst(ais.kind, Spy, true);
      FirstBeaterIsFirst(ais.kind, Spy, false);
    }
  }

  /** Valid long moves pin the mover's rank down: only an engineer moves sideways two or more,
      only a plane or an engineer retreats two or more, only a forward-moving rank advances two
      or more, and only a plane passes an obstacle. The inference's guesses follow these rules. */
  lemma LongMovesRevealRank(g: Cells, m: Move)
    requires Wellformed(g) && MoveInBounds(m) && IsMoveValid(g, m)
    ensures IsStraight(m)
    ensures var d, k := MoverDisplacement(g, m), At(g, m.src).kind;
      (2 <= Abs(d.x) ==> k == Engineer) &&
      (2 <= d.y ==> k == Plane || k == Engineer) &&
      (d.y <= -2 ==> CanAdvanceTwo(k)) &&
      (HitsObstacle(g, m) ==> k == Plane)
  {
    MoveRejections(g, m);
    var d, k, hits := MoverDisplacement(g, m), At(g, m.src).kind, HitsObstacle(g, m);
    assert KindAllows(k, d, hits) && (d.y == 0) != (d.x == 0);
    KindAllowsReveals(k, d, hits);
    if hits && d.y == 0 && Abs(d.x) == 1 {
      assert m.src.y == m.dest.y && Steps(m) == 1 by {
        OrientedKeepsShape(m.dest.Subtract(m.src), At(g, m.src).owner);
      }
      ShortMovesPassFreely(g, m);
    }
  }

  /** The per-rank test alone: what a straight displacement d that a rank is allowed to make
      says about that rank. */
  lemma KindAllowsReveals(k: Kind, d: Point, hits: bool)
    requires KindAllows(k, d, hits) && (d.y == 0) != (d.x == 0)
    ensures 2 <= Abs(d.x) ==> k == Engineer
    ensures 2 <= d.y ==> k == Plane || k == Engineer
    ensures d.y <= -2 ==> CanAdvanceTwo(k)
    ensures hits && !(d.y == 0 && Abs(d.x) == 1) ==> k == Plane
  {
  }

  /** A single sideways step is never obstructed. */
  lemma ShortMovesPassFreely(g: Cells, m: Move)
    requires Wellformed(g) && MoveInBounds(m) && IsStraight(m) && m.src.y == m.dest.y && Steps(m) == 1
    ensures !HitsObstacle(g, m)
  {
    OneStepObstacle(g, m);
  }

  function Min(a: int, b: int): (r: int)
    ensures r <= a && r <= b && (r == a || r == b)
  {
    if b < a then b else a
  }

  /** The inference is only reached when the piece now at the destination is the opponent's;
      then its move must be straight and its table reads in range. */
  predicate SuppositionDefined(g: Cells, e: LogEntry, id: int, ais: Piece)
    requires Wellformed(g) && EntryWellformed(e)
  {
    var cur := At(g, e.move.dest);
    cur.owner == id || cur.kind == None ||
    (IsStraight(e.move) && BeliefDefined(g, e.move, e.srcPiece.owner, ais))
  }

  /** The piece at the last move's destination with its sharpened belief, or Nothing when the
      AI's piece holds that cell or it is empty. */
  function Supposed(g: Cells, e: LogEntry, id: int, ais: Piece): Option<Piece>
    requires Wellformed(g) && EntryWellformed(e) && SuppositionDefined(g, e, id, ais)
  {
    var cur := At(g, e.move.dest);
    if cur.owner == id || cur.kind == None then Nothing
    else Some(cur.(supposition := Min(cur.supposition, NewBelief(g, e.move, e.srcPiece.owner, ais))))
  }

  /** A belief only ever sharpens: the kind and the owner stay, the belief never grows
      numerically, an unset belief takes any inferred rank, and soundness is kept. */
  lemma BeliefNeverRises(g: Cells, e: LogEntry, id: int, ais: Piece)
    requires Wellformed(g) && EntryWellformed(e) && SuppositionDefined(g, e, id, ais)
    ensures var cur, r := At(g, e.move.dest), Supposed(g, e, id, ais);
      (r.Nothing? <==> cur.owner == id || cur.kind == None) &&
      (r.Some? ==>
        r.value.kind == cur.kind && r.value.owner == cur.owner &&
        r.value.supposition <= cur.supposition &&
        r.value.supposition <= NewBelief(g, e.move, e.srcPiece.owner, ais) &&
        (cur.supposition == None ==> r.value.supposition == NewBelief(g, e.move, e.srcPiece.owner, ais)) &&
        (Sound(g, id) ==> PieceSound(r.value, id)))
  {
    var cur, r := At(g, e.move.dest), Supposed(g, e, id, ais);
    if r.Some? {
      NewBeliefRange(g, e.move, e.srcPiece.owner, ais);
      if Sound(g, id) {
        AtIsSound(g, id, e.move.dest);
      }
    }
  }

  /** The board and log after `SupposeOpponentsFormation(ais)`: the updated piece is written to
      the last move's destination and into the last log entry's destination piece. */
  function AfterSupposition(g: Cells, log: seq<LogEntry>, id: int, ais: Piece): (Cells, seq<LogEntry>)
    requires Wellformed(g) && log != [] && EntryWellformed(log[|log| - 1])
    requires SuppositionDefined(g, log[|log| - 1], id, ais)
  {
    var e := log[|log| - 1];
    match Supposed(g, e, id, ais)
    case Nothing => (g, log)
    case Some(p) => (Store(g, e.move.dest, p), log[|log| - 1 := e.(destPiece := p)])
  }

  // ---------------------------------------------------------------------------------------------
  // Beliefs do not change what the rules see

  /** Two grids with the same kinds and owners everywhere; beliefs may differ. */
  predicate KindsAgree(g: Cells, h: Cells) {
    |g| == |h| && forall i :: 0 <= i < |g| ==> g[i].kind == h[i].kind && g[i].owner == h[i].owner
  }

  lemma KindsAgreeSameWalk(g: Cells, h: Cells, m: Move, k: int)
    requires Wellformed(g) && Wellformed(h) && KindsAgree(g, h) && MoveInBounds(m) && IsStraight(m) && 0 <= k <= Steps(m)
    ensures ClearThrough(g, m, k) == ClearThrough(h, m, k)
  {
    forall j | 0 <= j <= Steps(m)
      ensures Blocks(g, m)[j] == Blocks(h, m)[j]
    {
      KindsAgreeSameBlock(g, h, m, j);
    }
    assert Blocks(g, m) == Blocks(h, m);
  }

  /** Whether one step of the walk is blocked does not depend on beliefs. */
  lemma KindsAgreeSameBlock(g: Cells, h: Cells, m: Move, k: int)
    requires Wellformed(g) && Wellformed(h) && KindsAgree(g, h) && MoveInBounds(m) && IsStraight(m)
    ensures BlockedAt(g, m, k) == BlockedAt(h, m, k)
  {
    if 1 <= k < Steps(m) && InBounds(PathPoint(m, k)) {
      KindsAgreeAt(g, h, PathPoint(m, k));
    }
  }

  lemma KindsAgreeAt(g: Cells, h: Cells, p: Point)
    requires Wellformed(g) && Wellformed(h) && KindsAgree(g, h) && InBounds(p)
    ensures At(g, p).kind == At(h, p).kind && At(g, p).owner == At(h, p).owner
  {
  }

  /** Move legality looks at kinds and owners only. */
  lemma KindsAgreeSameRules(g: Cells, h: Cells, m: Move)
    requires Wellformed(g) && Wellformed(h) && KindsAgree(g, h) && MoveInBounds(m)
    ensures IsMoveValid(g, m) == IsMoveValid(h, m)
  {
    KindsAgreeAt(g, h, m.src);
    KindsAgreeAt(g, h, m.dest);
    var s, t, s', t' := At(g, m.src), At(g, m.dest), At(h, m.src), At(h, m.dest);
    var d := MoverDisplacement(g, m);
    assert d == MoverDisplacement(h, m);
    assert s.IsMovable() == s'.IsMovable();
    assert (s.owner == t.owner && t.IsPiece()) == (s'.owner == t'.owner && t'.IsPiece());
    OrientedKeepsShape(m.dest.Subtract(m.src), s.owner);
    if IsStraight(m) {
      KindsAgreeSameWalk(g, h, m, Steps(m));
      assert KindAllows(s.kind, d, HitsObstacle(g, m)) == KindAllows(s'.kind, d, HitsObstacle(h, m));
    }
  }

  /** So do the battle's table reads. */
  lemma KindsAgreeSameBattle(g: Cells, h: Cells, m: Move)
    requires Wellformed(g) && Wellformed(h) && KindsAgree(g, h) && MoveInBounds(m)
    ensures BattleDefined(g, m) == BattleDefined(h, m)
  {
    KindsAgreeAt(g, h, m.src);
    KindsAgreeAt(g, h, m.dest);
    KindsAgreeSameGuard(g, h, m);
    assert GuardFights(g, m) == GuardFights(h, m);
  }

  lemma KindsAgreeSameGuard(g: Cells, h: Cells, m: Move)
    requires Wellformed(g) && Wellformed(h) && KindsAgree(g, h) && MoveInBounds(m)
    ensures Guard(g, m).Some? == Guard(h, m).Some?
    ensures Guard(g, m).Some? ==>
      Guard(g, m).value.kind == Guard(h, m).value.kind && Guard(g, m).value.owner == Guard(h, m).value.owner
  {
    KindsAgreeAt(g, h, m.dest);
    if 0 < m.dest.y {
      KindsAgreeAt(g, h, Point(m.dest.y - 1, m.dest.x));
    }
    if m.dest.y < Height - 1 {
      KindsAgreeAt(g, h, Point(m.dest.y + 1, m.dest.x));
    }
  }

  lemma KindsAgreeSamePlaceable(g: Cells, h: Cells, src: Point, n: int)
    requires Wellformed(g) && Wellformed(h) && KindsAgree(g, h) && InBounds(src) && 0 <= n <= NumCells
    ensures PlaceableUpTo(g, src, n) == PlaceableUpTo(h, src, n)
  {
    forall i | 0 <= i < NumCells
      ensures PlaceableMarks(g, src)[i] == PlaceableMarks(h, src)[i]
    {
      KindsAgreeAt(g, h, PointOf(i));
      KindsAgreeSameRules(g, h, Move(src, PointOf(i)));
    }
    assert PlaceableMarks(g, src) == PlaceableMarks(h, src);
  }

  /** A belief update leaves every kind and owner, the log's length and every entry's move and
      source piece as they were, and keeps the board sound. */
  lemma AfterSuppositionFrame(g: Cells, log: seq<LogEntry>, id: int, ais: Piece)
    requires Wellformed(g) && log != [] && EntryWellformed(log[|log| - 1])
    requires SuppositionDefined(g, log[|log| - 1], id, ais)
    ensures var (h, l) := AfterSupposition(g, log, id, ais);
      Wellformed(h) && KindsAgree(g, h) && |l| == |log| &&
      l[..|l| - 1] == log[..|log| - 1] &&
      l[|l| - 1].move == log[|log| - 1].move && l[|l| - 1].srcPiece == log[|log| - 1].srcPiece &&
      EntryWellformed(l[|l| - 1]) &&
      (Sound(g, id) ==> Sound(h, id))
  {
    var e := log[|log| - 1];
    BeliefNeverRises(g, e, id, ais);
    var r := Supposed(g, e, id, ais);
    if r.Some? && Sound(g, id) {
      StoreKeepsSound(g, id, e.move.dest, r.value);
    }
  }
}
