/** The rules of the board as functions of the grid: the obstacle walk, move legality, battles
    real and supposed, undo, entrance validity, end of game, counting and the headquarters
    distance. The class in module Boards runs these step by step and is proved against them. */
module Rules {
  import opened Points
  import opened Pieces
  import opened Grid

  datatype Option<T> = Nothing | Some(value: T)

  /** One entry of the undo log: the move and the pieces its two cells held before it. */
  datatype LogEntry = LogEntry(move: Move, srcPiece: Piece, destPiece: Piece)

  predicate MoveInBounds(m: Move) {
    InBounds(m.src) && InBounds(m.dest)
  }

  /** Log entries as `add_log` makes them: coordinates on the board, pieces read through `board()`. */
  predicate EntryWellformed(e: LogEntry) {
    MoveInBounds(e.move) && e.srcPiece.kind != DummyHeadquarters && e.destPiece.kind != DummyHeadquarters
  }

  function Logged(g: Cells, m: Move): (e: LogEntry)
    requires Wellformed(g) && MoveInBounds(m)
    ensures EntryWellformed(e)
  {
    LogEntry(m, At(g, m.src), At(g, m.dest))
  }

  // ---------------------------------------------------------------------------------------------
  // The obstacle walk (IsPieceHittingObstacle)

  /** Exactly one coordinate changes: the displacement is neither diagonal nor zero. */
  predicate IsStraight(m: Move) {
    var d := m.dest.Subtract(m.src);
    (d.y == 0) != (d.x == 0)
  }

  /** Number of unit steps of a straight move. */
  function Steps(m: Move): nat {
    var d := m.dest.Subtract(m.src);
    Abs(d.y) + Abs(d.x)
  }

  /** The cell k unit steps from the source toward the destination of a straight move. */
  function PathPoint(m: Move, k: int): Point
    requires IsStraight(m)
  {
    var d := m.dest.Subtract(m.src);
    if d.y > 0 then Point(m.src.y + k, m.src.x)
    else if d.y < 0 then Point(m.src.y - k, m.src.x)
    else if d.x > 0 then Point(m.src.y, m.src.x + k)
    else Point(m.src.y, m.src.x - k)
  }

  lemma PathPointFacts(m: Move, k: int)
    requires MoveInBounds(m) && IsStraight(m) && 0 <= k <= Steps(m)
    ensures InBounds(PathPoint(m, k))
    ensures Steps(m) >= 1
    ensures PathPoint(m, 0) == m.src && PathPoint(m, Steps(m)) == m.dest
    ensures PathPoint(m, k) == m.dest <==> k == Steps(m)
  {
  }

  /** A step from row `prev.y` to row `cur.y` that passes the midline between rows 3 and 4
      outside the two entrance columns 1 and 4. */
  predicate CrossesWall(prev: Point, cur: Point) {
    prev.y + cur.y == Height - 1 && cur.x != 1 && cur.x != Width - 2
  }

  /** One unit step of the path: the sign of the displacement along the axis that changes. */
  lemma PathPointStep(m: Move, k: int)
    requires IsStraight(m)
    ensures var d, c := m.dest.Subtract(m.src), PathPoint(m, k);
      PathPoint(m, k + 1) == if d.y != 0 then Point(c.y + (if d.y > 0 then 1 else -1), c.x)
                             else Point(c.y, c.x + (if d.x > 0 then 1 else -1))
  {
  }

  /** Step k of the path lands on an occupied cell short of the destination. */
  predicate OccupiedOnPath(g: Cells, m: Move, k: int)
    requires Wellformed(g) && MoveInBounds(m) && IsStraight(m)
  {
    1 <= k < Steps(m) && InBounds(PathPoint(m, k)) && At(g, PathPoint(m, k)).kind != None
  }

  /** Step k of the path crosses the midline outside an entrance column. */
  predicate WallOnPath(m: Move, k: int)
    requires IsStraight(m)
  {
    1 <= k <= Steps(m) && CrossesWall(PathPoint(m, k - 1), PathPoint(m, k))
  }

  /** Step k stops the walk. */
  predicate BlockedAt(g: Cells, m: Move, k: int)
    requires Wellformed(g) && MoveInBounds(m) && IsStraight(m)
  {
    OccupiedOnPath(g, m, k) || WallOnPath(m, k)
  }

  /** Which steps of the walk are blocked, step 0 (the source) included. */
  function Blocks(g: Cells, m: Move): (b: seq<bool>)
    requires Wellformed(g) && MoveInBounds(m) && IsStraight(m)
    ensures |b| == Steps(m) + 1
    ensures forall j :: 0 <= j <= Steps(m) ==> b[j] == BlockedAt(g, m, j)
  {
    seq(Steps(m) + 1, j => BlockedAt(g, m, j))
  }

  /** A walk whose blocked steps are b gets through steps 1..k without being stopped. */
  predicate ClearPrefix(b: seq<bool>, k: int)
    requires 0 <= k < |b|
    decreases k
  {
    k == 0 || (!b[k] && ClearPrefix(b, k - 1))
  }

  /** The walk gets through steps 1..k without being stopped. */
  predicate ClearThrough(g: Cells, m: Move, k: int)
    requires Wellformed(g) && MoveInBounds(m) && IsStraight(m) && 0 <= k <= Steps(m)
  {
    ClearPrefix(Blocks(g, m), k)
  }

  /** Whether a straight move is obstructed: the walk is stopped before it completes. */
  predicate HitsObstacle(g: Cells, m: Move)
    requires Wellformed(g) && MoveInBounds(m) && IsStraight(m)
  {
    !ClearThrough(g, m, Steps(m))
  }

  /** A step blocked within 1..k stops the walk before it gets through step k. */
  lemma {:induction false} BlockedStops(b: seq<bool>, k: int, j: int)
    requires 1 <= j <= k < |b| && b[j]
    ensures !ClearPrefix(b, k)
    decreases k
  {
    if j < k {
      BlockedStops(b, k - 1, j);
    }
  }

  /** A walk stopped within steps 1..k is blocked at one of them. */
  lemma {:induction false} BlockedStep(b: seq<bool>, k: int) returns (j: int)
    requires 0 <= k < |b| && !ClearPrefix(b, k)
    ensures 1 <= j <= k && b[j]
    decreases k
  {
    if b[k] {
      j := k;
    } else {
      j := BlockedStep(b, k - 1);
    }
  }

  /** The walk gets through steps 1..k exactly when none of them is blocked. */
  lemma ClearThroughIff(g: Cells, m: Move, k: int)
    requires Wellformed(g) && MoveInBounds(m) && IsStraight(m) && 0 <= k <= Steps(m)
    ensures ClearThrough(g, m, k) <==> forall j :: 1 <= j <= k ==> !BlockedAt(g, m, j)
  {
    var b := Blocks(g, m);
    forall j | 1 <= j <= k && BlockedAt(g, m, j)
      ensures !ClearThrough(g, m, k)
    {
      BlockedStops(b, k, j);
    }
    if !ClearThrough(g, m, k) {
      var j := BlockedStep(b, k);
    }
  }

  /** Getting through one more step: the walk clear through k that is not blocked at step
      k + 1 is clear through k + 1, and one blocked there is not. */
  lemma ClearThroughStep(g: Cells, m: Move, k: int)
    requires Wellformed(g) && MoveInBounds(m) && IsStraight(m) && 0 <= k < Steps(m)
    ensures ClearThrough(g, m, k + 1) <==> ClearThrough(g, m, k) && !BlockedAt(g, m, k + 1)
  {
  }

  /** One iteration of the walk from step k: the unit step along the axis that changes reaches
      step k + 1, and the two tests made there, with the previous row remembered as prevY,
      decide whether step k + 1 is blocked. */
  lemma WalkStep(g: Cells, m: Move, k: int, prevY: int, cur: Point)
    requires Wellformed(g) && MoveInBounds(m) && IsStraight(m) && 0 <= k < Steps(m)
    requires prevY == PathPoint(m, k).y
    requires var d, c := m.dest.Subtract(m.src), PathPoint(m, k);
      cur == if d.y != 0 then Point(c.y + (if d.y > 0 then 1 else -1), c.x)
             else Point(c.y, c.x + (if d.x > 0 then 1 else -1))
    ensures cur == PathPoint(m, k + 1) && InBounds(cur) && (cur.Equals(m.dest) <==> k + 1 == Steps(m))
    ensures BlockedAt(g, m, k + 1) <==>
      (At(g, cur).kind != None && !cur.Equals(m.dest)) ||
      (cur.y + prevY == Height - 1 && cur.x != 1 && cur.x != Width - 2)
  {
    PathPointFacts(m, k + 1);
    PathPointFacts(m, k);
  }

  /** The walk's two exits: a blocked step means an obstacle, and reaching the destination with
      no blocked step means none. */
  lemma WalkExits(g: Cells, m: Move, k: int)
    requires Wellformed(g) && MoveInBounds(m) && IsStraight(m) && 1 <= k <= Steps(m)
    ensures BlockedAt(g, m, k) ==> HitsObstacle(g, m)
  {
    ClearThroughIff(g, m, Steps(m));
  }

  /** The walk reports an obstacle exactly when some cell strictly between source and destination
      is occupied, or some step of the path crosses the midline outside an entrance column. */
  lemma HitsObstacleIff(g: Cells, m: Move)
    requires Wellformed(g) && MoveInBounds(m) && IsStraight(m)
    ensures HitsObstacle(g, m) <==>
      (exists k :: OccupiedOnPath(g, m, k)) || (exists k :: WallOnPath(m, k))
  {
    ClearThroughIff(g, m, Steps(m));
    if exists k :: OccupiedOnPath(g, m, k) {
      var k :| OccupiedOnPath(g, m, k);
      assert 1 <= k <= Steps(m) && BlockedAt(g, m, k);
    }
    if exists k :: WallOnPath(m, k) {
      var k :| WallOnPath(m, k);
      assert 1 <= k <= Steps(m) && BlockedAt(g, m, k);
    }
  }

  /** A one-step move is never blocked by a piece, only by the wall. */
  lemma OneStepObstacle(g: Cells, m: Move)
    requires Wellformed(g) && MoveInBounds(m) && IsStraight(m) && Steps(m) == 1
    ensures HitsObstacle(g, m) <==> CrossesWall(m.src, m.dest)
  {
    ClearThroughIff(g, m, 1);
    PathPointFacts(m, 1);
    PathPointFacts(m, 0);
    if CrossesWall(m.src, m.dest) {
      assert BlockedAt(g, m, 1);
    }
  }

  /** A longer move over an occupied intermediate cell is always blocked. */
  lemma OccupiedCellBlocks(g: Cells, m: Move, k: int)
    requires Wellformed(g) && MoveInBounds(m) && IsStraight(m) && OccupiedOnPath(g, m, k)
    ensures HitsObstacle(g, m)
  {
    HitsObstacleIff(g, m);
  }

  // ---------------------------------------------------------------------------------------------
  // Move legality (IsMoveValid)

  /** The displacement as seen by the mover: side 0 plays on a board rotated 180 degrees, so its
      displacement is inverted and "forward" is always negative y. */
  function Oriented(d: Point, owner: int): Point {
    if owner == 0 then d.Inverse() else d
  }

  function MoverDisplacement(g: Cells, m: Move): Point
    requires Wellformed(g) && MoveInBounds(m)
  {
    Oriented(m.dest.Subtract(m.src), At(g, m.src).owner)
  }

  lemma OrientedKeepsShape(d: Point, owner: int)
    ensures var o := Oriented(d, owner);
      (o.y == 0 <==> d.y == 0) && (o.x == 0 <==> d.x == 0) && Abs(o.y) == Abs(d.y) && Abs(o.x) == Abs(d.x)
  {
  }

  /** `IsMoveValid(move)`, branch for branch. */
  predicate IsMoveValid(g: Cells, m: Move)
    requires Wellformed(g) && MoveInBounds(m)
  {
    var s, t := At(g, m.src), At(g, m.dest);
    if !s.IsMovable() then false
    else if s.owner == t.owner && t.IsPiece() then false
    else
      var d := MoverDisplacement(g, m);
      if (d.y != 0 && d.x != 0) || (d.y == 0 && d.x == 0) then false
      else
        OrientedKeepsShape(m.dest.Subtract(m.src), s.owner);
        KindAllows(s.kind, d, HitsObstacle(g, m))
  }

  /** The per-rank part of the test, on the mover's displacement d and the obstacle test. */
  predicate KindAllows(kind: Kind, d: Point, hits: bool) {
    var yInRange := Abs(d.y) == 1;
    var xInRange := Abs(d.x) == 1;
    if kind == Tank || kind == Cavalry then ((yInRange || d.y == -2) && !hits) || xInRange
    else if kind == Engineer then !hits
    else if kind == Plane then d.y != 0 || xInRange
    else (yInRange && !hits) || xInRange
  }

  /** For every kind: a valid move starts at a movable piece, does not end on a piece of the
      mover's side, is straight, and joins two different logical cells. */
  lemma MoveRejections(g: Cells, m: Move)
    requires Wellformed(g) && MoveInBounds(m)
    ensures IsMoveValid(g, m) ==> At(g, m.src).IsMovable()
    ensures IsMoveValid(g, m) ==> !(At(g, m.dest).IsPiece() && At(g, m.dest).owner == At(g, m.src).owner)
    ensures IsMoveValid(g, m) ==> IsStraight(m) && Normalize(m.src) != Normalize(m.dest)
  {
    OrientedKeepsShape(m.dest.Subtract(m.src), At(g, m.src).owner);
  }

  /** The checks every kind shares: a movable source and no own piece at the destination. */
  predicate MayLeave(g: Cells, m: Move)
    requires Wellformed(g) && MoveInBounds(m)
  {
    At(g, m.src).IsMovable() && !(At(g, m.dest).IsPiece() && At(g, m.dest).owner == At(g, m.src).owner)
  }

  /** No piece strictly between source and destination and no wall crossing on the way. */
  predicate PathClear(g: Cells, m: Move)
    requires Wellformed(g) && MoveInBounds(m) && IsStraight(m)
  {
    (forall k :: 1 <= k < Steps(m) ==> !OccupiedOnPath(g, m, k)) &&
    (forall k :: 1 <= k <= Steps(m) ==> !WallOnPath(m, k))
  }

  lemma ClearIffNoObstacle(g: Cells, m: Move)
    requires Wellformed(g) && MoveInBounds(m) && IsStraight(m)
    ensures !HitsObstacle(g, m) <==> PathClear(g, m)
  {
    HitsObstacleIff(g, m);
  }

  /** Per-kind reach, stated with the path test unfolded. */
  lemma MoveReach(g: Cells, m: Move)
    requires Wellformed(g) && MoveInBounds(m)
    ensures var s, d := At(g, m.src), MoverDisplacement(g, m);
      IsMoveValid(g, m) <==>
        (MayLeave(g, m) && IsStraight(m) &&
         if s.kind == Tank || s.kind == Cavalry then
           (Steps(m) == 1 && !CrossesWall(m.src, m.dest)) || (d.y == -2 && PathClear(g, m))
         else if s.kind == Engineer then PathClear(g, m)
         else if s.kind == Plane then d.x == 0 || Steps(m) == 1
         else Steps(m) == 1 && !CrossesWall(m.src, m.dest))
  {
    OrientedKeepsShape(m.dest.Subtract(m.src), At(g, m.src).owner);
    if MayLeave(g, m) && IsStraight(m) {
      ClearIffNoObstacle(g, m);
      if Steps(m) == 1 {
        OneStepObstacle(g, m);
      }
    }
  }

  /** Whatever the grid holds between them, a plane may make any vertical move. */
  lemma PlaneIgnoresObstacles(g: Cells, m: Move)
    requires Wellformed(g) && MoveInBounds(m) && MayLeave(g, m) && At(g, m.src).kind == Plane
    requires m.src.x == m.dest.x && m.src.y != m.dest.y
    ensures IsMoveValid(g, m)
  {
  }

  // ---------------------------------------------------------------------------------------------
  // Counting placeable squares (CountNumPlaceableSquares)

  /** Whether the destination with raw index i is counted, filter included. */
  predicate CountsAsPlaceable(g: Cells, src: Point, i: int)
    requires Wellformed(g) && InBounds(src) && 0 <= i < NumCells
  {
    AtIndex(g, i).kind != DummyHeadquarters && ValidTo(g, src, i)
  }

  predicate ValidTo(g: Cells, src: Point, i: int)
    requires Wellformed(g) && InBounds(src) && 0 <= i < NumCells
  {
    IsMoveValid(g, Move(src, PointOf(i)))
  }

  /** The placeholder test reads through the redirection, so it never excludes a destination. */
  lemma DummyFilterNeverFires(g: Cells, src: Point, i: int)
    requires Wellformed(g) && InBounds(src) && 0 <= i < NumCells
    ensures CountsAsPlaceable(g, src, i) == ValidTo(g, src, i)
  {
  }

  /** The test the scan makes at cell (y, x), whose raw index is row + x: the count grows by one
      exactly when that destination passes it. */
  lemma PlaceableAtCell(g: Cells, src: Point, y: int, x: int, row: int, counted: bool)
    requires Wellformed(g) && InBounds(src) && 0 <= y < Height && 0 <= x < Width && row == y * Width
    requires counted == (At(g, Point(y, x)).kind != DummyHeadquarters && IsMoveValid(g, Move(src, Point(y, x))))
    ensures 0 <= row + x < NumCells
    ensures PlaceableUpTo(g, src, row + (x + 1)) == PlaceableUpTo(g, src, row + x) + (if counted then 1 else 0)
  {
    CellIndex(g, y, x, row);
  }

  /** Which raw indices the scan counts as destinations from src. */
  function PlaceableMarks(g: Cells, src: Point): (b: seq<bool>)
    requires Wellformed(g) && InBounds(src)
    ensures |b| == NumCells
    ensures forall i :: 0 <= i < NumCells ==> b[i] == CountsAsPlaceable(g, src, i)
  {
    seq(NumCells, i requires 0 <= i < NumCells => CountsAsPlaceable(g, src, i))
  }

  /** Number of marked indices among 0..n-1. */
  function MarkedUpTo(b: seq<bool>, n: int): nat
    requires 0 <= n <= |b|
  {
    if n == 0 then 0 else MarkedUpTo(b, n - 1) + (if b[n - 1] then 1 else 0)
  }

  /** Number of counted destinations among raw indices 0..n-1. */
  function PlaceableUpTo(g: Cells, src: Point, n: int): nat
    requires Wellformed(g) && InBounds(src) && 0 <= n <= NumCells
  {
    MarkedUpTo(PlaceableMarks(g, src), n)
  }

  /** The count is positive exactly when some destination coordinate below n is a valid move. */
  lemma PlaceableIsValidMoves(g: Cells, src: Point, n: int)
    requires Wellformed(g) && InBounds(src) && 0 <= n <= NumCells
    ensures PlaceableUpTo(g, src, n) > 0 <==> exists i :: 0 <= i < n && ValidTo(g, src, i)
    ensures PlaceableUpTo(g, src, n) <= n
  {
    var b := PlaceableMarks(g, src);
    MarkedBound(b, n);
    if PlaceableUpTo(g, src, n) > 0 {
      var i := MarkedWitness(b, n);
      DummyFilterNeverFires(g, src, i);
    }
    if exists i :: 0 <= i < n && ValidTo(g, src, i) {
      var i :| 0 <= i < n && ValidTo(g, src, i);
      DummyFilterNeverFires(g, src, i);
      MarkedFromWitness(b, n, i);
    }
  }

  /** The count never exceeds the number of indices scanned. */
  lemma {:induction false} MarkedBound(b: seq<bool>, n: int)
    requires 0 <= n <= |b|
    ensures MarkedUpTo(b, n) <= n
  {
    if n > 0 {
      MarkedBound(b, n - 1);
    }
  }

  /** A positive count has a marked index below n. */
  lemma {:induction false} MarkedWitness(b: seq<bool>, n: int) returns (i: int)
    requires 0 <= n <= |b| && MarkedUpTo(b, n) > 0
    ensures 0 <= i < n && b[i]
  {
    if b[n - 1] {
      i := n - 1;
    } else {
      i := MarkedWitness(b, n - 1);
    }
  }

  /** A marked index below n makes the count positive. */
  lemma {:induction false} MarkedFromWitness(b: seq<bool>, n: int, i: int)
    requires 0 <= i < n <= |b| && b[i]
    ensures MarkedUpTo(b, n) > 0
  {
    if i < n - 1 {
      MarkedFromWitness(b, n - 1, i);
    }
  }

  // ---------------------------------------------------------------------------------------------
  // Counting pieces (CountNumPieces)

  predicate OwnsPieceAt(g: Cells, id: int, i: int)
    requires Wellformed(g) && 0 <= i < NumCells
  {
    var p := AtIndex(g, i);
    p.owner == id && p.IsPiece()
  }

  function PiecesUpTo(g: Cells, id: int, n: int): nat
    requires Wellformed(g) && 0 <= n <= NumCells
  {
    if n == 0 then 0 else PiecesUpTo(g, id, n - 1) + (if OwnsPieceAt(g, id, n - 1) then 1 else 0)
  }

  /** The number of raw cells among s that hold a piece of side id. */
  function RawPieces(s: seq<Piece>, id: int): nat {
    if s == [] then 0
    else RawPieces(s[..|s| - 1], id) + (if s[|s| - 1].owner == id && s[|s| - 1].IsPiece() then 1 else 0)
  }

  function HeadquartersBonus(g: Cells, id: int, n: int): nat
    requires Wellformed(g)
  {
    (if n > 3 && g[2].owner == id && g[2].IsPiece() then 1 else 0) +
    (if n > 45 && g[44].owner == id && g[44].IsPiece() then 1 else 0)
  }

  lemma {:induction false} PiecesUpToCountsHeadquartersTwice(g: Cells, id: int, n: int)
    requires Wellformed(g) && 0 <= n <= NumCells
    ensures PiecesUpTo(g, id, n) == RawPieces(g[..n], id) + HeadquartersBonus(g, id, n)
  {
    if n > 0 {
      PiecesUpToCountsHeadquartersTwice(g, id, n - 1);
      assert g[..n][..n - 1] == g[..n - 1];
      assert g[..n][n - 1] == g[n - 1];
    }
  }

  /** A scan of all 48 coordinates counts every raw piece of side id once, and the occupant of a
      headquarters cell a second time through its placeholder coordinate. */
  lemma CountsHeadquartersTwice(g: Cells, id: int)
    requires Wellformed(g)
    ensures PiecesUpTo(g, id, NumCells) ==
      RawPieces(g, id) + (if At(g, Point(0, 2)).owner == id && At(g, Point(0, 2)).IsPiece() then 1 else 0)
                       + (if At(g, Point(7, 2)).owner == id && At(g, Point(7, 2)).IsPiece() then 1 else 0)
  {
    PiecesUpToCountsHeadquartersTwice(g, id, NumCells);
    assert g[..NumCells] == g;
  }

  // ---------------------------------------------------------------------------------------------
  // Entrance validity (IsValid)

  /** The entrances of side id: Entrances[0..2] for side 0, Entrances[2..4] for any other id. */
  function EntrancesOf(id: int): seq<Point> {
    if id == 0 then Entrances[0..2] else Entrances[2..4]
  }

  /** The entrances among es that hold a mine or a flag, in order. */
  function Offending(g: Cells, es: seq<Point>): seq<Point>
    requires Wellformed(g) && forall i :: 0 <= i < |es| ==> InBounds(es[i])
  {
    if es == [] then []
    else Offending(g, es[..|es| - 1]) + (if At(g, es[|es| - 1]).IsNotMovable() then [es[|es| - 1]] else [])
  }

  lemma {:induction false} OffendingMeans(g: Cells, es: seq<Point>)
    requires Wellformed(g) && forall i :: 0 <= i < |es| ==> InBounds(es[i])
    ensures forall e <- Offending(g, es) :: e in es && At(g, e).IsNotMovable()
    ensures forall e <- es :: At(g, e).IsNotMovable() ==> e in Offending(g, es)
    ensures Offending(g, es) == [] <==> forall e <- es :: !At(g, e).IsNotMovable()
  {
    if es != [] {
      OffendingMeans(g, es[..|es| - 1]);
      assert es == es[..|es| - 1] + [es[|es| - 1]];
    }
  }

  lemma EntrancesInBounds()
    ensures forall i :: 0 <= i < |Entrances| ==> InBounds(Entrances[i])
  {
  }

  /** The scan of `IsValid` over the first n points of es, by index. */
  function ScanEntrances(g: Cells, es: seq<Point>, n: int): seq<Point>
    requires Wellformed(g) && (forall i :: 0 <= i < |es| ==> InBounds(es[i])) && 0 <= n <= |es|
  {
    if n == 0 then []
    else ScanEntrances(g, es, n - 1) + (if At(g, es[n - 1]).IsNotMovable() then [es[n - 1]] else [])
  }

  /** The scan by index reports the offending points of the prefix it runs over. */
  lemma {:induction false} ScanIsOffending(g: Cells, es: seq<Point>, n: int)
    requires Wellformed(g) && (forall i :: 0 <= i < |es| ==> InBounds(es[i])) && 0 <= n <= |es|
    ensures forall i :: 0 <= i < n ==> InBounds(es[..n][i])
    ensures ScanEntrances(g, es, n) == Offending(g, es[..n])
    ensures n == |es| ==> ScanEntrances(g, es, n) == Offending(g, es)
  {
    assert es[..|es|] == es;
    if n > 0 {
      ScanIsOffending(g, es, n - 1);
      assert es[..n][..n - 1] == es[..n - 1];
    }
  }

  lemma {:induction false} OffendingFrame(g: Cells, h: Cells, es: seq<Point>)
    requires Wellformed(g) && Wellformed(h) && forall i :: 0 <= i < |es| ==> InBounds(es[i])
    requires forall e <- es :: At(g, e) == At(h, e)
    ensures Offending(g, es) == Offending(h, es)
  {
    if es != [] {
      OffendingFrame(g, h, es[..|es| - 1]);
    }
  }

  /** `IsValid(id)` holds iff neither of side id's entrances holds a mine or a flag; the offending
      entrances are exactly the ones it reports. */
  lemma EntranceRule(g: Cells, id: int)
    requires Wellformed(g)
    ensures var es := Offending(g, EntrancesOf(id));
      (es == [] <==> !At(g, EntrancesOf(id)[0]).IsNotMovable() && !At(g, EntrancesOf(id)[1]).IsNotMovable()) &&
      (forall e <- es :: e in EntrancesOf(id) && At(g, e).IsNotMovable())
  {
    OffendingMeans(g, EntrancesOf(id));
  }

  lemma EntrancesInHalf(id: int)
    requires 0 <= id <= 1
    ensures forall e <- EntrancesOf(id) :: InHalf(e, id)
  {
  }

  // ---------------------------------------------------------------------------------------------
  // Initial layout (Initialize)

  /** Half id holds exactly NumEachPiece[k] pieces of kind k, each owned by id with no belief. */
  predicate QuotaHolds(g: Cells, id: int)
    requires |g| == NumCells && 0 <= id <= 1
  {
    forall k :: 0 <= k < NumKinds ==> multiset(Half(g, id))[Piece(k, None, id)] == NumEachPiece[k]
  }

  /** Every cell of half id, placeholder included, is owned by id and carries no belief. */
  predicate FreshHalf(g: Cells, id: int)
    requires |g| == NumCells && 0 <= id <= 1
  {
    forall x | x in multiset(Half(g, id)) :: x.owner == id && x.supposition == None
  }

  predicate InitialLayout(g: Cells, id: int)
    requires |g| == NumCells && 0 <= id <= 1
  {
    QuotaHolds(g, id) && FreshHalf(g, id)
  }

  /** Any rearrangement of a half keeps its layout properties. */
  lemma LayoutDependsOnMultiset(g: Cells, h: Cells, id: int)
    requires |g| == NumCells && |h| == NumCells && 0 <= id <= 1
    requires multiset(Half(g, id)) == multiset(Half(h, id))
    ensures InitialLayout(g, id) <==> InitialLayout(h, id)
  {
  }

  // ---------------------------------------------------------------------------------------------
  // Random points (DeterminePointRandomly)

  /** The point drawn from two raw random values `ry` and `rx` (results of rand()). */
  function DeterminePointRandomly(id: int, ry: nat, rx: nat): (p: Point)
    ensures InBounds(p)
    ensures id == 1 ==> InHalf(p, 1)
    ensures id != 1 ==> InHalf(p, 0)
  {
    Point(ry % (Height / 2) + (if id == 1 then Height / 2 else 0), rx % Width)
  }

  /** Every cell of a half can be drawn. */
  lemma EveryPointOfHalfIsDrawn(id: int, p: Point)
    requires 0 <= id <= 1 && InHalf(p, id)
    ensures DeterminePointRandomly(id, p.y - 4 * id, p.x) == p
  {
  }

  // ---------------------------------------------------------------------------------------------
  // Battle

  /** The piece directly behind a flag at m.dest, on its owner's side, if the board has that row. */
  function Guard(g: Cells, m: Move): Option<Piece>
    requires Wellformed(g) && MoveInBounds(m)
  {
    var d := At(g, m.dest);
    if d.owner == 0 && 0 < m.dest.y then Some(At(g, Point(m.dest.y - 1, m.dest.x)))
    else if d.owner == 1 && m.dest.y < Height - 1 then Some(At(g, Point(m.dest.y + 1, m.dest.x)))
    else Nothing
  }

  /** The defender is a flag guarded by a piece of the flag's owner: that piece fights instead. */
  predicate GuardFights(g: Cells, m: Move)
    requires Wellformed(g) && MoveInBounds(m)
  {
    var d, gd := At(g, m.dest), Guard(g, m);
    d.kind == Flag && gd.Some? && gd.value.IsPiece() && gd.value.owner == d.owner
  }

  /** Every table lookup the battle makes is inside the table (the table has no row or column
      for the flag, and indexing outside it is undefined). */
  predicate BattleDefined(g: Cells, m: Move)
    requires Wellformed(g) && MoveInBounds(m)
  {
    var s, d := At(g, m.src), At(g, m.dest);
    if d.kind == Flag then GuardFights(g, m) ==> InTable(s.kind) && InTable(Guard(g, m).value.kind)
    else d.kind == None || (InTable(s.kind) && InTable(d.kind))
  }

  function BattleResultOf(g: Cells, m: Move): BattleResult
    requires Wellformed(g) && MoveInBounds(m) && BattleDefined(g, m)
  {
    var s, d := At(g, m.src), At(g, m.dest);
    if d.kind == Flag then (if GuardFights(g, m) then Lookup(s.kind, Guard(g, m).value.kind) else Win)
    else if d.kind == None then Win
    else Lookup(s.kind, d.kind)
  }

  predicate MineGuardsFlag(g: Cells, m: Move)
    requires Wellformed(g) && MoveInBounds(m)
  {
    GuardFights(g, m) && Guard(g, m).value.kind == Mine
  }

  /** The grid after `Battle(move)`, written in the order of its stores. */
  function BattleCells(g: Cells, m: Move): (h: Cells)
    requires Wellformed(g) && MoveInBounds(m) && BattleDefined(g, m)
    ensures Wellformed(h)
  {
    var s, d := At(g, m.src), At(g, m.dest);
    var result := BattleResultOf(g, m);
    var g1 := if MineGuardsFlag(g, m) then Delete(g, m.dest) else g;
    var g2 := Delete(g1, m.src);
    match result
    case Lose => if d.kind == Mine then Delete(g2, m.dest) else g2
    case Win => Store(g2, m.dest, s)
    case Draw => Delete(g2, m.dest)
  }

  /** Two grids agree on every raw cell except possibly a and b. */
  predicate SameExcept(h: Cells, g: Cells, a: int, b: int) {
    |h| == |g| && forall i :: 0 <= i < |g| && i != a && i != b ==> h[i] == g[i]
  }

  /** What a battle leaves on its two cells; every other cell is unchanged, guard included. */
  lemma BattleEffect(g: Cells, m: Move)
    requires Wellformed(g) && MoveInBounds(m) && BattleDefined(g, m)
    requires Normalize(m.src) != Normalize(m.dest)
    ensures var h, s, d := BattleCells(g, m), At(g, m.src), At(g, m.dest);
      At(h, m.src) == DeletedPiece(m.src) &&
      At(h, m.dest) == (match BattleResultOf(g, m)
                        case Win => s
                        case Draw => DeletedPiece(m.dest)
                        case Lose => if d.kind == Mine || MineGuardsFlag(g, m) then DeletedPiece(m.dest) else d) &&
      SameExcept(h, g, Index(Normalize(m.src)), Index(Normalize(m.dest)))
  {
    var s, d := Index(Normalize(m.src)), Index(Normalize(m.dest));
    IndexIsInjective(Normalize(m.src), Normalize(m.dest));
  }

  /** The outcomes in words: an empty destination is entered; a win moves the attacker in; a draw
      removes both; a loss removes the attacker and, if the defender is a mine, the mine too; a
      flag is fought by its guard, and a mine guarding a flag clears the flag's cell. */
  lemma BattleOutcomes(g: Cells, m: Move)
    requires Wellformed(g) && MoveInBounds(m) && BattleDefined(g, m)
    requires Normalize(m.src) != Normalize(m.dest)
    ensures var h, s, d := BattleCells(g, m), At(g, m.src), At(g, m.dest);
      (d.kind == None ==> At(h, m.dest) == s) &&
      (d.kind == Flag && !GuardFights(g, m) ==> At(h, m.dest) == s) &&
      (d.kind != Flag && d.kind != None && d.kind != Mine ==>
         At(h, m.dest) == match Lookup(s.kind, d.kind) case Win => s case Lose => d case Draw => DeletedPiece(m.dest)) &&
      (d.kind == Mine ==> At(h, m.dest) == if Lookup(s.kind, Mine) == Win then s else DeletedPiece(m.dest)) &&
      (MineGuardsFlag(g, m) ==> At(h, m.dest) == if Lookup(s.kind, Mine) == Win then s else DeletedPiece(m.dest))
  {
    BattleEffect(g, m);
  }

  // ---------------------------------------------------------------------------------------------
  // Supposed battle (SupposeBattle)

  /** The kind the supposer reckons with: the true kind of its own pieces, its belief otherwise. */
  function Effective(p: Piece, supposer: int): Kind {
    if p.owner == supposer then p.kind else p.supposition
  }

  predicate SupposedBattleDefined(g: Cells, supposer: int, m: Move)
    requires Wellformed(g) && MoveInBounds(m)
  {
    var sk, dk := Effective(At(g, m.src), supposer), Effective(At(g, m.dest), supposer);
    dk == None || (InTable(sk) && InTable(dk))
  }

  function SupposedResult(g: Cells, supposer: int, m: Move): BattleResult
    requires Wellformed(g) && MoveInBounds(m) && SupposedBattleDefined(g, supposer, m)
  {
    var sk, dk := Effective(At(g, m.src), supposer), Effective(At(g, m.dest), supposer);
    if dk == None then Win else Lookup(sk, dk)
  }

  /** The grid after `SupposeBattle(supposer, move)`. */
  function SupposeBattleCells(g: Cells, supposer: int, m: Move): (h: Cells)
    requires Wellformed(g) && MoveInBounds(m) && SupposedBattleDefined(g, supposer, m)
    ensures Wellformed(h)
  {
    var s := At(g, m.src);
    var g2 := Delete(g, m.src);
    match SupposedResult(g, supposer, m)
    case Lose => g2
    case Win => Store(g2, m.dest, s)
    case Draw => Delete(g2, m.dest)
  }

  /** A supposed battle has no flag or mine rule: the defender survives every loss, an unknown
      defender always loses, and only the two cells change. */
  lemma SupposedOutcomes(g: Cells, supposer: int, m: Move)
    requires Wellformed(g) && MoveInBounds(m) && SupposedBattleDefined(g, supposer, m)
    requires Normalize(m.src) != Normalize(m.dest)
    ensures var h, s, d := SupposeBattleCells(g, supposer, m), At(g, m.src), At(g, m.dest);
      At(h, m.src) == DeletedPiece(m.src) &&
      (Effective(d, supposer) == None ==> At(h, m.dest) == s) &&
      At(h, m.dest) == (match SupposedResult(g, supposer, m)
                        case Win => s case Lose => d case Draw => DeletedPiece(m.dest)) &&
      SameExcept(h, g, Index(Normalize(m.src)), Index(Normalize(m.dest)))
  {
    IndexIsInjective(Normalize(m.src), Normalize(m.dest));
  }

  // ---------------------------------------------------------------------------------------------
  // Undo

  /** The grid after `Undo()` pops entry e: its source piece, then its destination piece, written back. */
  function UndoCells(g: Cells, e: LogEntry): (h: Cells)
    requires Wellformed(g) && EntryWellformed(e)
    ensures Wellformed(h)
  {
    Store(Store(g, e.move.src, e.srcPiece), e.move.dest, e.destPiece)
  }

  lemma {:induction false} UndoRestores(g: Cells, h: Cells, m: Move)
    requires Wellformed(g) && Wellformed(h) && MoveInBounds(m)
    requires SameExcept(h, g, Index(Normalize(m.src)), Index(Normalize(m.dest)))
    ensures UndoCells(h, Logged(g, m)) == g
  {
    var s, d := Index(Normalize(m.src)), Index(Normalize(m.dest));
    var u := UndoCells(h, Logged(g, m));
    assert u == h[s := g[s]][d := g[d]];
    assert forall i :: 0 <= i < NumCells ==> u[i] == g[i];
  }

  /** Undo is the exact inverse of a battle. */
  lemma BattleThenUndo(g: Cells, m: Move)
    requires Wellformed(g) && MoveInBounds(m) && BattleDefined(g, m)
    ensures UndoCells(BattleCells(g, m), Logged(g, m)) == g
  {
    if Normalize(m.src) != Normalize(m.dest) {
      BattleEffect(g, m);
      UndoRestores(g, BattleCells(g, m), m);
    } else {
      IndexIsInjective(m.src, m.dest);
      var s := Index(Normalize(m.src));
      var u := UndoCells(BattleCells(g, m), Logged(g, m));
      assert u[s] == g[s];
      assert forall i :: 0 <= i < NumCells ==> u[i] == g[i];
    }
  }

  /** Undo is the exact inverse of a supposed battle. */
  lemma SupposeBattleThenUndo(g: Cells, supposer: int, m: Move)
    requires Wellformed(g) && MoveInBounds(m) && SupposedBattleDefined(g, supposer, m)
    ensures UndoCells(SupposeBattleCells(g, supposer, m), Logged(g, m)) == g
  {
    if Normalize(m.src) != Normalize(m.dest) {
      SupposedOutcomes(g, supposer, m);
      UndoRestores(g, SupposeBattleCells(g, supposer, m), m);
    } else {
      var s := Index(Normalize(m.src));
      var u := UndoCells(SupposeBattleCells(g, supposer, m), Logged(g, m));
      assert u[s] == g[s];
      assert forall i :: 0 <= i < NumCells ==> u[i] == g[i];
    }
  }

  // ---------------------------------------------------------------------------------------------
  // End of game (IsEnd)

  datatype EndState = Ongoing | Won(winner: int) | Drawn

  /** The opponent stands on side id's headquarters cell with a general or a field officer. */
  predicate HeadquartersTaken(g: Cells, id: int)
    requires Wellformed(g) && 0 <= id <= 1
  {
    var hq := At(g, Headquarters[id][0]);
    hq.owner == 1 - id && (hq.IsShokan() || hq.IsSakan())
  }

  predicate MovableAt(g: Cells, id: int, i: int)
    requires Wellformed(g) && 0 <= i < NumCells
  {
    var p := AtIndex(g, i);
    p.owner == id && p.IsMovable()
  }

  predicate HasMovable(g: Cells, id: int)
    requires Wellformed(g)
  {
    exists i :: 0 <= i < NumCells && MovableAt(g, id, i)
  }

  /** Side 0 is examined before side 1: a taken headquarters ends the game at once; a side without
      a movable piece loses, and if both lack one the game is drawn. */
  function EndOf(g: Cells): EndState
    requires Wellformed(g)
  {
    if HeadquartersTaken(g, 0) then Won(1)
    else if HeadquartersTaken(g, 1) then Won(0)
    else if !HasMovable(g, 0) && !HasMovable(g, 1) then Drawn
    else if !HasMovable(g, 0) then Won(1)
    else if !HasMovable(g, 1) then Won(0)
    else Ongoing
  }

  // ---------------------------------------------------------------------------------------------
  // Distance to a headquarters (MeasureDistanceToHeadquartersOf)

  function Manhattan(a: Point, b: Point): nat {
    var d := a.Subtract(b);
    Abs(d.y) + Abs(d.x)
  }

  const IntMax: int := 0x7fff_ffff

  /** The nearer of side id's two headquarters coordinates, by Manhattan distance. */
  function NearestHeadquarters(id: int, p: Point): (r: nat)
    requires 0 <= id <= 1
    ensures r <= Manhattan(Headquarters[id][0], p) && r <= Manhattan(Headquarters[id][1], p)
    ensures r == Manhattan(Headquarters[id][0], p) || r == Manhattan(Headquarters[id][1], p)
  {
    var a, b := Manhattan(Headquarters[id][0], p), Manhattan(Headquarters[id][1], p);
    if b < a then b else a
  }

  /** The detour of 2 charged to a point in the other half that stands in one of the two
      headquarters columns; the half is found with C++ division. The divisor 4 is Height / 2 and
      the columns 2 and 3 are Width / 2 - 1 and Width / 2, written out as numbers so that the
      division stays linear. */
  function DetourPenalty(id: int, p: Point): nat {
    if id != DivTowardZero(p.y, 4) && (p.x == 2 || p.x == 3) then 2 else 0
  }

  function DistanceToHeadquarters(id: int, p: Point): nat
    requires 0 <= id <= 1
  {
    NearestHeadquarters(id, p) + DetourPenalty(id, p)
  }

  /** The distance is the nearer headquarters coordinate plus the detour, the detour falls exactly
      on the other half's columns 2 and 3, and a side's own headquarters is at distance 0. */
  lemma DistanceFacts(id: int, p: Point)
    requires 0 <= id <= 1 && InBounds(p)
    ensures DetourPenalty(id, p) == 2 <==> !InHalf(p, id) && (p.x == 2 || p.x == 3)
    ensures DetourPenalty(id, p) == 0 <==> InHalf(p, id) || (p.x != 2 && p.x != 3)
    ensures Normalize(p) == Headquarters[id][0] ==> DistanceToHeadquarters(id, p) == 0
    ensures DistanceToHeadquarters(id, p) <= 11
  {
    DetourExact(id, p);
    if Normalize(p) == Headquarters[id][0] {
      HomeDistance(id, p);
    }
    NearestBound(id, p);
  }

  /** A side's own headquarters, under either of its coordinates, is at distance 0. */
  lemma HomeDistance(id: int, p: Point)
    requires 0 <= id <= 1 && Normalize(p) == Headquarters[id][0]
    ensures DistanceToHeadquarters(id, p) == 0
  {
    var h0, h1 := Headquarters[id][0], Headquarters[id][1];
    if id == 0 {
      assert h0 == Point(0, 2) && h1 == Point(0, 3);
    } else {
      assert h0 == Point(7, 2) && h1 == Point(7, 3);
    }
    assert p == h0 || p == h1;
    assert p.y == 7 * id && DivTowardZero(p.y, 4) == id;
    assert DetourPenalty(id, p) == 0;
    if p == h0 {
      assert Manhattan(h0, p) == 0;
    } else {
      assert Manhattan(h1, p) == 0;
    }
  }

  lemma DetourExact(id: int, p: Point)
    requires 0 <= id <= 1 && InBounds(p)
    ensures DetourPenalty(id, p) == if !InHalf(p, id) && (p.x == 2 || p.x == 3) then 2 else 0
  {
    HalfRows(p);
    assert DivTowardZero(p.y, 4) == p.y / 4;
  }

  lemma NearestBound(id: int, p: Point)
    requires 0 <= id <= 1 && InBounds(p)
    ensures NearestHeadquarters(id, p) <= 9
  {
    var h0, h1 := Headquarters[id][0], Headquarters[id][1];
    assert h0.x == 2 && h1.x == 3 && h0.y == h1.y && 0 <= h0.y < Height;
    if p.x <= 2 {
      assert Manhattan(h0, p) <= 9;
    } else {
      assert Manhattan(h1, p) <= 9;
    }
  }

  /** The game's outcome in each case, as an equivalence. */
  lemma EndOfCases(g: Cells)
    requires Wellformed(g)
    ensures EndOf(g) == Won(1) <==>
      HeadquartersTaken(g, 0) || (!HeadquartersTaken(g, 1) && !HasMovable(g, 0) && HasMovable(g, 1))
    ensures EndOf(g) == Won(0) <==>
      !HeadquartersTaken(g, 0) && (HeadquartersTaken(g, 1) || (HasMovable(g, 0) && !HasMovable(g, 1)))
    ensures EndOf(g) == Drawn <==>
      !HeadquartersTaken(g, 0) && !HeadquartersTaken(g, 1) && !HasMovable(g, 0) && !HasMovable(g, 1)
    ensures EndOf(g) == Ongoing <==>
      !HeadquartersTaken(g, 0) && !HeadquartersTaken(g, 1) && HasMovable(g, 0) && HasMovable(g, 1)
  {
  }

  /** A headquarters is only taken by a movable piece, so a side that takes one still has one. */
  lemma TakerIsMovable(g: Cells, id: int)
    requires Wellformed(g) && 0 <= id <= 1 && HeadquartersTaken(g, id)
    ensures HasMovable(g, 1 - id)
  {
    var i := Index(Normalize(Headquarters[id][0]));
    assert MovableAt(g, 1 - id, i);
  }
}
