/** The board object: the 48 cells in a fixed array and the undo log, with the operations that
    read or rewrite them. Every method is proved against the functions of module Rules. */
module Boards {
  import opened Points
  import opened Pieces
  import opened Grid
  import opened Rules

  class Board {
    /** Cell (y, x) is cells[y * Width + x]. */
    const cells: array<Piece>
    /** The undo log; its last element is the most recent move. */
    var log: seq<LogEntry>

    ghost predicate Valid()
      reads this, cells
    {
      cells.Length == NumCells && Wellformed(cells[..]) && forall e <- log :: EntryWellformed(e)
    }

    /** The cells are left unset until `Initialize`; here they start as some fixed piece. */
    constructor ()
      ensures fresh(cells) && cells.Length == NumCells && log == []
    {
      cells := new Piece[NumCells](_ => Piece(None, None, 0));
      log := [];
    }

    /** Whether the raw cell at p holds the placeholder. */
    predicate IsDummyHeadquarters(p: Point)
      reads this, cells
      requires Valid() && InBounds(p)
      ensures IsDummyHeadquarters(p) <==> p == Headquarters[0][1] || p == Headquarters[1][1]
    {
      cells[p.y * Width + p.x].kind == DummyHeadquarters
    }

    /** `board(p)`: the piece p stands for. */
    function Get(p: Point): (r: Piece)
      reads this, cells
      requires Valid() && InBounds(p)
      ensures r == At(cells[..], p)
      ensures r.kind != DummyHeadquarters
    {
      cells[p.y * Width + p.x + (if IsDummyHeadquarters(p) then -1 else 0)]
    }

    method SetBoard(piece: Piece, p: Point)
      requires Valid() && InBounds(p)
      modifies cells
      ensures cells[..] == Store(old(cells[..]), p, piece)
      ensures piece.kind != DummyHeadquarters ==> Valid()
    {
      var x := p.x + (if IsDummyHeadquarters(p) then -1 else 0);
      cells[p.y * Width + x] := piece;
    }

    method Delete(p: Point)
      requires Valid() && InBounds(p)
      modifies cells
      ensures cells[..] == Grid.Delete(old(cells[..]), p)
      ensures Valid()
    {
      SetBoard(Piece(None, None, p.y / (Height / 2)), p);
    }

    method AddLog(m: Move)
      requires Valid() && MoveInBounds(m)
      modifies this
      ensures log == old(log) + [Logged(cells[..], m)]
      ensures Valid()
    {
      log := log + [LogEntry(m, Get(m.src), Get(m.dest))];
    }

    /** Replaces the destination piece of the last entry; its move and source piece stay. */
    method SetPrevDest(piece: Piece)
      requires Valid() && log != []
      modifies this
      ensures log == old(log)[|old(log)| - 1 := old(log)[|old(log)| - 1].(destPiece := piece)]
      ensures piece.kind != DummyHeadquarters ==> Valid()
    {
      var last := log[|log| - 1];
      assert EntryWellformed(last);
      log := log[|log| - 1 := last.(destPiece := piece)];
      assert forall i :: 0 <= i < |log| - 1 ==> log[i] == old(log)[i];
    }

    function PrevSrcPiece(): Piece
      reads this
      requires log != []
    {
      log[|log| - 1].srcPiece
    }

    function PrevDestPiece(): Piece
      reads this
      requires log != []
    {
      log[|log| - 1].destPiece
    }

    function PrevMove(): Move
      reads this
      requires log != []
    {
      log[|log| - 1].move
    }

    predicate PrevMoveIsInitialized()
      reads this
    {
      log != []
    }

    method Swap(m: Move)
      requires Valid() && MoveInBounds(m)
      modifies cells
      ensures cells[..] == SwapCells(old(cells[..]), m)
      ensures Valid()
    {
      var srcPiece := Get(m.src);
      var destPiece := Get(m.dest);
      SetBoard(destPiece, m.src);
      SetBoard(srcPiece, m.dest);
    }

    /** Pops the last entry and writes its two pieces back, source first. */
    method Undo()
      requires Valid() && log != []
      modifies this, cells
      ensures log == old(log)[..|old(log)| - 1]
      ensures cells[..] == UndoCells(old(cells[..]), old(log)[|old(log)| - 1])
      ensures Valid()
    {
      var prev := log[|log| - 1];
      assert EntryWellformed(prev);
      log := log[..|log| - 1];
      SetBoard(prev.srcPiece, prev.move.src);
      SetBoard(prev.destPiece, prev.move.dest);
    }

    method Battle(m: Move)
      requires Valid() && MoveInBounds(m) && BattleDefined(cells[..], m)
      modifies this, cells
      ensures log == old(log) + [Logged(old(cells[..]), m)]
      ensures cells[..] == BattleCells(old(cells[..]), m)
      ensures Valid()
    {
      var srcPiece := Get(m.src);
      var destPiece := Get(m.dest);
      AddLog(m);
      var result := FightOver(m);

      Delete(m.src);
      match result
      case Lose =>
        if destPiece.kind == Mine {
          Delete(m.dest);
        }
      case Win =>
        SetBoard(srcPiece, m.dest);
      case Draw =>
        Delete(m.dest);
    }

    /** The first half of a battle: its result, with the flag fought through the piece guarding
        it, and the guarding mine removed when one guards the flag. */
    method FightOver(m: Move) returns (result: BattleResult)
      requires Valid() && MoveInBounds(m) && BattleDefined(cells[..], m)
      modifies cells
      ensures result == BattleResultOf(old(cells[..]), m)
      ensures cells[..] == if MineGuardsFlag(old(cells[..]), m) then Grid.Delete(old(cells[..]), m.dest) else old(cells[..])
      ensures Valid()
    {
      ghost var g := cells[..];
      var srcPiece := Get(m.src);
      var destPiece := Get(m.dest);
      result := Win;
      if destPiece.kind == Flag {
        var guardExists := false;
        var guard := destPiece;
        if destPiece.owner == 0 && 0 < m.dest.y {
          guard := Get(Point(m.dest.y - 1, m.dest.x));
          guardExists := true;
        } else if destPiece.owner == 1 && m.dest.y < Height - 1 {
          guard := Get(Point(m.dest.y + 1, m.dest.x));
          guardExists := true;
        }
        assert guardExists <==> Guard(g, m).Some?;
        assert guardExists ==> guard == Guard(g, m).value;
        if guardExists && guard.IsPiece() && guard.owner == destPiece.owner {
          result := Lookup(srcPiece.kind, guard.kind);
          if guard.kind == Mine {
            Delete(m.dest);
          }
        }
      } else if destPiece.kind == None {
        result := Win;
      } else {
        result := Lookup(srcPiece.kind, destPiece.kind);
      }
    }

    /** The battle as `supposer` reckons it, on its own pieces' kinds and its beliefs. */
    method SupposeBattle(supposer: int, m: Move)
      requires Valid() && MoveInBounds(m) && SupposedBattleDefined(cells[..], supposer, m)
      modifies this, cells
      ensures log == old(log) + [Logged(old(cells[..]), m)]
      ensures cells[..] == SupposeBattleCells(old(cells[..]), supposer, m)
      ensures Valid()
    {
      ghost var g := cells[..];
      var srcPiece := Get(m.src);
      var destPiece := Get(m.dest);
      var srcKind := if srcPiece.owner == supposer then srcPiece.kind else srcPiece.supposition;
      var destKind := if destPiece.owner == supposer then destPiece.kind else destPiece.supposition;
      AddLog(m);

      var result := Win;
      if destKind == None {
        result := Win;
      } else {
        result := Lookup(srcKind, destKind);
      }
      assert result == SupposedResult(g, supposer, m);

      Delete(m.src);
      match result
      case Lose =>
      case Win =>
        SetBoard(srcPiece, m.dest);
      case Draw =>
        Delete(m.dest);
    }

    /** `IsValid(id, &error)`: appends each entrance of side id holding a mine or a flag to `error`. */
    method IsValid(id: int, error: seq<Point>) returns (isAvailable: bool, errorOut: seq<Point>)
      requires Valid()
      ensures errorOut == error + Offending(cells[..], EntrancesOf(id))
      ensures isAvailable <==> forall e <- EntrancesOf(id) :: !At(cells[..], e).IsNotMovable()
    {
      ghost var g := cells[..];
      isAvailable := true;
      errorOut := error;
      var firstEntrance := if id == 0 then 0 else |Entrances| / 2;
      var lastEntrance := if id == 0 then |Entrances| / 2 else |Entrances|;
      ghost var es := Entrances[firstEntrance..lastEntrance];
      EntrancesInBounds();
      for i := firstEntrance to lastEntrance
        invariant errorOut == error + ScanEntrances(g, es, i - firstEntrance)
        invariant isAvailable <==> |errorOut| == |error|
      {
        ghost var found := ScanEntrances(g, es, i - firstEntrance);
        assert es[i - firstEntrance] == Entrances[i];
        var piece := Get(Entrances[i]);
        if piece.IsNotMovable() {
          assert (error + found) + [Entrances[i]] == error + (found + [Entrances[i]]);
          errorOut := errorOut + [Entrances[i]];
          isAvailable := false;
        }
      }
      ScanIsOffending(g, es, |es|);
      assert |Entrances| == 4 && es == EntrancesOf(id);
      OffendingMeans(g, es);
    }

    /** Walks the straight path one cell at a time, remembering the previous row. */
    method IsPieceHittingObstacle(m: Move) returns (hits: bool)
      requires Valid() && MoveInBounds(m) && IsStraight(m)
      ensures hits == HitsObstacle(cells[..], m)
    {
      var current := m.src;
      var prevY := m.src.y;
      ghost var k := 0;
      PathPointFacts(m, 0);
      while true
        invariant 0 <= k < Steps(m)
        invariant current == PathPoint(m, k) && prevY == current.y
        invariant ClearThrough(cells[..], m, k)
        decreases Steps(m) - k
      {
        var blocked;
        current, blocked := WalkStep(m, k, prevY, current);
        ClearThroughStep(cells[..], m, k);
        k := k + 1;
        if blocked {
          WalkExits(cells[..], m, k);
          return true;
        }
        prevY := current.y;
        if current.Equals(m.dest) {
          return false;
        }
      }
    }

    /** One step of the obstacle walk: one unit along the changing axis, then whether the cell
        reached is occupied short of the destination or the step crosses the midline outside the
        entrance columns. */
    method WalkStep(m: Move, ghost k: int, prevY: int, current: Point) returns (next: Point, blocked: bool)
      requires Valid() && MoveInBounds(m) && IsStraight(m) && 0 <= k < Steps(m)
      requires current == PathPoint(m, k) && prevY == current.y
      ensures next == PathPoint(m, k + 1) && (next.Equals(m.dest) <==> k + 1 == Steps(m))
      ensures blocked == BlockedAt(cells[..], m, k + 1)
    {
      var difference := m.dest.Subtract(m.src);
      // |d| / d along the changing axis
      if difference.y != 0 {
        next := Point(current.y + (if difference.y > 0 then 1 else -1), current.x);
      } else {
        next := Point(current.y, current.x + (if difference.x > 0 then 1 else -1));
      }
      Rules.WalkStep(cells[..], m, k, prevY, next);
      blocked := (Get(next).kind != None && !next.Equals(m.dest)) ||
        (next.y + prevY == Height - 1 && next.x != 1 && next.x != Width - 2);
    }

    method IsMoveValid(m: Move) returns (valid: bool)
      requires Valid() && MoveInBounds(m)
      ensures valid == Rules.IsMoveValid(cells[..], m)
    {
      var srcPiece := Get(m.src);
      var destPiece := Get(m.dest);
      if !srcPiece.IsMovable() {
        return false;
      }
      if srcPiece.owner == destPiece.owner && destPiece.IsPiece() {
        return false;
      }
      var difference := m.dest.Subtract(m.src);
      if srcPiece.owner == 0 {
        difference := difference.Inverse();
      }
      if (difference.y != 0 && difference.x != 0) || (difference.y == 0 && difference.x == 0) {
        return false;
      }
      OrientedKeepsShape(m.dest.Subtract(m.src), srcPiece.owner);
      var hits := IsPieceHittingObstacle(m);
      assert Rules.IsMoveValid(cells[..], m) == KindAllows(srcPiece.kind, difference, hits);
      var yInRange := Abs(difference.y) == 1;
      var xInRange := Abs(difference.x) == 1;
      if srcPiece.kind == Tank || srcPiece.kind == Cavalry {
        yInRange := yInRange || difference.y == -2;
        return (yInRange && !hits) || xInRange;
      } else if srcPiece.kind == Engineer {
        return !hits;
      } else if srcPiece.kind == Plane {
        yInRange := difference.y != 0;
        return yInRange || xInRange;
      } else {
        return (yInRange && !hits) || xInRange;
      }
    }

    /** Scans side id for a movable piece, stopping at the first one. */
    method HasNoMovablePiece(id: int) returns (noMovable: bool)
      requires Valid()
      ensures noMovable <==> !HasMovable(cells[..], id)
    {
      noMovable := true;
      var y := 0;
      ghost var row := 0;
      while y < Height && noMovable
        invariant 0 <= y <= Height && row == y * Width
        invariant noMovable ==> forall i :: 0 <= i < row ==> !MovableAt(cells[..], id, i)
        invariant !noMovable ==> HasMovable(cells[..], id)
      {
        var x := 0;
        while x < Width && noMovable
          invariant 0 <= x <= Width
          invariant noMovable ==> forall i :: 0 <= i < row + x ==> !MovableAt(cells[..], id, i)
          invariant !noMovable ==> HasMovable(cells[..], id)
        {
          CellIndex(cells[..], y, x, row);
          var piece := Get(Point(y, x));
          if piece.owner == id && piece.IsMovable() {
            assert MovableAt(cells[..], id, row + x);
            noMovable := false;
          }
          x := x + 1;
        }
        RowStep(y);
        y := y + 1;
        row := row + Width;
      }
    }

    /** `IsEnd(&winners_id, &game_was_drawn)`: the outcome replaces the two out-parameters. */
    method IsEnd() returns (r: EndState)
      requires Valid()
      ensures r == EndOf(cells[..])
    {
      var winnerUnset := true;
      var winnersId := 0;
      ghost var g := cells[..];
      for id := 0 to 2
        invariant id == 0 ==> winnerUnset
        invariant id >= 1 ==> !HeadquartersTaken(g, 0)
        invariant id == 1 ==> (winnerUnset <==> HasMovable(g, 0)) && (!winnerUnset ==> winnersId == 1)
        invariant id == 2 ==> !HeadquartersTaken(g, 1)
        invariant id == 2 ==> (winnerUnset <==> HasMovable(g, 0) && HasMovable(g, 1))
        invariant id == 2 && !winnerUnset ==>
          (winnersId == 1 && !HasMovable(g, 0) && HasMovable(g, 1)) ||
          (winnersId == 0 && HasMovable(g, 0) && !HasMovable(g, 1))
      {
        var opponentsId := 1 - id;
        var headquarters := Get(Headquarters[id][0]);
        if headquarters.owner == opponentsId && (headquarters.IsShokan() || headquarters.IsSakan()) {
          return Won(opponentsId);
        }
        var noMovable := HasNoMovablePiece(id);
        if noMovable {
          if winnerUnset {
            winnersId := opponentsId;
            winnerUnset := false;
          } else {
            return Drawn;
          }
        }
      }
      if !winnerUnset {
        return Won(winnersId);
      }
      return Ongoing;
    }

    method CountNumPieces(id: int) returns (n: int)
      requires Valid()
      ensures n == PiecesUpTo(cells[..], id, NumCells)
      ensures n == RawPieces(cells[..], id)
                   + (if At(cells[..], Point(0, 2)).owner == id && At(cells[..], Point(0, 2)).IsPiece() then 1 else 0)
                   + (if At(cells[..], Point(7, 2)).owner == id && At(cells[..], Point(7, 2)).IsPiece() then 1 else 0)
    {
      n := 0;
      ghost var row := 0;
      for y := 0 to Height
        invariant row == y * Width
        invariant n == PiecesUpTo(cells[..], id, row)
      {
        RowStep(y);
        for x := 0 to Width
          invariant n == PiecesUpTo(cells[..], id, row + x)
        {
          CellIndex(cells[..], y, x, row);
          var piece := Get(Point(y, x));
          if piece.owner == id && piece.IsPiece() {
            n := n + 1;
          }
        }
        row := row + Width;
      }
      CountsHeadquartersTwice(cells[..], id);
    }

    method CountNumPlaceableSquares(src: Point) returns (n: int)
      requires Valid() && InBounds(src)
      ensures n == PlaceableUpTo(cells[..], src, NumCells)
      ensures n > 0 <==> exists i :: 0 <= i < NumCells && ValidTo(cells[..], src, i)
    {
      n := 0;
      ghost var row := 0;
      for y := 0 to Height
        invariant row == y * Width
        invariant n == PlaceableUpTo(cells[..], src, row)
      {
        RowStep(y);
        n := CountPlaceableInRow(src, y, row, n);
        row := row + Width;
      }
      PlaceableIsValidMoves(cells[..], src, NumCells);
    }

    /** The inner counting loop, over the columns of row y; `row` is the raw index of (y, 0) and
        n0 the count over the rows before it. */
    method CountPlaceableInRow(src: Point, y: int, ghost row: int, n0: int) returns (n: int)
      requires Valid() && InBounds(src) && 0 <= y < Height && row == y * Width
      requires n0 == PlaceableUpTo(cells[..], src, row)
      ensures n == PlaceableUpTo(cells[..], src, row + Width)
    {
      n := n0;
      for x := 0 to Width
        invariant n == PlaceableUpTo(cells[..], src, row + x)
      {
        n := CountSquare(src, y, x, row, n);
      }
    }

    /** The test the scan makes at (y, x): not the headquarters placeholder, read through the
        redirection, and a valid move from src; n0 is the count over the raw indices before it. */
    method CountSquare(src: Point, y: int, x: int, ghost row: int, n0: int) returns (n: int)
      requires Valid() && InBounds(src) && 0 <= y < Height && 0 <= x < Width && row == y * Width
      requires n0 == PlaceableUpTo(cells[..], src, row + x)
      ensures n == PlaceableUpTo(cells[..], src, row + x + 1)
    {
      var dest := Point(y, x);
      var notDummy := Get(dest).kind != DummyHeadquarters;
      var valid := IsMoveValid(Move(src, dest));
      PlaceableAtCell(cells[..], src, y, x, row, notDummy && valid);
      n := n0 + if notDummy && valid then 1 else 0;
    }

    method MeasureDistanceToHeadquartersOf(id: int, p: Point) returns (d: int)
      requires 0 <= id <= 1 && InBounds(p)
      ensures d == DistanceToHeadquarters(id, p)
    {
      d := IntMax;
      assert Manhattan(Headquarters[id][0], p) < IntMax;
      for i := 0 to 2
        invariant i == 0 ==> d == IntMax
        invariant i == 1 ==> d == Manhattan(Headquarters[id][0], p)
        invariant i == 2 ==> d == NearestHeadquarters(id, p)
      {
        var difference := Headquarters[id][i].Subtract(p);
        var distance := Abs(difference.y) + Abs(difference.x);
        if distance < d {
          d := distance;
        }
      }
      var mustAddDistanceY := id != DivTowardZero(p.y, Height / 2);
      var mustAddDistanceX := p.x == Width / 2 - 1 || p.x == Width / 2;
      if mustAddDistanceY && mustAddDistanceX {
        d := d + 2;
      }
    }

    /** Random setup: the random placement, then the repair of both sides' entrances. The draws
        are the values of `rolls`; when they run out the method stops and reports failure. */
    method Initialize(rolls: seq<nat>) returns (ok: bool)
      requires cells.Length == NumCells && forall e <- log :: EntryWellformed(e)
      modifies cells
      ensures ok ==> Valid()
      ensures ok ==> InitialLayout(cells[..], 0) && InitialLayout(cells[..], 1)
      ensures ok ==> Offending(cells[..], EntrancesOf(0)) == [] && Offending(cells[..], EntrancesOf(1)) == []
      ensures log == old(log)
    {
      var rest;
      ok, rest := PlaceRandomly(rolls);
      if !ok {
        return;
      }
      ghost var placed := cells[..];
      ok, rest := RepairEntrances(0, rest);
      if !ok {
        return;
      }
      ghost var repaired0 := cells[..];
      LayoutDependsOnMultiset(repaired0, placed, 0);
      ok, rest := RepairEntrances(1, rest);
      if !ok {
        return;
      }
      LayoutDependsOnMultiset(cells[..], repaired0, 1);
      EntrancesOfZeroInFirstHalf(repaired0, cells[..]);
    }

    /** Row by row, each cell of a half gets a kind drawn as `rand() % 16`, drawn again while that
        kind's quota in the half is full, owned by the side of its half and with no belief; the
        raw cells (0, 3) and (7, 3) get the placeholder. The counters restart with each half. */
    method PlaceRandomly(rolls: seq<nat>) returns (ok: bool, rest: seq<nat>)
      requires cells.Length == NumCells && forall e <- log :: EntryWellformed(e)
      modifies cells
      ensures ok ==> Valid() && InitialLayout(cells[..], 0) && InitialLayout(cells[..], 1)
      ensures |rest| <= |rolls| && rest == rolls[|rolls| - |rest|..]
    {
      var countEachPiece := new nat[NumKinds];
      var r := 0;
      ghost var half0: seq<Piece> := [];
      var start := 0;
      for y := 0 to Height
        invariant r <= |rolls| && start == y * Width
        invariant FreshRange(cells[..], 0, start)
        invariant y >= Height / 2 ==> cells[..24] == half0 && HalfMeetsQuota(half0, 0)
        invariant y == Height ==> HalfMeetsQuota(cells[24..48], 1)
        invariant start != 0 && start != 24 ==>
          Counting(countEachPiece[..], cells[..], start, if start < 24 then 0 else 1) &&
          Tally(countEachPiece[..], start, if start < 24 then 0 else 1)
      {
        RowPlacement(y);
        RowStep(y);
        var h := y / (Height / 2);
        if y % (Height / 2) == 0 {
          forall k | 0 <= k < NumKinds {
            countEachPiece[k] := 0;
          }
          ZeroCounting(countEachPiece[..], cells[..], h);
        }
        ghost var before := cells[..];
        var placed;
        placed, r := PlaceRow(y, start, h, rolls, r, countEachPiece);
        if !placed {
          return false, [];
        }
        FreshRangeJoins(before, cells[..], start, start + Width);
        if start >= 24 {
          FirstHalfUnchanged(before, cells[..], start, start + Width);
        }
        if start + Width == 24 || start + Width == 48 {
          CountingCompletesHalf(countEachPiece[..], cells[..], h);
        }
        if start + Width == 24 {
          half0 := cells[..24];
        }
        start := start + Width;
      }
      FreshCellsMakeFreshHalves(cells[..]);
      assert Half(cells[..], 0) == half0;
      return true, rolls[r..];
    }

    /** The inner placement loop, over the columns of row y; `start` is the raw index of (y, 0)
        and h the side whose half the row is in. */
    method PlaceRow(y: int, start: int, h: int, rolls: seq<nat>, r0: nat, countEachPiece: array<nat>) returns (ok: bool, r: nat)
      requires cells.Length == NumCells && 0 <= y < Height && r0 <= |rolls|
      requires start == y * Width && h == y / (Height / 2)
      requires Counting(countEachPiece[..], cells[..], start, h) && Tally(countEachPiece[..], start, h)
      modifies cells, countEachPiece
      ensures r0 <= r <= |rolls|
      ensures ok ==> Counting(countEachPiece[..], cells[..], start + Width, h) && Tally(countEachPiece[..], start + Width, h)
      ensures ok ==> AgreeOutside(cells[..], old(cells[..]), start, start + Width)
      ensures ok ==> FreshRange(cells[..], start, start + Width)
    {
      r := r0;
      RowPlacement(y);
      ghost var g0 := cells[..];
      for x := 0 to Width
        invariant r0 <= r <= |rolls|
        invariant Counting(countEachPiece[..], cells[..], start + x, h) && Tally(countEachPiece[..], start + x, h)
        invariant AgreeOutside(cells[..], g0, start, start + x)
        invariant FreshRange(cells[..], start, start + x)
      {
        ghost var before := cells[..];
        ok, r := PlaceCell(y, x, start + x, h, rolls, r, countEachPiece);
        if !ok {
          return;
        }
        FreshRangeGrows(before, cells[..], g0, start, start + x);
      }
      ok := true;
    }

    /** The body of the placement loops for cell (y, x), whose raw index is idx. */
    method PlaceCell(y: int, x: int, idx: int, h: int, rolls: seq<nat>, r0: nat, countEachPiece: array<nat>) returns (ok: bool, r: nat)
      requires cells.Length == NumCells && 0 <= y < Height && 0 <= x < Width && r0 <= |rolls|
      requires idx == y * Width + x && h == y / (Height / 2)
      requires Counting(countEachPiece[..], cells[..], idx, h) && Tally(countEachPiece[..], idx, h)
      modifies cells, countEachPiece
      ensures r0 <= r <= |rolls|
      ensures ok ==> Counting(countEachPiece[..], cells[..], idx + 1, h) && Tally(countEachPiece[..], idx + 1, h)
      ensures ok ==> cells[..] == old(cells[..])[idx := cells[idx]] && FreshCell(cells[idx], idx)
    {
      CellPlacement(y, x);
      ghost var counts := countEachPiece[..];
      var piece;
      ok, piece, r := ChoosePiece(y, x, h, rolls, r0, countEachPiece);
      if !ok {
        return;
      }
      if !IsPlaceholderIndex(idx) {
        SumIncrement(counts, piece.kind);
      }
      ghost var before := cells[..];
      cells[idx] := piece;
      PlacementKeepsCounting(counts, countEachPiece[..], before, cells[..], idx, h, piece);
    }

    /** The piece written at cell (y, x) of side h's half: the placeholder at the middle column's
        right cell of the end rows, otherwise a rank from the rejection draw, whose counter then
        goes up by one. */
    method ChoosePiece(y: int, x: int, h: int, rolls: seq<nat>, r0: nat, countEachPiece: array<nat>) returns (ok: bool, piece: Piece, r: nat)
      requires 0 <= y < Height && 0 <= x < Width && r0 <= |rolls| && countEachPiece.Length == NumKinds
      modifies countEachPiece
      ensures r0 <= r <= |rolls|
      ensures ok ==> piece.owner == h && piece.supposition == None
      ensures ok && (y == 0 || y == Height - 1) && x == Width / 2 ==>
        piece.kind == DummyHeadquarters && countEachPiece[..] == old(countEachPiece[..])
      ensures ok && !((y == 0 || y == Height - 1) && x == Width / 2) ==>
        0 <= piece.kind < NumKinds && old(countEachPiece[piece.kind]) < NumEachPiece[piece.kind] &&
        countEachPiece[..] == old(countEachPiece[..])[piece.kind := old(countEachPiece[piece.kind]) + 1]
    {
      r := r0;
      ok := true;
      piece := Piece(None, None, h);
      var yIsInRange := y == 0 || y == Height - 1;
      var xIsInRange := x == Width / 2;
      if yIsInRange && xIsInRange {
        piece := piece.(kind := DummyHeadquarters);
      } else {
        var kind;
        ok, kind, r := DrawKind(rolls, r, countEachPiece);
        if !ok {
          return;
        }
        countEachPiece[kind] := countEachPiece[kind] + 1;
        piece := piece.(kind := kind);
      }
    }

    /** The rejection draw: `rand() % 16` until a kind whose counter is below its quota. */
    method DrawKind(rolls: seq<nat>, r0: nat, countEachPiece: array<nat>) returns (ok: bool, kind: int, r: nat)
      requires r0 <= |rolls| && countEachPiece.Length == NumKinds
      ensures r0 <= r <= |rolls|
      ensures ok ==> 0 <= kind < NumKinds && countEachPiece[kind] < NumEachPiece[kind]
      ensures ok ==> r > r0 && kind == rolls[r - 1] % NumKinds
    {
      r := r0;
      kind := 0;
      while true
        invariant r0 <= r <= |rolls|
        decreases |rolls| - r
      {
        if r == |rolls| {
          return false, kind, r;
        }
        kind := rolls[r] % NumKinds;
        r := r + 1;
        if countEachPiece[kind] < NumEachPiece[kind] {
          return true, kind, r;
        }
      }
    }

    /** The repair loop that follows a layout: while side id's entrances are not valid, every
        point recorded in `error` is swapped with a random point of side id's half. `error` is
        never cleared, so points recorded in earlier passes are swapped again. Each random point
        takes two values of `rolls`; the loop gives up when they run out. */
    method RepairEntrances(id: int, rolls: seq<nat>) returns (ok: bool, rest: seq<nat>)
      requires Valid() && 0 <= id <= 1
      modifies cells
      ensures Valid()
      ensures multiset(Half(cells[..], id)) == multiset(Half(old(cells[..]), id))
      ensures Half(cells[..], 1 - id) == Half(old(cells[..]), 1 - id)
      ensures ok ==> Offending(cells[..], EntrancesOf(id)) == []
      ensures |rest| <= |rolls| && rest == rolls[|rolls| - |rest|..]
    {
      ghost var g0 := cells[..];
      var error: seq<Point> := [];
      var r := 0;
      EntrancesInHalf(id);
      while true
        invariant Valid() && 0 <= r <= |rolls|
        invariant multiset(Half(cells[..], id)) == multiset(Half(g0, id))
        invariant Half(cells[..], 1 - id) == Half(g0, 1 - id)
        invariant forall e <- error :: InHalf(e, id)
        decreases |rolls| - r
      {
        var isAvailable;
        isAvailable, error := IsValid(id, error);
        OffendingMeans(cells[..], EntrancesOf(id));
        if isAvailable {
          assert Offending(cells[..], EntrancesOf(id)) == [];
          return true, rolls[r..];
        }
        var r0 := r;
        for i := 0 to |error|
          invariant Valid() && r == r0 + 2 * i <= |rolls|
          invariant multiset(Half(cells[..], id)) == multiset(Half(g0, id))
          invariant Half(cells[..], 1 - id) == Half(g0, 1 - id)
        {
          if |rolls| < r + 2 {
            return false, [];
          }
          var dest := DeterminePointRandomly(id, rolls[r], rolls[r + 1]);
          r := r + 2;
          var m := Move(error[i], dest);
          SwapWithinHalf(cells[..], m, id);
          Swap(m);
        }
      }
    }
  }

  lemma {:induction false} SumOfZeros(s: seq<nat>)
    requires forall k :: 0 <= k < |s| ==> s[k] == 0
    ensures Sum(s) == 0
  {
    if s != [] {
      SumOfZeros(s[1..]);
    }
  }

  lemma {:induction false} SumIncrement(s: seq<nat>, k: int)
    requires 0 <= k < |s|
    ensures Sum(s[k := s[k] + 1]) == Sum(s) + 1
  {
    if k > 0 {
      SumIncrement(s[1..], k - 1);
      assert s[k := s[k] + 1][1..] == s[1..][k - 1 := s[k] + 1];
    }
  }

  /** Counts that stay within their quotas and add up to the quotas' total meet every quota. */
  lemma {:induction false} FullCountsMeetQuota(c: seq<nat>, q: seq<nat>)
    requires |c| == |q| && forall k :: 0 <= k < |c| ==> c[k] <= q[k]
    requires Sum(c) == Sum(q)
    ensures c == q
  {
    if c != [] {
      SumBound(c[1..], q[1..]);
      FullCountsMeetQuota(c[1..], q[1..]);
      assert c == [c[0]] + c[1..] && q == [q[0]] + q[1..];
    }
  }

  lemma {:induction false} SumBound(c: seq<nat>, q: seq<nat>)
    requires |c| == |q| && forall k :: 0 <= k < |c| ==> c[k] <= q[k]
    ensures Sum(c) <= Sum(q)
  {
    if c != [] {
      SumBound(c[1..], q[1..]);
    }
  }

  /** What `Initialize` leaves at raw index j: the owner of its half, no belief, the placeholder
      exactly at the placeholder indices and a real kind elsewhere. */
  ghost predicate FreshCell(p: Piece, j: int) {
    p.owner == j / 24 && p.supposition == None &&
    (p.kind == DummyHeadquarters <==> IsPlaceholderIndex(j)) &&
    (p.kind == DummyHeadquarters || 0 <= p.kind < NumKinds)
  }

  /** Raw indices lo..hi-1 of s are as `Initialize` leaves them. */
  ghost predicate FreshRange(s: seq<Piece>, lo: int, hi: int) {
    |s| == NumCells && 0 <= lo <= hi <= NumCells && forall j :: lo <= j < hi ==> FreshCell(s[j], j)
  }

  /** s and t agree everywhere outside raw indices lo..hi-1. */
  ghost predicate AgreeOutside(s: seq<Piece>, t: seq<Piece>, lo: int, hi: int) {
    |s| == |t| == NumCells && forall j :: 0 <= j < NumCells && !(lo <= j < hi) ==> s[j] == t[j]
  }

  /** Writing one fresh cell just past a fresh range extends the range and the region written. */
  lemma FreshRangeGrows(s0: seq<Piece>, s1: seq<Piece>, g0: seq<Piece>, lo: int, hi: int)
    requires FreshRange(s0, lo, hi) && AgreeOutside(s0, g0, lo, hi) && hi < NumCells
    requires |s1| == NumCells && s1 == s0[hi := s1[hi]] && FreshCell(s1[hi], hi)
    ensures FreshRange(s1, lo, hi + 1) && AgreeOutside(s1, g0, lo, hi + 1)
  {
  }

  lemma ZeroCounting(c: seq<nat>, g: seq<Piece>, h: int)
    requires |c| == NumKinds && |g| == NumCells && 0 <= h <= 1
    requires forall k :: 0 <= k < NumKinds ==> c[k] == 0
    ensures Counting(c, g, 24 * h, h) && Tally(c, 24 * h, h)
  {
    SumOfZeros(c);
  }

  lemma FirstHalfUnchanged(s0: seq<Piece>, s1: seq<Piece>, lo: int, hi: int)
    requires AgreeOutside(s1, s0, lo, hi) && 24 <= lo
    ensures s1[..24] == s0[..24]
  {
    assert forall j :: 0 <= j < 24 ==> s1[..24][j] == s0[..24][j];
  }

  lemma FreshRangeJoins(s0: seq<Piece>, s1: seq<Piece>, mid: int, hi: int)
    requires FreshRange(s0, 0, mid) && FreshRange(s1, mid, hi) && AgreeOutside(s1, s0, mid, hi)
    ensures FreshRange(s1, 0, hi)
  {
  }

  /** A 24-cell half holding exactly NumEachPiece[k] fresh pieces of each kind k. */
  ghost predicate HalfMeetsQuota(s: seq<Piece>, h: int) {
    forall k :: 0 <= k < NumKinds ==> multiset(s)[Piece(k, None, h)] == NumEachPiece[k]
  }

  function PlaceholderOf(h: int): int {
    if h == 0 then 3 else 45
  }

  /** How many times p occurs in s. */
  function Occurrences(s: seq<Piece>, p: Piece): nat {
    if s == [] then 0 else Occurrences(s[..|s| - 1], p) + (if s[|s| - 1] == p then 1 else 0)
  }

  lemma {:induction false} OccurrencesIsMultiplicity(s: seq<Piece>, p: Piece)
    ensures Occurrences(s, p) == multiset(s)[p]
  {
    if s != [] {
      OccurrencesIsMultiplicity(s[..|s| - 1], p);
      assert s == s[..|s| - 1] + [s[|s| - 1]];
    }
  }

  /** The counter array `c` while half h is being filled up to (excluding) raw index idx. */
  ghost predicate Counting(c: seq<nat>, g: seq<Piece>, idx: int, h: int) {
    0 <= h <= 1 && |c| == NumKinds && |g| == NumCells && 24 * h <= idx <= 24 * h + 24 &&
    (forall k :: 0 <= k < NumKinds ==>
       c[k] == Occurrences(g[24 * h..idx], Piece(k, None, h)) && c[k] <= NumEachPiece[k])
  }

  /** The counters add up to the number of real pieces written so far in half h. */
  ghost predicate Tally(c: seq<nat>, idx: int, h: int) {
    Sum(c) == idx - 24 * h - (if 24 * h <= PlaceholderOf(h) < idx then 1 else 0)
  }

  lemma CellPlacement(y: int, x: int)
    requires 0 <= y < Height && 0 <= x < Width
    ensures (y * Width + x) / 24 == y / (Height / 2)
    ensures 24 * (y / (Height / 2)) <= y * Width + x < 24 * (y / (Height / 2)) + 24
    ensures IsPlaceholderIndex(y * Width + x) <==> (y == 0 || y == Height - 1) && x == Width / 2
    ensures IsPlaceholderIndex(y * Width + x) ==> y * Width + x == PlaceholderOf(y / (Height / 2))
  {
  }

  lemma RowPlacement(y: int)
    requires 0 <= y < Height
    ensures 0 <= y / (Height / 2) <= 1
    ensures 24 * (y / (Height / 2)) <= y * Width && y * Width + Width <= 24 * (y / (Height / 2)) + 24
    ensures y % (Height / 2) == 0 <==> y * Width == 24 * (y / (Height / 2))
    ensures y * Width + Width <= NumCells
  {
  }

  lemma RowStep(y: int)
    requires 0 <= y < Height
    ensures (y + 1) * Width == y * Width + Width
    ensures y / (Height / 2) == if y * Width < 24 then 0 else 1
    ensures y >= Height / 2 <==> y * Width >= 24
    ensures y * Width + Width == 24 <==> y == Height / 2 - 1
    ensures y * Width + Width == 48 <==> y == Height - 1
  {
  }

  /** Writing the next cell of half h keeps the counters in step with the cells written so far. */
  lemma PlacementKeepsCounting(c0: seq<nat>, c: seq<nat>, before: seq<Piece>, after: seq<Piece>, idx: int, h: int, piece: Piece)
    requires Counting(c0, before, idx, h) && Tally(c0, idx, h) && idx < 24 * h + 24
    requires after == before[idx := piece] && piece.owner == h && piece.supposition == None
    requires IsPlaceholderIndex(idx) ==> piece.kind == DummyHeadquarters && c == c0 && idx == PlaceholderOf(h)
    requires !IsPlaceholderIndex(idx) ==>
      0 <= piece.kind < NumKinds && c0[piece.kind] < NumEachPiece[piece.kind] &&
      c == c0[piece.kind := c0[piece.kind] + 1] && Sum(c) == Sum(c0) + 1
    ensures Counting(c, after, idx + 1, h) && Tally(c, idx + 1, h)
  {
    assert after[24 * h..idx + 1][..idx - 24 * h] == before[24 * h..idx];
    if !IsPlaceholderIndex(idx) {
      assert idx != PlaceholderOf(h);
    }
  }

  lemma CountingCompletesHalf(c: seq<nat>, g: seq<Piece>, h: int)
    requires Counting(c, g, 24 * h + 24, h) && Tally(c, 24 * h + 24, h)
    ensures HalfMeetsQuota(g[24 * h..24 * h + 24], h)
  {
    QuotaSumsToNumPieces();
    FullCountsMeetQuota(c, NumEachPiece);
    forall k | 0 <= k < NumKinds {
      OccurrencesIsMultiplicity(g[24 * h..24 * h + 24], Piece(k, None, h));
    }
  }

  lemma FreshCellsMakeFreshHalves(g: seq<Piece>)
    requires FreshRange(g, 0, NumCells)
    ensures Wellformed(g) && FreshHalf(g, 0) && FreshHalf(g, 1)
  {
    forall h, x | 0 <= h <= 1 && x in multiset(Half(g, h))
      ensures x.owner == h && x.supposition == None
    {
      var s := Half(g, h);
      var i :| 0 <= i < |s| && s[i] == x;
      assert g[24 * h + i] == x;
    }
  }

  lemma EntrancesOfZeroInFirstHalf(g: seq<Piece>, h: seq<Piece>)
    requires Wellformed(g) && Wellformed(h) && Half(g, 0) == Half(h, 0)
    ensures Offending(g, EntrancesOf(0)) == Offending(h, EntrancesOf(0))
  {
    assert g[19] == Half(g, 0)[19] && g[22] == Half(g, 0)[22];
    assert h[19] == Half(h, 0)[19] && h[22] == Half(h, 0)[22];
    OffendingFrame(g, h, EntrancesOf(0));
  }
}
