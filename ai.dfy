/** The computer player: a character of type `Ai` that lays out its pieces from a formation and
    a few random swaps, and on its turn plays the move whose one-ply speculative battle
    evaluates best, sharpening its beliefs about the opponent's pieces from every battle. */
module AiEngine {
  import opened Points
  import opened Pieces
  import opened Grid
  import opened Rules
  import opened Boards
  import opened Characters
  import opened Beliefs
  import opened Evaluation
  import opened Search
  import opened Formation

  /** How many random swaps may follow the formation: `rand() % 2` of them. */
  const MaxTimesSwapPiecesRandomly: int := 2

  /** Side k's part of `attack` or `defense` once pass i has reached coordinate n: passes
      before i count fully, pass i up to n, later passes not yet. */
  function Accumulated(g: Cells, ai: int, i: int, n: int, k: int, owned: bool): int
    requires Wellformed(g) && 0 <= k <= 1 && 0 <= n <= NumCells
  {
    if k < i then PassSum(g, ai, k, owned, NumCells) else if k == i then PassSum(g, ai, k, owned, n) else 0
  }

  /** The arrays `attack` and `defense` once pass i has reached coordinate n: pass k adds its own
      pieces to `defense[k]` and the other side's to `attack[1 - k]`. */
  ghost predicate Gathered(g: Cells, ai: int, i: int, n: int, attack: seq<int>, defense: seq<int>)
    requires Wellformed(g) && 0 <= n <= NumCells
  {
    |attack| == 2 && |defense| == 2 &&
    defense[0] == Accumulated(g, ai, i, n, 0, true) && defense[1] == Accumulated(g, ai, i, n, 1, true) &&
    attack[1] == Accumulated(g, ai, i, n, 0, false) && attack[0] == Accumulated(g, ai, i, n, 1, false)
  }

  /** Adding coordinate n's two terms of pass i to `defense[i]` and `attack[1 - i]` advances
      the gathered sums by one coordinate. */
  lemma GatheredStep(g: Cells, ai: int, i: int, n: int, a: seq<int>, d: seq<int>, a1: seq<int>, d1: seq<int>)
    requires Wellformed(g) && 0 <= i <= 1 && 0 <= n < NumCells && Gathered(g, ai, i, n, a, d)
    requires |a1| == 2 && |d1| == 2
    requires d1[i] == d[i] + Term(g, ai, i, true, n) && d1[1 - i] == d[1 - i]
    requires a1[1 - i] == a[1 - i] + Term(g, ai, i, false, n) && a1[i] == a[i]
    ensures Gathered(g, ai, i, n + 1, a1, d1)
  {
  }

  /** The term of cell (y, x) in pass i, read through the coordinate. */
  lemma CellTerm(g: Cells, ai: int, i: int, y: int, x: int, row: int, owned: bool)
    requires Wellformed(g) && 0 <= i <= 1 && 0 <= y < Height && 0 <= x < Width && row == y * Width
    ensures 0 <= row + x < NumCells && AtIndex(g, row + x) == At(g, Point(y, x))
    ensures Closeness(i, row + x) == Height + Width - DistanceToHeadquarters(i, Point(y, x))
    ensures var p := At(g, Point(y, x));
      Term(g, ai, i, owned, row + x) ==
        if p.IsPiece() && (p.owner == i) == owned then Closeness(i, row + x) * Strength(p, ai, i) else 0
  {
    CellIndex(g, y, x, row);
  }

  class Ai {
    const base: Character

    ghost predicate Valid()
      reads base.board, base.board.cells
    {
      base.board.Valid() && 0 <= base.id <= 1 && base.characterType == CharacterType.Ai
    }

    constructor (board: Board, id: int, name: string)
      ensures base.board == board && base.id == id && base.name == name
      ensures base.characterType == CharacterType.Ai && base.score == 0
    {
      base := new Character(CharacterType.Ai, board, id, name);
    }

    /** The static evaluation of the current board from the AI's side. */
    method EvaluateBoard() returns (value: int)
      requires Valid()
      ensures value == Evaluate(base.board.cells[..], base.id)
    {
      var board, id := base.board, base.id;
      ghost var g := board.cells[..];
      var attack := new int[2](_ => 0);
      var defense := new int[2](_ => 0);
      for i := 0 to 2
        invariant Gathered(g, id, i, 0, attack[..], defense[..])
      {
        GatherPass(i, attack, defense);
      }
      var numMine := board.CountNumPieces(id);
      var numOpponents := board.CountNumPieces(base.opponentsId);
      var score := numMine - numOpponents;
      var evaluationValueAi := attack[id] + defense[id];
      var evaluationValueOpponent := attack[base.opponentsId] + defense[base.opponentsId];
      value := evaluationValueAi - evaluationValueOpponent + score * 10;
    }

    /** Pass i of the evaluation scan, row by row. */
    method GatherPass(i: int, attack: array<int>, defense: array<int>)
      requires Valid() && 0 <= i <= 1
      requires attack.Length == 2 && defense.Length == 2 && attack != defense
      requires Gathered(base.board.cells[..], base.id, i, 0, attack[..], defense[..])
      modifies attack, defense
      ensures Gathered(base.board.cells[..], base.id, i, NumCells, attack[..], defense[..])
    {
      ghost var row := 0;
      for y := 0 to Height
        invariant row == y * Width
        invariant Gathered(base.board.cells[..], base.id, i, row, attack[..], defense[..])
      {
        RowStep(y);
        GatherRow(i, y, row, attack, defense);
        row := row + Width;
      }
    }

    /** Row y of pass i of the evaluation scan. */
    method GatherRow(i: int, y: int, ghost row: int, attack: array<int>, defense: array<int>)
      requires Valid() && 0 <= i <= 1 && 0 <= y < Height && row == y * Width
      requires attack.Length == 2 && defense.Length == 2 && attack != defense
      requires Gathered(base.board.cells[..], base.id, i, row, attack[..], defense[..])
      modifies attack, defense
      ensures Gathered(base.board.cells[..], base.id, i, row + Width, attack[..], defense[..])
    {
      for x := 0 to Width
        invariant Gathered(base.board.cells[..], base.id, i, row + x, attack[..], defense[..])
      {
        ghost var a0, d0 := attack[..], defense[..];
        AddCell(i, y, x, row, attack, defense);
        GatheredStep(base.board.cells[..], base.id, i, row + x, a0, d0, attack[..], defense[..]);
      }
    }

    /** The body of the evaluation scan for coordinate (y, x) in pass i. */
    method AddCell(i: int, y: int, x: int, ghost row: int, attack: array<int>, defense: array<int>)
      requires Valid() && 0 <= i <= 1 && 0 <= y < Height && 0 <= x < Width && row == y * Width
      requires attack.Length == 2 && defense.Length == 2 && attack != defense
      modifies attack, defense
      ensures defense[i] == old(defense[i]) + Term(base.board.cells[..], base.id, i, true, row + x)
      ensures attack[1 - i] == old(attack[1 - i]) + Term(base.board.cells[..], base.id, i, false, row + x)
      ensures defense[1 - i] == old(defense[1 - i]) && attack[i] == old(attack[i])
    {
      var piece, value := CellValue(i, y, x, row);
      if piece.IsPiece() {
        if piece.owner == i {
          defense[i] := defense[i] + value;
        } else {
          attack[1 - i] := attack[1 - i] + value;
        }
      }
    }

    /** The piece at (y, x) and, when it is a piece, its closeness to side i's headquarters times
        its strength: the term it adds in pass i, to the defense when side i owns it and to the
        opponent's attack otherwise; a cell with no piece adds nothing. */
    method CellValue(i: int, y: int, x: int, ghost row: int) returns (piece: Piece, value: int)
      requires Valid() && 0 <= i <= 1 && 0 <= y < Height && 0 <= x < Width && row == y * Width
      ensures piece == At(base.board.cells[..], Point(y, x))
      ensures piece.IsPiece() ==> value == Term(base.board.cells[..], base.id, i, piece.owner == i, row + x)
      ensures piece.IsPiece() ==> Term(base.board.cells[..], base.id, i, piece.owner != i, row + x) == 0
      ensures !piece.IsPiece() ==>
        Term(base.board.cells[..], base.id, i, true, row + x) == 0 && Term(base.board.cells[..], base.id, i, false, row + x) == 0
    {
      var board, id := base.board, base.id;
      ghost var g := board.cells[..];
      CellTerm(g, id, i, y, x, row, true);
      CellTerm(g, id, i, y, x, row, false);
      piece := board.Get(Point(y, x));
      value := 0;
      if piece.IsPiece() {
        var strength := NumKinds - (if i == id then piece.kind else if piece.supposition != None then piece.supposition else Chusa);
        var distance := board.MeasureDistanceToHeadquartersOf(i, Point(y, x));
        var distanceToHeadquarters := (Height + Width) - distance;
        assert distanceToHeadquarters == Closeness(i, row + x) && strength == Strength(piece, id, i);
        value := distanceToHeadquarters * strength;
      }
    }

    /** Sharpens the belief about the opponent's piece at the last move's destination, given the
        AI's piece `ais` that took part in that battle. */
    method SupposeOpponentsFormation(ais: Piece)
      requires Valid() && base.board.log != []
      requires SuppositionDefined(base.board.cells[..], base.board.log[|base.board.log| - 1], base.id, ais)
      modifies base.board, base.board.cells
      ensures (base.board.cells[..], base.board.log) ==
              AfterSupposition(old(base.board.cells[..]), old(base.board.log), base.id, ais)
      ensures Valid()
    {
      var board, id := base.board, base.id;
      var prevMove := board.PrevMove();
      assert EntryWellformed(board.log[|board.log| - 1]);
      var currentPiece := board.Get(prevMove.dest);
      var aiWon := currentPiece.owner == id || currentPiece.kind == None;
      if aiWon {
        return;
      }
      var supposition := InferSupposition(prevMove, ais);
      currentPiece := currentPiece.(supposition := Min(currentPiece.supposition, supposition));
      board.SetPrevDest(currentPiece);
      board.SetBoard(currentPiece, prevMove.dest);
    }

    /** The rank guessed for the opponent's piece that made the last move `prevMove`. */
    method InferSupposition(prevMove: Move, ais: Piece) returns (supposition: Kind)
      requires Valid() && base.board.log != [] && prevMove == base.board.log[|base.board.log| - 1].move
      requires MoveInBounds(prevMove) && IsStraight(prevMove)
      requires BeliefDefined(base.board.cells[..], prevMove, base.board.log[|base.board.log| - 1].srcPiece.owner, ais)
      ensures supposition == NewBelief(base.board.cells[..], prevMove, base.board.log[|base.board.log| - 1].srcPiece.owner, ais)
    {
      var board := base.board;
      var difference := prevMove.dest.Subtract(prevMove.src);
      if board.PrevSrcPiece().owner == 0 {
        difference := difference.Inverse();
      }
      supposition := None;
      var hits := board.IsPieceHittingObstacle(prevMove);
      if hits {
        supposition := Plane;
      } else if 2 <= Abs(difference.x) {
        supposition := Engineer;
      } else if 2 <= difference.y {
        supposition := Plane;
      } else if difference.y <= -2 {
        supposition := Cavalry;
        if ais.kind != None {
          supposition := ScanForBeater(ais.kind, true, supposition);
        }
      } else if ais.kind != None {
        supposition := ScanForBeater(ais.kind, false, supposition);
      }
    }

    /** The scan `for (i = 13; 0 <= i; --i)` for the first rank that beats the AI's piece of rank
        `ais` (and, with `forwardOnly`, can advance two cells); `supposition` is kept when there
        is none. */
    static method ScanForBeater(ais: Kind, forwardOnly: bool, supposition: Kind) returns (r: Kind)
      requires InTable(ais)
      ensures var b := FirstBeater(ais, Spy, forwardOnly); r == if b == None then supposition else b
    {
      r := supposition;
      var i := NumKinds - 3;
      while 0 <= i
        invariant -1 <= i <= Spy
        invariant FirstBeater(ais, Spy, forwardOnly) == FirstBeater(ais, i, forwardOnly)
        decreases i + 1
      {
        var pieceCanGoAhead2 := i == Plane || i == Tank || i == Engineer || i == Cavalry;
        var aiLose := Lookup(ais, i) == Lose;
        if (!forwardOnly || pieceCanGoAhead2) && aiLose {
          r := i;
          return;
        }
        i := i - 1;
      }
    }

    /** The AI's turn: infer from the opponent's last move, try every move of its own pieces by
        a speculative battle that is evaluated and undone, commit the first best one, and infer
        from that battle. The returned move is the loop cursor, which always ends at (8, 6). */
    method MovePiece() returns (move: Move)
      requires Valid() && TurnDefined(base.board.cells[..], base.board.log, base.id)
      modifies base.board, base.board.cells
      ensures (base.board.cells[..], base.board.log) == TurnEffect(old(base.board.cells[..]), old(base.board.log), base.id)
      ensures move == Move(Point(Height, Width), Point(Height, Width))
      ensures Valid()
    {
      var board, id := base.board, base.id;
      ghost var g0, log0 := board.cells[..], board.log;
      if board.PrevMoveIsInitialized() {
        var attackedPiece := board.PrevDestPiece();
        SupposeOpponentsFormation(attackedPiece);
      }
      ghost var g1, l1 := board.cells[..], board.log;
      assert (g1, l1) == BeforeSearch(g0, log0, id);

      var bestEvaluationValue, bestMove, srcY, srcX, destY, destX;
      ghost var c;
      bestEvaluationValue, bestMove, srcY, srcX, destY, destX, c := SearchBestMove(g1);
      TurnEffectUnfolds(g0, log0, id, bestEvaluationValue, bestMove);
      board.Battle(bestMove);
      var attackingPiece := board.PrevSrcPiece();
      SupposeOpponentsFormation(attackingPiece);
      move := Move(Point(srcY, srcX), Point(destY, destX));
    }

    /** The loops of the search: every source in row-major order, and for a usable source every
        destination; the board and its log are left as they were. */
    method SearchBestMove(ghost g1: Cells)
      returns (bestEvaluationValue: int, bestMove: Move, srcY: int, srcX: int, destY: int, destX: int, ghost c: Choice)
      requires Valid() && base.board.cells[..] == g1 && Sound(g1, base.id)
      modifies base.board, base.board.cells
      ensures base.board.cells[..] == g1 && base.board.log == old(base.board.log) && Valid()
      ensures c == Choose(g1, base.id) && Tracks(c, bestEvaluationValue, bestMove)
      ensures srcY == Height && srcX == Width && (c.pick.Some? ==> destY == Height && destX == Width)
    {
      var board, id := base.board, base.id;
      ghost var l1 := board.log;
      ghost var t, u := Table(g1, id), Usable(g1, id);
      bestEvaluationValue := IntMin;
      bestMove := Move(Point(0, 0), Point(0, 0));
      c := Choice(IntMin, Nothing);
      srcY, srcX, destY, destX := 0, 0, 0, 0;
      ghost var row := 0;
      while srcY < Height
        invariant 0 <= srcY <= Height && row == srcY * Width
        invariant board.cells[..] == g1 && board.log == l1 && Valid()
        invariant c == SrcFold(t, u, row) && Tracks(c, bestEvaluationValue, bestMove)
        invariant c.pick.Some? ==> destY == Height && destX == Width
        invariant srcY == Height ==> srcX == Width
      {
        RowStep(srcY);
        srcX := 0;
        while srcX < Width
          invariant 0 <= srcX <= Width && board.cells[..] == g1 && board.log == l1 && Valid()
          invariant c == SrcFold(t, u, row + srcX) && Tracks(c, bestEvaluationValue, bestMove)
          invariant c.pick.Some? ==> destY == Height && destX == Width
        {
          CellIndex(g1, srcY, srcX, row);
          bestEvaluationValue, bestMove, destY, destX, c := TrySource(srcY, srcX, row + srcX, bestEvaluationValue, bestMove, destY, destX, c, g1);
          srcX := srcX + 1;
        }
        srcY := srcY + 1;
        row := row + Width;
      }
    }

    /** The body of the source loop for source s = (srcY, srcX): its destinations are tried
        when the piece there is the AI's and has a placeable square. */
    method TrySource(srcY: int, srcX: int, ghost s: int, value0: int, move0: Move, destY0: int, destX0: int,
                     ghost c0: Choice, ghost g1: Cells)
      returns (bestEvaluationValue: int, bestMove: Move, destY: int, destX: int, ghost c: Choice)
      requires Valid() && base.board.cells[..] == g1 && Sound(g1, base.id)
      requires 0 <= srcY < Height && 0 <= srcX < Width && s == srcY * Width + srcX
      requires Tracks(c0, value0, move0) && (c0.pick.Some? ==> destY0 == Height && destX0 == Width)
      modifies base.board, base.board.cells
      ensures base.board.cells[..] == g1 && base.board.log == old(base.board.log) && Valid()
      ensures c == (if Usable(g1, base.id)[s] then DestFold(Table(g1, base.id), c0, s, NumCells) else c0)
      ensures Tracks(c, bestEvaluationValue, bestMove) && (c.pick.Some? ==> destY == Height && destX == Width)
    {
      var board, id := base.board, base.id;
      bestEvaluationValue, bestMove, destY, destX, c := value0, move0, destY0, destX0, c0;
      UsableAt(g1, id, NumCells, s);
      var usable := IsSourceUsable(srcY, srcX, s);
      if usable {
        bestEvaluationValue, bestMove, destY, destX := TryDestinations(srcY, srcX, s, bestEvaluationValue, bestMove, c, g1);
        c := DestFold(Table(g1, id), c0, s, NumCells);
      }
    }

    /** The source test of the search: the piece at (srcY, srcX) is the AI's and has at least
        one placeable square. */
    method IsSourceUsable(srcY: int, srcX: int, ghost s: int) returns (usable: bool)
      requires Valid() && 0 <= srcY < Height && 0 <= srcX < Width && s == srcY * Width + srcX
      ensures usable == SourceUsable(base.board.cells[..], base.id, s)
    {
      var board := base.board;
      assert Point(srcY, srcX) == PointOf(s);
      var currentSrc := board.Get(Point(srcY, srcX));
      var placeable := board.CountNumPlaceableSquares(Point(srcY, srcX));
      usable := currentSrc.owner == base.id && placeable > 0;
    }

    /** The inner loops of the search for source s = (srcY, srcX): every destination in
        row-major order, leaving the board and its log as they were. */
    method TryDestinations(srcY: int, srcX: int, ghost s: int, value0: int, move0: Move, ghost c: Choice, ghost g1: Cells)
      returns (bestEvaluationValue: int, bestMove: Move, destY: int, destX: int)
      requires Valid() && base.board.cells[..] == g1 && Sound(g1, base.id)
      requires 0 <= srcY < Height && 0 <= srcX < Width && s == srcY * Width + srcX
      requires SourceUsable(g1, base.id, s) && Tracks(c, value0, move0)
      modifies base.board, base.board.cells
      ensures base.board.cells[..] == g1 && base.board.log == old(base.board.log) && Valid()
      ensures Tracks(DestFold(Table(g1, base.id), c, s, NumCells), bestEvaluationValue, bestMove)
      ensures destY == Height && destX == Width
    {
      var board, id := base.board, base.id;
      ghost var l1 := board.log;
      ghost var t := Table(g1, id);
      assert Point(srcY, srcX) == PointOf(s);
      bestEvaluationValue, bestMove := value0, move0;
      ghost var c1 := c;
      destY := 0;
      destX := 0;
      ghost var row := 0;
      while destY < Height
        invariant 0 <= destY <= Height && row == destY * Width
        invariant board.cells[..] == g1 && board.log == l1 && Valid()
        invariant c1 == DestFold(t, c, s, row) && Tracks(c1, bestEvaluationValue, bestMove)
        invariant destY == Height ==> destX == Width
      {
        RowStep(destY);
        destX := 0;
        while destX < Width
          invariant 0 <= destX <= Width && board.cells[..] == g1 && board.log == l1 && Valid()
          invariant c1 == DestFold(t, c, s, row + destX) && Tracks(c1, bestEvaluationValue, bestMove)
        {
          ghost var d := row + destX;
          CellIndex(g1, destY, destX, row);
          bestEvaluationValue, bestMove := TryDestination(srcY, srcX, destY, destX, s, d, bestEvaluationValue, bestMove, c1, g1);
          c1 := Consider(t, c1, s, d);
          destX := destX + 1;
        }
        destY := destY + 1;
        row := row + Width;
      }
    }

    /** The body of the destination loop for the move from source s to destination d. */
    method TryDestination(srcY: int, srcX: int, destY: int, destX: int, ghost s: int, ghost d: int,
                          value0: int, move0: Move, ghost c: Choice, ghost g1: Cells)
      returns (bestEvaluationValue: int, bestMove: Move)
      requires Valid() && base.board.cells[..] == g1 && Sound(g1, base.id)
      requires 0 <= s < NumCells && 0 <= d < NumCells && PointOf(s) == Point(srcY, srcX) && PointOf(d) == Point(destY, destX)
      requires SourceUsable(g1, base.id, s) && Tracks(c, value0, move0)
      modifies base.board, base.board.cells
      ensures base.board.cells[..] == g1 && base.board.log == old(base.board.log) && Valid()
      ensures Tracks(Consider(Table(g1, base.id), c, s, d), bestEvaluationValue, bestMove)
    {
      var board := base.board;
      bestEvaluationValue, bestMove := value0, move0;
      var move := Move(Point(srcY, srcX), Point(destY, destX));
      assert move == MoveOf(s, d);
      TableAt(g1, base.id, s, d);
      var valid := board.IsMoveValid(move);
      if valid {
        var evaluationValue := Evaluated(move, s, d, g1);
        if bestEvaluationValue < evaluationValue {
          bestMove := move;
          bestEvaluationValue := evaluationValue;
        }
      }
    }

    /** `SupposeBattle`, `EvaluateBoard`, `Undo` for one candidate: its value, with the board and
        its log restored. */
    method Evaluated(move: Move, ghost s: int, ghost d: int, ghost g1: Cells) returns (evaluationValue: int)
      requires Valid() && base.board.cells[..] == g1 && Sound(g1, base.id)
      requires 0 <= s < NumCells && 0 <= d < NumCells && move == MoveOf(s, d) && Candidate(g1, base.id, s, d)
      modifies base.board, base.board.cells
      ensures base.board.cells[..] == g1 && base.board.log == old(base.board.log) && Valid()
      ensures evaluationValue == ValueOf(g1, base.id, s, d)
    {
      var board, id := base.board, base.id;
      ghost var l1 := board.log;
      CandidateIsOwnMove(g1, id, s, d);
      ValidMoveIsSupposable(g1, id, move);
      board.SupposeBattle(id, move);
      evaluationValue := EvaluateBoard();
      board.Undo();
      SupposeBattleThenUndo(g1, id, move);
      assert board.log == (l1 + [Logged(g1, move)])[..|l1|] == l1;
    }

    /** The formation loader: the 24 values of f are read row by row from the AI's own point of
        view and each is written with `set_board` at the point mirrored onto its side. Reading a
        value that is not a rank stops the load (the source then exits) with the values before it
        written. */
    method LoadFormation(f: seq<int>) returns (ok: bool)
      requires Valid() && |f| == FormationSize
      modifies base.board.cells
      ensures ok <==> IsFormation(f)
      ensures ok ==> base.board.cells[..] == Layout(old(base.board.cells[..]), f, base.id) && Valid()
      ensures !ok ==> exists n :: (0 <= n < FormationSize && !IsRank(f[n]) && (forall j :: 0 <= j < n ==> IsRank(f[j])) &&
        base.board.cells[..] == Partial(old(base.board.cells[..]), f, base.id, n))
    {
      var board, id := base.board, base.id;
      ghost var g0 := board.cells[..];
      PartialStart(g0, f, id);
      var k := 0;
      for y := 0 to Height / 2
        invariant k == y * Width && Valid()
        invariant board.cells[..] == Partial(g0, f, id, k)
        invariant forall j :: 0 <= j < k ==> IsRank(f[j])
      {
        RowStep(y);
        for x := 0 to Width
          invariant k == y * Width + x && Valid()
          invariant board.cells[..] == Partial(g0, f, id, k)
          invariant forall j :: 0 <= j < k ==> IsRank(f[j])
        {
          var piece := Piece(f[k], None, id);
          if !piece.IsPiece() {
            assert !IsRank(f[k]) && board.cells[..] == Partial(g0, f, id, k);
            return false;
          }
          PlaceTemplateCell(f, y, x, k, g0);
          k := k + 1;
        }
      }
      ok := true;
    }

    /** The placement of template cell k = (y, x): its piece is written at the mirrored point. */
    method PlaceTemplateCell(f: seq<int>, y: int, x: int, k: int, ghost g0: Cells)
      requires Valid() && Wellformed(g0) && |f| == FormationSize && 0 <= y < Height / 2 && 0 <= x < Width
      requires k == y * Width + x && forall j :: 0 <= j <= k ==> IsRank(f[j])
      requires base.board.cells[..] == Partial(g0, f, base.id, k)
      modifies base.board.cells
      ensures Valid() && base.board.cells[..] == Partial(g0, f, base.id, k + 1)
    {
      var board, id := base.board, base.id;
      var piece := Piece(f[k], None, id);
      var dest := if id == 0 then Point(y, x) else Point(Height - 1 - y, Width - 1 - x);
      TemplateAt(y, x);
      PartialStep(g0, f, id, k);
      board.SetBoard(piece, dest);
    }

    /** `LoadFormationRandomly`: formation number `roll % |formations|` of the formation file is
        loaded. */
    method LoadFormationRandomly(formations: seq<seq<int>>, roll: nat) returns (ok: bool)
      requires Valid() && |formations| > 0 && forall i :: 0 <= i < |formations| ==> |formations[i]| == FormationSize
      modifies base.board.cells
      ensures var f := formations[roll % |formations|];
        (ok <==> IsFormation(f)) && (ok ==> base.board.cells[..] == Layout(old(base.board.cells[..]), f, base.id) && Valid())
    {
      var formationId := roll % |formations|;
      ok := LoadFormation(formations[formationId]);
    }

    /** `ReplaceSomePiecesRandomly`: `rolls[0] % MaxTimesSwapPiecesRandomly` swaps of two random
        points of the AI's half, then the repair of its entrances. Each random point takes two
        values of `rolls`; the method gives up (`ok` false) when they run out. */
    method ReplaceSomePiecesRandomly(rolls: seq<nat>) returns (ok: bool, rest: seq<nat>)
      requires Valid()
      modifies base.board.cells
      ensures Valid()
      ensures multiset(Half(base.board.cells[..], base.id)) == multiset(Half(old(base.board.cells[..]), base.id))
      ensures Half(base.board.cells[..], 1 - base.id) == Half(old(base.board.cells[..]), 1 - base.id)
      ensures ok ==> Offending(base.board.cells[..], EntrancesOf(base.id)) == []
      ensures |rest| <= |rolls| && rest == rolls[|rolls| - |rest|..]
    {
      var board, id := base.board, base.id;
      if rolls == [] {
        return false, [];
      }
      var numTimes := rolls[0] % MaxTimesSwapPiecesRandomly;
      var r := 1;
      for i := 0 to numTimes
        invariant Valid() && 1 <= r <= |rolls|
        invariant multiset(Half(board.cells[..], id)) == multiset(Half(old(board.cells[..]), id))
        invariant Half(board.cells[..], 1 - id) == Half(old(board.cells[..]), 1 - id)
      {
        if |rolls| < r + 4 {
          return false, [];
        }
        var src := DeterminePointRandomly(id, rolls[r], rolls[r + 1]);
        var dest := DeterminePointRandomly(id, rolls[r + 2], rolls[r + 3]);
        r := r + 4;
        var move := Move(src, dest);
        SwapWithinHalf(board.cells[..], move, id);
        board.Swap(move);
      }
      ok, rest := board.RepairEntrances(id, rolls[r..]);
    }

    /** `ReplacePieces`: a random formation is loaded, then some pieces are swapped and the
        entrances repaired. The first value of `rolls` chooses the formation. When the formation
        loads, the AI's half ends as a rearrangement of it and the other half is untouched; when
        `ok` holds, no entrance of the AI holds a mine or the flag. */
    method ReplacePieces(formations: seq<seq<int>>, rolls: seq<nat>) returns (ok: bool, rest: seq<nat>)
      requires Valid() && |formations| > 0 && forall i :: 0 <= i < |formations| ==> |formations[i]| == FormationSize
      modifies base.board.cells
      ensures |rolls| > 0 && IsFormation(formations[rolls[0] % |formations|]) ==>
        var g := Layout(old(base.board.cells[..]), formations[rolls[0] % |formations|], base.id);
        Valid() && multiset(Half(base.board.cells[..], base.id)) == multiset(Half(g, base.id)) &&
        Half(base.board.cells[..], 1 - base.id) == Half(old(base.board.cells[..]), 1 - base.id)
      ensures ok ==> |rolls| > 0 && IsFormation(formations[rolls[0] % |formations|])
      ensures ok ==> Offending(base.board.cells[..], EntrancesOf(base.id)) == []
      ensures |rest| <= |rolls| && rest == rolls[|rolls| - |rest|..]
    {
      var board, id := base.board, base.id;
      ghost var g0 := board.cells[..];
      if rolls == [] {
        return false, [];
      }
      var loaded := LoadFormationRandomly(formations, rolls[0]);
      if !loaded {
        return false, rolls[1..];
      }
      LayoutSeenFromSide(g0, formations[rolls[0] % |formations|], id, 0);
      ok, rest := ReplaceSomePiecesRandomly(rolls[1..]);
    }
  }
}
