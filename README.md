# Gunjin shogi: the board rules and the computer player

Gunjin shogi is a two-player game of hidden ranks on a board of 8 rows and 6 columns. Each side
owns the four rows of its half. The two halves meet at a midline. A plane moving forward or back
crosses it in any column; every other piece crosses only through the entrance columns 1 and 4. A
side's headquarters covers two cells that share one piece. A side wins when one of its generals or
field officers stands in the opponent's headquarters, and a side also wins when its opponent has
no movable piece left. This project models the board rules and the computer
player's logic, and proves properties of them.

- **Points** (`points.dfy`): point arithmetic. `Average` divides with C++ truncation toward zero,
  which differs from Dafny's Euclidean `/`.
- **Pieces** (`pieces.dfy`): the 16 ranks plus the `None` and `DummyHeadquarters` markers, the
  battle table, the per-rank quotas, and the rank predicates `IsPiece`, `IsMovable` and so on.
- **Grid** (`grid.dfy`): the board as a flat row-major sequence of 48 cells.
  - The raw cells (0, 3) and (7, 3) hold the headquarters placeholder.
  - Reading or writing either of them goes to its left neighbour (`Resolve`, `At`, `Store`).
  - Removal and the swap of two cells are also modelled here.
- **Rules** (`rules.dfy`): specification functions for every rule `Board` applies:
  - the obstacle walk and move validity;
  - the placeable-square count and the piece count;
  - the entrance rule and the random layout;
  - the real battle, the supposed battle and undo;
  - the game's end and the distance to a headquarters.
- **Boards** (`board.dfy`): the class `Board`, with a 48-cell `array<Piece>` and
  the move log as a `seq`. Each method is proved against the functions of `Rules`.
- **Characters** (`character.dfy`): the class `Character` and its score.
- **Beliefs** (`beliefs.dfy`): the computer player's ranks guessed for its opponent's pieces.
  - The guess is inferred from how a piece moved.
  - A belief only ever sharpens.
  - The board stays "sound": a belief about an opponent's piece is a rank of the battle table
    (Taisho to Spy), and a tag on one of the AI's own pieces is any of the sixteen ranks, since
    the human player may tag the AI's pieces with mines and flags too.
- **Evaluation** (`evaluation.dfy`): the static evaluation. It is bounded, it rises when an
  opponent's piece is removed, and it falls when one of the AI's own pieces is.
- **Search** (`search.dfy`): the one-ply search as a fold over a table of candidate values. The
  proved result is that the choice is the first maximum in search order. It also defines the
  effect of a whole turn.
- **Formation** (`formation.dfy`): writing a 24-value formation onto the AI's half, mirrored for
  side 1.
- **AiEngine** (`ai.dfy`): the class `Ai`, which owns a `Character`. Its methods carry the
  source's loops over the board, each proved against the functions above.

Random numbers are a parameter: a sequence `rolls` of raw `rand()` values. A method reports
`ok == false` when the sequence runs out before it has finished.

Behaviours kept as the code has them:

- `MovePiece` returns the loop cursor, which always ends at ((8, 6), (8, 6)), and not the move it
  played.
- In the evaluation, a piece's true rank is used in the pass for the AI's own side, whichever side
  owns the piece. In the other pass, a belief is used, or the colonel-tier default when there is
  none. Which rank is used depends on the pass index, not on the owner of the piece
  (src/ai.cc:82-86).
- Template cells 2 and 3 of a formation are both written to the raw headquarters cell, so cell 3
  overwrites cell 2 (`LayoutSeenFromSide`).
- The placeholder test in `CountNumPlaceableSquares` can never reject a move
  (`DummyFilterNeverFires`).
- `CountNumPieces` counts the headquarters piece twice (`CountsHeadquartersTwice`).
- A mine guarding a flag clears the flag's cell before the battle. The cell then stays empty when
  the attacker loses.
- `SupposeOpponentsFormation`'s "AI lose" test `!kBattleTable[a][i]` holds exactly for a `Lose`
  entry, because `Lose` is 0.
- `IsValid` appends to the error list it is given and never clears it.
- After the AI's own battle, the second inference call (src/ai.cc:61-62) guesses the rank of the
  opponent's defender from the AI's own move. It orients that move by the side of the AI's piece
  (src/ai.cc:118-120 read `prev_src_piece`). The model does the same: `TurnEffect` gives
  `AfterSupposition` the log entry of the AI's move and the AI's piece, and `Supposed` orients the
  move by that entry's `srcPiece.owner`.

## Model

| member | source | states |
|---|---|---|
| Points.HalveTowardZero | src/point.h:25-30 | division by two truncating toward zero: the result is within one half of n, n / 2 for n >= 0 and -((-n) / 2) below |
| Points.Abs | src/board.cc:192-193 | `abs`: the magnitude of n, one of n and -n |
| Points.InverseIsInvolution | src/point.h:10-15 | inverting twice gives the point back; the inverse negates both coordinates |
| Points.AddCommutes | src/point.h:16-21 | addition is componentwise and commutative |
| Points.SubtractProperties | src/point.h:22-24 | subtraction is addition of the inverse; a - a is zero; b - a is the inverse of a - b |
| Points.EqualsIsStructural | src/point.h:31-33 | `Equals` holds exactly for equal points, and is reflexive and symmetric |
| Points.AverageTruncatesTowardZero | src/point.h:25-30 | on concrete points the average rounds toward zero, which Euclidean division would not do |
| Points.AverageProperties | src/point.h:25-30 | the average is symmetric, idempotent and commutes with inversion |
| Pieces.MovableKinds | src/board.h:26-32 | movable means rank Taisho..Spy; generals and field officers are movable; a piece is movable exactly when it is not a mine or flag; `None` is neither |
| Pieces.QuotaSumsToNumPieces | src/board.cc:16-17 | the per-rank quotas sum to the 23 pieces of a side |
| TableFacts.TableIsAntisymmetric | src/board.cc:18-34 | every rank draws against itself; a beats b exactly when b loses to a; draws are symmetric |
| Grid.Index | src/board.h:129 | the row-major index of an in-bounds point lies in the 48 cells |
| Grid.PointOf | src/board.h:129 | the point of a raw index is in bounds and indexes back to it |
| Grid.IndexIsInjective | src/board.h:129 | distinct points have distinct indices, and the index round-trips |
| Grid.HeadquartersCells | src/board.h:75-79 | `ExistHeadquartersAt` holds exactly for the left headquarters cells (0, 2) and (7, 2) |
| Grid.Resolve | src/board.h:98-100 | a point is read through its normalised cell, never the placeholder |
| Grid.At | src/board.h:98-100 | `board(p)` is the raw piece at p's normalised index, never a placeholder |
| Grid.AtIndexIsAt | src/board.h:98-100 | reading by raw coordinate is reading the point that coordinate names |
| Grid.CellIndex | src/board.cc:284-286 | the loop counters (y, x) name the raw coordinate row + x, and the read there is `board(p)` |
| Grid.Store | src/board.h:91-93 | `set_board` writes the normalised cell only, keeps the placeholders, and a non-placeholder piece keeps the board well formed |
| Grid.StoreThenAt | src/board.h:91-100 | reading after `set_board`: the written piece on the cell it resolves to, the old piece elsewhere |
| Grid.StoreKeepsPlaceholders | src/board.h:91-93 | after `set_board` exactly the two placeholder cells hold the placeholder, unchanged |
| Grid.Delete | src/board.h:108-114 | `Delete` leaves an empty cell owned by the side of its half, and a well formed board |
| Grid.SwapCells | src/board.h:69-74 | a swap keeps the board well formed |
| Grid.SwapExchanges | src/board.h:69-74 | a swap exchanges the pieces at source and destination and leaves every other cell |
| Grid.SwapTwiceIsIdentity | src/board.h:69-74 | swapping twice restores the board |
| Grid.SwapWithSelfOrAliasIsIdentity | src/board.h:69-74 | swapping a cell with itself or with its headquarters alias changes nothing |
| Grid.HalfIndex | src/board.cc:313-317 | a point of side id's half has its raw index in that half's 24 cells |
| Grid.HalfRows | src/board.cc:313-317 | a point is in side 0's half exactly when its row is below 4, and in side 1's exactly when it is 4 or more |
| Grid.ExchangeWithinHalf | src/ai.cc:212-217 | exchanging two cells of one half keeps that half's multiset of pieces |
| Grid.OtherHalfUnchanged | src/ai.cc:212-217 | exchanging two cells of one half leaves the other half as it was |
| Grid.SwapWithinHalf | src/ai.cc:212-217 | a swap inside one half permutes that half and leaves the other half |
| Rules.Logged | src/board.h:121-127 | `add_log` records the move with the pieces read at its two ends |
| Rules.PathPointFacts | src/board.cc:251-275 | the straight path's points are in bounds, start at the source and reach the destination at its last step only |
| Rules.PathPointStep | src/board.cc:258-261 | each step moves one unit along the axis that changes |
| Rules.BlockedStops | src/board.cc:263-272 | a blocked step among steps 1..k stops the walk before it gets through step k |
| Rules.BlockedStep | src/board.cc:263-272 | a walk stopped within steps 1..k was blocked at one of them |
| Rules.ClearThroughStep | src/board.cc:256-277 | the walk gets through step k + 1 exactly when it got through step k and step k + 1 is not blocked |
| Rules.ClearThroughIff | src/board.cc:256-277 | the walk passes steps 1..k exactly when none of them is blocked |
| Rules.WalkStep | src/board.cc:256-275 | one iteration of the do-while loop reaches the next path point and its two tests decide whether that step blocks |
| Rules.WalkExits | src/board.cc:263-277 | a blocked step means an obstacle is reported |
| Rules.HitsObstacleIff | src/board.cc:251-278 | an obstacle is reported exactly when a cell short of the destination is occupied or a step crosses the midline outside an entrance column |
| Rules.OneStepObstacle | src/board.cc:263-272 | a one-step move is obstructed exactly when it crosses the wall |
| Rules.OccupiedCellBlocks | src/board.cc:263-265 | an occupied intermediate cell makes the move obstructed |
| Rules.OrientedKeepsShape | src/board.cc:180-189 | turning the displacement for side 0 keeps it diagonal, zero or straight |
| Rules.MoveRejections | src/board.cc:164-189 | a valid move starts on a movable piece, does not land on its own side's piece, is straight and really moves |
| Rules.ClearIffNoObstacle | src/board.cc:251-278 | no obstacle exactly when the path is clear |
| Rules.MoveReach | src/board.cc:191-207 | per rank, the displacements a valid move may have: tank and cavalry advance two when clear, engineers go any distance when clear, planes any distance along a column, others one step |
| Rules.PlaneIgnoresObstacles | src/board.cc:202-204 | a plane's straight move along its column is valid whatever lies in the way |
| Rules.DummyFilterNeverFires | src/board.cc:303-305 | the placeholder test never rules out a valid move: counted exactly when valid |
| Rules.PlaceableAtCell | src/board.cc:301-306 | one loop step adds one to the count exactly when that destination is not a placeholder and a valid move |
| Rules.PlaceableIsValidMoves | src/board.cc:295-311 | the count is positive exactly when some destination is a valid move, and at most the number of cells |
| Rules.MarkedBound | src/board.cc:295-311 | the count of marked indices never exceeds the cells scanned |
| Rules.MarkedWitness | src/board.cc:295-311 | a positive count has a marked index among the cells scanned |
| Rules.MarkedFromWitness | src/board.cc:295-311 | a marked index among the cells scanned makes the count positive |
| Rules.PiecesUpToCountsHeadquartersTwice | src/board.cc:280-293 | the scan's count is the raw count plus one for each headquarters placeholder read through to a piece of the side |
| Rules.CountsHeadquartersTwice | src/board.cc:280-293 | `CountNumPieces` counts a side's headquarters piece twice |
| Rules.OffendingMeans | src/board.cc:137-162 | the offending list holds exactly the entrance cells with a mine or flag, and is empty exactly when there are none |
| Rules.OffendingFrame | src/board.cc:137-162 | the offending list depends only on the entrance cells |
| Rules.ScanIsOffending | src/board.cc:137-162 | the loop's list after n entrances is the offending list of the first n entrances, and of all of them at the end |
| Rules.EntranceRule | src/board.cc:137-162 | `IsValid` reports availability exactly when no entrance holds a mine or flag |
| Rules.EntrancesInHalf | src/board.cc:11-12 | each side's entrances lie in its own half |
| Rules.LayoutDependsOnMultiset | src/board.cc:71-82 | an initial layout stays one under any rearrangement of the half |
| Rules.DeterminePointRandomly | src/board.cc:313-317 | the point drawn lies in the half of the given side |
| Rules.EveryPointOfHalfIsDrawn | src/board.cc:313-317 | every point of a side's half is drawn by some pair of values |
| Rules.BattleCells | src/board.cc:85-135 | a battle leaves a well formed board |
| Rules.BattleEffect | src/board.cc:85-135 | the source is emptied, the destination holds the result's occupant, every other cell is unchanged |
| Rules.BattleOutcomes | src/board.cc:93-134 | an empty destination is entered; an unguarded flag is taken; otherwise the table decides; a mine guarding a flag clears the flag's cell |
| Rules.SupposeBattleCells | src/board.cc:319-351 | a supposed battle leaves a well formed board |
| Rules.SupposedOutcomes | src/board.cc:319-351 | each side's effective rank is its true kind for the supposer's pieces and the belief otherwise; an unknown defender always loses; a losing attacker leaves the defender |
| Rules.UndoCells | src/board.h:80-85 | undo leaves a well formed board |
| Rules.UndoRestores | src/board.h:80-85 | undoing an entry restores both recorded cells of a board that differs only there |
| Rules.BattleThenUndo | src/board.cc:85-135 | an undo after a real battle restores the board |
| Rules.SupposeBattleThenUndo | src/board.cc:319-351 | an undo after a supposed battle restores the board |
| Rules.NearestHeadquarters | src/board.cc:356-362 | the shorter of the Manhattan distances to the two headquarters cells |
| Rules.DistanceFacts | src/board.cc:353-371 | two is added exactly for a point in the other half in the centre columns; a headquarters is at distance zero; the distance is at most 11 |
| Rules.DetourExact | src/board.cc:365-368 | two is added exactly for a point outside side id's half in the centre columns 2 and 3 |
| Rules.HomeDistance | src/board.cc:353-371 | either cell of a side's headquarters is at distance zero from it |
| Rules.NearestBound | src/board.cc:356-362 | the nearer headquarters cell is at most 9 steps away anywhere on the board |
| Rules.EndOfCases | src/board.cc:210-249 | each of the four outcomes, as an equivalence on the headquarters and movable-piece conditions |
| Rules.TakerIsMovable | src/board.cc:217-223 | a side that has taken a headquarters has a movable piece |
| Boards.Board.constructor | src/board.h:129-130 | a fresh 48-cell board with an empty log |
| Boards.Board.IsDummyHeadquarters | src/board.h:86-88 | true exactly on the two placeholder points |
| Boards.Board.Get | src/board.h:98-100 | `board(p)` is `At`; it never returns the placeholder |
| Boards.Board.SetBoard | src/board.h:91-93 | the new cells are `Store` of the old |
| Boards.Board.Delete | src/board.h:108-114 | the new cells are `Delete` of the old |
| Boards.Board.AddLog | src/board.h:121-127 | one entry is appended, recording the move and the two pieces |
| Boards.Board.SetPrevDest | src/board.h:90 | only the last entry's destination piece is replaced |
| Boards.Board.Swap | src/board.h:69-74 | the new cells are the swap of the old |
| Boards.Board.Undo | src/board.h:80-85 | the last entry is popped and its two pieces are written back |
| Boards.Board.Battle | src/board.cc:85-135 | the log grows by the pre-battle entry and the cells become `BattleCells` |
| Boards.Board.FightOver | src/board.cc:92-125 | the result is `BattleResultOf` the pre-battle board, and the cells change only when a mine guarding a flag clears the flag's cell |
| Boards.Board.SupposeBattle | src/board.cc:319-351 | the log grows by the pre-battle entry and the cells become `SupposeBattleCells` |
| Boards.Board.IsValid | src/board.cc:137-162 | the error list grows by the offending entrances; available exactly when no entrance holds a mine or flag |
| Boards.Board.IsPieceHittingObstacle | src/board.cc:251-278 | the walk's answer is `HitsObstacle` |
| Boards.Board.WalkStep | src/board.cc:256-272 | one pass of the loop body reaches the next path point, which is the destination exactly at the last step, and reports whether that step is blocked |
| Boards.Board.IsMoveValid | src/board.cc:164-208 | the answer is the rule `Rules.IsMoveValid` |
| Boards.Board.HasNoMovablePiece | src/board.cc:225-234 | true exactly when the side has no movable piece |
| Boards.Board.IsEnd | src/board.cc:210-249 | the loop's outcome is `EndOf` |
| Boards.Board.CountNumPieces | src/board.cc:280-293 | the scan's count, with the headquarters piece counted twice |
| Boards.Board.CountNumPlaceableSquares | src/board.cc:295-311 | the count is positive exactly when some destination is a valid move |
| Boards.Board.CountPlaceableInRow | src/board.cc:301-309 | the inner loop over row y adds the placeable count of that row's six cells |
| Boards.Board.CountSquare | src/board.cc:303-306 | one loop step adds one exactly when that destination is not the placeholder and is a valid move |
| Boards.Board.MeasureDistanceToHeadquartersOf | src/board.cc:353-371 | the distance with the detour penalty |
| Boards.Board.Initialize | src/board.cc:36-83 | on success both halves meet their quotas with fresh pieces and no entrance holds a mine or flag |
| Boards.Board.PlaceRandomly | src/board.cc:37-69 | on success both halves are fresh layouts meeting the quotas |
| Boards.Board.PlaceRow | src/board.cc:39-69 | one row is filled with fresh pieces within quota, nothing else changes |
| Boards.Board.PlaceCell | src/board.cc:44-67 | one cell gets a fresh piece (or the placeholder) within quota, nothing else changes |
| Boards.Board.ChoosePiece | src/board.cc:45-63 | the piece belongs to the row's side with no belief; it is the placeholder at (0, 3) and (7, 3) with the counters unchanged, and elsewhere a rank below its quota whose counter goes up by one |
| Boards.Board.DrawKind | src/board.cc:58-63 | the kind drawn is the last value mod 16, and its quota is not yet full |
| Boards.Board.RepairEntrances | src/board.cc:71-82 | the half is permuted, the other half is unchanged, and on success no entrance holds a mine or flag |
| Boards.FullCountsMeetQuota | src/board.cc:16-17 | counts below the quotas that sum to the total equal the quotas |
| Boards.CountingCompletesHalf | src/board.cc:39-69 | a half whose counts reach 23 meets every quota |
| Boards.FreshCellsMakeFreshHalves | src/board.cc:44-67 | cells placed fresh make a well formed board with fresh halves |
| Boards.OccurrencesIsMultiplicity | src/board.cc:58-63 | the recursive count of a piece in a sequence is its multiplicity |
| Boards.EntrancesOfZeroInFirstHalf | src/board.cc:71-82 | repairing side 1 leaves side 0's entrances as they were |
| Characters.ScoresAreOpposite | src/character.h:32-37 | the two sides' scores are opposite and bounded by the board size |
| Characters.Character.constructor | src/character.h:21-27 | type, board, side and name are stored and the score starts at zero |
| Characters.Character.UpdateScore | src/character.h:32-37 | the score becomes own pieces minus the opponent's |
| Beliefs.AtIsSound | src/board.cc:322-327 | every piece read from a sound board is sound: an opponent's belief is a table rank, a tag on an AI piece any rank |
| Beliefs.StoreKeepsSound | src/board.h:91-93 | writing a sound piece keeps the board sound |
| Beliefs.BattleKeepsSound | src/board.cc:85-135 | a real battle keeps the board sound |
| Beliefs.SupposeBattleKeepsSound | src/board.cc:319-351 | a supposed battle keeps the board sound |
| Beliefs.ValidMoveIsSupposable | src/board.cc:319-341 | on a sound board every valid move of the supposer reads the table in range |
| Beliefs.FirstBeaterIsFirst | src/ai.cc:144-150 | the scan from rank 13 down yields the first eligible rank that beats the AI's piece, or None |
| Beliefs.ScanDownIsFirst | src/ai.cc:144-150 | the downward scan finds the highest marked index not above i, and None exactly when none is marked |
| Beliefs.EligibleBeats | src/ai.cc:136-137 | an eligible rank beats the AI's piece |
| Beliefs.NewBeliefRange | src/ai.cc:117-151 | the guess is a rank, or None only for a short unobstructed move |
| Beliefs.KindAllowsReveals | src/board.cc:180-206 | a displacement a rank is allowed shows the rank: sideways two only an engineer, back two a plane or engineer, forward two a forward-moving rank, past an obstacle (other than one sideways step) a plane |
| Beliefs.LongMovesRevealRank | src/ai.cc:122-129 | long moves pin the rank down, so each guess is consistent with the move rules |
| Beliefs.ShortMovesPassFreely | src/board.cc:263-272 | a one-step sideways move is never obstructed |
| Beliefs.Min | src/ai.cc:154-155 | `std::min`: the smaller of the two |
| Beliefs.BeliefNeverRises | src/ai.cc:108-158 | no-op when the AI holds the cell or it is empty; otherwise the kind and owner stay, the belief never rises and stays sound |
| Beliefs.KindsAgreeSameWalk | src/board.cc:256-275 | the obstacle walk ignores beliefs |
| Beliefs.KindsAgreeSameBlock | src/board.cc:263-272 | whether a step of the walk is blocked ignores beliefs |
| Beliefs.KindsAgreeAt | src/board.h:98-100 | boards agreeing on kinds and owners read the same kind and owner |
| Beliefs.KindsAgreeSameRules | src/board.cc:164-208 | boards that agree on kinds and owners give the same move validity: beliefs play no part |
| Beliefs.KindsAgreeSameBattle | src/board.cc:85-125 | whether the battle table is read in range ignores beliefs |
| Beliefs.KindsAgreeSameGuard | src/board.cc:96-106 | the flag's guard ignores beliefs |
| Beliefs.KindsAgreeSamePlaceable | src/board.cc:295-311 | the placeable count ignores beliefs |
| Beliefs.AfterSuppositionFrame | src/ai.cc:153-157 | the belief update changes only beliefs and the last entry's destination piece, and keeps soundness |
| Evaluation.TermRange | src/ai.cc:82-92 | each coordinate's term lies in 0..224, at least 3 for a counted piece |
| Evaluation.PassSumRange | src/ai.cc:71-95 | a pass's sum over n coordinates lies in 0..224n |
| Evaluation.EvaluateRange | src/ai.cc:97-105 | the evaluation is bounded well inside the 32-bit range |
| Evaluation.PassSumMonotone | src/ai.cc:71-95 | lower terms give a lower sum, strictly if one term is strictly lower |
| Evaluation.PiecesUpToMonotone | src/board.cc:280-293 | fewer owned cells give a lower count, strictly if one is lost |
| Evaluation.Removed | src/board.h:108-114 | taking a piece off leaves a well formed board |
| Evaluation.RemovedIsDelete | src/board.h:108-114 | the removal is `Delete` at the point of the raw cell: an empty cell owned by the half it lies in |
| Evaluation.StrengthRange | src/ai.cc:82-86 | a counted piece of a sound board weighs between 1 and 16 |
| Evaluation.CaptureParts | src/ai.cc:67-106 | removing an opponent's piece keeps the AI's two sums, lowers the opponent's two, and raises the material lead |
| Evaluation.LossParts | src/ai.cc:67-106 | removing one of the AI's pieces lowers its two sums, keeps the opponent's, and lowers the material lead |
| Evaluation.EvaluateOrder | src/ai.cc:97-105 | own sums no higher, opponent's sums no lower and a smaller material lead give a strictly lower evaluation |
| Evaluation.RemovedTerm | src/ai.cc:76-92 | a removal lowers no term, keeps the other side's terms, and lowers its own cell's term |
| Evaluation.RemovedAt | src/board.h:98-100 | after a removal each coordinate reads as before or reads no piece |
| Evaluation.RemovedPass | src/ai.cc:71-95 | a removal keeps the sums it does not count in and lowers the one it does |
| Evaluation.RemovedPieces | src/board.cc:280-293 | a removal lowers the piece count of the owner only |
| Evaluation.CaptureRaisesEvaluation | src/ai.cc:67-106 | removing an opponent's piece raises the AI's evaluation |
| Evaluation.LossLowersEvaluation | src/ai.cc:67-106 | removing one of the AI's pieces lowers its evaluation |
| Search.PlaceableFilterIsRedundant | src/ai.cc:31-43 | a pair is tried exactly when the source is the AI's and the move is valid |
| Search.CandidateIsOwnMove | src/ai.cc:31-43 | every tried pair moves the AI's own piece straight to a square it may enter |
| Search.ValueOf | src/ai.cc:45-50 | a candidate's evaluation always exceeds INT_MIN, so some candidate is taken |
| Search.TableAt | src/ai.cc:29-47 | the table holds exactly the candidates, each with its evaluation |
| Search.TableFacts | src/ai.cc:27-50 | every table value exceeds INT_MIN and a skipped source has no candidate |
| Search.ConsiderExplains | src/ai.cc:50-53 | one update keeps the strictly-better-first choice |
| Search.DestFoldExplains | src/ai.cc:39-55 | the inner loops keep the choice explained |
| Search.ExplainsNextSource | src/ai.cc:29-57 | the end of one source's destinations is the start of the next source |
| Search.ExplainsSkip | src/ai.cc:33-36 | skipping an unusable source loses no candidate |
| Search.SrcFoldExplains | src/ai.cc:29-57 | the outer loops keep the choice explained |
| Search.ChooseIsFirstMaximum | src/ai.cc:27-57 | a move is picked exactly when a candidate exists; it is a maximum, and the first maximum in search order |
| Search.Chosen | src/ai.cc:51-60 | the committed move is a valid straight move of the AI's piece |
| Search.KindsAgreeSameCandidate | src/ai.cc:31-43 | the candidates ignore beliefs |
| Search.KindsAgreeKeepCandidates | src/ai.cc:21-24 | the first inference keeps some candidate available |
| Search.KindsAgreeKeepBattles | src/ai.cc:21-24 | the first inference keeps every battle in range |
| Search.BeforeSearch | src/ai.cc:21-24 | the inference from the opponent's move keeps the board sound, the kinds and the log's length |
| Search.ChosenIsPlayable | src/ai.cc:60-62 | the committed move's battle and the inference after it are defined |
| Search.Committed | src/ai.cc:60 | the committed move is valid on the board the inference left |
| Search.TurnEffectUnfolds | src/ai.cc:59-62 | the search's result is the committed move, and the rest of the turn is its battle and inference |
| Search.TurnCommitsChoice | src/ai.cc:20-65 | a turn appends exactly one entry, the chosen move with its piece, and keeps the board sound |
| Formation.TemplatePoint | src/ai.cc:179-181 | template cell k lies in side 0's half at row-major index k |
| Formation.TemplateAt | src/ai.cc:179-181 | the loop counters (y, x) name template cell 6y + x |
| Formation.SlotIsIndex | src/ai.cc:194-197 | a template cell is written to the normalised raw cell of its mirrored point |
| Formation.SlotWriter | src/ai.cc:179-197 | once the formation is written, each template cell is the last writer of its cell, except that cell 3 overwrites cell 2 |
| Formation.MirrorFacts | src/ai.cc:194-196 | the mirrored point lies in the AI's half and has index k or 47 - k |
| Formation.WriterRange | src/ai.cc:179-197 | the last writer of a cell is one of the cells written, and never a placeholder cell |
| Formation.PartialStart | src/ai.cc:179-181 | before any write the board is unchanged |
| Formation.PartialStep | src/ai.cc:194-197 | each `set_board` extends the partial layout by one cell and keeps the board well formed |
| Formation.PartialWellformed | src/ai.cc:189-197 | a layout of ranks keeps the placeholders |
| Formation.WriterStep | src/ai.cc:194-197 | writing cell n makes it the last writer of its cell only |
| Formation.PartialWriters | src/ai.cc:179-199 | every cell holds its last writer's piece, or its old piece |
| Formation.LayoutSeenFromSide | src/ai.cc:179-199 | each mirrored template point shows its rank with no belief, cell 2 shows cell 3's, the other half is unchanged |
| AiEngine.GatheredStep | src/ai.cc:89-92 | one coordinate's two additions advance the arrays by one coordinate |
| AiEngine.CellTerm | src/ai.cc:76-92 | the loop body's product is the term of that coordinate |
| AiEngine.Ai.constructor | src/character.h:21-27 | an AI character on the board with score zero |
| AiEngine.Ai.EvaluateBoard | src/ai.cc:67-106 | the loops compute `Evaluate` |
| AiEngine.Ai.GatherPass | src/ai.cc:73-94 | one pass over all rows adds every coordinate's terms to the arrays |
| AiEngine.Ai.GatherRow | src/ai.cc:74-93 | one row of a pass adds its six coordinates' terms to the arrays |
| AiEngine.Ai.CellValue | src/ai.cc:76-92 | the piece read is `board(p)` and, for a piece, the product is its term in the pass, on the side the pass counts it for; a cell with no piece has no term |
| AiEngine.Ai.AddCell | src/ai.cc:76-92 | a coordinate adds its term to `defense[i]` or `attack[1 - i]` and nothing else |
| AiEngine.Ai.SupposeOpponentsFormation | src/ai.cc:108-158 | the board and log become `AfterSupposition` |
| AiEngine.Ai.InferSupposition | src/ai.cc:117-151 | the guess is `NewBelief` |
| AiEngine.Ai.ScanForBeater | src/ai.cc:131-150 | the scan yields the first beater, or keeps the guess |
| AiEngine.Ai.MovePiece | src/ai.cc:20-65 | the state becomes `TurnEffect` and the cursor ((8, 6), (8, 6)) is returned |
| AiEngine.Ai.SearchBestMove | src/ai.cc:27-57 | the loops' best value and move are `Choose`, with the board restored |
| AiEngine.Ai.TrySource | src/ai.cc:30-56 | one source either folds its destinations or is skipped |
| AiEngine.Ai.IsSourceUsable | src/ai.cc:31-36 | the source test is `SourceUsable` |
| AiEngine.Ai.TryDestinations | src/ai.cc:39-55 | the inner loops fold a source's destinations with the board restored |
| AiEngine.Ai.TryDestination | src/ai.cc:40-54 | one destination is considered with the board restored |
| AiEngine.Ai.Evaluated | src/ai.cc:45-47 | suppose, evaluate, undo: the value is `ValueOf` and the board and log are restored |
| AiEngine.Ai.LoadFormation | src/ai.cc:179-199 | succeeds exactly for a formation of ranks and then writes `Layout`; on failure value n is the first non-rank and the board holds the layout of the first n values |
| AiEngine.Ai.PlaceTemplateCell | src/ai.cc:194-197 | one template cell is written at its mirrored point |
| AiEngine.Ai.LoadFormationRandomly | src/ai.cc:160-202 | formation number `roll % count` is loaded |
| AiEngine.Ai.ReplaceSomePiecesRandomly | src/ai.cc:204-228 | the AI's half is permuted, the other half unchanged, and on success no entrance holds a mine or flag |
| AiEngine.Ai.ReplacePieces | src/ai.cc:15-18 | the half becomes a permutation of the loaded formation, and on success the entrance rule holds |

## Left out

- The game loop, the players, the window, the graphics and `main` are not part of this model.
  Only the board rules, the character and the computer player are modelled.
- The formation file is not read. `fopen`, `fscanf`, the skipping of formation lines and
  `exit` are I/O, so the formations become a parameter `formations: seq<seq<int>>`.
  - A value that is not a rank makes the model stop with `ok == false` where the source exits.
  - AiEngine.Ai.LoadFormation: on failure the contract states that the first n values are ranks,
    value n is not, and the board holds the layout of those n values. It states no more, because
    the source ends the program at that point.
- `rand()` becomes the parameter `rolls`. Rejection draws and repair loops can run forever
  in the source. In the model they end when `rolls` runs out.
  - Boards.Board.Initialize: promises nothing about the cells when the values run out.
  - Boards.Board.RepairEntrances: when the values run out, it promises only the permutation of the
    half, not the entrance rule.
  - AiEngine.Ai.ReplaceSomePiecesRandomly: when the values run out, it promises only the
    permutation of the half, not the entrance rule.
  - AiEngine.Ai.ReplacePieces: when the values run out, it promises only the permutation of the
    half, not the entrance rule.
- The midline test in `IsPieceHittingObstacle` compares the `double` average of two rows with 3.5.
  The model uses the integer test `prev_y + current.y == 7`, which holds for exactly the same rows.
- The two-dimensional `board_` becomes a flat array of 48 cells in row-major order.
- `Ai` inherits from `Character` in the source. In the model it holds a `Character` in the field
  `base`. The virtual methods are left out.
- Undefined behaviour in the source becomes preconditions:
  - A rank read from outside the battle table is excluded by `BattleDefined`,
    `SupposedBattleDefined` and `BeliefDefined`.
  - Battling with the uninitialised `best_move` when no candidate exists is excluded:
    `TurnDefined` requires a candidate.
  - `rand() % num_formations` with no formations is excluded: the formations must be non-empty.
  - The obstacle walk on a zero move divides by zero (`abs(0) / 0`) and is excluded.
  - The obstacle walk on a diagonal move never reaches the destination. It steps off the board and
    reads outside `board_`. It is excluded too: the move must be straight.
- `set_prev_move` is not modelled. The log entries are made by `add_log` only.
- `IsEnd` also writes `winners_id` on a draw. The model returns one outcome (`EndOf`) and drops that
  value.
- The `kMaxTimesSwapPiecesRandomly <= 0` check in `ReplaceSomePiecesRandomly` cannot fire, because
  the constant is 2. It is omitted.
- Machine integers are unbounded in the model. `EvaluateRange` shows that the evaluation stays far
  inside 32 bits, so no sum overflows.
- The accessors `name()`, `score()`, `type()` and `id()` are read as fields.
