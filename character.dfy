/** A participant of the game: its side, its opponent's side, its board and its running score. */
module Characters {
  import opened Pieces
  import opened Grid
  import opened Rules
  import opened Boards

  datatype CharacterType = Player | Ai

  /** The score of side id: its pieces minus its opponent's, both counted by the 48-coordinate scan. */
  function ScoreOf(g: Cells, id: int): int
    requires Wellformed(g)
  {
    PiecesUpTo(g, id, NumCells) - PiecesUpTo(g, 1 - id, NumCells)
  }

  lemma {:induction false} PiecesUpToBound(g: Cells, id: int, n: int)
    requires Wellformed(g) && 0 <= n <= NumCells
    ensures PiecesUpTo(g, id, n) <= n
  {
    if n > 0 {
      PiecesUpToBound(g, id, n - 1);
    }
  }

  /** The two sides' scores on one board are negatives of each other, and neither exceeds the
      number of coordinates in size. */
  lemma ScoresAreOpposite(g: Cells)
    requires Wellformed(g)
    ensures ScoreOf(g, 0) == -ScoreOf(g, 1)
    ensures -NumCells <= ScoreOf(g, 0) <= NumCells && -NumCells <= ScoreOf(g, 1) <= NumCells
  {
    PiecesUpToBound(g, 0, NumCells);
    PiecesUpToBound(g, 1, NumCells);
  }

  class Character {
    const characterType: CharacterType
    const board: Board
    const id: int
    const opponentsId: int := 1 - id
    const name: string
    var score: int

    constructor (characterType: CharacterType, board: Board, id: int, name: string)
      ensures this.characterType == characterType && this.board == board && this.id == id
      ensures this.name == name && score == 0
    {
      this.characterType := characterType;
      this.board := board;
      this.id := id;
      this.name := name;
      score := 0;
    }

    /** Sets the score from the current board; the board and its log are not touched. */
    method UpdateScore()
      requires board.Valid()
      modifies this
      ensures score == ScoreOf(board.cells[..], id)
    {
      var numMyPieces := board.CountNumPieces(id);
      var numOpponentsPieces := board.CountNumPieces(opponentsId);
      var difference := numMyPieces - numOpponentsPieces;
      score := difference;
    }
  }
}
