/**
 * The chess engine that the front-end drives (the `murnion_chess` crate), seen only
 * through what the click handler uses: the board, the side to move, the state that
 * legal-move generation depends on, `take_turn` and `select_promotion`.
 *
 * The rules themselves are not part of this model. Legal-move generation is a move
 * generator fixed when the game is created, and the two operations that change the
 * game record the argument they were given, so that the controller's calls on the
 * engine can be stated exactly.
 */
module Engine {
  import opened Wrappers

  datatype Colour = White | Black

  /** One cell of the board: a piece of some colour, or nothing. */
  datatype Piece =
    | King(colour: Colour)
    | Queen(colour: Colour)
    | Rook(colour: Colour)
    | Bishop(colour: Colour)
    | Knight(colour: Colour)
    | Pawn(colour: Colour)
    | Empty

  /** A square as (rank, file): rank 0 is the top row of the board, file 0 the a-file. */
  type Square = (nat, nat)

  /** A chess board is 8 by 8 squares. */
  const GridSize: nat := 8

  predicate OnBoard(s: Square) {
    s.0 < GridSize && s.1 < GridSize
  }

  /** The engine's board, indexed `board[rank][file]`. */
  type Board = seq<seq<Piece>>

  predicate WellFormed(b: Board) {
    |b| == GridSize && forall r :: 0 <= r < |b| ==> |b[r]| == GridSize
  }

  /** The engine's record of which castlings are still allowed; the front-end only passes it on. */
  type CastlingRights(==)

  /**
   * `Piece::get_valid_moves`: the destinations of the piece standing on a square, given the
   * board, the en-passant square and the castling rights.
   */
  type MoveGenerator = (Piece, Square, Board, Option<Square>, CastlingRights) -> seq<Square>

  class Game {
    var board: Board
    var currentTurn: Colour
    var enPassantSquare: Option<Square>
    var castlings: CastlingRights
    /** The engine's rules for legal moves. */
    const validMoves: MoveGenerator
    /** Every argument `take_turn` has received, oldest first. */
    var turnsTaken: seq<string>
    /** Every argument `select_promotion` has received, oldest first. */
    var promotionsSelected: seq<char>

    ghost predicate Valid()
      reads this
    {
      WellFormed(board)
    }

    constructor (board: Board, currentTurn: Colour, enPassantSquare: Option<Square>,
                 castlings: CastlingRights, validMoves: MoveGenerator)
      requires WellFormed(board)
      ensures Valid()
      ensures this.board == board && this.currentTurn == currentTurn
      ensures this.enPassantSquare == enPassantSquare && this.castlings == castlings
      ensures this.validMoves == validMoves
      ensures turnsTaken == [] && promotionsSelected == []
    {
      this.board := board;
      this.currentTurn := currentTurn;
      this.enPassantSquare := enPassantSquare;
      this.castlings := castlings;
      this.validMoves := validMoves;
      turnsTaken := [];
      promotionsSelected := [];
    }

    /** The piece on square `s`. */
    function PieceAt(s: Square): Piece
      reads this
      requires Valid() && OnBoard(s)
    {
      board[s.0][s.1]
    }

    /** What `board[rank][file].get_valid_moves(...)` answers for square `s` in the current position. */
    function MovesFrom(s: Square): seq<Square>
      reads this
      requires Valid() && OnBoard(s)
    {
      validMoves(board[s.0][s.1], s, board, enPassantSquare, castlings)
    }

    /**
     * `take_turn`: plays a move given in the notation of `Notation.MoveToString`. What it
     * does to the position belongs to the rules and is left open: only the recorded
     * argument, the untouched promotion log and a well-formed board are promised.
     */
    method TakeTurn(mv: string)
      requires Valid()
      modifies this
      ensures Valid()
      ensures turnsTaken == old(turnsTaken) + [mv]
      ensures promotionsSelected == old(promotionsSelected)
    {
      turnsTaken := turnsTaken + [mv];
    }

    /** `select_promotion`: chooses the piece a pawn promotes to ('q', 'r', 'b' or 'n'). */
    method SelectPromotion(kind: char)
      requires Valid()
      modifies this
      ensures Valid()
      ensures promotionsSelected == old(promotionsSelected) + [kind]
      ensures turnsTaken == old(turnsTaken)
    {
      promotionsSelected := promotionsSelected + [kind];
    }
  }
}
