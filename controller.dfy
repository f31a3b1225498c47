/**
 * The click controller of the chess window (`AppState` and its `mouse_button_down_event`):
 * a left click on the board selects, deselects or moves; a left click on the promotion
 * selector chooses the piece a pawn promotes to; anything else is ignored.
 *
 * The controller's state is the selected square and the highlighted squares (the moves
 * the engine allows from the selected square). The pure function `BoardClick` says what
 * a click on the board does to that state and which move, if any, it plays; the class
 * `AppState` updates its fields step by step as the handler does and is proved to agree
 * with it.
 */
module Controller {
  import opened Wrappers
  import opened Engine
  import opened Notation
  import opened Geometry

  /** `get_colour`: the colour of a piece, none for an empty square. */
  function GetColour(piece: Piece): (c: Option<Colour>)
    ensures c.None? <==> piece.Empty?
    ensures !piece.Empty? ==> c == Some(piece.colour)
  {
    match piece
    case King(c) => Some(c)
    case Queen(c) => Some(c)
    case Rook(c) => Some(c)
    case Knight(c) => Some(c)
    case Bishop(c) => Some(c)
    case Pawn(c) => Some(c)
    case Empty => None
  }

  /**
   * The letter passed to `select_promotion` for slot (rank, file) of the 2 by 2 selector:
   * queen and rook on the upper row, bishop and knight on the lower.
   */
  function PromotionLetter(rank: nat, file: nat): (c: char)
    requires rank < 2 && file < 2
    ensures PromotionSlot(c) == Some((rank, file))
  {
    match (rank, file)
    case (0, 0) => 'q'
    case (0, 1) => 'r'
    case (1, 0) => 'b'
    case (1, 1) => 'n'
    case _ => assert false; 'n'
  }

  /** The selector slot showing the piece a promotion letter names, if it names one. */
  function PromotionSlot(c: char): Option<(nat, nat)>
  {
    match c
    case 'q' => Some((0, 0))
    case 'r' => Some((0, 1))
    case 'b' => Some((1, 0))
    case 'n' => Some((1, 1))
    case _ => None
  }

  /** The four slots name four different pieces, and the letters sent are exactly 'q', 'r', 'b', 'n'. */
  lemma PromotionLettersExact(c: char)
    ensures (exists rank: nat, file: nat :: rank < 2 && file < 2 && PromotionLetter(rank, file) == c)
            <==> c in {'q', 'r', 'b', 'n'}
  {
    if c in {'q', 'r', 'b', 'n'} {
      var slot := PromotionSlot(c).value;
      assert PromotionLetter(slot.0, slot.1) == c;
    }
  }

  /** The mouse buttons the window reports. */
  datatype MouseButton = Left | Right | Middle | Other(code: nat)

  /** The controller's state: `selected_square` and `highlighted_squares`. */
  datatype UiState = UiState(selected: Option<Square>, highlighted: seq<Square>)

  /** Nothing selected and nothing highlighted, as in a fresh window. */
  const Idle := UiState(None, [])

  /** Highlights exist only next to a selection, and a selected square lies on the board. */
  predicate Consistent(u: UiState) {
    && (u.selected.None? ==> u.highlighted == [])
    && (u.selected.Some? ==> OnBoard(u.selected.value))
  }

  /** What a click on the board does: the new state, and the move (from, to) handed to `take_turn`, if any. */
  datatype BoardStep = BoardStep(ui: UiState, commit: Option<(Square, Square)>)

  /**
   * Selecting `clicked`: it becomes the selected square whatever stands on it, and the
   * engine's moves `moves` from it are highlighted only when its piece belongs to the side
   * to move, `turn`. `owner` is the colour of the piece on it.
   */
  function Select(clicked: Square, owner: Option<Colour>, turn: Colour, moves: seq<Square>): UiState
  {
    UiState(Some(clicked), if owner == Some(turn) then moves else [])
  }

  /**
   * A left click on board square `clicked`, tested in the handler's order: a highlighted
   * square plays the move and clears the selection; the selected square itself clears the
   * selection; any other square is selected afresh.
   */
  function BoardClick(u: UiState, clicked: Square, owner: Option<Colour>, turn: Colour, moves: seq<Square>): (s: BoardStep)
    // the engine is asked to move exactly when a selection exists and the square is highlighted
    ensures s.commit.Some? <==> u.selected.Some? && clicked in u.highlighted
    // that move goes from the selected square to a highlighted one, and the selection is dropped
    ensures s.commit.Some? ==>
      && s.commit.value == (u.selected.value, clicked)
      && s.commit.value.1 in u.highlighted
      && s.ui == Idle
    // clicking the selected square again cancels, unless it is itself highlighted
    ensures u.selected == Some(clicked) && clicked !in u.highlighted ==> s == BoardStep(Idle, None)
    // any other click selects the clicked square and shows its moves only for the side to move
    ensures s.commit.None? && u.selected != Some(clicked) ==>
      && s.ui.selected == Some(clicked)
      && s.ui.highlighted == (if owner == Some(turn) then moves else [])
    // a consistent state stays consistent
    ensures Consistent(u) && OnBoard(clicked) ==> Consistent(s.ui)
  {
    match u.selected
    case Some(t) =>
      if clicked in u.highlighted then BoardStep(Idle, Some((t, clicked)))
      else if clicked == t then BoardStep(Idle, None)
      else BoardStep(Select(clicked, owner, turn, moves), None)
    case None =>
      BoardStep(Select(clicked, owner, turn, moves), None)
  }

  /**
   * Clicking a square twice from the idle state ends idle again without playing a move,
   * provided the engine does not list the square among its own piece's moves (the
   * highlighted test comes before the cancel test).
   */
  lemma IdleRoundTrip(sq: Square, owner: Option<Colour>, turn: Colour, moves: seq<Square>,
                      owner': Option<Colour>, turn': Colour, moves': seq<Square>)
    requires owner == Some(turn) ==> sq !in moves
    ensures var first := BoardClick(Idle, sq, owner, turn, moves);
      && first.commit.None? && first.ui.selected == Some(sq)
      && BoardClick(first.ui, sq, owner', turn', moves') == BoardStep(Idle, None)
  {
  }

  /**
   * A square holding no piece of the side to move can be selected, but no move can
   * follow from it: whatever the next click is, the engine is not called.
   */
  lemma ForeignSelectionNeverMoves(u: UiState, sq: Square, owner: Option<Colour>, turn: Colour, moves: seq<Square>,
                                   next: Square, owner': Option<Colour>, turn': Colour, moves': seq<Square>)
    requires owner != Some(turn)
    ensures var first := BoardClick(u, sq, owner, turn, moves);
      first.ui.highlighted == [] && BoardClick(first.ui, next, owner', turn', moves').commit.None?
  {
  }

  /** What the handler reads from the engine when square `clicked` is clicked. */
  datatype Observation = Observation(clicked: Square, owner: Option<Colour>, turn: Colour, moves: seq<Square>)

  /** A sequence of board clicks from state `u`: the final state and every move played, in order. */
  function Replay(u: UiState, clicks: seq<Observation>): (UiState, seq<(Square, Square)>)
    decreases |clicks|
  {
    if clicks == [] then (u, [])
    else
      var (v, played) := Replay(u, clicks[..|clicks| - 1]);
      var o := clicks[|clicks| - 1];
      var step := BoardClick(v, o.clicked, o.owner, o.turn, o.moves);
      (step.ui, played + if step.commit.Some? then [step.commit.value] else [])
  }

  /** Among `clicks`, square `from` was clicked while it held a piece of the side to move, and the engine then allowed `to`. */
  ghost predicate Reported(clicks: seq<Observation>, from: Square, to: Square) {
    exists j :: 0 <= j < |clicks| && clicks[j].clicked == from && clicks[j].owner == Some(clicks[j].turn) && to in clicks[j].moves
  }

  /**
   * Over any sequence of board clicks from the idle state, the state stays consistent,
   * every highlighted square is a move the engine reported for the selected square, and
   * every move played is such a move between squares of the board, so `move_to_string`
   * never panics.
   */
  lemma {:induction false} ReplayPlaysReportedMoves(clicks: seq<Observation>)
    requires forall i :: 0 <= i < |clicks| ==> OnBoard(clicks[i].clicked)
    ensures var (u, played) := Replay(Idle, clicks);
      && Consistent(u)
      && (forall t :: t in u.highlighted ==> u.selected.Some? && Reported(clicks, u.selected.value, t))
      && (forall m :: m in played ==> OnBoard(m.0) && OnBoard(m.1) && Reported(clicks, m.0, m.1))
  {
    if clicks != [] {
      var n := |clicks| - 1;
      var prefix := clicks[..n];
      ReplayPlaysReportedMoves(prefix);
      var (v, played) := Replay(Idle, prefix);
      var o := clicks[n];
      var step := BoardClick(v, o.clicked, o.owner, o.turn, o.moves);
      forall from, to | Reported(prefix, from, to) ensures Reported(clicks, from, to) {
        var j :| 0 <= j < |prefix| && prefix[j].clicked == from && prefix[j].owner == Some(prefix[j].turn) && to in prefix[j].moves;
        assert clicks[j] == prefix[j];
      }
      if step.ui.selected == Some(o.clicked) && step.ui.highlighted != [] {
        assert o.owner == Some(o.turn) && step.ui.highlighted == o.moves;
        forall t | t in step.ui.highlighted ensures Reported(clicks, o.clicked, t) {
          assert clicks[n] == o;
        }
      }
    }
  }

  /** The application state: the engine's game and the selection shown on the board. */
  class AppState {
    const game: Game
    var selectedSquare: Option<Square>
    var highlightedSquares: seq<Square>

    ghost predicate Valid()
      reads this, game
    {
      game.Valid() && Consistent(Ui())
    }

    function Ui(): UiState
      reads this
    {
      UiState(selectedSquare, highlightedSquares)
    }

    /** `AppState::new`: a game with nothing selected and nothing highlighted. */
    constructor (game: Game)
      requires game.Valid()
      ensures Valid() && this.game == game && Ui() == Idle
    {
      this.game := game;
      selectedSquare := None;
      highlightedSquares := [];
    }

    /** Selects square `sq` as both selection branches of the handler do. */
    method SelectSquare(sq: Square)
      requires Valid() && OnBoard(sq)
      modifies this
      ensures Valid()
      ensures Ui() == Select(sq, GetColour(game.PieceAt(sq)), game.currentTurn, game.MovesFrom(sq))
    {
      selectedSquare := Some(sq);
      highlightedSquares := [];
      var c := GetColour(game.board[sq.0][sq.1]);
      if c.Some? && c.value == game.currentTurn {
        highlightedSquares := game.validMoves(game.board[sq.0][sq.1], sq, game.board, game.enPassantSquare, game.castlings);
      }
    }

    /**
     * `mouse_button_down_event`: a click at pixel (x, y). A left click on the board must
     * lie above the board's lower edge, as it always does in the fixed 990 by 720 window;
     * lower down the board index would be out of range.
     */
    method MouseButtonDownEvent(button: MouseButton, x: real, y: real)
      requires Valid()
      requires button == Left && x < BoardExtent ==> y < BoardExtent
      modifies this, game
      ensures Valid()
      // other buttons, and clicks outside both regions, change nothing
      ensures button != Left || Classify(x, y).Outside? ==> unchanged(this, game)
      // a board click is the step BoardClick describes, with the engine's answers before the click
      ensures button == Left && Classify(x, y).BoardCell? ==>
        var sq := (Classify(x, y).rank, Classify(x, y).file);
        var step := BoardClick(old(Ui()), sq, old(GetColour(game.PieceAt(sq))), old(game.currentTurn), old(game.MovesFrom(sq)));
        && Ui() == step.ui
        && (step.commit.None? ==> unchanged(game))
        && (step.commit.Some? ==>
              && game.turnsTaken == old(game.turnsTaken) + [MoveToString(step.commit.value.0, step.commit.value.1)]
              && game.promotionsSelected == old(game.promotionsSelected))
      // a click on the promotion selector sends that slot's letter and leaves the selection alone
      ensures button == Left && Classify(x, y).PromotionCell? ==>
        && Ui() == old(Ui())
        && game.promotionsSelected == old(game.promotionsSelected) + [PromotionLetter(Classify(x, y).rank, Classify(x, y).file)]
        && game.turnsTaken == old(game.turnsTaken)
    {
      if button == Left {
        if x < BoardExtent {
          var rank := FloorToIndex(y / CellSize);
          var file := FloorToIndex(x / CellSize);
          match selectedSquare
          case Some(t) =>
            if (rank, file) in highlightedSquares {
              game.TakeTurn(MoveToString(t, (rank, file)));
              selectedSquare := None;
              highlightedSquares := [];
            } else if (rank, file) == t {
              selectedSquare := None;
              highlightedSquares := [];
            } else {
              SelectSquare((rank, file));
            }
          case None =>
            SelectSquare((rank, file));
        } else if InPromotionSelector(x, y) {
          var rank := FloorToIndex(y / CellSize - 1.0);
          var file := FloorToIndex(x / CellSize - 8.5);
          game.SelectPromotion(PromotionLetter(rank, file));
        }
      }
    }
  }
}
