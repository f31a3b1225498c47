# Click controller of a chess GUI, in Dafny

This project models the input handling of a small chess front-end written in Rust on
ggez, which plays through the `murnion_chess` engine. The window is 990 by 720 pixels:
an 8 by 8 board of 90 pixel squares on the left and a side panel holding a 2 by 2
promotion selector. A left click is handled by `AppState::mouse_button_down_event`:

- on the board (x < 720) the click names square (rank, file) = (floor(y/90), floor(x/90));
  if that square is highlighted, the move from the selected square is sent to the
  engine's `take_turn` as text such as `"e2 e4"` and the selection is cleared; otherwise,
  if it is the selected square, the selection is cleared; otherwise it becomes the
  selected square, and the engine's valid moves from it are highlighted when its piece
  belongs to the side to move;
- strictly inside the promotion selector (765 < x < 945, 90 < y < 270) the slot's letter
  'q', 'r', 'b' or 'n' is sent to the engine's `select_promotion`;
- anywhere else, and for any other button, nothing changes.

Files:

- `wrappers.dfy`: `Option`.
- `engine.dfy` (module `Engine`): the engine as the handler sees it. Colours, pieces,
  squares, the board, and a class `Game` whose move generator is a function fixed when the
  game is created. `TakeTurn` and `SelectPromotion` record their arguments.
- `notation.dfy` (module `Notation`): `move_to_string`, with its inverse `ParseMove`.
- `geometry.dfy` (module `Geometry`): pixel coordinates to board square, promotion slot or
  nothing, in exact real arithmetic.
- `controller.dfy` (module `Controller`): `get_colour`, the promotion letters, the pure
  transition `BoardClick` on the state (selected square, highlighted squares), and the
  class `AppState`. Its `MouseButtonDownEvent` updates the fields step by step as the Rust
  handler does and is proved equal to `Classify` followed by `BoardClick`.

Two points of the handler that the model keeps:

- A board click with nothing selected selects the clicked square even when it is empty
  or holds an opponent piece; only the highlights stay empty (src/main.rs:421-436).
- With a selection, the "clicked square is highlighted" test comes before the "clicked
  square is the selected one" test (src/main.rs:397-404).

## Model

| member | source | states |
|---|---|---|
| `Notation.FileLetter` | src/main.rs:483-493 | file 0..7 gives a letter in 'a'..'h' whose distance from 'a' is the file |
| `Notation.RankDigit` | src/main.rs:494-497 | rank 0..7 gives a digit in '1'..'8' whose distance below '8' is the rank, i.e. the digit of 8 - rank |
| `Notation.MoveToString` | src/main.rs:481-515 | defined only for squares on the board (other values panic); the result has 5 characters, a space in the middle, and parses back to exactly (from, to) |
| `Notation.FileOfLetter` | src/main.rs:483-493 | a letter decodes to a file exactly when it is in 'a'..'h', and that file's letter is the letter |
| `Notation.RankOfDigit` | src/main.rs:494-497 | a digit decodes to a rank exactly when it is in '1'..'8', and that rank's digit is the digit |
| `Notation.ParseMoveExact` | src/main.rs:481-515 | a string parses to (from, to) if and only if both squares are on the board and the string is their notation |
| `Notation.MoveToStringInjective` | src/main.rs:481-515 | two moves have the same notation only if they are the same move |
| `Notation.KingsPawnOpening` | src/main.rs:481-515 | (6, 4) to (4, 4) is written "e2 e4" |
| `Geometry.FloorToIndex` | src/main.rs:392-393 | floor followed by Rust's float-to-usize cast: the integer part for a non-negative value, 0 for a negative one |
| `Geometry.Classify` | src/main.rs:389-454 | a click is on the board exactly when x < 720, on the selector exactly when not on the board and strictly inside it; a board file is always below 8 and a board rank is below 8 exactly when y < 720; a selector slot has rank and file in {0, 1}, so the panic arm of the slot match is unreachable |
| `Geometry.BoardCellContainsPoint` | src/main.rs:391-393 | a point of the board falls in the 90 pixel cell of the square it is classified as |
| `Geometry.PromotionCellContainsPoint` | src/main.rs:438-444 | a point of the selector falls in the cell of the slot it is classified as |
| `Geometry.CellBoundaryBelongsBelow` | src/main.rs:392-393 | the top-left corner of square (1, 0) belongs to (1, 0), not to (0, 0) |
| `Geometry.WindowClicksStayOnBoard` | src/main.rs:11-14 | inside the fixed 990 by 720 window every board click names a square of the board |
| `Controller.GetColour` | src/main.rs:517-527 | none exactly for an empty square, otherwise the piece's own colour |
| `Controller.PromotionLetter` | src/main.rs:445-451 | each of the four slots sends a letter that maps back to that slot, so (0,0), (0,1), (1,0), (1,1) send 'q', 'r', 'b', 'n' and no two slots share a letter |
| `Controller.PromotionLettersExact` | src/main.rs:445-451 | the letters the selector can send are exactly 'q', 'r', 'b' and 'n' |
| `Controller.BoardClick` | src/main.rs:395-437 | the engine is asked to move exactly when there is a selection and the clicked square is highlighted, from the selected square to the clicked one, after which nothing is selected; clicking the selected square otherwise cancels; every other click selects the clicked square and highlights the engine's moves only for a piece of the side to move; the invariant "no selection, no highlights; selection on the board" is kept |
| `Controller.IdleRoundTrip` | src/main.rs:395-437 | from the idle state, clicking a square twice returns to idle without a move, as long as the engine does not list the square among its own piece's moves |
| `Controller.ForeignSelectionNeverMoves` | src/main.rs:405-436 | selecting an empty square or an opponent piece highlights nothing, so the next click never calls `take_turn` |
| `Controller.ReplayPlaysReportedMoves` | src/main.rs:395-437 | over any sequence of board clicks from the idle state, the state stays consistent, every highlighted square and every move played is a destination the engine reported for that origin when the side to move selected it, and both squares of every move are on the board, so `move_to_string` never panics |
| `Controller.AppState.constructor` | src/main.rs:38-47 | a new application state has nothing selected and nothing highlighted |
| `Controller.AppState.SelectSquare` | src/main.rs:421-436 | the clicked square becomes selected, and the highlights become the engine's moves from it when its colour is the side to move, empty otherwise |
| `Controller.AppState.MouseButtonDownEvent` | src/main.rs:382-456 | keeps the invariant; other buttons and clicks outside both regions change nothing; a board click changes the selection as `BoardClick` says, calls `take_turn` with the notation of exactly the move it plays and otherwise leaves the game unchanged; a selector click sends the slot's letter and leaves the selection alone |
| `Engine.Game.constructor` | src/main.rs:41 | a new game has taken no turns and received no promotion choice |
| `Engine.Game.TakeTurn` | src/main.rs:398-399 | the engine receives the move text; the promotion choices are untouched and the board stays 8 by 8 |
| `Engine.Game.SelectPromotion` | src/main.rs:446-449 | the engine receives the promotion letter; the moves played are untouched |

## Left out

- Rendering: `draw` (src/main.rs:90-379) and all of src/draw.rs, which is pixel and text layout.
- Sprite loading (src/main.rs:50-80), window and event-loop set-up (src/main.rs:459-479) and the empty `update`: library calls and I/O.
- The "Outside Board" console message (src/main.rs:453): output only; such a click changes no state.
- Chess rules: legal-move generation is an arbitrary function given when a game is created, not the engine's rules.
- Engine.Game.TakeTurn: promises nothing about the position after the move (board, side to move, en-passant square, castling rights), because the engine's move application is not part of this model.
- Engine.Game.SelectPromotion: records the letter but does not model how the engine applies it to the next promotion, so "choosing the same slot twice changes nothing" is not stated.
- Controller.AppState.MouseButtonDownEvent: requires a left click on the board to have y < 720; below that the Rust code indexes the board out of range, which the fixed, non-resizable window rules out.
- History: src/draw.rs:199-209 draws a list from `appstate.history`, but `AppState` (src/main.rs:29-34) has no such field and no code fills it, so nothing about it is modelled.
- 32-bit float rounding in the coordinate arithmetic, and NaN coordinates: coordinates are exact reals.
