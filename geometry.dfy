/**
 * Where a click lands in the 990 by 720 pixel window: on the 8 by 8 board of 90 pixel
 * squares at the left, on the 2 by 2 promotion selector in the side panel, or elsewhere.
 * Coordinates are exact reals; the rounding of 32-bit floats is not modelled.
 */
module Geometry {
  import opened Engine

  /** Width and height of one board square, in pixels. */
  const CellSize: real := 90.0
  /** Width and height of the board: 8 squares of 90 pixels. */
  const BoardExtent: real := GridSize as real * CellSize
  /** The fixed, non-resizable window: the board plus a 270 pixel side panel. */
  const ScreenWidth: real := BoardExtent + 270.0
  const ScreenHeight: real := BoardExtent

  /** What a left click is on. */
  datatype Region =
    | BoardCell(rank: nat, file: nat)
    | PromotionCell(rank: nat, file: nat)
    | Outside

  /**
   * `(v).floor() as usize`: the floor, where Rust's float-to-integer cast turns a
   * negative value into 0.
   */
  function FloorToIndex(v: real): (k: nat)
    ensures v >= 0.0 ==> k as real <= v < k as real + 1.0
    ensures v < 0.0 ==> k == 0
  {
    if v < 0.0 then 0 else v.Floor
  }

  /** The promotion selector: the open rectangle 765 < x < 945, 90 < y < 270. */
  predicate InPromotionSelector(x: real, y: real) {
    (GridSize as real + 0.5) * CellSize < x < (GridSize as real + 2.5) * CellSize
    && CellSize < y < 3.0 * CellSize
  }

  /**
   * The classification the click handler makes, in its order: left of the board's right
   * edge is the board, then the promotion selector, then nothing.
   */
  function Classify(x: real, y: real): (r: Region)
    ensures r.BoardCell? <==> x < BoardExtent
    ensures r.PromotionCell? <==> !(x < BoardExtent) && InPromotionSelector(x, y)
    ensures r.BoardCell? ==> r.file < GridSize && (r.rank < GridSize <==> y < BoardExtent)
    ensures r.PromotionCell? ==> r.rank < 2 && r.file < 2
  {
    if x < BoardExtent then
      BoardCell(FloorToIndex(y / CellSize), FloorToIndex(x / CellSize))
    else if InPromotionSelector(x, y) then
      PromotionCell(FloorToIndex(y / CellSize - 1.0), FloorToIndex(x / CellSize - 8.5))
    else
      Outside
  }

  /** A click on the board lands on the square whose 90 pixel cell contains it. */
  lemma BoardCellContainsPoint(x: real, y: real)
    requires 0.0 <= x < BoardExtent && 0.0 <= y < BoardExtent
    ensures var r := Classify(x, y);
      && r.BoardCell? && OnBoard((r.rank, r.file))
      && CellSize * r.rank as real <= y < CellSize * (r.rank as real + 1.0)
      && CellSize * r.file as real <= x < CellSize * (r.file as real + 1.0)
  {
  }

  /**
   * A click on the promotion selector lands on the slot whose cell contains it; slot
   * (rank, file) spans x from 90 * (8.5 + file) and y from 90 * (1 + rank).
   */
  lemma PromotionCellContainsPoint(x: real, y: real)
    requires InPromotionSelector(x, y)
    ensures var r := Classify(x, y);
      && r.PromotionCell?
      && CellSize * (r.rank as real + 1.0) <= y < CellSize * (r.rank as real + 2.0)
      && CellSize * (r.file as real + 8.5) <= x < CellSize * (r.file as real + 9.5)
  {
  }

  /** The top-left corner of square (1, 0) belongs to that square, not to the one above it. */
  lemma CellBoundaryBelongsBelow()
    ensures Classify(0.0, 90.0) == BoardCell(1, 0)
  {
  }

  /**
   * Inside the fixed window the handler never sees a board click below the board, so a
   * board click always names a square of the board.
   */
  lemma WindowClicksStayOnBoard(x: real, y: real)
    requires 0.0 <= x < ScreenWidth && 0.0 <= y < ScreenHeight
    ensures Classify(x, y).BoardCell? ==> OnBoard((Classify(x, y).rank, Classify(x, y).file))
  {
  }
}
