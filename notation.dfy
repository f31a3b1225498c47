/**
 * The move notation the front-end hands to the engine's `take_turn`: origin square and
 * destination square in algebraic form, separated by one space, as in "e2 e4".
 * Files 0..7 are the letters 'a'..'h'; rank r is the digit 8 - r, so rank 0 (the top row)
 * is '8' and rank 7 is '1'.
 */
module Notation {
  import opened Wrappers
  import opened Engine

  /** The letter naming file `f`. */
  function FileLetter(f: nat): (c: char)
    requires f < GridSize
    ensures 'a' <= c <= 'h'
    ensures c as int - 'a' as int == f
  {
    match f
    case 0 => 'a'
    case 1 => 'b'
    case 2 => 'c'
    case 3 => 'd'
    case 4 => 'e'
    case 5 => 'f'
    case 6 => 'g'
    case 7 => 'h'
    case _ => assert false; 'h'
  }

  /** The digit naming rank `r`, that is, the decimal digit of 8 - r. */
  function RankDigit(r: nat): (c: char)
    requires r < GridSize
    ensures '1' <= c <= '8'
    ensures '8' as int - c as int == r
  {
    ('0' as int + (8 - r)) as char
  }

  /** `move_to_string`: the notation of the move from `from` to `to`. */
  function MoveToString(from: Square, to: Square): (s: string)
    requires OnBoard(from) && OnBoard(to)
    ensures |s| == 5 && s[2] == ' '
    ensures ParseMove(s) == Some((from, to))
  {
    [FileLetter(from.1), RankDigit(from.0), ' ', FileLetter(to.1), RankDigit(to.0)]
  }

  /** The file a letter names, if it names one. */
  function FileOfLetter(c: char): (f: Option<nat>)
    ensures f.Some? <==> 'a' <= c <= 'h'
    ensures f.Some? ==> f.value < GridSize && FileLetter(f.value) == c
  {
    if 'a' <= c <= 'h' then Some(c as int - 'a' as int) else None
  }

  /** The rank a digit names, if it names one. */
  function RankOfDigit(c: char): (r: Option<nat>)
    ensures r.Some? <==> '1' <= c <= '8'
    ensures r.Some? ==> r.value < GridSize && RankDigit(r.value) == c
  {
    if '1' <= c <= '8' then Some('8' as int - c as int) else None
  }

  /** Reads a move back from its notation: the inverse of `MoveToString`. */
  function ParseMove(s: string): Option<(Square, Square)>
  {
    if |s| != 5 || s[2] != ' ' then None
    else
      match (FileOfLetter(s[0]), RankOfDigit(s[1]), FileOfLetter(s[3]), RankOfDigit(s[4]))
      case (Some(f0), Some(r0), Some(f1), Some(r1)) => Some(((r0, f0), (r1, f1)))
      case _ => None
  }

  /** Exactly the notations of moves between squares of the board parse, and each to its own move. */
  lemma ParseMoveExact(s: string, from: Square, to: Square)
    ensures ParseMove(s) == Some((from, to)) <==> OnBoard(from) && OnBoard(to) && s == MoveToString(from, to)
  {
  }

  /** Different moves never share a notation, so the engine can always tell which move is meant. */
  lemma MoveToStringInjective(a: Square, b: Square, c: Square, d: Square)
    requires OnBoard(a) && OnBoard(b) && OnBoard(c) && OnBoard(d)
    ensures MoveToString(a, b) == MoveToString(c, d) <==> a == c && b == d
  {
  }

  /** The pawn double step of the e-file: (6, 4) to (4, 4) is "e2 e4". */
  lemma KingsPawnOpening()
    ensures MoveToString((6, 4), (4, 4)) == "e2 e4"
  {
  }
}
