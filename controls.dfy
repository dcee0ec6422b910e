/** Lane changes requested by the keyboard arrows and the two touch zones. */
module Controls {
  import opened Config

  datatype Direction = Left | Right

  /** One lane change: to the neighbouring lane in the given direction, or no
      change at all when the player is already in the edge lane on that side
      (there is no wrap-around). */
  function MoveLane(pos: int, d: Direction): (r: int)
    requires 0 <= pos < LaneCount
    ensures 0 <= r < LaneCount
    ensures r == pos <==> (d == Left && pos == 0) || (d == Right && pos == LaneCount - 1)
    ensures d == Left ==> r <= pos
    ensures d == Right ==> r >= pos
    ensures -1 <= r - pos <= 1
  {
    match d
    case Left => if pos > 0 then pos - 1 else pos
    case Right => if pos < 2 then pos + 1 else pos
  }

  /** The lane reached by a sequence of lane changes. */
  function ApplyMoves(pos: int, ds: seq<Direction>): (r: int)
    requires 0 <= pos < LaneCount
    ensures 0 <= r < LaneCount
    decreases |ds|
  {
    if ds == [] then pos else ApplyMoves(MoveLane(pos, ds[0]), ds[1..])
  }

  function Repeat(d: Direction, n: nat): (ds: seq<Direction>)
    ensures |ds| == n
  {
    if n == 0 then [] else [d] + Repeat(d, n - 1)
  }

  /** Moves compose: applying two sequences in turn is applying their concatenation. */
  lemma {:induction false} ApplyMovesAppend(pos: int, a: seq<Direction>, b: seq<Direction>)
    requires 0 <= pos < LaneCount
    ensures ApplyMoves(pos, a + b) == ApplyMoves(ApplyMoves(pos, a), b)
    decreases |a|
  {
    if a == [] {
      assert a + b == b;
    } else {
      assert (a + b)[0] == a[0];
      assert (a + b)[1..] == a[1..] + b;
      ApplyMovesAppend(MoveLane(pos, a[0]), a[1..], b);
    }
  }

  /** n moves in one direction saturate at the edge lane: moving left stops at
      lane 0 and moving right at lane 2, however many moves are made. */
  lemma {:induction false} RepeatedMovesSaturate(pos: int, n: nat)
    requires 0 <= pos < LaneCount
    ensures ApplyMoves(pos, Repeat(Left, n)) == if pos - n < 0 then 0 else pos - n
    ensures ApplyMoves(pos, Repeat(Right, n)) == if pos + n > 2 then 2 else pos + n
    decreases n
  {
    if n > 0 {
      RepeatedMovesSaturate(MoveLane(pos, Left), n - 1);
      RepeatedMovesSaturate(MoveLane(pos, Right), n - 1);
    }
  }
}
