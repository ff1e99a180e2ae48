/** Day 10, the flood grid: per cell, a loop pipe's symbol or whether the
    cell lies inside or outside the loop. */
module Day10Flood {
  import opened Wrappers

  datatype Flood = Pipe(x: char) | Outside | Inside

  /** `Flood::flip`: swaps Inside and Outside; it panics on a pipe. */
  function Flip(f: Flood): (r: Flood)
    requires !f.Pipe?
    ensures !r.Pipe? && r != f
  {
    match f
    case Inside => Outside
    case Outside => Inside
  }

  /** Flipping twice changes nothing. */
  lemma {:induction false} FlipInvolution(f: Flood)
    requires !f.Pipe?
    ensures Flip(Flip(f)) == f
  {
    match f
    case Inside =>
    case Outside =>
  }

  /** The flood grid: `maxLine` rows of `maxColumn` cells, written in
      place by the scan. */
  class FloodGrid {
    const maxLine: nat
    const maxColumn: nat
    var grid: seq<seq<Option<Flood>>>

    ghost predicate Valid()
      reads this
    {
      |grid| == maxLine && forall l | 0 <= l < maxLine :: |grid[l]| == maxColumn
    }

    /** `FloodGrid::new`: every cell empty. */
    constructor (maxLine: nat, maxColumn: nat)
      ensures this.maxLine == maxLine && this.maxColumn == maxColumn && Valid()
      ensures forall l, c | 0 <= l < maxLine && 0 <= c < maxColumn :: grid[l][c].None?
    {
      this.maxLine := maxLine;
      this.maxColumn := maxColumn;
      grid := seq(maxLine, _ => seq(maxColumn, _ => None));
    }

    /** `get_item`; indexing outside the grid panics. */
    function GetItem(line: nat, column: nat): Option<Flood>
      reads this
      requires Valid() && line < maxLine && column < maxColumn
    {
      grid[line][column]
    }
  }
}
