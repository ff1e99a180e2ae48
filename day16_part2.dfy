/** Part 2 of day 16 (day-16/src/part2.rs): a beam entering from every
    border tile, heading into the grid; the answer is the best of them. */
module Day16Part2 {
  import opened Wrappers
  import opened Day16Shared

  /** The entry states `get_starting_positions` lists, in its order: the
      two states of each corner, then the left and right edges line by line,
      then the top and bottom rows column by column. */
  function StartingPositions(numRows: int, numCols: int): seq<BeamState> {
    var maxRow, maxCol := numRows - 1, numCols - 1;
    [ BeamState(Vec2(0, 0), East), BeamState(Vec2(0, 0), South),
      BeamState(Vec2(maxCol, 0), West), BeamState(Vec2(maxCol, 0), South),
      BeamState(Vec2(0, maxRow), East), BeamState(Vec2(0, maxRow), North),
      BeamState(Vec2(maxCol, maxRow), West), BeamState(Vec2(maxCol, maxRow), North) ]
    + SideEdges(1, maxRow, maxCol) + TopBottomEdges(1, maxCol, maxRow)
  }

  /** For each line `y` in `lo..hi`: enter at the left heading East and at
      the right heading West. */
  function SideEdges(lo: int, hi: int, maxCol: int): (r: seq<BeamState>)
    decreases hi - lo
  {
    if lo >= hi then []
    else [BeamState(Vec2(0, lo), East), BeamState(Vec2(maxCol, lo), West)] + SideEdges(lo + 1, hi, maxCol)
  }

  /** For each column `x` in `lo..hi`: enter at the top heading South and
      at the bottom heading North. */
  function TopBottomEdges(lo: int, hi: int, maxRow: int): (r: seq<BeamState>)
    decreases hi - lo
  {
    if lo >= hi then []
    else [BeamState(Vec2(lo, 0), South), BeamState(Vec2(lo, maxRow), North)] + TopBottomEdges(lo + 1, hi, maxRow)
  }

  /** A state on the border of a `numRows` by `numCols` grid, heading into it. */
  predicate EntersFromBorder(numRows: int, numCols: int, s: BeamState) {
    && 0 <= s.pos.x < numCols && 0 <= s.pos.y < numRows
    && ((s.pos.x == 0 && s.dir == East) || (s.pos.x == numCols - 1 && s.dir == West)
        || (s.pos.y == 0 && s.dir == South) || (s.pos.y == numRows - 1 && s.dir == North))
  }

  lemma {:induction false} SideEdgesMembers(lo: int, hi: int, maxCol: int, s: BeamState)
    ensures s in SideEdges(lo, hi, maxCol) <==>
      lo <= s.pos.y < hi && ((s.pos.x == 0 && s.dir == East) || (s.pos.x == maxCol && s.dir == West))
    decreases hi - lo
  {
    if lo < hi {
      SideEdgesMembers(lo + 1, hi, maxCol, s);
    }
  }

  lemma {:induction false} TopBottomEdgesMembers(lo: int, hi: int, maxRow: int, s: BeamState)
    ensures s in TopBottomEdges(lo, hi, maxRow) <==>
      lo <= s.pos.x < hi && ((s.pos.y == 0 && s.dir == South) || (s.pos.y == maxRow && s.dir == North))
    decreases hi - lo
  {
    if lo < hi {
      TopBottomEdgesMembers(lo + 1, hi, maxRow, s);
    }
  }

  lemma {:induction false} SideEdgesLength(lo: int, hi: int, maxCol: int)
    ensures |SideEdges(lo, hi, maxCol)| == (if lo < hi then 2 * (hi - lo) else 0)
    decreases hi - lo
  {
    if lo < hi {
      SideEdgesLength(lo + 1, hi, maxCol);
    }
  }

  lemma {:induction false} TopBottomEdgesLength(lo: int, hi: int, maxRow: int)
    ensures |TopBottomEdges(lo, hi, maxRow)| == (if lo < hi then 2 * (hi - lo) else 0)
    decreases hi - lo
  {
    if lo < hi {
      TopBottomEdgesLength(lo + 1, hi, maxRow);
    }
  }

  /** On a non-empty grid the starting positions are exactly the border
      states that head into the grid: none is missing and none is outside. */
  lemma StartingPositionsAreBorderEntries(numRows: int, numCols: int, s: BeamState)
    requires numRows >= 1 && numCols >= 1
    ensures s in StartingPositions(numRows, numCols) <==> EntersFromBorder(numRows, numCols, s)
  {
    SideEdgesMembers(1, numRows - 1, numCols - 1, s);
    TopBottomEdgesMembers(1, numCols - 1, numRows - 1, s);
  }

  /** Eight corner entries plus two per inner line and two per inner column;
      the corner states of a one-line or one-column grid repeat. */
  lemma StartingPositionsLength(numRows: int, numCols: int)
    requires numRows >= 0 && numCols >= 0
    ensures |StartingPositions(numRows, numCols)|
      == 8 + (if numRows > 2 then 2 * (numRows - 2) else 0) + (if numCols > 2 then 2 * (numCols - 2) else 0)
  {
    SideEdgesLength(1, numRows - 1, numCols - 1);
    TopBottomEdgesLength(1, numCols - 1, numRows - 1);
  }

  /** `get_starting_positions`: the corner states, then the two loops over
      the inner lines and the inner columns. */
  method GetStartingPositions(numRows: int, numCols: int) returns (result: seq<BeamState>)
    requires numCols >= 0 && numRows >= 0
    ensures result == StartingPositions(numRows, numCols)
  {
    var maxRow, maxCol := numRows - 1, numCols - 1;
    result := [ BeamState(Vec2(0, 0), East), BeamState(Vec2(0, 0), South),
      BeamState(Vec2(maxCol, 0), West), BeamState(Vec2(maxCol, 0), South),
      BeamState(Vec2(0, maxRow), East), BeamState(Vec2(0, maxRow), North),
      BeamState(Vec2(maxCol, maxRow), West), BeamState(Vec2(maxCol, maxRow), North) ];
    ghost var corners := result;
    var y := 1;
    while y < maxRow
      invariant 1 <= y || maxRow < 1
      invariant result + SideEdges(y, maxRow, maxCol) == corners + SideEdges(1, maxRow, maxCol)
      decreases maxRow - y
    {
      result := result + [BeamState(Vec2(0, y), East)];
      result := result + [BeamState(Vec2(maxCol, y), West)];
      y := y + 1;
    }
    ghost var sides := result;
    assert sides == corners + SideEdges(1, maxRow, maxCol);
    var x := 1;
    while x < maxCol
      invariant result + TopBottomEdges(x, maxCol, maxRow) == sides + TopBottomEdges(1, maxCol, maxRow)
      decreases maxCol - x
    {
      result := result + [BeamState(Vec2(x, 0), South)];
      result := result + [BeamState(Vec2(x, maxRow), North)];
      x := x + 1;
    }
  }

  /** `illuminate_grid(&mut grid.clone(), s)`: one run on a copy of a
      grid no beam has passed yet, which is left as it was. */
  method IlluminateCopy(grid: array2<Tile>, start: BeamState) returns (count: nat)
    requires WellFormed(grid) && Pristine(grid)
    requires 0 <= start.pos.x < grid.Length0 && 0 <= start.pos.y < grid.Length1
    ensures count == Energized(LayoutOf(grid), start)
  {
    var w, h := grid.Length0, grid.Length1;
    var copy := new Tile[w, h]((x, y) requires 0 <= x < w && 0 <= y < h reads grid => grid[x, y]);
    forall x, y | 0 <= x < w && 0 <= y < h
      ensures !copy[x, y].illuminated && copy[x, y].passed == NoFlags
      ensures copy[x, y].position == Vec2(x, y) && KnownMirror(copy[x, y].mirror)
    {
      assert copy[x, y] == grid[x, y];
    }
    assert Pristine(copy) && WellFormed(copy);
    ghost var L := LayoutOf(grid);
    LayoutsEqual(LayoutOf(copy), L);
    count := IlluminateGrid(copy, start);
    assert count == Energized(L, start);
  }

  /** The `map` over the starting positions and the `max` of the counts,
      run one after another on copies of the grid. */
  method BestRun(grid: array2<Tile>, starts: seq<BeamState>) returns (best: nat)
    requires WellFormed(grid) && Pristine(grid)
    requires |starts| > 0
    requires forall s | s in starts :: 0 <= s.pos.x < grid.Length0 && 0 <= s.pos.y < grid.Length1
    ensures forall s | s in starts :: Energized(LayoutOf(grid), s) <= best
    ensures exists s | s in starts :: Energized(LayoutOf(grid), s) == best
  {
    ghost var L := LayoutOf(grid);
    best := 0;
    for i := 0 to |starts|
      invariant i > 0 ==> Best(L, starts[..i], best)
    {
      var count := IlluminateCopy(grid, starts[i]);
      BestSnoc(L, starts, i, best, count);
      if count > best || i == 0 {
        best := count;
      }
    }
    assert starts[..|starts|] == starts;
  }

  /** `best` is the greatest energy of a run from one of `starts`. */
  ghost predicate Best(L: Layout, starts: seq<BeamState>, best: nat) {
    && (forall s | s in starts :: Energized(L, s) <= best)
    && (exists s | s in starts :: Energized(L, s) == best)
  }

  /** One more run: its count replaces the best so far when it is
      greater, or when it is the first. */
  lemma {:induction false} BestSnoc(L: Layout, starts: seq<BeamState>, i: nat, best: nat, count: nat)
    requires i < |starts| && (i == 0 || Best(L, starts[..i], best))
    requires count == Energized(L, starts[i])
    ensures Best(L, starts[..i + 1], if count > best || i == 0 then count else best)
  {
    var init, s := starts[..i], starts[i];
    assert starts[..i + 1] == init + [s];
    assert forall x | x in init + [s] :: x in init || x == s;
    if i != 0 && count <= best {
      var w :| w in init && Energized(L, w) == best;
      assert w in init + [s];
    } else {
      assert s in init + [s];
    }
  }

  /** `process`: the greatest number of tiles any entry from the border
      illuminates, each run on a fresh copy of the parsed grid.  An unequal
      line length is the parser's panic, and an empty grid is the index panic
      of the first run. */
  method Process(lines: seq<string>) returns (r: Result<nat>)
    requires OnlyKnownChars(lines)
    ensures r.Success? <==> Rectangular(lines) && MaxLen(lines) > 0
    ensures r.Success? ==> forall s | s in StartingPositions(|lines|, MaxLen(lines)) ::
      Energized(ParsedLayout(lines), s) <= r.value
    ensures r.Success? ==> exists s | s in StartingPositions(|lines|, MaxLen(lines)) ::
      Energized(ParsedLayout(lines), s) == r.value
  {
    var parsed := ParseIntoGrid(lines);
    if parsed.Failure? {
      return Failure(parsed.error);
    }
    var grid := parsed.value;
    if grid.Length0 == 0 || grid.Length1 == 0 {
      return Failure("index out of bounds");
    }
    var w, h := grid.Length0, grid.Length1;
    var starts := GetStartingPositions(h, w);
    StartingPositionsLength(h, w);
    forall s | s in starts
      ensures 0 <= s.pos.x < w && 0 <= s.pos.y < h
    {
      StartingPositionsAreBorderEntries(h, w, s);
    }
    LayoutOfParsed(grid, lines);
    ParsedIsPristine(grid, lines);
    var best := BestRun(grid, starts);
    r := Success(best);
  }
}
