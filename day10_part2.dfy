/** Day 10, part 2: the cells enclosed by the loop, found by a scanline that
    flips between outside and inside at every loop pipe crossing the row. */
module Day10Part2 {
  import opened Wrappers
  import opened Day10Grid
  import opened Day10Flood
  import opened Day10Parser

  /** A loop pipe with a connection to the south, '|', 'F' or '7', crosses
      the scanline; '-', 'L' and 'J' run along it. */
  predicate Crossing(cell: Option<Flood>) {
    cell == Some(Flood.Pipe('|')) || cell == Some(Flood.Pipe('F')) || cell == Some(Flood.Pipe('7'))
  }

  /** The state of the scan before cell `k` of a row: Outside at the left
      edge, flipped at every crossing. */
  function State(row: seq<Option<Flood>>, k: nat): (f: Flood)
    requires k <= |row|
    ensures !f.Pipe?
  {
    if k == 0 then Outside
    else if Crossing(row[k - 1]) then Flip(State(row, k - 1))
    else State(row, k - 1)
  }

  /** The crossings among the first `k` cells of a row. */
  function Crossings(row: seq<Option<Flood>>, k: nat): nat
    requires k <= |row|
  {
    if k == 0 then 0 else Crossings(row, k - 1) + (if Crossing(row[k - 1]) then 1 else 0)
  }

  /** A cell is inside exactly when an odd number of crossings lie to its
      left in its row. */
  lemma {:induction false} StateParity(row: seq<Option<Flood>>, k: nat)
    requires k <= |row|
    ensures State(row, k) == if Crossings(row, k) % 2 == 1 then Inside else Outside
  {
    if k > 0 {
      StateParity(row, k - 1);
    }
  }

  /** One row after the scan: every empty cell holds the state of the scan
      there, and every other cell is left as it was. */
  function RowScan(row: seq<Option<Flood>>): (r: seq<Option<Flood>>)
    ensures |r| == |row|
  {
    seq(|row|, k requires 0 <= k < |row| => if row[k].None? then Some(State(row, k)) else row[k])
  }

  /** The grid after the scan. */
  function ScanAll(rows: seq<seq<Option<Flood>>>): (r: seq<seq<Option<Flood>>>)
    ensures |r| == |rows| && forall l | 0 <= l < |rows| :: r[l] == RowScan(rows[l])
  {
    seq(|rows|, l requires 0 <= l < |rows| => RowScan(rows[l]))
  }

  /** No cell is left empty. */
  predicate Filled(rows: seq<seq<Option<Flood>>>) {
    forall l, k | 0 <= l < |rows| && 0 <= k < |rows[l]| :: rows[l][k].Some?
  }

  /** After the scan no cell is empty, and an empty cell became Inside
      exactly when an odd number of crossings lie to its left. */
  lemma {:induction false} ScanMeaning(rows: seq<seq<Option<Flood>>>, l: nat, k: nat)
    requires l < |rows| && k < |rows[l]|
    ensures Filled(ScanAll(rows))
    ensures rows[l][k].None? ==>
      (ScanAll(rows)[l][k] == Some(Inside) <==> Crossings(rows[l], k) % 2 == 1)
  {
    StateParity(rows[l], k);
  }

  /** The Inside cells of a row, counted. */
  function RowInside(row: seq<Option<Flood>>): nat
    requires forall k | 0 <= k < |row| :: row[k].Some?
  {
    if row == [] then 0
    else RowInside(row[..|row| - 1]) + (if row[|row| - 1] == Some(Inside) then 1 else 0)
  }

  /** The final fold: the Inside cells of all rows; it panics on an empty
      cell, so it needs a filled grid. */
  function TotalInside(rows: seq<seq<Option<Flood>>>): nat
    requires Filled(rows)
  {
    if rows == [] then 0 else TotalInside(rows[..|rows| - 1]) + RowInside(rows[|rows| - 1])
  }

  /** The empty cells of the first `k` cells of a row with an odd number of
      crossings to their left, counted. */
  function OddEmpty(row: seq<Option<Flood>>, k: nat): nat
    requires k <= |row|
  {
    if k == 0 then 0
    else OddEmpty(row, k - 1) + (if row[k - 1].None? && Crossings(row, k - 1) % 2 == 1 then 1 else 0)
  }

  /** On a row holding only loop pipes and empty cells, the scan finds as
      many Inside cells as there are empty cells with an odd number of
      crossings to their left. */
  lemma {:induction false} RowInsideIsOddEmpty(row: seq<Option<Flood>>, k: nat)
    requires k <= |row| && forall j | 0 <= j < |row| :: row[j].None? || row[j].value.Pipe?
    ensures forall j | 0 <= j < |RowScan(row)[..k]| :: RowScan(row)[..k][j].Some?
    ensures RowInside(RowScan(row)[..k]) == OddEmpty(row, k)
  {
    if k > 0 {
      RowInsideIsOddEmpty(row, k - 1);
      assert RowScan(row)[..k][..k - 1] == RowScan(row)[..k - 1];
      StateParity(row, k - 1);
    }
  }

  /** Every cell is empty or a loop pipe, as in a freshly drawn flood grid. */
  predicate LoopOnly(rows: seq<seq<Option<Flood>>>) {
    forall l, k | 0 <= l < |rows| && 0 <= k < |rows[l]| :: rows[l][k].None? || rows[l][k].value.Pipe?
  }

  /** The empty cells of all rows with an odd number of crossings to their
      left in their row, counted. */
  function OddEmptyAll(rows: seq<seq<Option<Flood>>>): nat {
    if rows == [] then 0
    else OddEmptyAll(rows[..|rows| - 1]) + OddEmpty(rows[|rows| - 1], |rows[|rows| - 1]|)
  }

  /** Over a whole grid of loop pipes and empty cells, the scan leaves no
      cell empty, and the Inside cells it counts are exactly the empty
      cells with an odd number of crossings to their left. */
  lemma {:induction false} TotalInsideIsOddEmpty(rows: seq<seq<Option<Flood>>>)
    requires LoopOnly(rows)
    ensures Filled(ScanAll(rows))
    ensures TotalInside(ScanAll(rows)) == OddEmptyAll(rows)
  {
    if rows != [] {
      var init, last := rows[..|rows| - 1], rows[|rows| - 1];
      TotalInsideIsOddEmpty(init);
      assert ScanAll(rows)[..|rows| - 1] == ScanAll(init);
      RowInsideIsOddEmpty(last, |last|);
      assert RowScan(last)[..|last|] == RowScan(last);
    }
  }

  /** The cells of the flood grid once the loop is drawn in: each loop
      coordinate holds its pipe's symbol, every other cell is empty. */
  function LoopRows(cells: seq<seq<Option<Day10Grid.Pipe>>>, reached: seq<Coordinate>, lineMax: nat, columnMax: nat): (rows: seq<seq<Option<Flood>>>)
    requires WellShaped(cells, columnMax, lineMax)
    requires forall c | c in reached :: Day10Grid.Inside(c, columnMax, lineMax) && cells[c.line][c.column].Some?
    ensures |rows| == lineMax && forall l | 0 <= l < lineMax :: |rows[l]| == columnMax
    ensures LoopOnly(rows)
  {
    seq(lineMax, l requires 0 <= l < lineMax =>
      seq(columnMax, k requires 0 <= k < columnMax =>
        if Coordinate(k, l) in reached then Some(Flood.Pipe(cells[l][k].value.symbol)) else None))
  }

  /** The ray tracing: each row is scanned from the left with the state
      starting Outside; a crossing flips the state and every empty cell
      receives it. */
  method RayTrace(flood: FloodGrid)
    requires flood.Valid()
    modifies flood
    ensures flood.Valid() && flood.grid == ScanAll(old(flood.grid))
  {
    ghost var rows := flood.grid;
    var next := Outside;
    for l := 0 to flood.maxLine
      invariant flood.Valid() && next == Outside
      invariant forall l' | 0 <= l' < l :: flood.grid[l'] == RowScan(rows[l'])
      invariant forall l' | l <= l' < flood.maxLine :: flood.grid[l'] == rows[l']
    {
      ghost var before := flood.grid;
      for c := 0 to flood.maxColumn
        invariant flood.Valid() && next == State(rows[l], c)
        invariant flood.grid[l][..c] == RowScan(rows[l])[..c]
        invariant flood.grid[l][c..] == rows[l][c..]
        invariant forall l' | 0 <= l' < flood.maxLine && l' != l :: flood.grid[l'] == before[l']
      {
        assert flood.grid[l][c] == rows[l][c..][0];
        var node := flood.grid[l][c];
        if node.Some? {
          if node.value.Pipe? {
            var x := node.value.x;
            if x == '|' || x == 'F' || x == '7' {
              next := Flip(next);
            }
          }
          assert flood.grid[l][..c + 1] == flood.grid[l][..c] + [rows[l][c]];
        } else {
          flood.grid := flood.grid[l := flood.grid[l][c := Some(next)]];
        }
        assert RowScan(rows[l])[..c + 1] == RowScan(rows[l])[..c] + [RowScan(rows[l])[c]];
        assert flood.grid[l][c + 1..] == rows[l][c + 1..];
      }
      assert flood.grid[l] == flood.grid[l][..flood.maxColumn];
      next := Outside;
    }
  }

  /** `process` on a parsed grid, with `reached` standing for the loop the
      search from the start visits: the start's symbol is replaced by the
      pipe its connections name, the loop is drawn into a fresh flood grid,
      the rows are scanned, and the Inside cells are counted. It panics
      without a start, or when the start's connections name no pipe. */
  method Process(grid: Grid, reached: seq<Coordinate>) returns (r: Result<nat>)
    requires grid.Valid()
    requires forall c | c in reached :: grid.Contains(c) && grid.Get(c).Some?
    modifies grid
    ensures grid.Valid()
    ensures r.Failure? <==>
      || old(grid.start).None?
      || !grid.Contains(old(grid.start).value)
      || old(grid.Get(grid.start.value)).None?
      || GetSymbolForS(old(grid.Get(grid.start.value)).value).Failure?
    ensures r.Success? ==>
      var s := old(grid.start).value;
      var pipe := old(grid.Get(grid.start.value)).value;
      && grid.cells == old(grid.cells)[s.line := old(grid.cells)[s.line][s.column := Some(pipe.(symbol := GetSymbolForS(pipe).value))]]
      && forall c | c in reached :: grid.Contains(c) && grid.Get(c).Some?
    ensures r.Success? ==> Filled(ScanAll(LoopRows(grid.cells, reached, grid.lineMax, grid.columnMax)))
    ensures r.Success? ==> r.value == TotalInside(ScanAll(LoopRows(grid.cells, reached, grid.lineMax, grid.columnMax)))
    ensures r.Success? ==> r.value == OddEmptyAll(LoopRows(grid.cells, reached, grid.lineMax, grid.columnMax))
  {
    if grid.start.None? {
      return Failure("start exists");
    }
    var start := grid.start.value;
    if !grid.Contains(start) {
      return Failure("index out of bounds");
    }
    var cell := grid.Get(start);
    if cell.None? {
      return Failure("exists");
    }
    var symbol := GetSymbolForS(cell.value);
    if symbol.Failure? {
      return Failure(symbol.error);
    }
    grid.Set(start, Some(cell.value.(symbol := symbol.value)));
    var flood := new FloodGrid(grid.lineMax, grid.columnMax);
    DrawLoop(grid, flood, reached);
    RayTrace(flood);
    if flood.maxLine > 0 && flood.maxColumn > 0 {
      ScanMeaning(LoopRows(grid.cells, reached, grid.lineMax, grid.columnMax), 0, 0);
    }
    TotalInsideIsOddEmpty(LoopRows(grid.cells, reached, grid.lineMax, grid.columnMax));
    r := Success(TotalInside(flood.grid));
  }

  /** The loop drawn into an empty flood grid: every reached coordinate
      receives its pipe's symbol. */
  method DrawLoop(grid: Grid, flood: FloodGrid, reached: seq<Coordinate>)
    requires grid.Valid() && flood.Valid()
    requires flood.maxLine == grid.lineMax && flood.maxColumn == grid.columnMax
    requires forall l, c | 0 <= l < flood.maxLine && 0 <= c < flood.maxColumn :: flood.grid[l][c].None?
    requires forall c | c in reached :: Day10Grid.Inside(c, grid.columnMax, grid.lineMax) && grid.cells[c.line][c.column].Some?
    modifies flood
    ensures flood.Valid() && flood.grid == LoopRows(grid.cells, reached, grid.lineMax, grid.columnMax)
  {
    assert forall l | 0 <= l < flood.maxLine :: flood.grid[l] == LoopRows(grid.cells, reached[..0], grid.lineMax, grid.columnMax)[l];
    for i := 0 to |reached|
      invariant flood.Valid()
      invariant flood.grid == LoopRows(grid.cells, reached[..i], grid.lineMax, grid.columnMax)
    {
      var pipeAt := reached[i];
      assert reached[..i + 1] == reached[..i] + [pipeAt];
      var symbol := grid.Get(pipeAt).value.symbol;
      flood.grid := flood.grid[pipeAt.line := flood.grid[pipeAt.line][pipeAt.column := Some(Flood.Pipe(symbol))]];
      var next := LoopRows(grid.cells, reached[..i + 1], grid.lineMax, grid.columnMax);
      forall l | 0 <= l < flood.maxLine
        ensures flood.grid[l] == next[l]
      {
      }
    }
    assert reached[..|reached|] == reached;
  }

  /** Row 6 of the first example, ".|..|.|..|.", all of whose pipes belong
      to the loop: two stretches of two cells each lie between a pair of
      crossings, the four enclosed cells of that example. */
  lemma {:induction false} ExampleRow()
    ensures var p, e := Some(Flood.Pipe('|')), None;
      var row := [e, p, e, e, p, e, p, e, e, p, e];
      OddEmpty(row, 11) == 4
  {
    var p, e := Some(Flood.Pipe('|')), None;
    var row := [e, p, e, e, p, e, p, e, e, p, e];
    assert Crossings(row, 1) == 0;
    assert Crossings(row, 2) == 1;
    assert Crossings(row, 3) == 1;
    assert Crossings(row, 4) == 1;
    assert Crossings(row, 5) == 2;
    assert Crossings(row, 6) == 2;
    assert Crossings(row, 7) == 3;
    assert Crossings(row, 8) == 3;
    assert Crossings(row, 9) == 3;
    assert Crossings(row, 10) == 4;
    assert OddEmpty(row, 1) == 0;
    assert OddEmpty(row, 2) == 0;
    assert OddEmpty(row, 3) == 1;
    assert OddEmpty(row, 4) == 2;
    assert OddEmpty(row, 5) == 2;
    assert OddEmpty(row, 6) == 2;
    assert OddEmpty(row, 7) == 2;
    assert OddEmpty(row, 8) == 3;
    assert OddEmpty(row, 9) == 4;
    assert OddEmpty(row, 10) == 4;
  }

  /** A row ".|.L-J.|." keeps the state through "L-J", which runs along the
      row, while ".|.F-J.|." flips at 'F': the second empty cell is inside
      in the first row only. */
  lemma {:induction false} AlongTheRow()
    ensures var e := None;
      var along := [e, Some(Flood.Pipe('|')), e, Some(Flood.Pipe('L')), Some(Flood.Pipe('-')), Some(Flood.Pipe('J')), e, Some(Flood.Pipe('|')), e];
      var across := [e, Some(Flood.Pipe('|')), e, Some(Flood.Pipe('F')), Some(Flood.Pipe('-')), Some(Flood.Pipe('J')), e, Some(Flood.Pipe('|')), e];
      State(along, 6) == Inside && State(across, 6) == Outside
  {
    var e := None;
    var along := [e, Some(Flood.Pipe('|')), e, Some(Flood.Pipe('L')), Some(Flood.Pipe('-')), Some(Flood.Pipe('J')), e, Some(Flood.Pipe('|')), e];
    var across := [e, Some(Flood.Pipe('|')), e, Some(Flood.Pipe('F')), Some(Flood.Pipe('-')), Some(Flood.Pipe('J')), e, Some(Flood.Pipe('|')), e];
    assert State(along, 1) == Outside;
    assert State(along, 2) == Inside;
    assert State(along, 4) == Inside;
    assert State(across, 1) == Outside;
    assert State(across, 2) == Inside;
    assert State(across, 4) == Outside;
  }
}
