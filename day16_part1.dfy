/** Part 1 of day 16 (day-16/src/part1.rs): one beam entering the top-left
    tile heading East. */
module Day16Part1 {
  import opened Wrappers
  import opened Day16Shared

  /** `process`: parses the grid, runs the beam from (0, 0) heading East and
      counts the illuminated tiles.  An unequal line length is the parser's
      panic, and an empty grid is the index panic on the first tile. */
  method Process(lines: seq<string>) returns (r: Result<nat>)
    requires OnlyKnownChars(lines)
    ensures r.Success? <==> Rectangular(lines) && MaxLen(lines) > 0
    ensures r.Success? ==> r.value == Energized(ParsedLayout(lines), BeamState(Vec2(0, 0), East))
  {
    var parsed := ParseIntoGrid(lines);
    if parsed.Failure? {
      return Failure(parsed.error);
    }
    var grid := parsed.value;
    if grid.Length0 == 0 || grid.Length1 == 0 {
      return Failure("index out of bounds");
    }
    LayoutOfParsed(grid, lines);
    ParsedIsPristine(grid, lines);
    var count := IlluminateGrid(grid, BeamState(Vec2(0, 0), East));
    r := Success(count);
  }
}
