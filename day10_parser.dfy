/** Day 10, reading the maze: one pipe per character other than '.', and the
    connections of the start 'S' inferred from its neighbours. */
module Day10Parser {
  import opened Wrappers
  import opened Day10Grid

  /** The pipe characters. */
  const Symbols: seq<char> := ['|', '-', 'L', 'J', '7', 'F', 'S']

  /** `pipe`: the pipe a character stands for at a coordinate; 'S' has no
      connections yet, and any other character panics. */
  function PipeOf(input: char, coord: Coordinate): (r: Result<Pipe>)
    ensures r.Success? <==> input in Symbols
    ensures r.Success? ==> r.value.position == coord && r.value.symbol == input
    ensures r.Success? ==> (r.value.connections.None? <==> input == 'S')
  {
    match input
    case '|' => Success(Pipe(coord, Some((North, South)), '|'))
    case '-' => Success(Pipe(coord, Some((East, West)), '-'))
    case 'L' => Success(Pipe(coord, Some((North, East)), 'L'))
    case 'J' => Success(Pipe(coord, Some((North, West)), 'J'))
    case '7' => Success(Pipe(coord, Some((South, West)), '7'))
    case 'F' => Success(Pipe(coord, Some((South, East)), 'F'))
    case 'S' => Success(Pipe(coord, None, 'S'))
    case _ => Failure("found an unknown character")
  }

  /** `get_symbol_for_s`: the pipe character with the given connections;
      it panics without connections and on any other order of them. */
  function GetSymbolForS(p: Pipe): Result<char> {
    match p.connections
    case None => Failure("exists")
    case Some(conn) =>
      match conn
      case (North, South) => Success('|')
      case (East, West) => Success('-')
      case (North, East) => Success('L')
      case (North, West) => Success('J')
      case (South, West) => Success('7')
      case (South, East) => Success('F')
      case _ => Failure("mapping failed")
  }

  /** `get_symbol_for_s` inverts `pipe` on the six pipe characters. */
  lemma {:induction false} SymbolRoundTrip(c: char, coord: Coordinate)
    requires c in Symbols && c != 'S'
    ensures GetSymbolForS(PipeOf(c, coord).value) == Success(c)
  {
  }

  /** Two different directions in iteration order, as
      `get_start_connections` returns them, always name a pipe, and that
      pipe's connections are those two directions. */
  lemma {:induction false} StartSymbolExists(p: Pipe, coord: Coordinate)
    requires p.connections.Some? && Rank(p.connections.value.0) < Rank(p.connections.value.1)
    ensures GetSymbolForS(p).Success?
    ensures PipeOf(GetSymbolForS(p).value, coord).value.connections == p.connections
  {
    var (a, b) := p.connections.value;
    match a
    case North =>
    case South =>
    case East =>
    case West =>
  }

  /** Every character is '.' or a pipe character. */
  predicate AllSymbols(lines: seq<string>) {
    forall l, c | 0 <= l < |lines| && 0 <= c < |lines[l]| :: lines[l][c] == '.' || lines[l][c] in Symbols
  }

  /** The width the parser records: the longest line. */
  function MaxLen(lines: seq<string>): (r: nat)
    ensures forall l | 0 <= l < |lines| :: |lines[l]| <= r
    ensures r == 0 || exists l | 0 <= l < |lines| :: |lines[l]| == r
  {
    if lines == [] then 0
    else
      var rest := MaxLen(lines[..|lines| - 1]);
      assert forall l | 0 <= l < |lines| - 1 :: lines[..|lines| - 1][l] == lines[l];
      if |lines[|lines| - 1]| > rest then |lines[|lines| - 1]| else rest
  }

  /** The pipes of line `l` from left to right; a bad character fails. */
  function RowPipes(line: string, l: nat): (r: Result<seq<Pipe>>)
    ensures r.Success? <==> forall c | 0 <= c < |line| :: line[c] == '.' || line[c] in Symbols
    ensures r.Success? ==> forall p | p in r.value :: p.position.line == l && p.position.column < |line|
  {
    if line == [] then Success([])
    else
      var n := |line| - 1;
      var rest := RowPipes(line[..n], l);
      assert forall c | 0 <= c < n :: line[..n][c] == line[c];
      if rest.Failure? then rest
      else if line[n] == '.' then rest
      else match PipeOf(line[n], Coordinate(n, l))
        case Failure(e) => Failure(e)
        case Success(p) => Success(rest.value + [p])
  }

  /** The pipes of all lines, line after line, as the parser collects them. */
  function Pipes(lines: seq<string>): (r: Result<seq<Pipe>>)
    ensures r.Success? <==> AllSymbols(lines)
    ensures r.Success? ==> forall p | p in r.value :: Inside(p.position, MaxLen(lines), |lines|)
  {
    if lines == [] then Success([])
    else
      var n := |lines| - 1;
      var rest := Pipes(lines[..n]);
      var row := RowPipes(lines[n], n);
      assert forall l | 0 <= l < n :: lines[..n][l] == lines[l];
      assert MaxLen(lines[..n]) <= MaxLen(lines);
      if rest.Failure? then rest
      else if row.Failure? then row
      else Success(rest.value + row.value)
  }

  /** What the maze shows at a coordinate: the pipe of its character, or
      nothing for '.' and beyond the end of a line. */
  function Cell(lines: seq<string>, q: Coordinate): Option<Pipe>
    requires AllSymbols(lines)
  {
    if q.line < |lines| && q.column < |lines[q.line]| && lines[q.line][q.column] != '.'
    then Some(PipeOf(lines[q.line][q.column], q).value)
    else None
  }

  /** The whole maze as grid cells. */
  function CellGrid(lines: seq<string>): (cells: seq<seq<Option<Pipe>>>)
    requires AllSymbols(lines)
    ensures WellShaped(cells, MaxLen(lines), |lines|)
    ensures forall l, c | 0 <= l < |lines| && 0 <= c < MaxLen(lines) :: cells[l][c] == Cell(lines, Coordinate(c, l))
  {
    seq(|lines|, l requires 0 <= l < |lines| => seq(MaxLen(lines), c requires 0 <= c < MaxLen(lines) => Cell(lines, Coordinate(c, l))))
  }

  /** The last pipe at a coordinate in a list of pipes. */
  function FindAt(ps: seq<Pipe>, q: Coordinate): Option<Pipe> {
    if ps == [] then None
    else if ps[|ps| - 1].position == q then Some(ps[|ps| - 1])
    else FindAt(ps[..|ps| - 1], q)
  }

  /** The position of the last 'S' in a list of pipes. */
  function LastStart(ps: seq<Pipe>): Option<Coordinate> {
    if ps == [] then None
    else if ps[|ps| - 1].symbol == 'S' then Some(ps[|ps| - 1].position)
    else LastStart(ps[..|ps| - 1])
  }

  /** Looking something up in two lists one after the other finds it in
      the later list first. */
  lemma {:induction false} AppendLookups(xs: seq<Pipe>, ys: seq<Pipe>, q: Coordinate)
    ensures FindAt(xs + ys, q) == if FindAt(ys, q).Some? then FindAt(ys, q) else FindAt(xs, q)
    ensures LastStart(xs + ys) == if LastStart(ys).Some? then LastStart(ys) else LastStart(xs)
    decreases |ys|
  {
    if ys == [] {
      assert xs + ys == xs;
    } else {
      var n := |ys| - 1;
      assert (xs + ys)[..|xs + ys| - 1] == xs + ys[..n];
      AppendLookups(xs, ys[..n], q);
    }
  }

  /** The pipes of a line hold, at each coordinate, what the line shows
      there. */
  lemma {:induction false} RowFind(lines: seq<string>, l: nat, k: nat, q: Coordinate)
    requires AllSymbols(lines) && l < |lines| && k <= |lines[l]|
    ensures RowPipes(lines[l][..k], l).Success?
    ensures FindAt(RowPipes(lines[l][..k], l).value, q) == if q.line == l && q.column < k then Cell(lines, q) else None
  {
    var line := lines[l][..k];
    assert forall c | 0 <= c < k :: line[c] == lines[l][c];
    if k > 0 {
      assert line[..k - 1] == lines[l][..k - 1];
      RowFind(lines, l, k - 1, q);
    }
  }

  /** The last 'S' among the pipes of a line is the line's last 'S'. */
  lemma {:induction false} RowStart(lines: seq<string>, l: nat, k: nat)
    requires AllSymbols(lines) && l < |lines| && k <= |lines[l]|
    ensures RowPipes(lines[l][..k], l).Success?
    ensures var s := LastStart(RowPipes(lines[l][..k], l).value);
      && (s.None? <==> forall c | 0 <= c < k :: lines[l][c] != 'S')
      && (s.Some? ==> s.value.line == l && s.value.column < k && lines[l][s.value.column] == 'S')
  {
    var line := lines[l][..k];
    assert forall c | 0 <= c < k :: line[c] == lines[l][c];
    if k > 0 {
      assert line[..k - 1] == lines[l][..k - 1];
      RowStart(lines, l, k - 1);
    }
  }

  /** The collected pipes hold, at each coordinate, what the maze shows
      there. */
  lemma {:induction false} PipesFind(lines: seq<string>, q: Coordinate)
    requires AllSymbols(lines)
    ensures FindAt(Pipes(lines).value, q) == Cell(lines, q)
  {
    if lines != [] {
      var n := |lines| - 1;
      assert forall l | 0 <= l < n :: lines[..n][l] == lines[l];
      PipesFind(lines[..n], q);
      RowFind(lines, n, |lines[n]|, q);
      assert lines[n][..|lines[n]|] == lines[n];
      AppendLookups(Pipes(lines[..n]).value, RowPipes(lines[n], n).value, q);
      if q.line < n {
        assert Cell(lines, q) == Cell(lines[..n], q);
      } else {
        assert Cell(lines[..n], q).None?;
      }
    }
  }

  /** The last 'S' collected is an 'S' of the maze, and there is none
      exactly when the maze has no 'S'. */
  lemma {:induction false} PipesStart(lines: seq<string>)
    requires AllSymbols(lines)
    ensures var s := LastStart(Pipes(lines).value);
      && (s.None? <==> NoStart(lines))
      && (s.Some? ==> s.value.line < |lines| && s.value.column < |lines[s.value.line]| && lines[s.value.line][s.value.column] == 'S')
  {
    if lines != [] {
      var n := |lines| - 1;
      var init := lines[..n];
      PipesSnoc(lines);
      PipesStart(init);
      RowStart(lines, n, |lines[n]|);
      assert lines[n][..|lines[n]|] == lines[n];
      AppendLookups(Pipes(init).value, RowPipes(lines[n], n).value, Coordinate(0, 0));
      NoStartSnoc(lines);
      var s := LastStart(Pipes(init).value);
      if s.Some? {
        assert init[s.value.line] == lines[s.value.line];
      }
    }
  }

  /** The pipes of a maze are those of all but its last line, then those
      of the last line. */
  lemma {:induction false} PipesSnoc(lines: seq<string>)
    requires AllSymbols(lines) && lines != []
    ensures AllSymbols(lines[..|lines| - 1]) && RowPipes(lines[|lines| - 1], |lines| - 1).Success?
    ensures Pipes(lines).value == Pipes(lines[..|lines| - 1]).value + RowPipes(lines[|lines| - 1], |lines| - 1).value
  {
    var n := |lines| - 1;
    assert forall l | 0 <= l < n :: lines[..n][l] == lines[l];
  }

  /** A maze has no 'S' exactly when neither all but its last line nor its
      last line has one. */
  lemma {:induction false} NoStartSnoc(lines: seq<string>)
    requires lines != []
    ensures NoStart(lines) <==>
      NoStart(lines[..|lines| - 1]) && 'S' !in lines[|lines| - 1]
  {
    var n := |lines| - 1;
    assert forall l | 0 <= l < n :: lines[..n][l] == lines[l];
  }

  /** No line holds an 'S'. */
  predicate NoStart(lines: seq<string>) {
    forall l, c | 0 <= l < |lines| && 0 <= c < |lines[l]| :: lines[l][c] != 'S'
  }

  /** The cells `my_parser` ends with: those of the maze, with the start's
      connections filled in. */
  function Patched(cells: seq<seq<Option<Pipe>>>, s: Coordinate, connections: (Direction, Direction)): seq<seq<Option<Pipe>>>
    requires s.line < |cells| && s.column < |cells[s.line]|
  {
    cells[s.line := cells[s.line][s.column := Some(Pipe(s, Some(connections), 'S'))]]
  }

  /** The loop of `my_parser` over the collected pipes: each is written
      at its position, and an 'S' becomes the start. */
  method PlacePipes(grid: Grid, pipes: seq<Pipe>)
    requires grid.Valid() && grid.start.None?
    requires forall q | grid.Contains(q) :: grid.Get(q).None?
    requires forall p | p in pipes :: grid.Contains(p.position)
    modifies grid
    ensures grid.Valid() && grid.start == LastStart(pipes)
    ensures forall q | grid.Contains(q) :: grid.Get(q) == FindAt(pipes, q)
  {
    assert pipes[..0] == [];
    for k := 0 to |pipes|
      invariant grid.Valid()
      invariant forall q | grid.Contains(q) :: grid.Get(q) == FindAt(pipes[..k], q)
      invariant grid.start == LastStart(pipes[..k])
    {
      var pipe := pipes[k];
      assert pipes[..k + 1][..k] == pipes[..k];
      if pipe.symbol == 'S' {
        grid.start := Some(pipe.position);
      }
      assert pipe in pipes;
      grid.Set(pipe.position, Some(pipe));
    }
    assert pipes[..|pipes|] == pipes;
  }

  /** Cells that agree with the collected pipes everywhere are the maze's. */
  lemma {:induction false} PlacedIsMaze(lines: seq<string>, cells: seq<seq<Option<Pipe>>>)
    requires AllSymbols(lines) && WellShaped(cells, MaxLen(lines), |lines|)
    requires forall q | Inside(q, MaxLen(lines), |lines|) :: cells[q.line][q.column] == FindAt(Pipes(lines).value, q)
    ensures cells == CellGrid(lines)
  {
    forall l, c | 0 <= l < |lines| && 0 <= c < MaxLen(lines)
      ensures cells[l][c] == CellGrid(lines)[l][c]
    {
      var q := Coordinate(c, l);
      assert Inside(q, MaxLen(lines), |lines|);
      PipesFind(lines, q);
    }
    forall l | 0 <= l < |lines|
      ensures cells[l] == CellGrid(lines)[l]
    {
    }
  }

  /** `my_parser`: the grid is as wide as the longest line and as high as
      there are lines; every character other than '.' becomes the pipe it
      stands for at its coordinate; the last 'S' becomes the start, and its
      connections are inferred from its neighbours. It panics on an unknown
      character, without an 'S', and when the start's connections cannot be
      inferred. */
  method MyParser(lines: seq<string>) returns (r: Result<Grid>)
    ensures r.Failure? <==>
      || !AllSymbols(lines)
      || NoStart(lines)
      || StartConnections(CellGrid(lines), MaxLen(lines), |lines|, LastStart(Pipes(lines).value)).Failure?
    ensures r.Success? ==> fresh(r.value) && r.value.Valid()
    ensures r.Success? ==> r.value.columnMax == MaxLen(lines) && r.value.lineMax == |lines|
    ensures r.Success? ==> var s := LastStart(Pipes(lines).value);
      && s.Some? && r.value.start == s
      && s.value.line < |lines| && s.value.column < |lines[s.value.line]|
      && lines[s.value.line][s.value.column] == 'S'
      && var connections := StartConnections(CellGrid(lines), MaxLen(lines), |lines|, s).value;
      r.value.cells == Patched(CellGrid(lines), s.value, connections)
  {
    var parsed := Pipes(lines);
    if parsed.Failure? {
      return Failure(parsed.error);
    }
    var grid := new Grid(MaxLen(lines), |lines|);
    PlacePipes(grid, parsed.value);
    PlacedIsMaze(lines, grid.cells);
    PipesStart(lines);
    if grid.start.None? {
      return Failure("by now start node should exist");
    }
    var start := grid.start.value;
    var connections := grid.GetStartConnections();
    if connections.Failure? {
      return Failure(connections.error);
    }
    grid.Set(start, Some(Pipe(start, Some(connections.value), 'S')));
    r := Success(grid);
  }
}
