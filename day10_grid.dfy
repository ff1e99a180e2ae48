/** Day 10, the pipe maze: directions, coordinates, pipes and the grid that
    holds them. */
module Day10Grid {
  import opened Wrappers

  /** The compass directions, in the order `Direction::iter` yields them. */
  datatype Direction = North | South | East | West

  const AllDirections: seq<Direction> := [North, South, East, West]

  /** `Direction::opposite`: never the direction itself. */
  function Opposite(d: Direction): (r: Direction)
    ensures r != d
  {
    match d
    case East => West
    case West => East
    case North => South
    case South => North
  }

  /** Turning round twice faces the original way again. */
  lemma {:induction false} OppositeInvolution(d: Direction)
    ensures Opposite(Opposite(d)) == d
  {
    match d
    case North =>
    case South =>
    case East =>
    case West =>
  }

  datatype Coordinate = Coordinate(column: nat, line: nat)

  /** The unit vector of a direction as (column, line) offsets, lines
      growing southwards. */
  function Offset(d: Direction): (int, int) {
    match d
    case North => (0, -1)
    case South => (0, 1)
    case East => (1, 0)
    case West => (-1, 0)
  }

  /** `Coordinate::calculate_coordinates`: the neighbour one step towards
      `direction`, or nothing when that step would leave the quarter plane
      (North from line 0, West from column 0). */
  function CalculateCoordinates(c: Coordinate, direction: Direction): (r: Option<Coordinate>)
    ensures r.None? <==> (direction == North && c.line == 0) || (direction == West && c.column == 0)
    ensures r.Some? ==>
      r.value.column == c.column + Offset(direction).0 && r.value.line == c.line + Offset(direction).1
  {
    var newColumn: Option<nat> := match direction
      case West => if c.column >= 1 then Some(c.column - 1) else None
      case East => Some(c.column + 1)
      case _ => Some(c.column);
    var newLine: Option<nat> := match direction
      case North => if c.line >= 1 then Some(c.line - 1) else None
      case South => Some(c.line + 1)
      case _ => Some(c.line);
    if newColumn.Some? && newLine.Some? then Some(Coordinate(newColumn.value, newLine.value)) else None
  }

  /** A step and the step back in the opposite direction return to the
      start, and the step back is always defined. */
  lemma {:induction false} StepBack(c: Coordinate, d: Direction)
    requires CalculateCoordinates(c, d).Some?
    ensures CalculateCoordinates(CalculateCoordinates(c, d).value, Opposite(d)) == Some(c)
  {
    var n := CalculateCoordinates(c, d).value;
    var back := CalculateCoordinates(n, Opposite(d));
    assert back.Some? by {
      match d
      case North =>
      case South =>
      case East =>
      case West =>
    }
  }

  /** A pipe: its position, the two directions it connects (none for the
      start 'S' until they are inferred) and its symbol. */
  datatype Pipe = Pipe(position: Coordinate, connections: Option<(Direction, Direction)>, symbol: char)

  /** `PartialEq for Pipe`: only the position matters. */
  predicate SamePipe(p: Pipe, q: Pipe) {
    p.position == q.position
  }

  /** `Hash for Pipe`: what is hashed is the position alone. */
  function HashKey(p: Pipe): Coordinate {
    p.position
  }

  /** Equality and hashing agree: pipes that compare equal hash alike, so a
      grid holds at most one node per coordinate for the search. */
  lemma {:induction false} SamePipeSameHash(p: Pipe, q: Pipe)
    requires SamePipe(p, q)
    ensures HashKey(p) == HashKey(q)
  {
  }

  /** Whether a pipe connects towards `d`. */
  predicate Connects(connections: (Direction, Direction), d: Direction) {
    connections.0 == d || connections.1 == d
  }

  /** `Pipe::get_neighbor_coordinates`: one step along each connection,
      dropping the steps that leave the quarter plane; it panics on a pipe
      without connections. */
  function NeighborCoordinates(p: Pipe): (r: Result<seq<Coordinate>>)
    ensures r.Failure? <==> p.connections.None?
    ensures r.Success? ==> |r.value| <= 2
    ensures r.Success? ==> forall q | q in r.value ::
      exists d | Connects(p.connections.value, d) :: CalculateCoordinates(p.position, d) == Some(q)
  {
    match p.connections
    case None => Failure("tried getting neighbors")
    case Some(connections) =>
      var first := CalculateCoordinates(p.position, connections.0);
      var second := CalculateCoordinates(p.position, connections.1);
      Success((if first.Some? then [first.value] else []) + (if second.Some? then [second.value] else []))
  }

  /** The cells of a grid: `lineMax` rows of `columnMax` cells each. */
  ghost predicate WellShaped(cells: seq<seq<Option<Pipe>>>, columnMax: nat, lineMax: nat) {
    |cells| == lineMax && forall l | 0 <= l < lineMax :: |cells[l]| == columnMax
  }

  /** `Coordinate::is_inside` on the dimensions of a grid. */
  predicate Inside(c: Coordinate, columnMax: nat, lineMax: nat) {
    c.column < columnMax && c.line < lineMax
  }

  /** What probing one neighbour of the start finds: whether the pipe there
      connects back; the probe panics when the neighbour lies beyond the
      last row or column, or holds a pipe without connections. */
  function Probe(cells: seq<seq<Option<Pipe>>>, columnMax: nat, lineMax: nat, start: Coordinate, d: Direction): Result<bool>
    requires WellShaped(cells, columnMax, lineMax)
  {
    match CalculateCoordinates(start, d)
    case None => Success(false)
    case Some(n) =>
      if !Inside(n, columnMax, lineMax) then Failure("index out of bounds")
      else match cells[n.line][n.column]
        case None => Success(false)
        case Some(pipe) =>
          if pipe.connections.None? then Failure("exists")
          else Success(Connects(pipe.connections.value, Opposite(d)))
  }

  /** The directions of `dirs` whose neighbour connects back, in order; a
      failing probe fails the whole scan. */
  function Connecting(cells: seq<seq<Option<Pipe>>>, columnMax: nat, lineMax: nat, start: Coordinate, dirs: seq<Direction>): (r: Result<seq<Direction>>)
    requires WellShaped(cells, columnMax, lineMax)
    ensures r.Failure? <==> exists i | 0 <= i < |dirs| :: Probe(cells, columnMax, lineMax, start, dirs[i]).Failure?
    ensures r.Success? ==> forall d | d in r.value ::
      d in dirs && Probe(cells, columnMax, lineMax, start, d) == Success(true)
    ensures r.Success? ==> forall d | d in dirs && Probe(cells, columnMax, lineMax, start, d) == Success(true) :: d in r.value
  {
    if dirs == [] then Success([])
    else
      var rest := Connecting(cells, columnMax, lineMax, start, dirs[..|dirs| - 1]);
      var last := dirs[|dirs| - 1];
      assert forall d :: d in dirs <==> d in dirs[..|dirs| - 1] || d == last;
      assert forall i | 0 <= i < |dirs| - 1 :: dirs[..|dirs| - 1][i] == dirs[i];
      if rest.Failure? then rest
      else match Probe(cells, columnMax, lineMax, start, last)
        case Failure(e) => Failure(e)
        case Success(b) => Success(if b then rest.value + [last] else rest.value)
  }

  /** What `get_start_connections` returns on a grid with the given cells
      and start: the first two connecting directions in North, South,
      East, West order; it panics without a start, on a failing probe, and
      when fewer than two neighbours connect. */
  function StartConnections(cells: seq<seq<Option<Pipe>>>, columnMax: nat, lineMax: nat, start: Option<Coordinate>): Result<(Direction, Direction)>
    requires WellShaped(cells, columnMax, lineMax)
  {
    if start.None? then Failure("no start position")
    else
      var found := Connecting(cells, columnMax, lineMax, start.value, AllDirections);
      if found.Failure? then Failure(found.error)
      else if |found.value| < 2 then Failure("index out of bounds")
      else Success((found.value[0], found.value[1]))
  }

  /** The position of a direction in iteration order. */
  function Rank(d: Direction): nat {
    match d
    case North => 0
    case South => 1
    case East => 2
    case West => 3
  }

  predicate Increasing(dirs: seq<Direction>) {
    forall i, j | 0 <= i < j < |dirs| :: Rank(dirs[i]) < Rank(dirs[j])
  }

  /** The connecting directions keep the order they are probed in. */
  lemma {:induction false} ConnectingIncreasing(cells: seq<seq<Option<Pipe>>>, columnMax: nat, lineMax: nat, start: Coordinate, dirs: seq<Direction>)
    requires WellShaped(cells, columnMax, lineMax)
    requires Increasing(dirs) && Connecting(cells, columnMax, lineMax, start, dirs).Success?
    ensures Increasing(Connecting(cells, columnMax, lineMax, start, dirs).value)
  {
    if dirs != [] {
      var n := |dirs| - 1;
      assert forall i | 0 <= i < n :: dirs[..n][i] == dirs[i];
      ConnectingIncreasing(cells, columnMax, lineMax, start, dirs[..n]);
      var rest := Connecting(cells, columnMax, lineMax, start, dirs[..n]).value;
      assert forall d | d in rest :: Rank(d) < Rank(dirs[n]);
    }
  }

  /** Whatever `get_start_connections` returns: two directions in
      North, South, East, West order, and the neighbour along each holds a
      pipe connecting back towards the start. */
  lemma {:induction false} StartConnectionsSound(cells: seq<seq<Option<Pipe>>>, columnMax: nat, lineMax: nat, start: Option<Coordinate>)
    requires WellShaped(cells, columnMax, lineMax)
    requires StartConnections(cells, columnMax, lineMax, start).Success?
    ensures var (a, b) := StartConnections(cells, columnMax, lineMax, start).value;
      && Probe(cells, columnMax, lineMax, start.value, a) == Success(true)
      && Probe(cells, columnMax, lineMax, start.value, b) == Success(true)
      && Rank(a) < Rank(b)
  {
    ConnectingIncreasing(cells, columnMax, lineMax, start.value, AllDirections);
    var found := Connecting(cells, columnMax, lineMax, start.value, AllDirections).value;
    assert found[0] in found && found[1] in found;
  }

  /** The pipe grid. Its dimensions are fixed when it is made; the cells and
      the start are written in place. */
  class Grid {
    const columnMax: nat
    const lineMax: nat
    var start: Option<Coordinate>
    var cells: seq<seq<Option<Pipe>>>

    ghost predicate Valid()
      reads this
    {
      WellShaped(cells, columnMax, lineMax)
    }

    /** `Grid::new`: `lineMax` rows of `columnMax` empty cells, no start. */
    constructor (columnMax: nat, lineMax: nat)
      ensures this.columnMax == columnMax && this.lineMax == lineMax && start.None?
      ensures Valid() && forall l, c | 0 <= l < lineMax && 0 <= c < columnMax :: cells[l][c].None?
    {
      this.columnMax := columnMax;
      this.lineMax := lineMax;
      var rows: seq<seq<Option<Pipe>>> := [];
      for l := 0 to lineMax
        invariant |rows| == l
        invariant forall l' | 0 <= l' < l :: |rows[l']| == columnMax && forall c | 0 <= c < columnMax :: rows[l'][c].None?
      {
        var row: seq<Option<Pipe>> := [];
        for c := 0 to columnMax
          invariant |row| == c && forall c' | 0 <= c' < c :: row[c'].None?
        {
          row := row + [None];
        }
        rows := rows + [row];
      }
      start := None;
      cells := rows;
    }

    /** `Coordinate::is_inside`, and `Grid::contains`: a coordinate inside
        the grid indexes a cell. */
    predicate Contains(c: Coordinate)
      reads this
      ensures Contains(c) && Valid() ==> c.line < |cells| && c.column < |cells[c.line]|
    {
      Inside(c, columnMax, lineMax)
    }

    /** `Index<Coordinate>`: the cell at a coordinate; indexing outside
        the grid panics. */
    function Get(c: Coordinate): Option<Pipe>
      reads this
      requires Valid() && Contains(c)
    {
      cells[c.line][c.column]
    }

    /** `IndexMut<Coordinate>`: overwrites one cell and nothing else. */
    method Set(c: Coordinate, v: Option<Pipe>)
      requires Valid() && Contains(c)
      modifies this
      ensures Valid() && start == old(start)
      ensures cells == old(cells)[c.line := old(cells)[c.line][c.column := v]]
      ensures forall q | Contains(q) :: Get(q) == if q == c then v else old(Get(q))
    {
      cells := cells[c.line := cells[c.line][c.column := v]];
    }

    /** `get_start_connections`: probes the neighbours of the start in
        North, South, East, West order and keeps the first two that connect
        back. */
    method GetStartConnections() returns (r: Result<(Direction, Direction)>)
      requires Valid()
      ensures r == StartConnections(cells, columnMax, lineMax, start)
    {
      if start.None? {
        return Failure("no start position");
      }
      var connections: seq<Direction> := [];
      for k := 0 to |AllDirections|
        invariant Connecting(cells, columnMax, lineMax, start.value, AllDirections[..k]) == Success(connections)
      {
        var direction := AllDirections[k];
        ConnectingSnoc(cells, columnMax, lineMax, start.value, AllDirections, k);
        var dirCoord := CalculateCoordinates(start.value, direction);
        if dirCoord.Some? {
          if !Contains(dirCoord.value) {
            r := Failure("index out of bounds");
            ConnectingFails(cells, columnMax, lineMax, start.value, AllDirections, k + 1);
            return;
          }
          var cell := Get(dirCoord.value);
          if cell.Some? {
            if cell.value.connections.None? {
              r := Failure("exists");
              ConnectingFails(cells, columnMax, lineMax, start.value, AllDirections, k + 1);
              return;
            }
            if Connects(cell.value.connections.value, Opposite(direction)) {
              connections := connections + [direction];
            }
          }
        }
      }
      assert AllDirections[..4] == AllDirections;
      if |connections| < 2 {
        return Failure("index out of bounds");
      }
      r := Success((connections[0], connections[1]));
    }
  }

  /** Once a prefix of the probes fails, the whole scan fails with the same
      message. */
  lemma {:induction false} ConnectingFails(cells: seq<seq<Option<Pipe>>>, columnMax: nat, lineMax: nat, start: Coordinate, dirs: seq<Direction>, k: nat)
    requires WellShaped(cells, columnMax, lineMax)
    requires k <= |dirs| && Connecting(cells, columnMax, lineMax, start, dirs[..k]).Failure?
    ensures Connecting(cells, columnMax, lineMax, start, dirs) == Connecting(cells, columnMax, lineMax, start, dirs[..k])
    decreases |dirs| - k
  {
    if k == |dirs| {
      assert dirs[..k] == dirs;
    } else {
      ConnectingSnoc(cells, columnMax, lineMax, start, dirs, k);
      ConnectingFails(cells, columnMax, lineMax, start, dirs, k + 1);
    }
  }

  /** One more probe: a failed scan stays failed, otherwise the probe's
      outcome decides. */
  lemma ConnectingSnoc(cells: seq<seq<Option<Pipe>>>, columnMax: nat, lineMax: nat, start: Coordinate, dirs: seq<Direction>, k: nat)
    requires WellShaped(cells, columnMax, lineMax) && k < |dirs|
    ensures var rest := Connecting(cells, columnMax, lineMax, start, dirs[..k]);
      Connecting(cells, columnMax, lineMax, start, dirs[..k + 1]) ==
        if rest.Failure? then rest
        else match Probe(cells, columnMax, lineMax, start, dirs[k])
          case Failure(e) => Failure(e)
          case Success(b) => Success(if b then rest.value + [dirs[k]] else rest.value)
  {
    assert dirs[..k + 1][..k] == dirs[..k];
  }

  /** `Pipe::successors`: the neighbours inside the grid that hold a pipe,
      each with cost 1. */
  function Successors(p: Pipe, grid: Grid): (r: Result<seq<(Pipe, nat)>>)
    reads grid
    requires grid.Valid()
    ensures r.Failure? <==> p.connections.None?
    ensures r.Success? ==> |r.value| <= 2
    ensures r.Success? ==> forall s | s in r.value ::
      (s.1 == 1 && exists c | c in NeighborCoordinates(p).value :: grid.Contains(c) && grid.Get(c) == Some(s.0))
    ensures r.Success? ==> forall c | c in NeighborCoordinates(p).value && grid.Contains(c) && grid.Get(c).Some? ::
      (grid.Get(c).value, 1) in r.value
  {
    match NeighborCoordinates(p)
    case Failure(e) => Failure(e)
    case Success(coords) => Success(Reachable(coords, grid))
  }

  /** The pipes at the coordinates that lie inside the grid, each with
      cost 1. */
  function Reachable(coords: seq<Coordinate>, grid: Grid): (r: seq<(Pipe, nat)>)
    reads grid
    requires grid.Valid()
    ensures |r| <= |coords|
    ensures forall s | s in r :: s.1 == 1 && exists c | c in coords :: grid.Contains(c) && grid.Get(c) == Some(s.0)
    ensures forall c | c in coords && grid.Contains(c) && grid.Get(c).Some? :: (grid.Get(c).value, 1) in r
  {
    if coords == [] then []
    else
      var rest := Reachable(coords[1..], grid);
      var c := coords[0];
      assert forall q :: q in coords <==> q == c || q in coords[1..];
      if grid.Contains(c) && grid.Get(c).Some? then [(grid.Get(c).value, 1)] + rest else rest
  }
}
