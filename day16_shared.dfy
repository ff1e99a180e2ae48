/** Beam simulator of day 16 (day-16/src/shared.rs): directions and their
    unit displacements, the per-tile pass state machine, the grid parser and
    the work-queue traversal that counts illuminated tiles.

    Coordinates follow glam's IVec2 as the source uses it: x is the column
    and grows to the East, y is the line and grows to the South.  The grid is
    an `array2<Tile>` indexed `[x, y]`, `Length0` columns by `Length1` lines. */
module Day16Shared {
  import opened Wrappers

  /** Declaration order is the source's: `to as usize` gives 0, 1, 2, 3. */
  datatype Direction = North | South | East | West

  const AllDirections: set<Direction> := {North, South, East, West}

  datatype Vec2 = Vec2(x: int, y: int)

  /** The index of a direction into a tile's `passed` flags. */
  function Ordinal(d: Direction): (n: nat)
    ensures n < 4
  {
    match d
    case North => 0
    case South => 1
    case East => 2
    case West => 3
  }

  lemma OrdinalIsIndex(a: Direction, b: Direction)
    ensures Ordinal(North) == 0 && Ordinal(South) == 1 && Ordinal(East) == 2 && Ordinal(West) == 3
    ensures Ordinal(a) == Ordinal(b) <==> a == b
  {
  }

  /** `From<Direction> for IVec2`: the unit displacement of one step. */
  function ToPoint(d: Direction): (v: Vec2)
    ensures -1 <= v.x <= 1 && -1 <= v.y <= 1
    ensures (v.x == 0) != (v.y == 0)
  {
    match d
    case North => Vec2(0, -1)
    case South => Vec2(0, 1)
    case East => Vec2(1, 0)
    case West => Vec2(-1, 0)
  }

  /** `IVec2 + Direction`. */
  function Add(p: Vec2, d: Direction): Vec2 {
    Vec2(p.x + ToPoint(d).x, p.y + ToPoint(d).y)
  }

  function Clamp(v: int): (c: int)
    ensures -1 <= c <= 1
    ensures c == 0 <==> v == 0
    ensures -1 <= v <= 1 ==> c == v
  {
    if v < -1 then -1 else if v > 1 then 1 else v
  }

  /** `TryFrom<IVec2> for Direction`: clamps both components to [-1, 1];
      the null move and every diagonal are errors. */
  function TryFrom(v: Vec2): (r: Result<Direction>)
    ensures r.Success? <==> (v.x == 0) != (v.y == 0)
    ensures r.Success? ==> ToPoint(r.value) == Vec2(Clamp(v.x), Clamp(v.y))
  {
    var c := Vec2(Clamp(v.x), Clamp(v.y));
    if c == Vec2(0, 0) then Failure("did not move")
    else if c == Vec2(1, 0) then Success(East)
    else if c == Vec2(-1, 0) then Success(West)
    else if c == Vec2(0, 1) then Success(South)
    else if c == Vec2(0, -1) then Success(North)
    else Failure("move not defined")
  }

  /** `Direction::from_points`; the `unwrap` panic is the `Failure`. */
  function FromPoints(origin: Vec2, target: Vec2): (r: Result<Direction>)
    ensures r.Success? <==> (target.x == origin.x) != (target.y == origin.y)
  {
    TryFrom(Vec2(target.x - origin.x, target.y - origin.y))
  }

  /** A step in direction `d` is recognised as a step in direction `d`. */
  lemma FromPointsRoundTrip(p: Vec2, d: Direction)
    ensures FromPoints(p, Add(p, d)) == Success(d)
    ensures TryFrom(ToPoint(d)) == Success(d)
  {
  }

  // ---------------------------------------------------------------------
  // Tiles

  /** The four `passed` flags, indexed by `Ordinal`. */
  type Flags = s: seq<bool> | |s| == 4 witness [false, false, false, false]

  /** `Tile` is `Copy` and lives by value in the grid, so it is a datatype;
      the traversal writes the updated value back into the grid. */
  datatype Tile = Tile(position: Vec2, mirror: Option<char>, illuminated: bool, passed: Flags)

  const NoFlags: Flags := [false, false, false, false]

  /** The characters `pass` knows; any other stored character is `unreachable!`. */
  predicate KnownMirror(m: Option<char>) {
    m.None? || m.value in "|/\\-"
  }

  /** `Tile::new`: a tile no beam has passed yet. */
  function NewTile(position: Vec2, mirror: Option<char>): (t: Tile)
    ensures t.position == position && t.mirror == mirror
    ensures !t.illuminated && t.passed == NoFlags && forall d :: !t.passed[Ordinal(d)]
  {
    Tile(position, mirror, false, NoFlags)
  }

  /** Reference behaviour of a cell on a beam whose unit displacement is `v`,
      written with vectors: `/` maps (dx, dy) to (-dy, -dx), `\` maps it to
      (dy, dx), a splitter passes a beam parallel to it and splits a
      perpendicular one into its two directions.  Characters the source
      treats as unreachable have no exits. */
  function Reflect(mirror: Option<char>, v: Vec2): seq<Vec2> {
    match mirror
    case None => [v]
    case Some(c) =>
      if c == '/' then [Vec2(-v.y, -v.x)]
      else if c == '\\' then [Vec2(v.y, v.x)]
      else if c == '|' then (if v.x == 0 then [v] else [ToPoint(North), ToPoint(South)])
      else if c == '-' then (if v.y == 0 then [v] else [ToPoint(East), ToPoint(West)])
      else []
  }

  /** `p + v` for every displacement of `vs`, in order. */
  function Translate(p: Vec2, vs: seq<Vec2>): (r: seq<Vec2>)
    ensures |r| == |vs|
    ensures forall i | 0 <= i < |vs| :: r[i] == Vec2(p.x + vs[i].x, p.y + vs[i].y)
  {
    seq(|vs|, i requires 0 <= i < |vs| => Vec2(p.x + vs[i].x, p.y + vs[i].y))
  }

  /** The directions `pass` sends a beam heading `heading` in, in the order it
      lists them. */
  function Exits(mirror: Option<char>, heading: Direction): seq<Direction>
    requires KnownMirror(mirror)
  {
    match mirror
    case None => [heading]
    case Some(m) =>
      if m == '|' then
        match heading
        case North => [heading]
        case South => [heading]
        case East => [North, South]
        case West => [North, South]
      else if m == '/' then
        match heading
        case North => [East]
        case South => [West]
        case West => [South]
        case East => [North]
      else if m == '\\' then
        match heading
        case North => [West]
        case South => [East]
        case West => [North]
        case East => [South]
      else
        match heading
        case North => [East, West]
        case South => [East, West]
        case East => [heading]
        case West => [heading]
  }

  /** The direction table agrees with the vector description of the cells. */
  lemma ExitsMatchReflect(m: Option<char>, heading: Direction)
    requires KnownMirror(m)
    ensures |Exits(m, heading)| == |Reflect(m, ToPoint(heading))|
    ensures forall i | 0 <= i < |Exits(m, heading)| :: ToPoint(Exits(m, heading)[i]) == Reflect(m, ToPoint(heading))[i]
  {
  }

  /** The updated tile and the positions `pass` returns (`None` when blocked). */
  datatype Passage = Passage(tile: Tile, next: Option<seq<Vec2>>)

  /** `Tile::pass`: a beam leaving this tile heading `heading`.  A direction that
      already passed is blocked and leaves the tile as it was; otherwise the
      flag for `heading` and `illuminated` are set and the successor positions
      are the tile's position moved by the reference displacements. */
  function Pass(t: Tile, heading: Direction): (r: Passage)
    requires KnownMirror(t.mirror)
    ensures t.passed[Ordinal(heading)] ==> r.tile == t && r.next.None?
    ensures !t.passed[Ordinal(heading)] ==>
      && r.tile == t.(passed := t.passed[Ordinal(heading) := true], illuminated := true)
      && r.next == Some(Translate(t.position, Reflect(t.mirror, ToPoint(heading))))
  {
    if t.passed[Ordinal(heading)] then Passage(t, None)
    else
      var lit := t.(passed := t.passed[Ordinal(heading) := true], illuminated := true);
      var exits := Exits(t.mirror, heading);
      var next := seq(|exits|, i requires 0 <= i < |exits| => Add(t.position, exits[i]));
      ExitsMatchReflect(t.mirror, heading);
      assert next == Translate(t.position, Reflect(t.mirror, ToPoint(heading)));
      Passage(lit, Some(next))
  }

  /** Every exit of a known cell is one unit step in some direction. */
  lemma ReflectIsUnit(m: Option<char>, d: Direction, w: Vec2)
    requires KnownMirror(m)
    requires w in Reflect(m, ToPoint(d))
    ensures TryFrom(w).Success? && ToPoint(TryFrom(w).value) == w
  {
  }

  /** A splitter yields two exits exactly when the beam hits it broadside,
      and one exit (straight through) otherwise; it never yields none. */
  lemma SplitterExits(d: Direction)
    ensures |Reflect(Some('|'), ToPoint(d))| == (if d == East || d == West then 2 else 1)
    ensures |Reflect(Some('-'), ToPoint(d))| == (if d == North || d == South then 2 else 1)
    ensures d == North || d == South ==> Reflect(Some('|'), ToPoint(d)) == [ToPoint(d)]
    ensures d == East || d == West ==> Reflect(Some('-'), ToPoint(d)) == [ToPoint(d)]
  {
  }

  /** The diagonal mirrors turn a beam by a quarter turn, and a beam sent
      back along the exit comes out along the reversed entry. */
  lemma MirrorsTurnAndReverse(c: char, d: Direction)
    requires c == '/' || c == '\\'
    ensures |Reflect(Some(c), ToPoint(d))| == 1
    ensures var w := Reflect(Some(c), ToPoint(d))[0];
      w.x * ToPoint(d).x + w.y * ToPoint(d).y == 0
      && Reflect(Some(c), Vec2(-w.x, -w.y)) == [Vec2(-ToPoint(d).x, -ToPoint(d).y)]
  {
    var v := ToPoint(d);
    MirrorTurns(c, v);
  }

  /** The same for any unit displacement along an axis. */
  lemma {:induction false} MirrorTurns(c: char, v: Vec2)
    requires c == '/' || c == '\\'
    requires (v.x == 0) != (v.y == 0)
    ensures |Reflect(Some(c), v)| == 1
    ensures var w := Reflect(Some(c), v)[0];
      w.x * v.x + w.y * v.y == 0
      && Reflect(Some(c), Vec2(-w.x, -w.y)) == [Vec2(-v.x, -v.y)]
  {
    if v.x == 0 {
      ZeroTurn(c, 0, v.y);
    } else {
      ZeroTurn(c, v.x, 0);
    }
  }

  lemma {:induction false} ZeroTurn(c: char, x: int, y: int)
    requires c == '/' || c == '\\'
    requires x == 0 || y == 0
    ensures var w := Reflect(Some(c), Vec2(x, y))[0];
      w.x * x + w.y * y == 0
  {
    if x == 0 {
      assert Reflect(Some(c), Vec2(x, y))[0].y == 0;
    } else {
      assert Reflect(Some(c), Vec2(x, y))[0].x == 0;
    }
  }

  /** The splitter cases of the tile tests, as unit displacements. */
  lemma SplitterTable()
    ensures Reflect(Some('-'), ToPoint(North)) == [ToPoint(East), ToPoint(West)]
    ensures Reflect(Some('-'), ToPoint(South)) == [ToPoint(East), ToPoint(West)]
    ensures Reflect(Some('-'), ToPoint(East)) == [ToPoint(East)]
    ensures Reflect(Some('-'), ToPoint(West)) == [ToPoint(West)]
    ensures Reflect(Some('|'), ToPoint(North)) == [ToPoint(North)]
    ensures Reflect(Some('|'), ToPoint(South)) == [ToPoint(South)]
    ensures Reflect(Some('|'), ToPoint(East)) == [ToPoint(North), ToPoint(South)]
    ensures Reflect(Some('|'), ToPoint(West)) == [ToPoint(North), ToPoint(South)]
  {
  }

  /** The `/` and `\\` cases of the tile tests, as unit displacements. */
  lemma MirrorTable(d: Direction)
    ensures Reflect(Some('/'), ToPoint(d))
      == [ToPoint(match d case North => East case South => West case East => North case West => South)]
    ensures Reflect(Some('\\'), ToPoint(d))
      == [ToPoint(match d case North => West case South => East case East => South case West => North)]
  {
  }

  /** A second pass in the same direction is blocked, whatever the cell. */
  lemma PassTwiceBlocks(t: Tile, heading: Direction)
    requires KnownMirror(t.mirror)
    ensures Pass(Pass(t, heading).tile, heading).next.None?
    ensures Pass(Pass(t, heading).tile, heading).tile == Pass(t, heading).tile
  {
  }

  // ---------------------------------------------------------------------
  // Reference semantics of a traversal: reachability over beam states

  /** A beam segment: the tile it is at and the heading it enters that tile with. */
  datatype BeamState = BeamState(pos: Vec2, dir: Direction)

  /** The immutable geometry of a grid: `mirrors[x][y]`. */
  datatype Layout = Layout(width: nat, height: nat, mirrors: seq<seq<Option<char>>>)

  predicate Inside(L: Layout, p: Vec2) {
    0 <= p.x < L.width && 0 <= p.y < L.height
  }

  /** `mirrors` holds `width` columns of `height` cells. */
  predicate Shaped(L: Layout) {
    |L.mirrors| == L.width && forall x | 0 <= x < L.width :: |L.mirrors[x]| == L.height
  }

  function MirrorAt(L: Layout, p: Vec2): Option<char> {
    if 0 <= p.x < |L.mirrors| && 0 <= p.y < |L.mirrors[p.x]| then L.mirrors[p.x][p.y] else None
  }

  /** One move of the beam: from `s` to a neighbour inside the grid, in one
      of the directions the cell at `s` sends a beam heading `s.dir`. */
  ghost predicate Step(L: Layout, s: BeamState, s': BeamState) {
    && Inside(L, s.pos)
    && Inside(L, s'.pos)
    && s'.pos == Add(s.pos, s'.dir)
    && ToPoint(s'.dir) in Reflect(MirrorAt(L, s.pos), ToPoint(s.dir))
  }

  ghost predicate IsBeamPath(L: Layout, p: seq<BeamState>) {
    forall i | 0 <= i < |p| - 1 :: Step(L, p[i], p[i + 1])
  }

  ghost predicate Reachable(L: Layout, start: BeamState, s: BeamState) {
    exists p :: IsBeamPath(L, p) && |p| > 0 && p[0] == start && p[|p| - 1] == s
  }

  /** The tiles some beam state reachable from `start` stands on. */
  ghost function EnergizedCells(L: Layout, start: BeamState): set<Vec2> {
    set x, y | 0 <= x < L.width && 0 <= y < L.height
      && (exists d :: Reachable(L, start, BeamState(Vec2(x, y), d))) :: Vec2(x, y)
  }

  ghost function Energized(L: Layout, start: BeamState): nat {
    |EnergizedCells(L, start)|
  }

  lemma ReachableStart(L: Layout, start: BeamState)
    ensures Reachable(L, start, start)
  {
    assert IsBeamPath(L, [start]);
  }

  lemma {:induction false} ReachableStep(L: Layout, start: BeamState, s: BeamState, s': BeamState)
    requires Reachable(L, start, s)
    requires Step(L, s, s')
    ensures Reachable(L, start, s')
  {
    var p :| IsBeamPath(L, p) && |p| > 0 && p[0] == start && p[|p| - 1] == s;
    var q := p + [s'];
    forall i | 0 <= i < |q| - 1
      ensures Step(L, q[i], q[i + 1])
    {
      if i < |p| - 1 {
        assert q[i] == p[i] && q[i + 1] == p[i + 1];
      } else {
        assert q[i] == s && q[i + 1] == s';
      }
    }
    assert IsBeamPath(L, q);
  }

  /** A set of states that holds `start` and is closed under `Step` holds
      every state reachable from `start`. */
  lemma {:induction false} ClosedSetHoldsReachable(L: Layout, start: BeamState, S: set<BeamState>, s: BeamState)
    requires start in S
    requires forall a, b | a in S && Step(L, a, b) :: b in S
    requires Reachable(L, start, s)
    ensures s in S
  {
    var p :| IsBeamPath(L, p) && |p| > 0 && p[0] == start && p[|p| - 1] == s;
    var k := 0;
    while k < |p| - 1
      invariant 0 <= k <= |p| - 1
      invariant p[k] in S
    {
      assert Step(L, p[k], p[k + 1]);
      k := k + 1;
    }
  }

  // ---------------------------------------------------------------------
  // The grid

  /** Every tile knows its own position and holds a character `pass` knows. */
  ghost predicate WellFormed(g: array2<Tile>)
    reads g
  {
    forall x, y | 0 <= x < g.Length0 && 0 <= y < g.Length1 ::
      g[x, y].position == Vec2(x, y) && KnownMirror(g[x, y].mirror)
  }

  /** No beam has passed any tile yet. */
  ghost predicate Pristine(g: array2<Tile>)
    reads g
  {
    forall x, y | 0 <= x < g.Length0 && 0 <= y < g.Length1 ::
      !g[x, y].illuminated && g[x, y].passed == NoFlags
  }

  ghost function LayoutOf(g: array2<Tile>): (L: Layout)
    reads g
    ensures L.width == g.Length0 && L.height == g.Length1 && Shaped(L)
    ensures forall x, y | 0 <= x < g.Length0 && 0 <= y < g.Length1 :: MirrorAt(L, Vec2(x, y)) == g[x, y].mirror
  {
    Layout(g.Length0, g.Length1,
      seq(g.Length0, x requires 0 <= x < g.Length0 reads g =>
        seq(g.Length1, y requires 0 <= y < g.Length1 reads g => g[x, y].mirror)))
  }

  ghost function LitCells(g: array2<Tile>): set<Vec2>
    reads g
  {
    set x, y | 0 <= x < g.Length0 && 0 <= y < g.Length1 && g[x, y].illuminated :: Vec2(x, y)
  }

  ghost function AllStates(w: nat, h: nat): set<BeamState> {
    set x, y, d | 0 <= x < w && 0 <= y < h && d in AllDirections :: BeamState(Vec2(x, y), d)
  }

  /** The inner `for new_pos in new_positions` loop of `illuminate_grid`:
      keeps the non-negative positions, derives each one's direction with
      `from_points`, and appends those inside the grid to the queue.  What
      it appends is exactly the set of `Step` successors of `cur`. */
  method EnqueueSuccessors(ghost L: Layout, numCols: nat, numRows: nat, cur: BeamState, next: seq<Vec2>,
                           queue: seq<BeamState>)
    returns (queue': seq<BeamState>)
    requires numCols == L.width && numRows == L.height
    requires Inside(L, cur.pos)
    requires KnownMirror(MirrorAt(L, cur.pos))
    requires next == Translate(cur.pos, Reflect(MirrorAt(L, cur.pos), ToPoint(cur.dir)))
    ensures |queue| <= |queue'| && queue' [..|queue|] == queue
    ensures forall s | s in queue' [|queue|..] :: Step(L, cur, s)
    ensures forall s | Step(L, cur, s) :: s in queue' [|queue|..]
  {
    ghost var exits := Reflect(MirrorAt(L, cur.pos), ToPoint(cur.dir));
    ghost var added: seq<BeamState> := [];
    queue' := queue;
    var i := 0;
    while i < |next|
      invariant 0 <= i <= |next|
      invariant queue' == queue + added
      invariant Enqueued(L, cur, next, i, added)
    {
      var newPos := next[i];
      ReflectIsUnit(MirrorAt(L, cur.pos), cur.dir, exits[i]);
      if newPos.x >= 0 && newPos.y >= 0 {
        var newDirection := FromPoints(cur.pos, newPos).value;
        if newPos.x < numCols && newPos.y < numRows {
          var s := BeamState(newPos, newDirection);
          assert Step(L, cur, s);
          added := added + [s];
          queue' := queue' + [s];
        }
      }
      i := i + 1;
    }
    assert queue' [|queue|..] == added;
    EnqueuedAll(L, cur, next, added);
  }

  /** The states queued from the first `i` exits: each is a successor,
      and each exit inside the grid has been queued. */
  ghost predicate Enqueued(L: Layout, cur: BeamState, next: seq<Vec2>, i: nat, added: seq<BeamState>)
    requires i <= |next|
  {
    && (forall s | s in added :: Step(L, cur, s))
    && (forall j | 0 <= j < i && Inside(L, next[j]) ::
          FromPoints(cur.pos, next[j]).Success? && BeamState(next[j], FromPoints(cur.pos, next[j]).value) in added)
  }

  /** Once every exit has been looked at, every successor is queued. */
  lemma EnqueuedAll(L: Layout, cur: BeamState, next: seq<Vec2>, added: seq<BeamState>)
    requires Inside(L, cur.pos) && KnownMirror(MirrorAt(L, cur.pos))
    requires next == Translate(cur.pos, Reflect(MirrorAt(L, cur.pos), ToPoint(cur.dir)))
    requires Enqueued(L, cur, next, |next|, added)
    ensures forall s | Step(L, cur, s) :: s in added
  {
    ghost var exits := Reflect(MirrorAt(L, cur.pos), ToPoint(cur.dir));
    forall s | Step(L, cur, s)
      ensures s in added
    {
      var j :| 0 <= j < |exits| && exits[j] == ToPoint(s.dir);
      assert next[j] == s.pos;
      FromPointsRoundTrip(cur.pos, s.dir);
    }
  }

  /** The lit tiles of the columns before `x`, and of column `x` above row `y`. */
  ghost predicate LitBefore(grid: array2<Tile>, lit: set<Vec2>, x: nat, y: nat)
    reads grid
  {
    forall p :: p in lit <==>
      (0 <= p.x < x && p.x < grid.Length0 && 0 <= p.y < grid.Length1 && grid[p.x, p.y].illuminated)
      || (p.x == x < grid.Length0 && 0 <= p.y < y && p.y < grid.Length1 && grid[p.x, p.y].illuminated)
  }

  lemma LitColumnDone(grid: array2<Tile>, lit: set<Vec2>, x: nat)
    requires x < grid.Length0 && LitBefore(grid, lit, x, grid.Length1)
    ensures LitBefore(grid, lit, x + 1, 0)
    ensures (x + 1) * grid.Length1 == x * grid.Length1 + grid.Length1
  {
    Distribute(x, grid.Length1);
  }

  lemma Distribute(x: nat, h: nat)
    ensures (x + 1) * h == x * h + h
  {
  }

  /** `grid.into_iter().filter(|tile| tile.illuminated).count()`. */
  method CountIlluminated(grid: array2<Tile>) returns (count: nat)
    ensures count == |LitCells(grid)|
    ensures count <= grid.Length0 * grid.Length1
  {
    count := 0;
    ghost var lit: set<Vec2> := {};
    for x := 0 to grid.Length0
      invariant LitBefore(grid, lit, x, 0)
      invariant count == |lit| && count <= x * grid.Length1
    {
      for y := 0 to grid.Length1
        invariant LitBefore(grid, lit, x, y)
        invariant count == |lit| && count <= x * grid.Length1 + y
      {
        if grid[x, y].illuminated {
          assert Vec2(x, y) !in lit;
          lit := lit + {Vec2(x, y)};
          count := count + 1;
        }
      }
      LitColumnDone(grid, lit, x);
    }
    assert lit == LitCells(grid);
  }

  /** The grid agrees with the traversal's bookkeeping: its geometry is
      `L`, a `passed` flag is set exactly for the states in `visited`, and a
      tile is illuminated exactly when it was in `lit0` or some state first
      visited during this traversal stands on it. */
  ghost predicate Tracks(grid: array2<Tile>, L: Layout, visited: set<BeamState>, visited0: set<BeamState>, lit0: set<Vec2>)
    reads grid
  {
    && grid.Length0 == L.width && grid.Length1 == L.height
    && WellFormed(grid)
    && (forall x, y | 0 <= x < grid.Length0 && 0 <= y < grid.Length1 :: MirrorAt(L, Vec2(x, y)) == grid[x, y].mirror)
    && (forall x, y, d | 0 <= x < grid.Length0 && 0 <= y < grid.Length1 ::
          grid[x, y].passed[Ordinal(d)] <==> BeamState(Vec2(x, y), d) in visited)
    && (forall x, y | 0 <= x < grid.Length0 && 0 <= y < grid.Length1 ::
          grid[x, y].illuminated <==> Vec2(x, y) in lit0 || exists d :: BeamState(Vec2(x, y), d) in visited - visited0)
  }

  /** `grid[pos.x][pos.y].pass(heading)`: passes the beam state `cur` through
      its tile in place.  A state already visited is blocked; a new one is
      recorded and yields the positions of the reference exits. */
  method PassAt(grid: array2<Tile>, cur: BeamState, ghost L: Layout, ghost visited: set<BeamState>,
                ghost visited0: set<BeamState>, ghost lit0: set<Vec2>)
    returns (next: Option<seq<Vec2>>)
    requires Tracks(grid, L, visited, visited0, lit0)
    requires visited0 <= visited
    requires Inside(L, cur.pos)
    modifies grid
    ensures next.None? ==> cur in visited && Tracks(grid, L, visited, visited0, lit0)
    ensures next.Some? ==> cur !in visited && Tracks(grid, L, visited + {cur}, visited0, lit0)
    ensures next.Some? ==> next.value == Translate(cur.pos, Reflect(MirrorAt(L, cur.pos), ToPoint(cur.dir)))
  {
    var pos := cur.pos;
    var passage := Pass(grid[pos.x, pos.y], cur.dir);
    next := passage.next;
    if next.Some? {
      grid[pos.x, pos.y] := passage.tile;
      ghost var visited' := visited + {cur};
      forall x, y, d | 0 <= x < grid.Length0 && 0 <= y < grid.Length1
        ensures grid[x, y].passed[Ordinal(d)] <==> BeamState(Vec2(x, y), d) in visited'
      {
        if Vec2(x, y) != pos {
          assert grid[x, y] == old(grid[x, y]);
        } else {
          OrdinalIsIndex(d, cur.dir);
        }
      }
      forall x, y | 0 <= x < grid.Length0 && 0 <= y < grid.Length1
        ensures grid[x, y].illuminated <==> Vec2(x, y) in lit0 || exists d :: BeamState(Vec2(x, y), d) in visited' - visited0
      {
        if Vec2(x, y) != pos {
          assert grid[x, y] == old(grid[x, y]);
          assert forall d :: BeamState(Vec2(x, y), d) in visited' - visited0 <==> BeamState(Vec2(x, y), d) in visited - visited0;
        } else {
          assert cur in visited' - visited0;
        }
      }
      forall x, y | 0 <= x < grid.Length0 && 0 <= y < grid.Length1
        ensures MirrorAt(L, Vec2(x, y)) == grid[x, y].mirror && grid[x, y].position == Vec2(x, y)
        ensures KnownMirror(grid[x, y].mirror)
      {
        if Vec2(x, y) != pos {
          assert grid[x, y] == old(grid[x, y]);
        }
      }
    }
  }

  lemma InAllStates(w: nat, h: nat, s: BeamState)
    requires 0 <= s.pos.x < w && 0 <= s.pos.y < h
    ensures s in AllStates(w, h)
  {
    assert s.dir.North? || s.dir.South? || s.dir.East? || s.dir.West?;
    assert s == BeamState(Vec2(s.pos.x, s.pos.y), s.dir);
  }

  lemma FewerUnvisited(all: set<BeamState>, visited: set<BeamState>, s: BeamState)
    requires s in all && s !in visited
    ensures |all - (visited + {s})| < |all - visited|
  {
    assert (all - (visited + {s})) + {s} == all - visited;
  }

  /** The beam states whose `passed` flag is set. */
  ghost function PassedStates(grid: array2<Tile>): set<BeamState>
    reads grid
  {
    set x, y, d | 0 <= x < grid.Length0 && 0 <= y < grid.Length1 && d in AllDirections
      && grid[x, y].passed[Ordinal(d)] :: BeamState(Vec2(x, y), d)
  }

  lemma TracksInitially(grid: array2<Tile>)
    requires WellFormed(grid)
    ensures Tracks(grid, LayoutOf(grid), PassedStates(grid), PassedStates(grid), LitCells(grid))
    ensures Pristine(grid) ==> PassedStates(grid) == {} && LitCells(grid) == {}
    ensures PassedStates(grid) <= AllStates(grid.Length0, grid.Length1)
  {
    forall x, y, d | 0 <= x < grid.Length0 && 0 <= y < grid.Length1
      ensures grid[x, y].passed[Ordinal(d)] <==> BeamState(Vec2(x, y), d) in PassedStates(grid)
    {
      assert d.North? || d.South? || d.East? || d.West?;
    }
  }

  /** Once the queue is empty, a traversal that started on a pristine grid
      has illuminated exactly the tiles reachable states stand on. */
  lemma TracksReachable(grid: array2<Tile>, L: Layout, start: BeamState, visited: set<BeamState>,
                        visited0: set<BeamState>, lit0: set<Vec2>)
    requires Tracks(grid, L, visited, visited0, lit0)
    requires visited0 == {} && lit0 == {}
    requires forall s | s in visited :: Reachable(L, start, s)
    requires start in visited
    requires forall s, s' | s in visited && Step(L, s, s') :: s' in visited
    ensures forall x, y | 0 <= x < grid.Length0 && 0 <= y < grid.Length1 ::
      grid[x, y].illuminated <==> exists d :: Reachable(L, start, BeamState(Vec2(x, y), d))
    ensures LitCells(grid) == EnergizedCells(L, start)
  {
    forall x, y | 0 <= x < grid.Length0 && 0 <= y < grid.Length1
      ensures grid[x, y].illuminated <==> exists d :: Reachable(L, start, BeamState(Vec2(x, y), d))
    {
      if exists d :: Reachable(L, start, BeamState(Vec2(x, y), d)) {
        var d :| Reachable(L, start, BeamState(Vec2(x, y), d));
        ClosedSetHoldsReachable(L, start, visited, BeamState(Vec2(x, y), d));
        assert BeamState(Vec2(x, y), d) in visited - visited0;
      }
    }
  }

  /** Appending successors of a reachable state keeps every queued state
      reachable and keeps what was queued before. */
  lemma EnqueuedReachable(L: Layout, start: BeamState, cur: BeamState, rest: seq<BeamState>, queue: seq<BeamState>)
    requires Reachable(L, start, cur)
    requires forall s | s in rest :: Inside(L, s.pos) && Reachable(L, start, s)
    requires |rest| <= |queue| && queue[..|rest|] == rest
    requires forall s | s in queue[|rest|..] :: Step(L, cur, s)
    ensures forall s | s in queue :: Inside(L, s.pos) && Reachable(L, start, s)
    ensures forall s | s in rest :: s in queue
  {
    forall s | s in queue
      ensures Inside(L, s.pos) && Reachable(L, start, s)
    {
      var k :| 0 <= k < |queue| && queue[k] == s;
      if k < |rest| {
        assert rest[k] == s;
      } else {
        assert queue[|rest|..][k - |rest|] == s;
        ReachableStep(L, start, cur, s);
      }
    }
    forall s | s in rest
      ensures s in queue
    {
      var k :| 0 <= k < |rest| && rest[k] == s;
      assert queue[k] == s;
    }
  }

  /** One round of the traversal keeps every successor of a state expanded
      during it either expanded or waiting in the queue. */
  lemma QueueClosure(L: Layout, visited: set<BeamState>, visited0: set<BeamState>, queue: seq<BeamState>,
                     visited': set<BeamState>, queue': seq<BeamState>)
    requires queue != []
    requires forall s, s' | s in visited - visited0 && Step(L, s, s') :: s' in visited || s' in queue
    requires visited <= visited' && visited' - visited <= {queue[0]} && queue[0] in visited'
    requires forall s | s in queue[1..] :: s in queue'
    requires forall s' | queue[0] in visited' - visited && Step(L, queue[0], s') :: s' in queue'
    ensures forall s, s' | s in visited' - visited0 && Step(L, s, s') :: s' in visited' || s' in queue'
  {
    forall s, s' | s in visited' - visited0 && Step(L, s, s')
      ensures s' in visited' || s' in queue'
    {
      if s in visited - visited0 {
        if s' in queue && s' != queue[0] {
          var k :| 0 <= k < |queue| && queue[k] == s';
          assert queue[1..][k - 1] == s';
        }
      } else {
        assert s !in visited && s in visited' - visited;
      }
    }
  }

  /** The `while !work_queue.is_empty()` loop of `illuminate_grid`: pops
      the oldest beam state, passes it through its tile and enqueues the
      successors inside the grid.  Each (tile, direction) pair is expanded
      at most once, which bounds the loop.  When it ends, the states
      expanded during it are reachable from `start` and closed under `Step`. */
  method DrainQueue(grid: array2<Tile>, start: BeamState, ghost L: Layout, ghost visited0: set<BeamState>,
                    ghost lit0: set<Vec2>)
    returns (ghost visited: set<BeamState>)
    requires Tracks(grid, L, visited0, visited0, lit0)
    requires visited0 <= AllStates(grid.Length0, grid.Length1)
    requires Inside(L, start.pos)
    modifies grid
    ensures Tracks(grid, L, visited, visited0, lit0)
    ensures visited0 <= visited
    ensures forall s | s in visited - visited0 :: Reachable(L, start, s)
    ensures start in visited
    ensures forall s, s' | s in visited - visited0 && Step(L, s, s') :: s' in visited
  {
    var w, h := grid.Length0, grid.Length1;
    visited := visited0;
    var queue := [start];
    ReachableStart(L, start);
    while queue != []
      invariant Tracks(grid, L, visited, visited0, lit0)
      invariant Frontier(L, start, w, h, visited, visited0, queue)
      decreases |AllStates(w, h) - visited|, |queue|
    {
      queue, visited := DrainStep(grid, start, L, visited, visited0, lit0, queue);
    }
  }

  /** The loop state of `illuminate_grid`: every queued state is inside
      and reachable, every state expanded so far is reachable, and each
      successor of an expanded state is expanded or queued. */
  ghost predicate Frontier(L: Layout, start: BeamState, w: nat, h: nat, visited: set<BeamState>,
                           visited0: set<BeamState>, queue: seq<BeamState>)
  {
    && (forall s | s in queue :: Inside(L, s.pos) && Reachable(L, start, s))
    && visited0 <= visited <= AllStates(w, h)
    && (forall s | s in visited - visited0 :: Reachable(L, start, s))
    && (start in visited || start in queue)
    && (forall s, s' | s in visited - visited0 && Step(L, s, s') :: s' in visited || s' in queue)
  }

  /** One turn of the loop of `illuminate_grid`: the oldest state is
      passed through its tile and, when new, expanded. */
  method DrainStep(grid: array2<Tile>, start: BeamState, ghost L: Layout, ghost visited: set<BeamState>,
                   ghost visited0: set<BeamState>, ghost lit0: set<Vec2>, queue: seq<BeamState>)
    returns (queue': seq<BeamState>, ghost visited': set<BeamState>)
    requires queue != [] && Tracks(grid, L, visited, visited0, lit0)
    requires Frontier(L, start, grid.Length0, grid.Length1, visited, visited0, queue)
    modifies grid
    ensures Tracks(grid, L, visited', visited0, lit0)
    ensures Frontier(L, start, grid.Length0, grid.Length1, visited', visited0, queue')
    ensures |AllStates(grid.Length0, grid.Length1) - visited'| < |AllStates(grid.Length0, grid.Length1) - visited|
      || (visited' == visited && |queue'| < |queue|)
  {
    var w, h := grid.Length0, grid.Length1;
    var cur := queue[0];
    queue' := queue[1..];
    visited' := visited;
    var next := PassAt(grid, cur, L, visited, visited0, lit0);
    if next.Some? {
      InAllStates(w, h, cur);
      FewerUnvisited(AllStates(w, h), visited, cur);
      visited' := visited + {cur};
      ghost var rest := queue';
      queue' := EnqueueSuccessors(L, w, h, cur, next.value, queue');
      EnqueuedReachable(L, start, cur, rest, queue');
    }
    QueueClosure(L, visited, visited0, queue, visited', queue');
  }

  /** `illuminate_grid`: runs the beam from `start` and counts the
      illuminated tiles.  The geometry never changes; on a grid no beam has
      passed yet, the illuminated tiles are exactly those some state
      reachable from `start` stands on. */
  method IlluminateGrid(grid: array2<Tile>, start: BeamState) returns (count: nat)
    requires WellFormed(grid)
    requires 0 <= start.pos.x < grid.Length0 && 0 <= start.pos.y < grid.Length1
    modifies grid
    ensures WellFormed(grid)
    ensures forall x, y | 0 <= x < grid.Length0 && 0 <= y < grid.Length1 ::
      grid[x, y].mirror == old(grid[x, y].mirror)
    ensures count == |LitCells(grid)|
    ensures count <= grid.Length0 * grid.Length1
    ensures old(Pristine(grid)) ==>
      forall x, y | 0 <= x < grid.Length0 && 0 <= y < grid.Length1 ::
        grid[x, y].illuminated <==> exists d :: Reachable(old(LayoutOf(grid)), start, BeamState(Vec2(x, y), d))
    ensures old(Pristine(grid)) ==> count == Energized(old(LayoutOf(grid)), start)
  {
    ghost var L := LayoutOf(grid);
    ghost var pristine := Pristine(grid);
    ghost var visited0 := PassedStates(grid);
    ghost var lit0 := LitCells(grid);
    TracksInitially(grid);
    ghost var visited := DrainQueue(grid, start, L, visited0, lit0);
    count := CountIlluminated(grid);
    if pristine {
      TracksReachable(grid, L, start, visited, visited0, lit0);
    }
  }

  // ---------------------------------------------------------------------
  // Parsing

  function MirrorOf(c: char): Option<char> {
    if c == '.' then None else Some(c)
  }

  function Max(a: nat, b: nat): (m: nat)
    ensures m >= a && m >= b && (m == a || m == b)
  {
    if a > b then a else b
  }

  function MaxLen(lines: seq<string>): (m: nat)
    ensures forall i | 0 <= i < |lines| :: |lines[i]| <= m
    ensures |lines| > 0 ==> exists i | 0 <= i < |lines| :: |lines[i]| == m
    ensures |lines| == 0 ==> m == 0
  {
    if |lines| == 0 then 0
    else
      var rest := MaxLen(lines[..|lines| - 1]);
      var last := |lines[|lines| - 1]|;
      if last > rest then last else rest
  }

  /** Every line is as long as the longest one. */
  predicate Rectangular(lines: seq<string>) {
    forall i | 0 <= i < |lines| :: |lines[i]| == MaxLen(lines)
  }

  /** Every character is one `pass` knows. */
  predicate OnlyKnownChars(lines: seq<string>) {
    forall y, x | 0 <= y < |lines| && 0 <= x < |lines[y]| :: KnownMirror(MirrorOf(lines[y][x]))
  }

  /** The geometry `parse_into_grid` gives a rectangular input. */
  function ParsedLayout(lines: seq<string>): (L: Layout)
    requires Rectangular(lines)
    ensures L.width == MaxLen(lines) && L.height == |lines| && Shaped(L)
    ensures forall x, y | 0 <= x < L.width && 0 <= y < L.height :: MirrorAt(L, Vec2(x, y)) == MirrorOf(lines[y][x])
  {
    Layout(MaxLen(lines), |lines|,
      seq(MaxLen(lines), x requires 0 <= x < MaxLen(lines) =>
        seq(|lines|, y requires 0 <= y < |lines| => MirrorOf(lines[y][x]))))
  }

  /** The cells before column `x`, and those of column `x` above line
      `y`, hold the tile of the matching character, which exists. */
  ghost predicate FilledUpTo(grid: array2<Tile>, lines: seq<string>, x: int, y: int)
    reads grid
  {
    forall i, j | 0 <= i < grid.Length0 && 0 <= j < grid.Length1 && j < |lines| && (i < x || (i == x && j < y)) ::
      i < |lines[j]| && grid[i, j] == NewTile(Vec2(i, j), MirrorOf(lines[j][i]))
  }

  /** `grid` is what parsing `lines` yields: as wide as the longest line,
      one row per line, and a fresh tile for every character. */
  ghost predicate ParsedFrom(grid: array2<Tile>, lines: seq<string>)
    reads grid
  {
    && Rectangular(lines)
    && grid.Length0 == MaxLen(lines) && grid.Length1 == |lines|
    && forall x, y | 0 <= x < grid.Length0 && 0 <= y < grid.Length1 ::
         grid[x, y] == NewTile(Vec2(x, y), MirrorOf(lines[y][x]))
  }

  /** A parsed grid is pristine, and well formed when every character is
      one `pass` knows. */
  lemma ParsedIsPristine(grid: array2<Tile>, lines: seq<string>)
    requires ParsedFrom(grid, lines)
    ensures Pristine(grid)
    ensures OnlyKnownChars(lines) ==> WellFormed(grid)
  {
  }

  /** A freshly parsed grid has the geometry of its lines. */
  lemma LayoutOfParsed(grid: array2<Tile>, lines: seq<string>)
    requires ParsedFrom(grid, lines)
    ensures LayoutOf(grid) == ParsedLayout(lines)
  {
    LayoutsEqual(LayoutOf(grid), ParsedLayout(lines));
  }

  /** Two layouts of the same shape that agree cell by cell are equal. */
  lemma LayoutsEqual(A: Layout, B: Layout)
    requires Shaped(A) && Shaped(B) && A.width == B.width && A.height == B.height
    requires forall x, y | 0 <= x < A.width && 0 <= y < A.height :: MirrorAt(A, Vec2(x, y)) == MirrorAt(B, Vec2(x, y))
    ensures A == B
  {
    forall x | 0 <= x < A.width
      ensures A.mirrors[x] == B.mirrors[x]
    {
      forall y | 0 <= y < A.height
        ensures A.mirrors[x][y] == B.mirrors[x][y]
      {
        assert MirrorAt(A, Vec2(x, y)) == MirrorAt(B, Vec2(x, y));
      }
    }
  }

  /** The first half of `parse_into_grid`: a tile for every character,
      keyed by its position, with the line count and the longest line. */
  method CollectTiles(lines: seq<string>) returns (tiles: map<Vec2, Tile>, rows: nat, cols: nat)
    ensures rows == |lines| && cols == MaxLen(lines)
    ensures forall p :: p in tiles <==> 0 <= p.y < |lines| && 0 <= p.x < |lines[p.y]|
    ensures forall p | p in tiles :: tiles[p] == NewTile(p, MirrorOf(lines[p.y][p.x]))
  {
    rows, cols := 0, 0;
    tiles := map[];
    for lineIdx := 0 to |lines|
      invariant rows == lineIdx && cols == MaxLen(lines[..lineIdx])
      invariant forall p :: p in tiles <==> 0 <= p.y < lineIdx && 0 <= p.x < |lines[p.y]|
      invariant forall p | p in tiles :: tiles[p] == NewTile(p, MirrorOf(lines[p.y][p.x]))
    {
      rows := Max(rows, lineIdx + 1);
      var line := lines[lineIdx];
      assert lines[..lineIdx + 1][..lineIdx] == lines[..lineIdx];
      ghost var before := cols;
      for cIdx := 0 to |line|
        invariant cols == Max(before, cIdx)
        invariant forall p :: p in tiles <==>
          (0 <= p.y < lineIdx && 0 <= p.x < |lines[p.y]|) || (p.y == lineIdx && 0 <= p.x < cIdx)
        invariant forall p | p in tiles :: tiles[p] == NewTile(p, MirrorOf(lines[p.y][p.x]))
      {
        cols := Max(cols, cIdx + 1);
        var pos := Vec2(cIdx, lineIdx);
        tiles := tiles[pos := NewTile(pos, MirrorOf(line[cIdx]))];
      }
    }
    assert lines[..|lines|] == lines;
  }

  /** `parse_into_grid` over the lines of the input: collects the tiles,
      then fills a grid as wide as the longest line and as tall as the line
      count.  A position missing from the map (a short line) is the
      `expect("exists")` panic. */
  method ParseIntoGrid(lines: seq<string>) returns (r: Result<array2<Tile>>)
    ensures r.Success? <==> Rectangular(lines)
    ensures r.Success? ==> fresh(r.value)
    ensures r.Success? ==> ParsedFrom(r.value, lines)
  {
    var tiles, rows, cols := CollectTiles(lines);
    var grid := new Tile[cols, rows];
    for x := 0 to cols
      invariant FilledUpTo(grid, lines, x, 0)
    {
      for y := 0 to rows
        invariant FilledUpTo(grid, lines, x, y)
      {
        var pos := Vec2(x, y);
        if pos !in tiles {
          assert |lines[y]| != MaxLen(lines);
          return Failure("exists");
        }
        grid[x, y] := tiles[pos];
      }
    }
    forall j | 0 <= j < rows
      ensures |lines[j]| == MaxLen(lines)
    {
      if cols > 0 {
        var last := grid[cols - 1, j];
        assert cols - 1 < |lines[j]|;
      }
    }
    r := Success(grid);
  }

  // ---------------------------------------------------------------------
  // The grid container as the source indexes it

  /** `TooDee::new(cols, rows)` stores `rows` rows of `cols` cells, and
      `grid[a][b]` is cell `b` of row `a`: it panics unless `a < rows` and
      `b < cols`. */
  predicate TooDeeIndexOk(numCols: nat, numRows: nat, a: int, b: int) {
    0 <= a < numRows && 0 <= b < numCols
  }

  /** The fill loop of `parse_into_grid` as written indexes `grid[x][y]`
      for every column `x` and line `y`; it runs without a panic only when
      all of those are in bounds. */
  predicate AsWrittenFillInBounds(numCols: nat, numRows: nat) {
    forall x, y | 0 <= x < numCols && 0 <= y < numRows :: TooDeeIndexOk(numCols, numRows, x, y)
  }

  /** The row-first container only accepts the column-first fill on square
      (or empty) grids. */
  lemma AsWrittenFillNeedsSquare(numCols: nat, numRows: nat)
    ensures AsWrittenFillInBounds(numCols, numRows) <==> numCols == numRows || numCols == 0 || numRows == 0
  {
    if numCols != numRows && numCols > 0 && numRows > 0 {
      if numCols > numRows {
        assert !TooDeeIndexOk(numCols, numRows, numRows, 0);
      } else {
        assert !TooDeeIndexOk(numCols, numRows, 0, numCols);
      }
    }
  }

  /** The one-line input `..` is two columns by one line: the fill as
      written asks for row 1 of a one-row container, while the column-first
      grid of `ParseIntoGrid` parses it. */
  lemma WideGridPanicsAsWritten()
    ensures MaxLen([".."]) == 2 && Rectangular([".."])
    ensures !AsWrittenFillInBounds(2, 1)
  {
    assert !TooDeeIndexOk(2, 1, 1, 0);
  }
}
