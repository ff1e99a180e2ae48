/** Day 14, part 2: tilt the platform north, west, south and east in turn
    (one spin cycle), detect when the sequence of platforms starts to
    repeat, and use the period to read off the platform after
    1 000 000 000 cycles. */
module Day14Part2 {
  import opened Wrappers
  import opened Day14Part1

  datatype Direction = North | West | East | South

  /** A platform part 2 works on: what the parser yields, with lines of
      one length. */
  predicate Platform(grid: seq<string>) {
    Parsed(grid) && Rectangular(grid)
  }

  // ---------------------------------------------------------------------
  // What a tilt does

  /** Every column rolled towards row 0. */
  function RolledNorth(grid: seq<string>): (g: seq<string>)
    requires |grid| > 0
    ensures |g| == |grid| && forall r | 0 <= r < |g| :: |g[r]| == |grid[0]|
  {
    seq(|grid|, r requires 0 <= r < |grid| =>
      seq(|grid[0]|, c requires 0 <= c < |grid[0]| => RollLeft(Column(grid, c))[r]))
  }

  /** The platform after tilting it towards `dir` until nothing moves. */
  function Tilted(dir: Direction, grid: seq<string>): (g: seq<string>)
    requires |grid| > 0
    ensures |g| == |grid|
    ensures Rectangular(grid) ==> Rectangular(g) && |g[0]| == |grid[0]|
  {
    match dir
    case West => seq(|grid|, r requires 0 <= r < |grid| => RollLeft(grid[r]))
    case East => seq(|grid|, r requires 0 <= r < |grid| => Reverse(RollLeft(Reverse(grid[r]))))
    case North => RolledNorth(grid)
    case South => Reverse(RolledNorth(Reverse(grid)))
  }

  lemma {:induction false} ReversePlatform(grid: seq<string>)
    requires Platform(grid)
    ensures Platform(Reverse(grid))
  {
  }

  lemma {:induction false} ReverseRocks(line: string)
    requires Rocks(line)
    ensures Rocks(Reverse(line))
  {
  }

  lemma {:induction false} ColumnRocks(grid: seq<string>, c: int)
    requires Platform(grid) && 0 <= c < |grid[0]|
    ensures Rocks(Column(grid, c))
  {
  }

  /** Column `c` of the north-rolled platform is column `c` rolled. */
  lemma {:induction false} ColumnOfRolledNorth(grid: seq<string>, c: int)
    requires Platform(grid) && 0 <= c < |grid[0]|
    ensures Column(RolledNorth(grid), c) == RollLeft(Column(grid, c))
  {
  }

  /** Tilting keeps a platform a platform of the same size. */
  lemma {:induction false} TiltedPlatform(dir: Direction, grid: seq<string>)
    requires Platform(grid)
    ensures Platform(Tilted(dir, grid))
    ensures |Tilted(dir, grid)| == |grid| && |Tilted(dir, grid)[0]| == |grid[0]|
  {
    var g := Tilted(dir, grid);
    match dir {
      case West =>
        forall r | 0 <= r < |grid| ensures Rocks(g[r]) {
          RollLeftRocks(grid[r]);
        }
      case East =>
        forall r | 0 <= r < |grid| ensures Rocks(g[r]) {
          ReverseRocks(grid[r]);
          RollLeftRocks(Reverse(grid[r]));
        }
      case North =>
        NorthPlatform(grid);
      case South =>
        ReversePlatform(grid);
        NorthPlatform(Reverse(grid));
        ReversePlatform(RolledNorth(Reverse(grid)));
    }
  }

  lemma {:induction false} NorthPlatform(grid: seq<string>)
    requires Platform(grid)
    ensures Platform(RolledNorth(grid))
  {
    var g := RolledNorth(grid);
    forall r | 0 <= r < |g| ensures Rocks(g[r]) {
      forall c | 0 <= c < |g[r]| ensures IsRock(g[r][c]) {
        ColumnRocks(grid, c);
        RollLeftRocks(Column(grid, c));
      }
    }
  }

  /** Cube-shaped rocks never move, and a cell holds a rounded rock or
      empty ground after the tilt exactly when it did before. */
  lemma {:induction false} TiltedKeepsCubes(dir: Direction, grid: seq<string>, r: int, c: int)
    requires Platform(grid) && 0 <= r < |grid| && 0 <= c < |grid[0]|
    ensures Tilted(dir, grid)[r][c] == '#' <==> grid[r][c] == '#'
  {
    assert |grid[r]| == |grid[0]|;
    match dir {
      case West => CubesStayWest(grid, r, c);
      case East => CubesStayEast(grid, r, c);
      case North => CubesStayNorth(grid, r, c);
      case South => CubesStaySouth(grid, r, c);
    }
  }

  lemma {:induction false} CubesStayWest(grid: seq<string>, r: int, c: int)
    requires Platform(grid) && 0 <= r < |grid| && 0 <= c < |grid[r]|
    ensures Tilted(West, grid)[r][c] == '#' <==> grid[r][c] == '#'
  {
    RollLeftAt(grid[r], c);
  }

  lemma {:induction false} CubesStayEast(grid: seq<string>, r: int, c: int)
    requires Platform(grid) && 0 <= r < |grid| && 0 <= c < |grid[r]|
    ensures Tilted(East, grid)[r][c] == '#' <==> grid[r][c] == '#'
  {
    RollLeftAt(Reverse(grid[r]), |grid[r]| - 1 - c);
  }

  lemma {:induction false} CubesStayNorth(grid: seq<string>, r: int, c: int)
    requires Platform(grid) && 0 <= r < |grid| && 0 <= c < |grid[0]|
    ensures Tilted(North, grid)[r][c] == '#' <==> grid[r][c] == '#'
  {
    TiltedPlatform(North, grid);
    RollLeftAt(Column(grid, c), r);
  }

  lemma {:induction false} CubesStaySouth(grid: seq<string>, r: int, c: int)
    requires Platform(grid) && 0 <= r < |grid| && 0 <= c < |grid[0]|
    ensures Tilted(South, grid)[r][c] == '#' <==> grid[r][c] == '#'
  {
    TiltedPlatform(South, grid);
    ReversePlatform(grid);
    RollLeftAt(Column(Reverse(grid), c), |grid| - 1 - r);
  }

  /** Tilting twice in the same direction is tilting once. */
  lemma {:induction false} TiltedIdempotent(dir: Direction, grid: seq<string>)
    requires Platform(grid)
    ensures Tilted(dir, Tilted(dir, grid)) == Tilted(dir, grid)
  {
    TiltedPlatform(dir, grid);
    match dir {
      case West =>
        forall r | 0 <= r < |grid| ensures RollLeft(RollLeft(grid[r])) == RollLeft(grid[r]) {
          RollLeftIdempotent(grid[r]);
        }
      case East =>
        forall r | 0 <= r < |grid|
          ensures Reverse(RollLeft(Reverse(Reverse(RollLeft(Reverse(grid[r])))))) == Reverse(RollLeft(Reverse(grid[r])))
        {
          ReverseReverse(RollLeft(Reverse(grid[r])));
          RollLeftIdempotent(Reverse(grid[r]));
        }
      case North =>
        NorthIdempotent(grid);
      case South =>
        ReversePlatform(grid);
        NorthPlatform(Reverse(grid));
        ReverseReverse(RolledNorth(Reverse(grid)));
        NorthIdempotent(Reverse(grid));
    }
  }

  lemma {:induction false} NorthIdempotent(grid: seq<string>)
    requires Platform(grid)
    ensures RolledNorth(RolledNorth(grid)) == RolledNorth(grid)
  {
    NorthPlatform(grid);
    var g := RolledNorth(grid);
    var gg := RolledNorth(g);
    forall r | 0 <= r < |grid| ensures gg[r] == g[r] {
      forall c | 0 <= c < |grid[0]| ensures gg[r][c] == g[r][c] {
        ColumnOfRolledNorth(grid, c);
        RollLeftIdempotent(Column(grid, c));
      }
    }
  }

  /** A west tilt keeps the number of rounded rocks in every row. */
  lemma {:induction false} WestKeepsRowCounts(grid: seq<string>, r: int)
    requires Platform(grid) && 0 <= r < |grid|
    ensures CountO(Tilted(West, grid)[r]) == CountO(grid[r])
  {
    RollLeftCount(grid[r]);
  }

  /** A north tilt keeps the number of rounded rocks in every column. */
  lemma {:induction false} NorthKeepsColumnCounts(grid: seq<string>, c: int)
    requires Platform(grid) && 0 <= c < |grid[0]|
    ensures CountO(Column(Tilted(North, grid), c)) == CountO(Column(grid, c))
  {
    NorthPlatform(grid);
    ColumnOfRolledNorth(grid, c);
    RollLeftCount(Column(grid, c));
  }

  // ---------------------------------------------------------------------
  // `roll`

  /** Column `c` of a grid after one cell of row `r` changed. */
  lemma {:induction false} ColumnAfterWrite(grid: seq<string>, r: int, c: int, ch: char, w: nat)
    requires 0 <= r < |grid| && 0 <= c < w && forall i | 0 <= i < |grid| :: |grid[i]| == w
    ensures var g' := grid[r := grid[r][c := ch]];
      && Column(g', c) == Column(grid, c)[r := ch]
      && forall c' | 0 <= c' < w && c' != c :: Column(g', c') == Column(grid, c')
  {
  }

  ghost predicate ColumnsInv(grid: seq<string>, tmp: seq<string>, next: seq<nat>, seg: seq<nat>,
                             w: nat, lo: nat, hi: nat, rows: nat)
    requires |next| == w && |seg| == w
  {
    forall c | lo <= c < hi && c < w :: CursorInv(Column(grid, c), Column(tmp, c), next[c], seg[c], rows)
  }

  /** The north branch of `roll`: one cursor per column, each marking the
      row where that column's next rounded rock lands. */
  method RollColumns(grid: seq<string>) returns (result: seq<string>)
    requires Platform(grid)
    ensures result == RolledNorth(grid)
  {
    var w := |grid[0]|;
    var tmp: seq<string> := seq(|grid|, _ => Fill('.', w));
    var next: seq<nat> := seq(w, _ => 0);
    ghost var seg: seq<nat> := seq(w, _ => 0);
    result := [];
    forall c | 0 <= c < w ensures CursorInv(Column(grid, c), Column(tmp, c), next[c], seg[c], 0) {
      assert Column(tmp, c) == Fill('.', |Column(grid, c)|);
      CursorInit(Column(grid, c));
    }
    for lineIdx := 0 to |grid|
      invariant |tmp| == |grid| && (forall i | 0 <= i < |tmp| :: |tmp[i]| == w)
      invariant |next| == w && |seg| == w
      invariant ColumnsInv(grid, tmp, next, seg, w, 0, w, lineIdx)
      invariant lineIdx > 0 ==> result == tmp
    {
      var line := grid[lineIdx];
      assert |line| == w;
      for cIdx := 0 to |line|
        invariant |tmp| == |grid| && (forall i | 0 <= i < |tmp| :: |tmp[i]| == w)
        invariant |next| == w && |seg| == w
        invariant ColumnsInv(grid, tmp, next, seg, w, 0, cIdx, lineIdx + 1)
        invariant ColumnsInv(grid, tmp, next, seg, w, cIdx, w, lineIdx)
      {
        tmp, next, seg := RollCell(grid, tmp, next, seg, w, lineIdx, cIdx);
      }
      result := tmp;
    }
    forall r | 0 <= r < |grid| ensures tmp[r] == RolledNorth(grid)[r] {
      forall c | 0 <= c < w ensures tmp[r][c] == RollLeft(Column(grid, c))[r] {
        CursorDone(Column(grid, c), Column(tmp, c), next[c], seg[c]);
      }
    }
  }

  /** One character of the north branch: the cursor of column `cIdx`
      advances over row `lineIdx`; the other columns are untouched. */
  method RollCell(grid: seq<string>, tmp: seq<string>, next: seq<nat>, ghost seg: seq<nat>,
                  w: nat, lineIdx: nat, cIdx: nat)
    returns (tmp': seq<string>, next': seq<nat>, ghost seg': seq<nat>)
    requires Platform(grid) && w == |grid[0]| && lineIdx < |grid| && cIdx < w
    requires |tmp| == |grid| && (forall i | 0 <= i < |tmp| :: |tmp[i]| == w)
    requires |next| == w && |seg| == w
    requires ColumnsInv(grid, tmp, next, seg, w, 0, cIdx, lineIdx + 1)
    requires ColumnsInv(grid, tmp, next, seg, w, cIdx, w, lineIdx)
    ensures |tmp'| == |grid| && (forall i | 0 <= i < |tmp'| :: |tmp'[i]| == w)
    ensures |next'| == w && |seg'| == w
    ensures ColumnsInv(grid, tmp', next', seg', w, 0, cIdx + 1, lineIdx + 1)
    ensures ColumnsInv(grid, tmp', next', seg', w, cIdx + 1, w, lineIdx)
  {
    var ch := grid[lineIdx][cIdx];
    if ch == '.' {
      ColumnsEmpty(grid, tmp, next, seg, w, lineIdx, cIdx);
      tmp', next', seg' := tmp, next, seg;
    } else if ch == '#' {
      ColumnsObstacle(grid, tmp, next, seg, w, lineIdx, cIdx);
      tmp' := tmp[lineIdx := tmp[lineIdx][cIdx := ch]];
      next' := next[cIdx := lineIdx + 1];
      seg' := seg[cIdx := lineIdx + 1];
    } else {
      ColumnsRock(grid, tmp, next, seg, w, lineIdx, cIdx);
      var row := next[cIdx];
      tmp' := tmp[row := tmp[row][cIdx := 'O']];
      next' := next[cIdx := row + 1];
      seg' := seg;
    }
  }

  lemma {:induction false} ColumnsEmpty(grid: seq<string>, tmp: seq<string>, next: seq<nat>, seg: seq<nat>,
                                         w: nat, lineIdx: nat, cIdx: nat)
    requires Platform(grid) && w == |grid[0]| && lineIdx < |grid| && cIdx < w
    requires |tmp| == |grid| && (forall i | 0 <= i < |tmp| :: |tmp[i]| == w)
    requires |next| == w && |seg| == w
    requires ColumnsInv(grid, tmp, next, seg, w, 0, cIdx, lineIdx + 1)
    requires ColumnsInv(grid, tmp, next, seg, w, cIdx, w, lineIdx)
    requires grid[lineIdx][cIdx] == '.'
    ensures ColumnsInv(grid, tmp, next, seg, w, 0, cIdx + 1, lineIdx + 1)
    ensures ColumnsInv(grid, tmp, next, seg, w, cIdx + 1, w, lineIdx)
  {
    var col := Column(grid, cIdx);
    assert col[lineIdx] == '.';
    assert CursorInv(col, Column(tmp, cIdx), next[cIdx], seg[cIdx], lineIdx);
    CursorEmpty(col, Column(tmp, cIdx), next[cIdx], seg[cIdx], lineIdx);
  }

  lemma {:induction false} ColumnsObstacle(grid: seq<string>, tmp: seq<string>, next: seq<nat>, seg: seq<nat>,
                                            w: nat, lineIdx: nat, cIdx: nat)
    requires Platform(grid) && w == |grid[0]| && lineIdx < |grid| && cIdx < w
    requires |tmp| == |grid| && (forall i | 0 <= i < |tmp| :: |tmp[i]| == w)
    requires |next| == w && |seg| == w
    requires ColumnsInv(grid, tmp, next, seg, w, 0, cIdx, lineIdx + 1)
    requires ColumnsInv(grid, tmp, next, seg, w, cIdx, w, lineIdx)
    requires grid[lineIdx][cIdx] == '#'
    ensures var tmp' := tmp[lineIdx := tmp[lineIdx][cIdx := '#']];
      && ColumnsInv(grid, tmp', next[cIdx := lineIdx + 1], seg[cIdx := lineIdx + 1], w, 0, cIdx + 1, lineIdx + 1)
      && ColumnsInv(grid, tmp', next[cIdx := lineIdx + 1], seg[cIdx := lineIdx + 1], w, cIdx + 1, w, lineIdx)
  {
    var col := Column(grid, cIdx);
    assert col[lineIdx] == '#';
    assert CursorInv(col, Column(tmp, cIdx), next[cIdx], seg[cIdx], lineIdx);
    CursorObstacle(col, Column(tmp, cIdx), next[cIdx], seg[cIdx], lineIdx);
    ColumnAfterWrite(tmp, lineIdx, cIdx, '#', w);
  }

  lemma {:induction false} ColumnsRock(grid: seq<string>, tmp: seq<string>, next: seq<nat>, seg: seq<nat>,
                                        w: nat, lineIdx: nat, cIdx: nat)
    requires Platform(grid) && w == |grid[0]| && lineIdx < |grid| && cIdx < w
    requires |tmp| == |grid| && (forall i | 0 <= i < |tmp| :: |tmp[i]| == w)
    requires |next| == w && |seg| == w
    requires ColumnsInv(grid, tmp, next, seg, w, 0, cIdx, lineIdx + 1)
    requires ColumnsInv(grid, tmp, next, seg, w, cIdx, w, lineIdx)
    requires grid[lineIdx][cIdx] != '.' && grid[lineIdx][cIdx] != '#'
    ensures next[cIdx] < |tmp|
    ensures var tmp' := tmp[next[cIdx] := tmp[next[cIdx]][cIdx := 'O']];
      && ColumnsInv(grid, tmp', next[cIdx := next[cIdx] + 1], seg, w, 0, cIdx + 1, lineIdx + 1)
      && ColumnsInv(grid, tmp', next[cIdx := next[cIdx] + 1], seg, w, cIdx + 1, w, lineIdx)
  {
    var col := Column(grid, cIdx);
    assert col[lineIdx] == grid[lineIdx][cIdx];
    assert CursorInv(col, Column(tmp, cIdx), next[cIdx], seg[cIdx], lineIdx);
    CursorRock(col, Column(tmp, cIdx), next[cIdx], seg[cIdx], lineIdx);
    ColumnAfterWrite(tmp, next[cIdx], cIdx, 'O', w);
  }

  /** `roll`: the platform tilted towards `dir`. East and South run the
      west and north cursors over the reversed rows or the reversed
      platform and reverse the outcome back. */
  method Roll(dir: Direction, grid: seq<string>) returns (result: seq<string>)
    requires Platform(grid)
    ensures result == Tilted(dir, grid)
  {
    match dir {
      case West =>
        result := [];
        for i := 0 to |grid|
          invariant |result| == i
          invariant forall j | 0 <= j < i :: result[j] == RollLeft(grid[j])
        {
          var tmp := RollLine(grid[i]);
          result := result + [tmp];
        }
      case North =>
        result := RollColumns(grid);
      case East =>
        result := [];
        for i := 0 to |grid|
          invariant |result| == i
          invariant forall j | 0 <= j < i :: result[j] == Reverse(RollLeft(Reverse(grid[j])))
        {
          ReverseRocks(grid[i]);
          var tmp := RollLine(Reverse(grid[i]));
          result := result + [Reverse(tmp)];
        }
      case South =>
        ReversePlatform(grid);
        var rolled := RollColumns(Reverse(grid));
        result := Reverse(rolled);
    }
  }

  // ---------------------------------------------------------------------
  // `count`, `rotate` and `process`

  /** `count`: the load on the north beams, a rounded rock in row `r`
      (counted from the top) weighing `|grid| - r`. */
  function Count(grid: seq<string>): nat {
    if grid == [] then 0 else |grid| * CountO(grid[0]) + Count(grid[1..])
  }

  /** One spin cycle: north, west, south, east. */
  function Cycle(grid: seq<string>): (g: seq<string>)
    requires |grid| > 0
    ensures |g| == |grid|
    ensures Rectangular(grid) ==> Rectangular(g) && |g[0]| == |grid[0]|
  {
    Tilted(East, Tilted(South, Tilted(West, Tilted(North, grid))))
  }

  lemma {:induction false} CyclePlatform(grid: seq<string>)
    requires Platform(grid)
    ensures Platform(Cycle(grid))
  {
    TiltedPlatform(North, grid);
    var n := Tilted(North, grid);
    TiltedPlatform(West, n);
    var w := Tilted(West, n);
    TiltedPlatform(South, w);
    var s := Tilted(South, w);
    TiltedPlatform(East, s);
  }

  /** A spin cycle moves no cube-shaped rock. */
  lemma {:induction false} CycleKeepsCubes(grid: seq<string>, r: int, c: int)
    requires Platform(grid) && 0 <= r < |grid| && 0 <= c < |grid[0]|
    ensures Cycle(grid)[r][c] == '#' <==> grid[r][c] == '#'
  {
    TiltedKeepsCubes(North, grid, r, c);
    TiltedPlatform(North, grid);
    var n := Tilted(North, grid);
    TiltedKeepsCubes(West, n, r, c);
    TiltedPlatform(West, n);
    var w := Tilted(West, n);
    TiltedKeepsCubes(South, w, r, c);
    TiltedPlatform(South, w);
    var s := Tilted(South, w);
    TiltedKeepsCubes(East, s, r, c);
  }

  /** `rotate`: one spin cycle. */
  method Rotate(grid: seq<string>) returns (result: seq<string>)
    requires Platform(grid)
    ensures result == Cycle(grid)
  {
    TiltedPlatform(North, grid);
    var n := Roll(North, grid);
    TiltedPlatform(West, n);
    var w := Roll(West, n);
    TiltedPlatform(South, w);
    var s := Roll(South, w);
    result := Roll(East, s);
  }

  /** `n` applications of `f` to `x`. */
  ghost function Apply<T>(f: T -> T, x: T, n: nat): T {
    if n == 0 then x else f(Apply(f, x, n - 1))
  }

  lemma {:induction false} ApplyAdd<T>(f: T -> T, x: T, a: nat, b: nat)
    ensures Apply(f, x, a + b) == Apply(f, Apply(f, x, a), b)
    decreases b
  {
    if b > 0 {
      ApplyAdd(f, x, a, b - 1);
    }
  }

  lemma MulMonotone(x: int, y: int, p: nat)
    requires x <= y
    ensures x * p <= y * p
  {
  }

  lemma ModMinusPeriod(a: nat, p: nat)
    requires p > 0 && a >= p
    ensures a % p == (a - p) % p
  {
    var d, m := (a - p) / p, (a - p) % p;
    assert a - p == d * p + m && 0 <= m < p;
    assert a == (d + 1) * p + m;
    var d', m' := a / p, a % p;
    assert a == d' * p + m' && 0 <= m' < p;
    if d' > d + 1 {
      MulMonotone(d + 2, d', p);
      assert false;
    } else if d' < d + 1 {
      MulMonotone(d', d, p);
      assert false;
    }
  }

  /** Once the value after `s` steps comes back after `s + p`, it comes
      back every `p` steps from then on. */
  lemma {:induction false} Periodic<T>(f: T -> T, x: T, s: nat, p: nat, n: nat)
    requires p > 0 && Apply(f, x, s) == Apply(f, x, s + p) && n >= s
    ensures Apply(f, x, n) == Apply(f, x, s + (n - s) % p)
    decreases n
  {
    if n >= s + p {
      Periodic(f, x, s, p, n - p);
      ApplyAdd(f, x, s + p, n - s - p);
      ApplyAdd(f, x, s, n - s - p);
      ModMinusPeriod(n - s, p);
    } else {
      assert (n - s) % p == n - s;
    }
  }

  /** The spin cycle as a total step: platforms cycle, anything else is
      left alone. */
  ghost function CycleStep(grid: seq<string>): seq<string> {
    if Platform(grid) then Cycle(grid) else grid
  }

  /** The platform after `n` spin cycles. */
  ghost function Iterate(grid: seq<string>, n: nat): seq<string> {
    Apply(CycleStep, grid, n)
  }

  const Total: nat := 1_000_000_000

  /** The table `process` keeps after `x` cycles: the platform after `k`
      cycles is stored under `k`, for every `k < x`, and nothing else. */
  ghost predicate Remembers(lines: seq<string>, seen: map<seq<string>, nat>, x: nat) {
    && |seen| == x
    && (forall k | 0 <= k < x :: Iterate(lines, k) in seen && seen[Iterate(lines, k)] == k)
    && (forall g | g in seen :: seen[g] < x && g == Iterate(lines, seen[g]))
  }

  lemma {:induction false} RemembersNext(lines: seq<string>, seen: map<seq<string>, nat>, x: nat)
    requires Remembers(lines, seen, x) && Iterate(lines, x) !in seen
    ensures Remembers(lines, seen[Iterate(lines, x) := x], x + 1)
  {
  }

  /** A table that remembers `x` cycles proves them pairwise different. */
  lemma {:induction false} RemembersDistinct(lines: seq<string>, seen: map<seq<string>, nat>, x: nat)
    requires Remembers(lines, seen, x)
    ensures forall i, j | 0 <= i < j < x :: Iterate(lines, i) != Iterate(lines, j)
    ensures forall g | g in seen :: seen[g] != x
  {
  }

  lemma {:induction false} RemembersLookup(lines: seq<string>, seen: map<seq<string>, nat>, x: nat, k: nat)
    requires Remembers(lines, seen, x) && k < x
    ensures Iterate(lines, k) in seen && seen[Iterate(lines, k)] == k
  {
  }

  lemma {:induction false} RemembersKey(lines: seq<string>, seen: map<seq<string>, nat>, x: nat, g: seq<string>)
    requires Remembers(lines, seen, x) && g in seen
    ensures g == Iterate(lines, seen[g])
  {
  }

  lemma {:induction false} IterateNext(lines: seq<string>, x: nat)
    requires Platform(Iterate(lines, x))
    ensures Iterate(lines, x + 1) == Cycle(Iterate(lines, x)) && Platform(Iterate(lines, x + 1))
  {
    CyclePlatform(Iterate(lines, x));
  }

  /** The key stored under value `v`, as a search over the entries of the
      table finds it. */
  method FindKey(seen: map<seq<string>, nat>, v: nat) returns (o: Option<seq<string>>)
    ensures o.Some? ==> o.value in seen && seen[o.value] == v
    ensures o.None? ==> forall g | g in seen :: seen[g] != v
  {
    if g :| g in seen && seen[g] == v {
      o := Some(g);
    } else {
      o := None;
    }
  }

  /** At a repeat of cycle `s` at cycle `x`, cycle `Total` is the cycle
      `process` jumps to. */
  lemma {:induction false} JumpAhead(lines: seq<string>, s: nat, p: nat)
    requires 0 < p && s + p <= Total && Iterate(lines, s) == Iterate(lines, s + p)
    ensures Iterate(lines, (Total - s) % p + s) == Iterate(lines, Total)
  {
    Periodic(CycleStep, lines, s, p, Total);
    assert s + (Total - s) % p == (Total - s) % p + s;
  }

  /** The jump of `process` at the first repeat: the platform `grid` of
      cycle `x` was stored at cycle `s`, so the platforms repeat with
      period `x - s` and cycle `(Total - s) % (x - s) + s`, which is
      stored already, shows the platform of cycle `Total`. */
  method JumpTarget(lines: seq<string>, seen: map<seq<string>, nat>, x: nat, grid: seq<string>) returns (y: nat)
    requires Remembers(lines, seen, x) && x < Total && grid == Iterate(lines, x) && grid in seen
    ensures y < x && Iterate(lines, y) == Iterate(lines, Total)
    ensures seen[grid] < x && Iterate(lines, seen[grid]) == Iterate(lines, x)
    ensures exists i, j | 0 <= i < j < Total :: Iterate(lines, i) == Iterate(lines, j)
  {
    var startPeriod := seen[grid];
    var periodLen := |seen| - startPeriod;
    RemembersKey(lines, seen, x, grid);
    JumpAhead(lines, startPeriod, periodLen);
    y := (Total - startPeriod) % periodLen + startPeriod;
  }

  /** The state of the loop of `process` after `x` cycles: `grid` is the
      platform after `x` cycles and the table remembers all of them. */
  ghost predicate Scan(lines: seq<string>, seen: map<seq<string>, nat>, x: nat, grid: seq<string>) {
    x <= Total && grid == Iterate(lines, x) && Platform(grid) && Remembers(lines, seen, x)
  }

  /** One cycle of the loop of `process`: store the platform under its
      cycle number, then run the cycle. */
  method Remember(lines: seq<string>, seen: map<seq<string>, nat>, x: nat, grid: seq<string>)
    returns (seen': map<seq<string>, nat>, grid': seq<string>)
    requires Scan(lines, seen, x, grid) && x < Total && grid !in seen
    ensures Scan(lines, seen', x + 1, grid') && seen' == seen[grid := x]
  {
    RemembersNext(lines, seen, x);
    seen' := seen[grid := x];
    grid' := Rotate(grid);
    IterateNext(lines, x);
  }

  /** The loop of `process`: remember every platform seen together with
      its cycle number and, at the first repeat, jump ahead by whole
      periods. `x` ends at a cycle whose platform is that of cycle `Total`;
      it is below `size`, the number of platforms remembered, exactly when
      a repeat was found. */
  method FindRepeat(lines: seq<string>) returns (seen: map<seq<string>, nat>, x: nat, ghost size: nat)
    requires Platform(lines)
    ensures Remembers(lines, seen, size) && size <= Total
    ensures Iterate(lines, x) == Iterate(lines, Total)
    ensures x < size || x == size == Total
    ensures x < size ==> exists i, j | 0 <= i < j < Total :: Iterate(lines, i) == Iterate(lines, j)
  {
    seen := map[];
    var grid := lines;
    x := 0;
    while x < Total
      invariant Scan(lines, seen, x, grid)
      decreases Total - x
    {
      if grid in seen {
        size := x;
        x := JumpTarget(lines, seen, x, grid);
        return;
      }
      seen, grid := Remember(lines, seen, x, grid);
      x := x + 1;
    }
    size := x;
  }

  /** `process`: find the cycle that stands for cycle `Total`, look its
      platform up by cycle number and return its north load. If no
      platform repeats within `Total` cycles the lookup finds nothing and
      panics. */
  method Process(lines: seq<string>) returns (r: Result<nat>)
    requires Platform(lines)
    ensures r.Success? <==> exists i, j | 0 <= i < j < Total :: Iterate(lines, i) == Iterate(lines, j)
    ensures r.Success? ==> r.value == Count(Iterate(lines, Total))
  {
    var seen, x, size := FindRepeat(lines);
    var entry := FindKey(seen, x);
    if x < size {
      RemembersLookup(lines, seen, size, x);
    } else {
      RemembersDistinct(lines, seen, Total);
    }
    if entry.None? {
      return Failure("key exists");
    }
    RemembersKey(lines, seen, size, entry.value);
    r := Success(Count(entry.value));
  }
}
