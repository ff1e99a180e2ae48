/** Day 11: galaxies on an image are pushed apart by doubling every empty
    line and column; the answer is the sum of the Manhattan distances
    between all pairs of galaxies after that expansion. */
module Day11 {
  import opened Wrappers

  datatype Position = Position(line: nat, column: nat)

  /** `Galaxy` is a `Copy` struct: `expand` changes a copy, so the model
      returns the updated value. */
  datatype Galaxy = Galaxy(position: Position)

  function Abs(x: int): nat {
    if x < 0 then -x else x
  }

  /** `distance_to`: the Manhattan distance. */
  function Distance(a: Galaxy, b: Galaxy): nat {
    Abs(a.position.column - b.position.column) + Abs(a.position.line - b.position.line)
  }

  /** The distance is symmetric and zero exactly between equal positions. */
  lemma {:induction false} DistanceFacts(a: Galaxy, b: Galaxy)
    ensures Distance(a, b) == Distance(b, a)
    ensures Distance(a, b) == 0 <==> a == b
  {
  }

  /** The test of `distance_to`: (6, 1) and (11, 5) are 9 apart both ways. */
  lemma {:induction false} DistanceExample()
    ensures Distance(Galaxy(Position(6, 1)), Galaxy(Position(11, 5))) == 9
    ensures Distance(Galaxy(Position(11, 5)), Galaxy(Position(6, 1))) == 9
  {
  }

  /** The triangle inequality. */
  lemma {:induction false} DistanceTriangle(a: Galaxy, b: Galaxy, c: Galaxy)
    ensures Distance(a, c) <= Distance(a, b) + Distance(b, c)
  {
  }

  // ---------------------------------------------------------------------
  // Expansion

  /** The empty indices strictly below `v`. */
  function Below(empty: set<nat>, v: nat): set<nat> {
    set x | x in empty && x < v
  }

  /** The empty indices in `[lo, hi)`. */
  function Within(empty: set<nat>, lo: nat, hi: nat): set<nat> {
    set x | x in empty && lo <= x < hi
  }

  /** One coordinate after expansion: every empty index below it adds one. */
  function Shift(empty: set<nat>, v: nat): nat {
    v + |Below(empty, v)|
  }

  /** `Galaxy::expand`. */
  function Expand(g: Galaxy, emptyLines: set<nat>, emptyColumns: set<nat>): Galaxy {
    Galaxy(Position(Shift(emptyLines, g.position.line), Shift(emptyColumns, g.position.column)))
  }

  /** Expansion moves two coordinates apart by the empty indices between
      them, so it keeps their order strictly. */
  lemma {:induction false} ShiftGap(empty: set<nat>, a: nat, b: nat)
    requires a <= b
    ensures Shift(empty, b) - Shift(empty, a) == b - a + |Within(empty, a, b)|
    ensures a < b ==> Shift(empty, a) < Shift(empty, b)
  {
    var lo, mid := Below(empty, a), Within(empty, a, b);
    assert Below(empty, b) == lo + mid;
    assert lo * mid == {};
  }

  /** The expanded distance of two galaxies is their distance plus the
      empty lines and the empty columns between them. */
  lemma {:induction false} ExpandedDistance(a: Galaxy, b: Galaxy, emptyLines: set<nat>, emptyColumns: set<nat>)
    ensures Distance(Expand(a, emptyLines, emptyColumns), Expand(b, emptyLines, emptyColumns))
         == Distance(a, b) + |Between(emptyLines, a.position.line, b.position.line)|
                           + |Between(emptyColumns, a.position.column, b.position.column)|
  {
    GapBetween(emptyLines, a.position.line, b.position.line);
    GapBetween(emptyColumns, a.position.column, b.position.column);
  }

  /** The empty indices between two coordinates, whichever is smaller. */
  function Between(empty: set<nat>, x: nat, y: nat): set<nat> {
    if x <= y then Within(empty, x, y) else Within(empty, y, x)
  }

  lemma {:induction false} GapBetween(empty: set<nat>, x: nat, y: nat)
    ensures Abs(Shift(empty, x) - Shift(empty, y)) == Abs(x - y) + |Between(empty, x, y)|
  {
    if x <= y {
      ShiftGap(empty, x, y);
    } else {
      ShiftGap(empty, y, x);
    }
  }

  // ---------------------------------------------------------------------
  // Empty lines and columns

  /** The indices below `max` that no coordinate occupies. */
  ghost function Unoccupied(coords: seq<nat>, max: nat): set<nat> {
    set x | 0 <= x < max && x !in coords
  }

  function Lines(image: seq<Galaxy>): seq<nat> {
    seq(|image|, i requires 0 <= i < |image| => image[i].position.line)
  }

  function Columns(image: seq<Galaxy>): seq<nat> {
    seq(|image|, i requires 0 <= i < |image| => image[i].position.column)
  }

  /** Insert every index below `max`, then remove every occupied one. */
  method RemoveOccupied(coords: seq<nat>, max: nat) returns (empty: set<nat>)
    ensures forall x: nat :: x in empty <==> x < max && x !in coords
    ensures empty == Unoccupied(coords, max)
  {
    empty := {};
    for x := 0 to max
      invariant forall y: nat :: y in empty <==> y < x
    {
      empty := empty + {x};
    }
    for i := 0 to |coords|
      invariant forall y: nat :: y in empty <==> y < max && forall j | 0 <= j < i :: coords[j] != y
    {
      empty := empty - {coords[i]};
    }
  }

  /** `find_empty_lines`. */
  method FindEmptyLines(image: seq<Galaxy>, max: nat) returns (empty: set<nat>)
    ensures empty == Unoccupied(Lines(image), max)
    ensures forall x: nat :: x in empty <==> x < max && forall g | g in image :: g.position.line != x
  {
    empty := RemoveOccupied(Lines(image), max);
    forall x ensures x in Lines(image) <==> exists g | g in image :: g.position.line == x {
      if x in Lines(image) {
        var i :| 0 <= i < |image| && Lines(image)[i] == x;
        assert image[i] in image;
      }
      if exists g | g in image :: g.position.line == x {
        var g :| g in image && g.position.line == x;
        var i :| 0 <= i < |image| && image[i] == g;
        assert Lines(image)[i] == x;
      }
    }
  }

  /** `find_empty_columns`. */
  method FindEmptyColumns(image: seq<Galaxy>, max: nat) returns (empty: set<nat>)
    ensures empty == Unoccupied(Columns(image), max)
    ensures forall x: nat :: x in empty <==> x < max && forall g | g in image :: g.position.column != x
  {
    empty := RemoveOccupied(Columns(image), max);
    forall x ensures x in Columns(image) <==> exists g | g in image :: g.position.column == x {
      if x in Columns(image) {
        var i :| 0 <= i < |image| && Columns(image)[i] == x;
        assert image[i] in image;
      }
      if exists g | g in image :: g.position.column == x {
        var g :| g in image && g.position.column == x;
        var i :| 0 <= i < |image| && image[i] == g;
        assert Columns(image)[i] == x;
      }
    }
  }

  /** `process` passes the largest index as the exclusive bound, so the
      last index is never counted as empty; no coordinate lies above it, so
      leaving it out changes no expanded coordinate. */
  lemma {:induction false} MaxLeftOutHarmless(empty: set<nat>, max: nat, v: nat)
    requires v <= max
    ensures Shift(empty - {max}, v) == Shift(empty, v)
  {
    assert Below(empty - {max}, v) == Below(empty, v);
  }

  // ---------------------------------------------------------------------
  // Parsing

  /** A '#' at the position. */
  predicate GalaxyAt(lines: seq<string>, p: Position) {
    p.line < |lines| && p.column < |lines[p.line]| && lines[p.line][p.column] == '#'
  }

  predicate WellFormed(line: string) {
    forall c | 0 <= c < |line| :: line[c] == '#' || line[c] == '.'
  }

  /** The galaxies of one line, left to right; any character other than
      '#' and '.' is an error. */
  function ParseRow(line: string, lineIdx: nat): (r: Result<seq<Galaxy>>)
    ensures r.Success? <==> WellFormed(line)
    ensures r.Success? ==> forall g | g in r.value ::
      g.position.line == lineIdx && g.position.column < |line| && line[g.position.column] == '#'
    ensures r.Success? ==> forall c | 0 <= c < |line| && line[c] == '#' :: Galaxy(Position(lineIdx, c)) in r.value
  {
    if line == [] then Success([])
    else
      var c := |line| - 1;
      match ParseRow(line[..c], lineIdx)
      case Failure(e) => Failure(e)
      case Success(gs) =>
        if line[c] == '#' then Success(gs + [Galaxy(Position(lineIdx, c))])
        else if line[c] == '.' then Success(gs)
        else Failure("error parsing")
  }

  /** The galaxies of all lines, line by line. An empty line is an error:
      `line.len() - 1` underflows. */
  function ParseLines(lines: seq<string>): (r: Result<seq<Galaxy>>)
    ensures r.Success? <==> forall i | 0 <= i < |lines| :: lines[i] != [] && WellFormed(lines[i])
    ensures r.Success? ==> forall g | g in r.value :: GalaxyAt(lines, g.position)
    ensures r.Success? ==> forall p | GalaxyAt(lines, p) :: Galaxy(p) in r.value
  {
    if lines == [] then Success([])
    else
      var n := |lines| - 1;
      var init := lines[..n];
      match ParseLines(init)
      case Failure(e) => Failure(e)
      case Success(gs) =>
        if lines[n] == [] then Failure("attempt to subtract with overflow")
        else
          match ParseRow(lines[n], n)
          case Failure(e) => Failure(e)
          case Success(row) =>
            assert forall p | GalaxyAt(init, p) :: GalaxyAt(lines, p);
            assert forall p | GalaxyAt(lines, p) && p.line < n :: GalaxyAt(init, p);
            Success(gs + row)
  }

  /** The longest line's last index. */
  function ColumnMax(lines: seq<string>): (r: nat)
    requires forall i | 0 <= i < |lines| :: lines[i] != []
    ensures forall i | 0 <= i < |lines| :: |lines[i]| - 1 <= r
    ensures lines != [] ==> exists i | 0 <= i < |lines| :: r == |lines[i]| - 1
    ensures lines == [] ==> r == 0
  {
    if lines == [] then 0
    else
      var n := |lines| - 1;
      var m := ColumnMax(lines[..n]);
      var r := if m < |lines[n]| - 1 then |lines[n]| - 1 else m;
      assert n > 0 ==> exists i | 0 <= i < n :: m == |lines[..n][i]| - 1;
      r
  }

  datatype Image = Image(galaxies: seq<Galaxy>, lineMax: nat, columnMax: nat)

  /** `my_parser`: the galaxies with the largest line and column index. */
  function Parse(lines: seq<string>): (r: Result<Image>)
    ensures r.Success? ==> forall g | g in r.value.galaxies ::
      g.position.line <= r.value.lineMax && g.position.column <= r.value.columnMax
    ensures r.Success? ==> forall p :: Galaxy(p) in r.value.galaxies <==> GalaxyAt(lines, p)
  {
    match ParseLines(lines)
    case Failure(e) => Failure(e)
    case Success(gs) =>
      var lineMax := if lines == [] then 0 else |lines| - 1;
      var columnMax := ColumnMax(lines);
      assert forall g | g in gs :: g.position.column <= columnMax by {
        forall g | g in gs ensures g.position.column <= columnMax {
          assert GalaxyAt(lines, g.position);
        }
      }
      Success(Image(gs, lineMax, columnMax))
  }

  // ---------------------------------------------------------------------
  // The sum over all pairs

  /** The distances from `g` to every galaxy of `gs`. */
  function DistancesTo(gs: seq<Galaxy>, g: Galaxy): nat {
    if gs == [] then 0 else DistancesTo(gs[..|gs| - 1], g) + Distance(gs[|gs| - 1], g)
  }

  /** `combinations(2)` then `sum`: every unordered pair once. */
  function SumPairs(gs: seq<Galaxy>): nat {
    if gs == [] then 0 else SumPairs(gs[..|gs| - 1]) + DistancesTo(gs[..|gs| - 1], gs[|gs| - 1])
  }

  function ExpandAll(gs: seq<Galaxy>, emptyLines: set<nat>, emptyColumns: set<nat>): (r: seq<Galaxy>)
    ensures |r| == |gs|
    ensures forall i | 0 <= i < |gs| :: r[i] == Expand(gs[i], emptyLines, emptyColumns)
  {
    seq(|gs|, i requires 0 <= i < |gs| => Expand(gs[i], emptyLines, emptyColumns))
  }

  lemma {:induction false} DistancesToGrow(gs: seq<Galaxy>, g: Galaxy, emptyLines: set<nat>, emptyColumns: set<nat>)
    ensures DistancesTo(ExpandAll(gs, emptyLines, emptyColumns), Expand(g, emptyLines, emptyColumns)) >= DistancesTo(gs, g)
  {
    if gs != [] {
      var n := |gs| - 1;
      assert ExpandAll(gs, emptyLines, emptyColumns)[..n] == ExpandAll(gs[..n], emptyLines, emptyColumns);
      DistancesToGrow(gs[..n], g, emptyLines, emptyColumns);
      ExpandedDistance(gs[n], g, emptyLines, emptyColumns);
    }
  }

  /** Expansion never brings galaxies closer: the expanded sum is at least
      the sum on the image as read. */
  lemma {:induction false} ExpansionOnlyGrows(gs: seq<Galaxy>, emptyLines: set<nat>, emptyColumns: set<nat>)
    ensures SumPairs(ExpandAll(gs, emptyLines, emptyColumns)) >= SumPairs(gs)
  {
    if gs != [] {
      var n := |gs| - 1;
      var e := ExpandAll(gs, emptyLines, emptyColumns);
      assert e[..n] == ExpandAll(gs[..n], emptyLines, emptyColumns);
      ExpansionOnlyGrows(gs[..n], emptyLines, emptyColumns);
      DistancesToGrow(gs[..n], gs[n], emptyLines, emptyColumns);
    }
  }

  /** With nothing empty, expansion changes nothing. */
  lemma {:induction false} NoEmptyNoChange(gs: seq<Galaxy>)
    ensures ExpandAll(gs, {}, {}) == gs
  {
    forall i | 0 <= i < |gs| ensures ExpandAll(gs, {}, {})[i] == gs[i] {
      assert Below({}, gs[i].position.line) == {};
      assert Below({}, gs[i].position.column) == {};
    }
  }

  /** `process`: the sum over all pairs of galaxies of their distance once
      every line and every column below the largest index that holds no
      galaxy has been doubled. */
  method Process(lines: seq<string>) returns (r: Result<nat>)
    ensures r.Failure? <==> exists i | 0 <= i < |lines| :: lines[i] == [] || !WellFormed(lines[i])
    ensures r.Failure? ==> Parse(lines).Failure? && r.error == Parse(lines).error
    ensures r.Success? ==> Parse(lines).Success?
    ensures r.Success? ==>
      var img := Parse(lines).value;
      r.value == SumPairs(ExpandAll(img.galaxies, Unoccupied(Lines(img.galaxies), img.lineMax),
                                    Unoccupied(Columns(img.galaxies), img.columnMax)))
  {
    var parsed := Parse(lines);
    if parsed.Failure? {
      return Failure(parsed.error);
    }
    var img := parsed.value;
    var emptyColumns := FindEmptyColumns(img.galaxies, img.columnMax);
    var emptyLines := FindEmptyLines(img.galaxies, img.lineMax);
    var expanded := ExpandAll(img.galaxies, emptyLines, emptyColumns);
    r := Success(SumPairs(expanded));
  }
}
