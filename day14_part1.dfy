/** Day 14, part 1: transpose the platform so that columns become lines,
    tilt every line so the rounded rocks `O` roll towards its start, and add
    up the load the rocks put on the north support beams.

    The rolling itself is specified once, by `RollLeft`, and reused by
    part 2 for all four directions. */
module Day14Part1 {
  import opened Wrappers

  // ---------------------------------------------------------------------
  // Platform characters

  /** `O` rolls, `.` is empty ground; everything else (`#`, and the `N`
      part 2 also accepts) is a fixed obstacle. */
  predicate IsFixed(c: char) {
    c != '.' && c != 'O'
  }

  /** The characters the puzzle parser accepts. */
  predicate IsRock(c: char) {
    c == 'O' || c == '#' || c == '.'
  }

  predicate Rocks(line: string) {
    forall i | 0 <= i < |line| :: IsRock(line[i])
  }

  /** What the parser guarantees: at least one line, every line non-empty
      and made of `#`, `.` and `O` only. */
  predicate Parsed(lines: seq<string>) {
    |lines| > 0 && forall i | 0 <= i < |lines| :: |lines[i]| > 0 && Rocks(lines[i])
  }

  predicate Rectangular(lines: seq<string>) {
    forall i, j | 0 <= i < |lines| && 0 <= j < |lines| :: |lines[i]| == |lines[j]|
  }

  function Fill(c: char, n: nat): (s: string)
    ensures |s| == n && forall i | 0 <= i < n :: s[i] == c
  {
    seq(n, _ => c)
  }

  function Reverse<T>(s: seq<T>): (r: seq<T>)
    ensures |r| == |s| && forall i | 0 <= i < |s| :: r[i] == s[|s| - 1 - i]
  {
    seq(|s|, i requires 0 <= i < |s| => s[|s| - 1 - i])
  }

  lemma {:induction false} ReverseReverse<T>(s: seq<T>)
    ensures Reverse(Reverse(s)) == s
  {
  }

  /** Number of rounded rocks. */
  function CountO(s: string): (n: nat)
    ensures n <= |s|
  {
    if s == [] then 0 else (if s[0] == 'O' then 1 else 0) + CountO(s[1..])
  }

  lemma {:induction false} CountOAppend(a: string, b: string)
    ensures CountO(a + b) == CountO(a) + CountO(b)
    decreases |a|
  {
    if a == [] {
      assert a + b == b;
    } else {
      assert (a + b)[1..] == a[1..] + b;
      CountOAppend(a[1..], b);
    }
  }

  lemma {:induction false} CountOFill(c: char, n: nat)
    ensures CountO(Fill(c, n)) == if c == 'O' then n else 0
    decreases n
  {
    if n > 0 {
      assert Fill(c, n)[1..] == Fill(c, n - 1);
      CountOFill(c, n - 1);
    }
  }

  // ---------------------------------------------------------------------
  // Rolling towards the start of a line

  /** Length of the leading run that holds no fixed obstacle. */
  function SegmentEnd(s: string): (k: nat)
    ensures k <= |s|
    ensures forall j | 0 <= j < k :: !IsFixed(s[j])
    ensures k < |s| ==> IsFixed(s[k])
  {
    if s == [] || IsFixed(s[0]) then 0 else 1 + SegmentEnd(s[1..])
  }

  /** The line after every rounded rock has rolled as far towards index 0
      as it can: obstacles stay put, and each run between obstacles
      becomes its rounded rocks followed by empty ground. */
  function RollLeft(s: string): (r: string)
    ensures |r| == |s|
    decreases |s|
  {
    if s == [] then []
    else if IsFixed(s[0]) then [s[0]] + RollLeft(s[1..])
    else
      var k := SegmentEnd(s);
      var n := CountO(s[..k]);
      Fill('O', n) + Fill('.', k - n) + RollLeft(s[k..])
  }

  /** A line is settled when no rounded rock has empty ground before it. */
  predicate Settled(t: string) {
    forall i | 0 <= i < |t| - 1 :: !(t[i] == '.' && t[i + 1] == 'O')
  }

  predicate Free(s: string) {
    forall j | 0 <= j < |s| :: !IsFixed(s[j])
  }

  lemma {:induction false} RollLeftFree(s: string)
    requires Free(s)
    ensures RollLeft(s) == Fill('O', CountO(s)) + Fill('.', |s| - CountO(s))
  {
    if s != [] {
      assert s[..|s|] == s;
      FreeSegmentEnd(s, |s|);
      var k := SegmentEnd(s);
      var n := CountO(s);
      assert s[k..] == [];
      assert RollLeft(s[k..]) == [];
      assert RollLeft(s) == Fill('O', n) + Fill('.', k - n) + RollLeft(s[k..]);
      assert Fill('O', n) + Fill('.', k - n) + [] == Fill('O', n) + Fill('.', k - n);
    }
  }

  lemma {:induction false} FreeSegmentEnd(s: string, k: nat)
    requires k <= |s| && Free(s[..k]) && (k < |s| ==> IsFixed(s[k]))
    ensures SegmentEnd(s) == k
  {
    var e := SegmentEnd(s);
    assert forall j | 0 <= j < k :: s[..k][j] == s[j];
  }

  lemma {:induction false} RollLeftFreeThenFixed(s: string, c: char)
    requires Free(s) && IsFixed(c)
    ensures RollLeft(s + [c]) == Fill('O', CountO(s)) + Fill('.', |s| - CountO(s)) + [c]
  {
    var t := s + [c];
    assert RollLeft([c]) == [c] by {
      assert [c][1..] == [];
    }
    if s == [] {
      assert t == [c];
      assert CountO(s) == 0;
      assert Fill('O', 0) == [] && Fill('.', 0) == [];
      assert RollLeft(t) == [c];
      assert Fill('O', CountO(s)) + Fill('.', |s| - CountO(s)) + [c] == [c];
    } else {
      assert t[..|s|] == s && t[|s|..] == [c];
      FreeSegmentEnd(t, |s|);
      var n := CountO(s);
      assert RollLeft(t) == Fill('O', n) + Fill('.', |s| - n) + RollLeft(t[|s|..]);
      assert RollLeft(s + [c]) == Fill('O', CountO(s)) + Fill('.', |s| - CountO(s)) + [c];
    }
  }

  lemma {:induction false} SegmentEndAppend(a: string, b: string)
    requires |a| > 0 && IsFixed(a[|a| - 1])
    ensures SegmentEnd(a + b) == SegmentEnd(a)
    decreases |a|
  {
    if !IsFixed(a[0]) {
      assert (a + b)[1..] == a[1..] + b;
      SegmentEndAppend(a[1..], b);
    }
  }

  /** Rolling does not cross an obstacle: a prefix that ends in one rolls
      independently of what follows. */
  lemma {:induction false} RollLeftAppend(a: string, b: string)
    requires a == [] || IsFixed(a[|a| - 1])
    ensures RollLeft(a + b) == RollLeft(a) + RollLeft(b)
    decreases |a|
  {
    if a == [] {
      assert a + b == b;
    } else if IsFixed(a[0]) {
      assert (a + b)[1..] == a[1..] + b;
      RollLeftAppend(a[1..], b);
    } else {
      var k := SegmentEnd(a);
      SegmentEndAppend(a, b);
      assert (a + b)[..k] == a[..k];
      assert (a + b)[k..] == a[k..] + b;
      RollLeftAppend(a[k..], b);
    }
  }

  lemma {:induction false} RollLeftAt(s: string, i: nat)
    requires i < |s|
    ensures IsFixed(s[i]) ==> RollLeft(s)[i] == s[i]
    ensures !IsFixed(s[i]) ==> RollLeft(s)[i] == '.' || RollLeft(s)[i] == 'O'
    decreases |s|
  {
    if IsFixed(s[0]) {
      if i > 0 {
        RollLeftAt(s[1..], i - 1);
        assert RollLeft(s)[i] == RollLeft(s[1..])[i - 1];
      }
    } else {
      var k := SegmentEnd(s);
      var n := CountO(s[..k]);
      var rest := RollLeft(s[k..]);
      assert RollLeft(s) == Fill('O', n) + Fill('.', k - n) + rest;
      if i >= k {
        RollLeftAt(s[k..], i - k);
        assert RollLeft(s)[i] == rest[i - k];
      }
    }
  }

  /** Obstacles keep their places and every other cell ends up `O` or `.`. */
  lemma RollLeftKeepsObstacles(s: string)
    ensures forall i | 0 <= i < |s| && IsFixed(s[i]) :: RollLeft(s)[i] == s[i]
    ensures forall i | 0 <= i < |s| && !IsFixed(s[i]) :: RollLeft(s)[i] == '.' || RollLeft(s)[i] == 'O'
  {
    forall i | 0 <= i < |s| {
      RollLeftAt(s, i);
    }
  }

  /** Rolling neither creates nor destroys rounded rocks. */
  lemma {:induction false} RollLeftCount(s: string)
    ensures CountO(RollLeft(s)) == CountO(s)
    decreases |s|
  {
    if s == [] {
    } else if IsFixed(s[0]) {
      RollLeftCount(s[1..]);
      assert RollLeft(s)[1..] == RollLeft(s[1..]);
    } else {
      var k := SegmentEnd(s);
      var n := CountO(s[..k]);
      RollLeftCount(s[k..]);
      CountOFill('O', n);
      CountOFill('.', k - n);
      CountOAppend(Fill('O', n), Fill('.', k - n));
      CountOAppend(Fill('O', n) + Fill('.', k - n), RollLeft(s[k..]));
      assert s == s[..k] + s[k..];
      CountOAppend(s[..k], s[k..]);
    }
  }

  /** `RollLeft` at an obstacle. */
  lemma {:induction false} RollLeftFixedHead(s: string)
    requires s != [] && IsFixed(s[0])
    ensures RollLeft(s) == [s[0]] + RollLeft(s[1..])
  {
  }

  /** `RollLeft` at the start of a run. */
  lemma {:induction false} RollLeftFreeHead(s: string)
    requires s != [] && !IsFixed(s[0])
    ensures RollLeft(s) == Fill('O', CountO(s[..SegmentEnd(s)]))
      + Fill('.', SegmentEnd(s) - CountO(s[..SegmentEnd(s)])) + RollLeft(s[SegmentEnd(s)..])
  {
  }

  /** Two settled lines stay settled when joined, unless the first ends in
      empty ground and the second starts with a rounded rock. */
  lemma {:induction false} SettledConcat(a: string, b: string)
    requires Settled(a) && Settled(b)
    requires a == [] || b == [] || !(a[|a| - 1] == '.' && b[0] == 'O')
    ensures Settled(a + b)
  {
    var t := a + b;
    forall m | 0 <= m < |t| - 1 ensures !(t[m] == '.' && t[m + 1] == 'O') {
      if m + 1 < |a| {
        assert t[m] == a[m] && t[m + 1] == a[m + 1];
      } else if m >= |a| {
        assert t[m] == b[m - |a|] && t[m + 1] == b[m + 1 - |a|];
      }
    }
  }

  /** Rocks followed by empty ground are settled. */
  lemma {:induction false} SortedSettled(n: nat, m: nat)
    ensures Settled(Fill('O', n) + Fill('.', m))
  {
    var t := Fill('O', n) + Fill('.', m);
    assert forall j | 0 <= j < |t| :: t[j] == if j < n then 'O' else '.';
  }

  /** After rolling, no rounded rock has empty ground in front of it. */
  lemma {:induction false} RollLeftSettles(s: string)
    ensures Settled(RollLeft(s))
    decreases |s|, 1
  {
    if s == [] {
    } else if IsFixed(s[0]) {
      RollLeftSettles(s[1..]);
      RollLeftFixedHead(s);
      SettledConcat([s[0]], RollLeft(s[1..]));
    } else {
      RollLeftSettlesRun(s);
    }
  }

  lemma {:induction false} RollLeftSettlesRun(s: string)
    requires s != [] && !IsFixed(s[0])
    ensures Settled(RollLeft(s))
    decreases |s|, 0
  {
    var k := SegmentEnd(s);
    var n := CountO(s[..k]);
    var head := Fill('O', n) + Fill('.', k - n);
    var rest := RollLeft(s[k..]);
    RollLeftFreeHead(s);
    RollLeftSettles(s[k..]);
    SortedSettled(n, k - n);
    if k < |s| {
      RollLeftAt(s[k..], 0);
      assert rest[0] == s[k];
    }
    SettledConcat(head, rest);
  }

  /** A settled run without obstacles is already its rocks followed by
      its empty ground. */
  lemma {:induction false} SettledFreeIsSorted(s: string)
    requires Free(s) && Settled(s)
    ensures s == Fill('O', CountO(s)) + Fill('.', |s| - CountO(s))
    decreases |s|
  {
    if s != [] {
      var t := s[1..];
      assert Settled(t) by {
        forall i | 0 <= i < |t| - 1 ensures !(t[i] == '.' && t[i + 1] == 'O') {
          assert t[i] == s[i + 1] && t[i + 1] == s[i + 2];
        }
      }
      SettledFreeIsSorted(t);
      if s[0] == '.' {
        assert CountO(t) == 0;
      }
    }
  }

  /** Every slice of a settled line is settled. */
  lemma {:induction false} SettledSlice(s: string, i: nat, j: nat)
    requires Settled(s) && i <= j <= |s|
    ensures Settled(s[i..j])
  {
    var t := s[i..j];
    forall m | 0 <= m < |t| - 1 ensures !(t[m] == '.' && t[m + 1] == 'O') {
      assert t[m] == s[i + m] && t[m + 1] == s[i + m + 1];
    }
  }

  /** A settled line is left as it is. */
  lemma {:induction false} RollLeftOfSettled(s: string)
    requires Settled(s)
    ensures RollLeft(s) == s
    decreases |s|, 1
  {
    if s == [] {
    } else if IsFixed(s[0]) {
      var t := s[1..];
      SettledSlice(s, 1, |s|);
      assert s[1..|s|] == t;
      RollLeftOfSettled(t);
      RollLeftFixedHead(s);
      assert s == [s[0]] + t;
    } else {
      SettledRunUnchanged(s);
    }
  }

  lemma {:induction false} SettledRunUnchanged(s: string)
    requires Settled(s) && s != [] && !IsFixed(s[0])
    ensures RollLeft(s) == s
    decreases |s|, 0
  {
    var k := SegmentEnd(s);
    var a := s[..k];
    var t := s[k..];
    assert RollLeft(t) == t by {
      SettledSlice(s, k, |s|);
      assert s[k..|s|] == t;
      RollLeftOfSettled(t);
    }
    assert a == Fill('O', CountO(a)) + Fill('.', k - CountO(a)) by {
      SettledSlice(s, 0, k);
      assert s[0..k] == a;
      assert Free(a);
      SettledFreeIsSorted(a);
    }
    RunThenRolled(s, k);
  }

  /** A run that is already sorted, followed by a part that rolling leaves
      alone, is left alone. */
  lemma {:induction false} RunThenRolled(s: string, k: nat)
    requires s != [] && !IsFixed(s[0]) && k == SegmentEnd(s)
    requires s[..k] == Fill('O', CountO(s[..k])) + Fill('.', k - CountO(s[..k]))
    requires RollLeft(s[k..]) == s[k..]
    ensures RollLeft(s) == s
  {
    RollLeftFreeHead(s);
    assert s == s[..k] + s[k..];
  }

  /** Rolling twice is rolling once. */
  lemma {:induction false} RollLeftIdempotent(s: string)
    ensures RollLeft(RollLeft(s)) == RollLeft(s)
  {
    RollLeftSettles(s);
    RollLeftOfSettled(RollLeft(s));
  }

  /** Rolling keeps a line within the parser's alphabet. */
  lemma {:induction false} RollLeftRocks(s: string)
    requires Rocks(s)
    ensures Rocks(RollLeft(s))
  {
    RollLeftKeepsObstacles(s);
  }

  // ---------------------------------------------------------------------
  // The cursor loop shared by `tilt` here and by `roll` in part 2

  /** State of the cursor loop after the first `i` characters of `line`:
      `tmp` holds the rolled prefix up to the last obstacle `seg`, then the
      `next - seg` rocks seen since, then empty ground. */
  ghost predicate CursorInv(line: string, tmp: string, next: nat, seg: nat, i: nat) {
    && i <= |line| && |tmp| == |line| && seg <= next <= i
    && (seg == 0 || IsFixed(line[seg - 1]))
    && (forall j | seg <= j < i :: !IsFixed(line[j]))
    && next - seg == CountO(line[seg..i])
    && tmp[..seg] == RollLeft(line[..seg])
    && (forall j | seg <= j < next :: tmp[j] == 'O')
    && (forall j | next <= j < |tmp| :: tmp[j] == '.')
  }

  lemma {:induction false} CursorInit(line: string)
    ensures CursorInv(line, Fill('.', |line|), 0, 0, 0)
  {
    assert line[0..0] == [];
  }

  lemma {:induction false} CursorEmpty(line: string, tmp: string, next: nat, seg: nat, i: nat)
    requires CursorInv(line, tmp, next, seg, i) && i < |line| && line[i] == '.'
    ensures CursorInv(line, tmp, next, seg, i + 1)
  {
    assert line[seg..i + 1] == line[seg..i] + [line[i]];
    CountOAppend(line[seg..i], [line[i]]);
  }

  lemma {:induction false} CursorRock(line: string, tmp: string, next: nat, seg: nat, i: nat)
    requires CursorInv(line, tmp, next, seg, i) && i < |line| && line[i] == 'O'
    ensures next < |tmp|
    ensures CursorInv(line, tmp[next := 'O'], next + 1, seg, i + 1)
  {
    assert line[seg..i + 1] == line[seg..i] + [line[i]];
    CountOAppend(line[seg..i], [line[i]]);
    assert tmp[next := 'O'][..seg] == tmp[..seg];
  }

  /** The rolled prefix up to an obstacle: what came before the run, the
      run's rocks, its empty ground, the obstacle. */
  lemma {:induction false} RollThroughObstacle(line: string, seg: nat, i: nat)
    requires seg <= i < |line| && IsFixed(line[i])
    requires seg == 0 || IsFixed(line[seg - 1])
    requires Free(line[seg..i])
    ensures RollLeft(line[..i + 1]) == RollLeft(line[..seg]) + Fill('O', CountO(line[seg..i]))
      + Fill('.', i - seg - CountO(line[seg..i])) + [line[i]]
  {
    assert line[..i + 1] == line[..seg] + (line[seg..i] + [line[i]]);
    RollRunThenObstacle(line[..seg], line[seg..i], line[i]);
  }

  /** Rolling a prefix that ends in an obstacle, then a free run, then an
      obstacle. */
  lemma {:induction false} RollRunThenObstacle(pre: string, run: string, c: char)
    requires pre == [] || IsFixed(pre[|pre| - 1])
    requires Free(run) && IsFixed(c)
    ensures RollLeft(pre + (run + [c])) == RollLeft(pre) + Fill('O', CountO(run))
      + Fill('.', |run| - CountO(run)) + [c]
  {
    RollLeftAppend(pre, run + [c]);
    RollLeftFreeThenFixed(run, c);
    JoinFour(RollLeft(pre), Fill('O', CountO(run)), Fill('.', |run| - CountO(run)), [c]);
  }

  lemma {:induction false} JoinFour(w: string, x: string, y: string, z: string)
    ensures w + (x + y + z) == w + x + y + z
  {
  }

  /** Under the cursor invariant, the first `i` cells are the rolled
      prefix, the rocks of the current run, then its empty ground. */
  lemma {:induction false} CursorLayout(line: string, tmp: string, next: nat, seg: nat, i: nat)
    requires CursorInv(line, tmp, next, seg, i)
    ensures tmp[..i] == RollLeft(line[..seg]) + Fill('O', next - seg) + Fill('.', i - next)
  {
    var u := RollLeft(line[..seg]) + Fill('O', next - seg) + Fill('.', i - next);
    forall j | 0 <= j < i ensures tmp[..i][j] == u[j] {
      if j < seg {
        assert tmp[..i][j] == tmp[..seg][j];
      }
    }
  }

  lemma {:induction false} CursorObstacle(line: string, tmp: string, next: nat, seg: nat, i: nat)
    requires CursorInv(line, tmp, next, seg, i) && i < |line| && IsFixed(line[i])
    ensures CursorInv(line, tmp[i := line[i]], i + 1, i + 1, i + 1)
  {
    var n := CountO(line[seg..i]);
    var tmp' := tmp[i := line[i]];
    assert tmp'[..i + 1] == RollLeft(line[..i + 1]) by {
      CursorLayout(line, tmp, next, seg, i);
      assert Free(line[seg..i]);
      RollThroughObstacle(line, seg, i);
      assert tmp'[..i + 1] == tmp[..i] + [line[i]];
    }
    assert CountO(line[i + 1..i + 1]) == 0 by {
      assert line[i + 1..i + 1] == [];
    }
  }

  lemma {:induction false} CursorDone(line: string, tmp: string, next: nat, seg: nat)
    requires CursorInv(line, tmp, next, seg, |line|)
    ensures tmp == RollLeft(line)
  {
    CursorLayout(line, tmp, next, seg, |line|);
    RollLastRun(line, seg);
    assert tmp[..|line|] == tmp;
  }

  /** Rolling a line whose last run starts at `seg`. */
  lemma {:induction false} RollLastRun(line: string, seg: nat)
    requires seg <= |line| && (seg == 0 || IsFixed(line[seg - 1]))
    requires forall j | seg <= j < |line| :: !IsFixed(line[j])
    ensures RollLeft(line) == RollLeft(line[..seg]) + Fill('O', CountO(line[seg..|line|]))
      + Fill('.', |line| - seg - CountO(line[seg..|line|]))
  {
    var run := line[seg..|line|];
    assert Free(run);
    RollLeftFree(run);
    assert line == line[..seg] + run;
    RollLeftAppend(line[..seg], run);
  }

  /** One line of `tilt` (and of `roll` West in part 2): a write cursor
      `next` marks where the next rounded rock lands. */
  method RollLine(line: string) returns (tmp: string)
    requires Rocks(line)
    ensures tmp == RollLeft(line)
  {
    tmp := Fill('.', |line|);
    var next: nat := 0;
    ghost var seg: nat := 0;
    CursorInit(line);
    for i := 0 to |line|
      invariant CursorInv(line, tmp, next, seg, i)
    {
      var c := line[i];
      if c == '.' {
        CursorEmpty(line, tmp, next, seg, i);
      } else if c == '#' {
        CursorObstacle(line, tmp, next, seg, i);
        tmp := tmp[i := '#'];
        next := i + 1;
        seg := i + 1;
      } else {
        CursorRock(line, tmp, next, seg, i);
        tmp := tmp[next := 'O'];
        next := next + 1;
      }
    }
    CursorDone(line, tmp, next, seg);
  }

  // ---------------------------------------------------------------------
  // Transposing

  /** Column `c` of a block, where a line too short to reach it contributes
      the NUL character the transposed buffer starts out with. */
  function Column(block: seq<string>, c: int): (col: string)
    ensures |col| == |block|
  {
    seq(|block|, i requires 0 <= i < |block| => if 0 <= c < |block[i]| then block[i][c] else '\0')
  }

  /** The transposed buffer once lines `..rows` are written in full and
      line `rows` up to (not including) character `chars`. */
  ghost predicate TransposedUpTo(block: seq<string>, result: seq<string>, width: nat, rows: nat, chars: nat)
  {
    && |result| == width
    && (forall c | 0 <= c < width :: |result[c]| == |block|)
    && forall c, i | 0 <= c < width && 0 <= i < |block| ::
      result[c][i] ==
        if c < |block[i]| && (i < rows || (i == rows && c < chars)) then block[i][c] else '\0'
  }

  lemma {:induction false} TransposeStep(block: seq<string>, result: seq<string>, width: nat, rows: nat, chars: nat)
    requires rows < |block| && chars < |block[rows]| && chars < width
    requires TransposedUpTo(block, result, width, rows, chars)
    ensures TransposedUpTo(block, result[chars := result[chars][rows := block[rows][chars]]], width, rows, chars + 1)
  {
  }

  lemma {:induction false} TransposeNextRow(block: seq<string>, result: seq<string>, width: nat, rows: nat)
    requires rows < |block| && |block[rows]| <= width
    requires TransposedUpTo(block, result, width, rows, |block[rows]|)
    ensures TransposedUpTo(block, result, width, rows + 1, 0)
  {
  }

  /** `rotate`: line `c` of the result is column `c` of the block. A line
      longer than the first one writes past the buffer and panics. */
  method Rotate(block: seq<string>) returns (r: Result<seq<string>>)
    requires |block| > 0
    ensures r.Success? <==> forall i | 0 <= i < |block| :: |block[i]| <= |block[0]|
    ensures r.Success? ==> (|r.value| == |block[0]|
      && forall c | 0 <= c < |block[0]| :: r.value[c] == Column(block, c))
  {
    var width := |block[0]|;
    var result: seq<string> := seq(width, _ => Fill('\0', |block|));
    for lineIdx := 0 to |block|
      invariant forall i | 0 <= i < lineIdx :: |block[i]| <= width
      invariant TransposedUpTo(block, result, width, lineIdx, 0)
    {
      var line := block[lineIdx];
      for charIdx := 0 to |line|
        invariant charIdx <= width
        invariant TransposedUpTo(block, result, width, lineIdx, charIdx)
      {
        if charIdx >= width {
          return Failure("index out of bounds");
        }
        TransposeStep(block, result, width, lineIdx, charIdx);
        result := result[charIdx := result[charIdx][lineIdx := line[charIdx]]];
      }
      TransposeNextRow(block, result, width, lineIdx);
    }
    r := Success(result);
    forall c | 0 <= c < width ensures result[c] == Column(block, c) {
      assert TransposedUpTo(block, result, width, |block|, 0);
    }
  }

  /** Transposing a rectangular block twice gives it back. */
  lemma {:induction false} TransposeTwice(block: seq<string>)
    requires |block| > 0 && Rectangular(block) && |block[0]| > 0
    ensures var cols := seq(|block[0]|, c => Column(block, c));
      forall i | 0 <= i < |block| :: Column(cols, i) == block[i]
  {
    var cols := seq(|block[0]|, c => Column(block, c));
    forall i | 0 <= i < |block| ensures Column(cols, i) == block[i] {
      assert |block[i]| == |block[0]|;
    }
  }

  // ---------------------------------------------------------------------
  // Tilting and the load

  /** `tilt`: every line rolled towards its start, then reversed; a
      character outside `#.O` panics. */
  method Tilt(grid: seq<string>) returns (r: Result<seq<string>>)
    ensures r.Success? <==> forall i | 0 <= i < |grid| :: Rocks(grid[i])
    ensures r.Success? ==> (|r.value| == |grid|
      && forall i | 0 <= i < |grid| :: r.value[i] == Reverse(RollLeft(grid[i])))
  {
    var result: seq<string> := [];
    for lineIdx := 0 to |grid|
      invariant |result| == lineIdx
      invariant forall i | 0 <= i < lineIdx :: Rocks(grid[i]) && result[i] == Reverse(RollLeft(grid[i]))
    {
      var line := grid[lineIdx];
      if !Rocks(line) {
        return Failure("found unexpected character");
      }
      var tmp := RollLine(line);
      result := result + [Reverse(tmp)];
    }
    r := Success(result);
  }

  /** The sum `process` folds over one line: index + 1 for every `O`. */
  function IndexLoad(t: string): nat {
    if t == [] then 0
    else IndexLoad(t[..|t| - 1]) + if t[|t| - 1] == 'O' then |t| else 0
  }

  function SumIndexLoads(lines: seq<string>): nat {
    if lines == [] then 0 else SumIndexLoads(lines[..|lines| - 1]) + IndexLoad(lines[|lines| - 1])
  }

  /** Load of a column read from north to south: a rock at distance `i`
      from the north edge weighs `|col| - i`. */
  function ColumnLoad(col: string): nat {
    if col == [] then 0 else (if col[0] == 'O' then |col| else 0) + ColumnLoad(col[1..])
  }

  /** Total load on the north beams once every column has rolled north. */
  function NorthLoad(lines: seq<string>): nat
    requires |lines| > 0
  {
    ColumnsLoad(seq(|lines[0]|, c => RollLeft(Column(lines, c))))
  }

  function ColumnsLoad(cols: seq<string>): nat {
    if cols == [] then 0 else ColumnsLoad(cols[..|cols| - 1]) + ColumnLoad(cols[|cols| - 1])
  }

  /** Counting `idx + 1` on a reversed column is counting the distance to
      the far end on the column itself. */
  lemma {:induction false} IndexLoadReverse(col: string)
    ensures IndexLoad(Reverse(col)) == ColumnLoad(col)
    decreases |col|
  {
    if col != [] {
      var r := Reverse(col);
      assert r[..|r| - 1] == Reverse(col[1..]);
      IndexLoadReverse(col[1..]);
    }
  }

  lemma {:induction false} SumIndexLoadsReversed(cols: seq<string>, tilted: seq<string>)
    requires |tilted| == |cols| && forall i | 0 <= i < |cols| :: tilted[i] == Reverse(cols[i])
    ensures SumIndexLoads(tilted) == ColumnsLoad(cols)
    decreases |cols|
  {
    if cols != [] {
      var n := |cols| - 1;
      SumIndexLoadsReversed(cols[..n], tilted[..n]);
      IndexLoadReverse(cols[n]);
    }
  }

  /** `process`: the north load of the platform; a ragged platform panics,
      either in `rotate` (a line longer than the first) or in `tilt` (the
      NUL left by a shorter one). */
  method Process(lines: seq<string>) returns (r: Result<nat>)
    requires Parsed(lines)
    ensures r.Success? <==> Rectangular(lines)
    ensures r.Success? ==> r.value == NorthLoad(lines)
  {
    var cols := Rotate(lines);
    if cols.Failure? {
      assert !Rectangular(lines);
      return Failure(cols.error);
    }
    var tilted := Tilt(cols.value);
    if tilted.Failure? {
      assert !Rectangular(lines) by {
        var c :| 0 <= c < |cols.value| && !Rocks(cols.value[c]);
        var i :| 0 <= i < |lines| && !IsRock(cols.value[c][i]);
        assert cols.value[c][i] == Column(lines, c)[i];
        assert |lines[i]| <= c;
      }
      return Failure(tilted.error);
    }
    assert Rectangular(lines) by {
      forall i | 0 <= i < |lines| ensures |lines[i]| == |lines[0]| {
        var c := |lines[0]| - 1;
        assert IsRock(cols.value[c][i]);
        assert cols.value[c][i] == Column(lines, c)[i];
      }
    }
    var load := SumIndexLoads(tilted.value);
    var rolled := seq(|lines[0]|, c => RollLeft(Column(lines, c)));
    SumIndexLoadsReversed(rolled, tilted.value);
    r := Success(load);
  }
}
