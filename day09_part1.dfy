/** Day 9, part 1: extrapolate each history one step forward and add up
    the extrapolated values. */
module Day09Part1 {
  import opened Wrappers
  import opened Day09Shared

  /** `get_next_number`. */
  function GetNextNumber(previous: Option<int>, current: int): int {
    match previous
    case None => current
    case Some(p) => current + p
  }

  /** The fold of `extrapolate` from the bottom row up: each row's last
      number plus the value extrapolated for the row below it. */
  function Forward(rows: seq<seq<int>>): int
    requires rows != [] && forall i | 0 <= i < |rows| :: rows[i] != []
  {
    var last := rows[0][|rows[0]| - 1];
    if |rows| == 1 then GetNextNumber(None, last)
    else GetNextNumber(Some(Forward(rows[1..])), last)
  }

  /** `extrapolate`: walks the rows from the bottom up; an empty row or an
      empty table panics. */
  method Extrapolate(rows: seq<seq<int>>) returns (r: Result<int>)
    ensures r.Success? <==> rows != [] && forall i | 0 <= i < |rows| :: rows[i] != []
    ensures r.Success? ==> r.value == Forward(rows)
  {
    var previous: Option<int> := None;
    var i := |rows|;
    while i > 0
      invariant 0 <= i <= |rows|
      invariant forall j | i <= j < |rows| :: rows[j] != []
      invariant previous == if i == |rows| then None else Some(Forward(rows[i..]))
    {
      i := i - 1;
      if rows[i] == [] {
        return Failure("not empty");
      }
      assert i + 1 < |rows| ==> rows[i..][1..] == rows[i + 1..];
      previous := Some(GetNextNumber(previous, rows[i][|rows[i]| - 1]));
    }
    if previous.None? {
      return Failure("has value");
    }
    assert rows[0..] == rows;
    r := Success(previous.value);
  }

  /** The value that follows a history. */
  function Next(xs: seq<int>): int
    requires xs != []
  {
    Forward(Table(xs))
  }

  /** The extrapolated value extends the history so that its differences
      grow by the value extrapolated for the differences (zero when they
      are all zero already): the table stays consistent. */
  lemma {:induction false} NextExtends(xs: seq<int>)
    requires xs != []
    ensures Diffs(xs + [Next(xs)]) == Diffs(xs) + [if AllZero(Diffs(xs)) then 0 else Next(Diffs(xs))]
  {
    DiffsAppend(xs, Next(xs));
    var d := Diffs(xs);
    if !AllZero(d) {
      assert Table(xs)[1..] == Table(d);
    }
  }

  /** A history with a constant step `s` continues with its last value plus `s`. */
  lemma {:induction false} ArithmeticNext(xs: seq<int>, s: int)
    requires |xs| >= 2 && forall i | 0 <= i < |xs| - 1 :: xs[i + 1] - xs[i] == s
    ensures Next(xs) == xs[|xs| - 1] + s
  {
    var d := Diffs(xs);
    ConstantDiffs(xs, s);
    if s != 0 {
      ArithmeticTable(xs, s);
      ForwardTwo(xs, d);
    } else {
      assert AllZero(d);
    }
  }

  /** With a non-zero constant step the table is the numbers and one row
      of that step. */
  lemma {:induction false} ArithmeticTable(xs: seq<int>, s: int)
    requires |xs| >= 2 && s != 0 && forall i | 0 <= i < |xs| - 1 :: xs[i + 1] - xs[i] == s
    ensures Table(xs) == [xs, Diffs(xs)] && Diffs(xs)[|Diffs(xs)| - 1] == s
  {
    var d := Diffs(xs);
    ConstantDiffs(xs, s);
    assert d[0] != 0;
    assert AllZero(Diffs(d)) by {
      forall i | 0 <= i < |Diffs(d)| ensures Diffs(d)[i] == 0 {
        assert d[i + 1] == s && d[i] == s;
      }
    }
    assert Table(d) == [d];
  }

  lemma {:induction false} ConstantDiffs(xs: seq<int>, s: int)
    requires |xs| >= 2 && forall i | 0 <= i < |xs| - 1 :: xs[i + 1] - xs[i] == s
    ensures |Diffs(xs)| == |xs| - 1 && forall i | 0 <= i < |Diffs(xs)| :: Diffs(xs)[i] == s
  {
    var d := Diffs(xs);
    forall i | 0 <= i < |d| ensures d[i] == s {
      assert d[i] == xs[i + 1] - xs[i];
    }
  }

  lemma {:induction false} ForwardTwo(xs: seq<int>, d: seq<int>)
    requires xs != [] && d != []
    ensures Forward([xs, d]) == xs[|xs| - 1] + d[|d| - 1]
  {
    assert [xs, d][1..] == [d];
  }

  /** The first history of the example continues with 18. */
  lemma {:induction false} Example()
    ensures Next([0, 3, 6, 9, 12, 15]) == 18
  {
    ArithmeticNext([0, 3, 6, 9, 12, 15], 3);
  }

  /** `process`: the sum of the values that follow each line's history. */
  method Process(lines: seq<string>) returns (r: Result<int>)
    ensures r == Total(Next, lines)
  {
    var total := 0;
    for k := 0 to |lines|
      invariant Total(Next, lines[..k]) == Success(total)
    {
      var step := AddLine(lines, k, total);
      if step.Failure? {
        FailureStays(Next, lines, k + 1);
        return step;
      }
      total := step.value;
    }
    assert lines[..|lines|] == lines;
    r := Success(total);
  }

  /** One pass of the loop of `process`: parse line `k`, build its table,
      extrapolate, add. */
  method AddLine(lines: seq<string>, k: nat, total: int) returns (r: Result<int>)
    requires k < |lines| && Total(Next, lines[..k]) == Success(total)
    ensures r == Total(Next, lines[..k + 1])
  {
    var parsed := ParseLine(lines[k]);
    if parsed.Failure? {
      TotalStepFails(Next, lines, k);
      return Failure(parsed.error);
    }
    var v := NextValue(parsed.value);
    TotalStepParses(Next, lines, k, total, v);
    r := Success(total + v);
  }

  /** The table of one history, extrapolated. */
  method NextValue(xs: seq<int>) returns (v: int)
    requires xs != []
    ensures v == Next(xs)
  {
    var rows := CreateSequences(xs);
    var r := Extrapolate(rows);
    v := r.value;
  }
}
