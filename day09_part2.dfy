/** Day 9, part 2: extrapolate each history one step backward and add up
    the extrapolated values. */
module Day09Part2 {
  import opened Wrappers
  import opened Day09Shared

  /** `get_next_number`. */
  function GetNextNumber(previous: Option<int>, current: int): int {
    match previous
    case None => current
    case Some(p) => current - p
  }

  /** The fold of `extrapolate` from the bottom row up: each row's first
      number minus the value extrapolated for the row below it, so the
      result is f0 - (f1 - (f2 - ...)). */
  function Backward(rows: seq<seq<int>>): int
    requires rows != [] && forall i | 0 <= i < |rows| :: rows[i] != []
  {
    var first := rows[0][0];
    if |rows| == 1 then GetNextNumber(None, first)
    else GetNextNumber(Some(Backward(rows[1..])), first)
  }

  /** `extrapolate`: walks the rows from the bottom up; an empty row or an
      empty table panics. */
  method Extrapolate(rows: seq<seq<int>>) returns (r: Result<int>)
    ensures r.Success? <==> rows != [] && forall i | 0 <= i < |rows| :: rows[i] != []
    ensures r.Success? ==> r.value == Backward(rows)
  {
    var previous: Option<int> := None;
    var i := |rows|;
    while i > 0
      invariant 0 <= i <= |rows|
      invariant forall j | i <= j < |rows| :: rows[j] != []
      invariant previous == if i == |rows| then None else Some(Backward(rows[i..]))
    {
      i := i - 1;
      if rows[i] == [] {
        return Failure("not empty");
      }
      assert i + 1 < |rows| ==> rows[i..][1..] == rows[i + 1..];
      previous := Some(GetNextNumber(previous, rows[i][0]));
    }
    if previous.None? {
      return Failure("has value");
    }
    assert rows[0..] == rows;
    r := Success(previous.value);
  }

  /** The value that precedes a history. */
  function Previous(xs: seq<int>): int
    requires xs != []
  {
    Backward(Table(xs))
  }

  /** The extrapolated value extends the history at the front so that its
      differences gain, in front, the value extrapolated for the
      differences (zero when they are all zero already). */
  lemma {:induction false} PreviousExtends(xs: seq<int>)
    requires xs != []
    ensures Diffs([Previous(xs)] + xs) == [if AllZero(Diffs(xs)) then 0 else Previous(Diffs(xs))] + Diffs(xs)
  {
    DiffsPrepend(Previous(xs), xs);
    var d := Diffs(xs);
    if !AllZero(d) {
      assert Table(xs)[1..] == Table(d);
    }
  }

  /** A history with a constant step `s` is preceded by its first value minus `s`. */
  lemma {:induction false} ArithmeticPrevious(xs: seq<int>, s: int)
    requires |xs| >= 2 && forall i | 0 <= i < |xs| - 1 :: xs[i + 1] - xs[i] == s
    ensures Previous(xs) == xs[0] - s
  {
    var d := Diffs(xs);
    forall i | 0 <= i < |d| ensures d[i] == s {
      assert d[i] == xs[i + 1] - xs[i];
    }
    if s != 0 {
      assert d[0] != 0;
      forall i | 0 <= i < |Diffs(d)| ensures Diffs(d)[i] == 0 {
        assert d[i + 1] == s && d[i] == s;
      }
      assert Table(xs) == [xs, d];
      assert Table(xs)[1..] == [d];
      assert Backward([d]) == d[0] == s;
    } else {
      assert AllZero(d);
    }
  }

  /** The first history of the example is preceded by -3. */
  lemma {:induction false} Example()
    ensures Previous([0, 3, 6, 9, 12, 15]) == -3
  {
    ArithmeticPrevious([0, 3, 6, 9, 12, 15], 3);
  }

  /** `process`: the sum of the values that precede each line's history. */
  method Process(lines: seq<string>) returns (r: Result<int>)
    ensures r == Total(Previous, lines)
  {
    var total := 0;
    for k := 0 to |lines|
      invariant Total(Previous, lines[..k]) == Success(total)
    {
      var step := AddLine(lines, k, total);
      if step.Failure? {
        FailureStays(Previous, lines, k + 1);
        return step;
      }
      total := step.value;
    }
    assert lines[..|lines|] == lines;
    r := Success(total);
  }

  /** One pass of the loop of `process`: parse line `k`, build its table,
      extrapolate, add. */
  method AddLine(lines: seq<string>, k: nat, total: int) returns (r: Result<int>)
    requires k < |lines| && Total(Previous, lines[..k]) == Success(total)
    ensures r == Total(Previous, lines[..k + 1])
  {
    var parsed := ParseLine(lines[k]);
    if parsed.Failure? {
      TotalStepFails(Previous, lines, k);
      return Failure(parsed.error);
    }
    var v := PreviousValue(parsed.value);
    TotalStepParses(Previous, lines, k, total, v);
    r := Success(total + v);
  }

  /** The table of one history, extrapolated. */
  method PreviousValue(xs: seq<int>) returns (v: int)
    requires xs != []
    ensures v == Previous(xs)
  {
    var rows := CreateSequences(xs);
    var r := Extrapolate(rows);
    v := r.value;
  }
}
