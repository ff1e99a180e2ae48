/** Day 9, shared part: the table of successive differences of a reading
    history, and the line parser. */
module Day09Shared {
  import opened Wrappers
  import opened Text

  /** `windows(2).map(|c| c[1] - c[0])`: the differences of neighbours. */
  function Diffs(xs: seq<int>): (d: seq<int>)
    ensures |d| == if xs == [] then 0 else |xs| - 1
    ensures forall i | 0 <= i < |d| :: d[i] == xs[i + 1] - xs[i]
  {
    if |xs| < 2 then [] else [xs[1] - xs[0]] + Diffs(xs[1..])
  }

  predicate AllZero(xs: seq<int>) {
    forall i | 0 <= i < |xs| :: xs[i] == 0
  }

  /** The rows `create_sequences` stores: the numbers, then each row of
      differences, until the next row would be all zero (that row is not
      stored). Every row of a non-empty history is non-empty. */
  function Table(xs: seq<int>): (rows: seq<seq<int>>)
    ensures rows != [] && rows[0] == xs
    ensures xs != [] ==> forall i | 0 <= i < |rows| :: rows[i] != []
    decreases |xs|
  {
    var d := Diffs(xs);
    if AllZero(d) then [xs] else [xs] + Table(d)
  }

  /** What the table is, independently of how it is built. */
  ghost predicate IsTable(xs: seq<int>, rows: seq<seq<int>>) {
    && rows != [] && rows[0] == xs
    && (forall i | 0 <= i < |rows| - 1 :: rows[i + 1] == Diffs(rows[i]))
    && AllZero(Diffs(rows[|rows| - 1]))
    && (forall i | 1 <= i < |rows| :: !AllZero(rows[i]))
  }

  /** The table starts with the numbers, each row holds the differences of
      the one above it (so it is one shorter), only its bottom row has
      all-zero differences, and no stored row after the first is all zero. */
  lemma {:induction false} TableIsTable(xs: seq<int>)
    ensures IsTable(xs, Table(xs))
    ensures |Table(xs)| <= if xs == [] then 1 else |xs|
    decreases |xs|
  {
    var d := Diffs(xs);
    if !AllZero(d) {
      TableIsTable(d);
      var rows := Table(xs);
      assert rows[1..] == Table(d);
      forall i | 0 <= i < |rows| - 1 ensures rows[i + 1] == Diffs(rows[i]) {
        if i > 0 {
          assert rows[i + 1] == Table(d)[i] && rows[i] == Table(d)[i - 1];
        }
      }
      forall i | 1 <= i < |rows| ensures !AllZero(rows[i]) {
        assert rows[i] == Table(d)[i - 1];
      }
    }
  }

  /** Only one sequence of rows is a table of the numbers. */
  lemma {:induction false} TableUnique(xs: seq<int>, rows: seq<seq<int>>)
    requires IsTable(xs, rows)
    ensures rows == Table(xs)
    decreases |rows|
  {
    var d := Diffs(xs);
    if |rows| == 1 {
      assert AllZero(d);
    } else {
      assert rows[1] == d && !AllZero(d);
      var rest := rows[1..];
      forall i | 0 <= i < |rest| - 1 ensures rest[i + 1] == Diffs(rest[i]) {
        assert rest[i + 1] == rows[i + 2] && rest[i] == rows[i + 1];
      }
      forall i | 1 <= i < |rest| ensures !AllZero(rest[i]) {
        assert rest[i] == rows[i + 1];
      }
      TableUnique(d, rest);
      assert rows == [xs] + rest;
    }
  }

  /** `create_sequences`. */
  method CreateSequences(numbers: seq<int>) returns (sequences: seq<seq<int>>)
    ensures sequences == Table(numbers)
  {
    sequences := [numbers];
    while true
      invariant sequences != []
      invariant sequences[..|sequences| - 1] + Table(sequences[|sequences| - 1]) == Table(numbers)
      decreases |sequences[|sequences| - 1]|
    {
      var current := sequences[|sequences| - 1];
      var tmp := Diffs(current);
      if AllZero(tmp) {
        assert sequences == sequences[..|sequences| - 1] + [current];
        break;
      }
      assert Table(current) == [current] + Table(tmp);
      assert sequences[..|sequences| - 1] + [current] == sequences;
      sequences := sequences + [tmp];
      assert sequences[..|sequences| - 1] + Table(tmp) == Table(numbers);
    }
  }

  /** Prepending or appending one number adds one difference. */
  lemma {:induction false} DiffsAppend(xs: seq<int>, v: int)
    requires xs != []
    ensures Diffs(xs + [v]) == Diffs(xs) + [v - xs[|xs| - 1]]
  {
    var a, b := Diffs(xs + [v]), Diffs(xs) + [v - xs[|xs| - 1]];
    assert |a| == |b|;
    forall i | 0 <= i < |a| ensures a[i] == b[i] {
      assert (xs + [v])[i + 1] - (xs + [v])[i] == a[i];
    }
  }

  lemma {:induction false} DiffsPrepend(v: int, xs: seq<int>)
    requires xs != []
    ensures Diffs([v] + xs) == [xs[0] - v] + Diffs(xs)
  {
    var a, b := Diffs([v] + xs), [xs[0] - v] + Diffs(xs);
    assert |a| == |b|;
    forall i | 0 <= i < |a| ensures a[i] == b[i] {
      assert ([v] + xs)[i + 1] - ([v] + xs)[i] == a[i];
    }
  }

  /** The numbers of one line, which the source splits on single spaces;
      a piece that is not an `i32` literal is an error. */
  function ParseNumbers(pieces: seq<string>): Result<seq<int>> {
    if pieces == [] then Success([])
    else
      var n := |pieces| - 1;
      match ParseNumbers(pieces[..n])
      case Failure(e) => Failure(e)
      case Success(init) =>
        match ParseInt(pieces[n])
        case Failure(e) => Failure(e)
        case Success(v) => Success(init + [v])
  }

  /** The pieces parse exactly when each of them is an integer, and then
      to those integers in order. */
  lemma {:induction false} ParseNumbersMeaning(pieces: seq<string>)
    ensures ParseNumbers(pieces).Success? <==> forall i | 0 <= i < |pieces| :: ParseInt(pieces[i]).Success?
    ensures ParseNumbers(pieces).Success? ==> |ParseNumbers(pieces).value| == |pieces|
    ensures ParseNumbers(pieces).Success? ==>
      forall i | 0 <= i < |pieces| :: ParseNumbers(pieces).value[i] == ParseInt(pieces[i]).value
  {
    if pieces != [] {
      var n := |pieces| - 1;
      ParseNumbersMeaning(pieces[..n]);
      assert forall i | 0 <= i < n :: pieces[..n][i] == pieces[i];
    }
  }

  /** `my_parser`: never empty, since splitting yields at least one piece. */
  function ParseLine(line: string): (r: Result<seq<int>>)
    ensures r.Success? ==> r.value != []
  {
    ParseNumbersMeaning(Split(line, ' '));
    ParseNumbers(Split(line, ' '))
  }

  /** An extrapolation: a value computed from every non-empty history. */
  ghost predicate Extrapolation(extrapolate: seq<int> --> int) {
    forall xs: seq<int> | xs != [] :: extrapolate.requires(xs)
  }

  /** The answer of either part: the sum over the lines of the value
      `extrapolate` computes from each line's history. */
  function Total(extrapolate: seq<int> --> int, lines: seq<string>): Result<int>
    requires Extrapolation(extrapolate)
  {
    if lines == [] then Success(0)
    else
      var n := |lines| - 1;
      match Total(extrapolate, lines[..n])
      case Failure(e) => Failure(e)
      case Success(t) =>
        match ParseLine(lines[n])
        case Failure(e) => Failure(e)
        case Success(xs) => Success(t + extrapolate(xs))
  }

  /** The sum fails exactly when some line does not parse. */
  lemma {:induction false} TotalFailsIff(extrapolate: seq<int> --> int, lines: seq<string>)
    requires Extrapolation(extrapolate)
    ensures Total(extrapolate, lines).Failure? <==> exists i | 0 <= i < |lines| :: ParseLine(lines[i]).Failure?
  {
    if lines != [] {
      var n := |lines| - 1;
      TotalFailsIff(extrapolate, lines[..n]);
      TotalFailsSnoc(extrapolate, lines);
      assert lines[..n] + [lines[n]] == lines;
      BadLineSnoc(lines[..n], lines[n]);
    }
  }

  lemma {:induction false} TotalFailsSnoc(extrapolate: seq<int> --> int, lines: seq<string>)
    requires Extrapolation(extrapolate) && lines != []
    ensures Total(extrapolate, lines).Failure? <==>
      Total(extrapolate, lines[..|lines| - 1]).Failure? || ParseLine(lines[|lines| - 1]).Failure?
  {
  }

  lemma {:induction false} BadLineSnoc(init: seq<string>, last: string)
    ensures (exists i | 0 <= i < |init + [last]| :: ParseLine((init + [last])[i]).Failure?) <==>
      (exists i | 0 <= i < |init| :: ParseLine(init[i]).Failure?) || ParseLine(last).Failure?
  {
    assert forall i | 0 <= i < |init| :: (init + [last])[i] == init[i];
    assert (init + [last])[|init|] == last;
  }

  /** One more line of the input, which does not parse. */
  lemma {:induction false} TotalStepFails(extrapolate: seq<int> --> int, lines: seq<string>, k: nat)
    requires Extrapolation(extrapolate)
    requires k < |lines| && Total(extrapolate, lines[..k]).Success? && ParseLine(lines[k]).Failure?
    ensures Total(extrapolate, lines[..k + 1]) == Failure(ParseLine(lines[k]).error)
  {
    var t := lines[..k + 1];
    assert t[..k] == lines[..k] && t[k] == lines[k];
    TotalLast(extrapolate, t);
  }

  /** One more line of the input, which parses. */
  lemma {:induction false} TotalStepParses(extrapolate: seq<int> --> int, lines: seq<string>, k: nat, total: int, v: int)
    requires Extrapolation(extrapolate)
    requires k < |lines| && Total(extrapolate, lines[..k]) == Success(total) && ParseLine(lines[k]).Success?
    requires v == extrapolate(ParseLine(lines[k]).value)
    ensures Total(extrapolate, lines[..k + 1]) == Success(total + v)
  {
    var t := lines[..k + 1];
    assert t[..k] == lines[..k] && t[k] == lines[k];
    TotalLast(extrapolate, t);
  }

  lemma {:induction false} TotalLast(extrapolate: seq<int> --> int, t: seq<string>)
    requires Extrapolation(extrapolate)
    requires t != [] && Total(extrapolate, t[..|t| - 1]).Success?
    ensures ParseLine(t[|t| - 1]).Failure? ==> Total(extrapolate, t) == Failure(ParseLine(t[|t| - 1]).error)
    ensures ParseLine(t[|t| - 1]).Success? ==>
      Total(extrapolate, t) == Success(Total(extrapolate, t[..|t| - 1]).value + extrapolate(ParseLine(t[|t| - 1]).value))
  {
  }

  /** Once a prefix fails, the whole input fails the same way. */
  lemma {:induction false} FailureStays(extrapolate: seq<int> --> int, lines: seq<string>, k: nat)
    requires Extrapolation(extrapolate)
    requires k <= |lines| && Total(extrapolate, lines[..k]).Failure?
    ensures Total(extrapolate, lines) == Total(extrapolate, lines[..k])
    decreases |lines| - k
  {
    if k < |lines| {
      FailureStep(extrapolate, lines, k);
      FailureStays(extrapolate, lines, k + 1);
    } else {
      assert lines[..k] == lines;
    }
  }

  lemma {:induction false} FailureStep(extrapolate: seq<int> --> int, lines: seq<string>, k: nat)
    requires Extrapolation(extrapolate)
    requires k < |lines| && Total(extrapolate, lines[..k]).Failure?
    ensures Total(extrapolate, lines[..k + 1]) == Total(extrapolate, lines[..k])
  {
    assert lines[..k + 1][..k] == lines[..k];
  }
}
