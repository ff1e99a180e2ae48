/** Day 1, part 1: a line's calibration value is its first and its last
    ASCII digit read as a two-digit number; the answer is the sum of the
    values of all lines. */
module Day01Part1 {
  import opened Wrappers
  import opened Text

  /** `find(char::is_ascii_digit)`, from index `i` on. */
  function FindDigit(line: string, i: nat): (r: Option<nat>)
    decreases |line| - i
    ensures r.Some? ==> i <= r.value < |line| && IsDigit(line[r.value])
    ensures r.Some? ==> forall j | i <= j < r.value :: !IsDigit(line[j])
    ensures r.None? <==> forall j | i <= j < |line| :: !IsDigit(line[j])
  {
    if i >= |line| then None
    else if IsDigit(line[i]) then Some(i)
    else FindDigit(line, i + 1)
  }

  /** `rfind(char::is_ascii_digit)`, among the first `i` characters. */
  function RFindDigit(line: string, i: nat): (r: Option<nat>)
    requires i <= |line|
    ensures r.Some? ==> r.value < i && IsDigit(line[r.value])
    ensures r.Some? ==> forall j | r.value < j < i :: !IsDigit(line[j])
    ensures r.None? <==> forall j | 0 <= j < i :: !IsDigit(line[j])
  {
    if i == 0 then None
    else if IsDigit(line[i - 1]) then Some(i - 1)
    else RFindDigit(line, i - 1)
  }

  /** `to_digit(10)` of an ASCII digit. */
  function DigitOf(c: char): (d: nat)
    requires IsDigit(c)
    ensures d <= 9 && c == ('0' as int + d) as char
  {
    c as int - '0' as int
  }

  /** The calibration value of a line; `unwrap` panics on a line without
      a digit. */
  function LineValue(line: string): (r: Result<nat>)
    ensures r.Failure? <==> forall j | 0 <= j < |line| :: !IsDigit(line[j])
    ensures r.Failure? ==> r == Failure("digit")
    ensures r.Success? ==> r.value <= 99
  {
    match (FindDigit(line, 0), RFindDigit(line, |line|))
    case (Some(first), Some(last)) => Success(10 * DigitOf(line[first]) + DigitOf(line[last]))
    case _ => Failure("digit")
  }

  /** The value is read off the digit that no digit precedes and the digit
      that no digit follows. */
  lemma {:induction false} LineValueOfDigits(line: string, first: nat, last: nat)
    requires first < |line| && IsDigit(line[first]) && forall j | 0 <= j < first :: !IsDigit(line[j])
    requires last < |line| && IsDigit(line[last]) && forall j | last < j < |line| :: !IsDigit(line[j])
    ensures LineValue(line) == Success(10 * DigitOf(line[first]) + DigitOf(line[last]))
  {
    var f := FindDigit(line, 0);
    var l := RFindDigit(line, |line|);
    assert f.Some? && l.Some?;
    assert !(f.value < first) && !(first < f.value);
    assert !(l.value < last) && !(last < l.value);
  }

  /** A line with a single digit `d` is worth `11 * d`. */
  lemma {:induction false} SingleDigit(line: string, i: nat)
    requires i < |line| && IsDigit(line[i])
    requires forall j | 0 <= j < |line| && j != i :: !IsDigit(line[j])
    ensures LineValue(line) == Success(11 * DigitOf(line[i]))
  {
    LineValueOfDigits(line, i, i);
  }

  /** The sum of the values of the lines; the first line without a digit
      panics. */
  function Total(lines: seq<string>): (r: Result<nat>)
    ensures r.Failure? <==> exists l | 0 <= l < |lines| :: LineValue(lines[l]).Failure?
    ensures r.Failure? ==> r == Failure("digit")
    ensures r.Success? ==> r.value <= 99 * |lines|
  {
    if lines == [] then Success(0)
    else
      var n := |lines| - 1;
      assert forall l | 0 <= l < n :: lines[..n][l] == lines[l];
      match (Total(lines[..n]), LineValue(lines[n]))
      case (Success(sum), Success(v)) => Success(sum + v)
      case _ => Failure("digit")
  }

  /** `process`: the lines summed one by one into `sum`. */
  method Process(lines: seq<string>) returns (r: Result<nat>)
    ensures r == Total(lines)
  {
    var sum := 0;
    for i := 0 to |lines|
      invariant Total(lines[..i]) == Success(sum)
    {
      assert lines[..i + 1][..i] == lines[..i];
      var v := LineValue(lines[i]);
      if v.Failure? {
        assert lines[i] == lines[..i + 1][i];
        assert Total(lines[..i + 1]).Failure?;
        TotalFailureExtends(lines, i + 1);
        return Failure("digit");
      }
      sum := sum + v.value;
    }
    assert lines[..|lines|] == lines;
    r := Success(sum);
  }

  /** Once a prefix fails, so does every longer list. */
  lemma {:induction false} TotalFailureExtends(lines: seq<string>, k: nat)
    requires k <= |lines| && Total(lines[..k]).Failure?
    ensures Total(lines).Failure?
  {
    var l :| 0 <= l < k && LineValue(lines[..k][l]).Failure?;
    assert lines[..k][l] == lines[l];
  }

  /** The example: 12 + 38 + 15 + 77 = 142. */
  lemma {:induction false} Example()
    ensures Total(["1abc2", "pqr3stu8vwx", "a1b2c3d4e5f", "treb7uchet"]) == Success(142)
  {
    var lines := ["1abc2", "pqr3stu8vwx", "a1b2c3d4e5f", "treb7uchet"];
    ExampleValues();
    assert [lines[0]][..0] == [];
    TotalSnoc([lines[0]], 0, 12);
    assert [lines[0], lines[1]][..1] == [lines[0]];
    TotalSnoc([lines[0], lines[1]], 12, 38);
    assert lines[..3][..2] == [lines[0], lines[1]];
    TotalSnoc(lines[..3], 50, 15);
    assert lines[..3] == lines[..|lines| - 1];
    TotalSnoc(lines, 65, 77);
  }

  /** The example's lines are worth 12, 38, 15 and 77. */
  lemma {:induction false} ExampleValues()
    ensures LineValue("1abc2") == Success(12) && LineValue("pqr3stu8vwx") == Success(38)
    ensures LineValue("a1b2c3d4e5f") == Success(15) && LineValue("treb7uchet") == Success(77)
  {
    ExampleValue12();
    ExampleValue38();
    ExampleValue15();
    ExampleValue77();
  }

  lemma {:induction false} ExampleValue12()
    ensures LineValue("1abc2") == Success(12)
  {
    LineValueOfDigits("1abc2", 0, 4);
  }

  lemma {:induction false} ExampleValue38()
    ensures LineValue("pqr3stu8vwx") == Success(38)
  {
    LineValueOfDigits("pqr3stu8vwx", 3, 7);
  }

  lemma {:induction false} ExampleValue15()
    ensures LineValue("a1b2c3d4e5f") == Success(15)
  {
    LineValueOfDigits("a1b2c3d4e5f", 1, 9);
  }

  lemma {:induction false} ExampleValue77()
    ensures LineValue("treb7uchet") == Success(77)
  {
    SingleDigit("treb7uchet", 4);
  }

  /** One more line adds its value to the total. */
  lemma {:induction false} TotalSnoc(lines: seq<string>, sum: nat, v: nat)
    requires lines != [] && Total(lines[..|lines| - 1]) == Success(sum)
    requires LineValue(lines[|lines| - 1]) == Success(v)
    ensures Total(lines) == Success(sum + v)
  {
  }
}
