/** Day 6, part 2: the spaces between the numbers are a misprint; each line
    holds one number, and there is a single race. */
module Day06Part2 {
  import opened Wrappers
  import opened Text
  import opened Day06Part1

  /** The ASCII digits of a line, in order. */
  function KeepDigits(line: string): (r: string)
    ensures |r| <= |line|
    ensures forall i | 0 <= i < |r| :: IsDigit(r[i])
  {
    if line == [] then []
    else
      var n := |line| - 1;
      if IsDigit(line[n]) then KeepDigits(line[..n]) + [line[n]] else KeepDigits(line[..n])
  }

  /** Nothing is kept exactly when the line has no digit. */
  lemma {:induction false} KeepDigitsMeaning(line: string)
    ensures KeepDigits(line) == [] <==> forall i | 0 <= i < |line| :: !IsDigit(line[i])
  {
    if line != [] {
      var n := |line| - 1;
      KeepDigitsMeaning(line[..n]);
      assert forall i | 0 <= i < n :: line[..n][i] == line[i];
    }
  }

  /** Filtering a concatenation filters each part. */
  lemma {:induction false} KeepDigitsAppend(a: string, b: string)
    ensures KeepDigits(a + b) == KeepDigits(a) + KeepDigits(b)
    decreases |b|
  {
    if b != [] {
      var n := |b| - 1;
      assert (a + b)[..|a + b| - 1] == a + b[..n];
      KeepDigitsAppend(a, b[..n]);
    } else {
      assert a + b == a;
    }
  }

  /** A line's number: its digits read as one decimal number; a line
      without digits panics. */
  function LineNumber(line: string): (r: Result<nat>)
    ensures r.Failure? <==> forall i | 0 <= i < |line| :: !IsDigit(line[i])
    ensures r.Success? ==> r.value == DigitsValue(KeepDigits(line))
  {
    KeepDigitsMeaning(line);
    ParseNat(KeepDigits(line))
  }

  /** `my_parser`: the race of the time line and the distance line; it
      panics on a line without digits and on any number of lines other
      than two. */
  function MyParser(lines: seq<string>): (r: Result<Race>)
    ensures r.Failure? <==> |lines| != 2 || exists l | 0 <= l < |lines| :: LineNumber(lines[l]).Failure?
    ensures r.Success? ==> r.value == Race(LineNumber(lines[0]).value, LineNumber(lines[1]).value)
  {
    if exists l | 0 <= l < |lines| :: LineNumber(lines[l]).Failure? then Failure("Ascii Digits")
    else if |lines| != 2 then Failure("wrong parsing")
    else Success(Race(LineNumber(lines[0]).value, LineNumber(lines[1]).value))
  }

  /** `process`: the number of ways to win the one race. */
  function Process(lines: seq<string>): (r: Result<nat>)
    ensures r.Failure? <==> MyParser(lines).Failure?
    ensures r.Success? ==> r.value <= MyParser(lines).value.time
  {
    match MyParser(lines)
    case Failure(e) => Failure(e)
    case Success(race) => Success(Ways(race))
  }

  /** A run of non-digits followed by a run of digits keeps the digits. */
  lemma {:induction false} KeepDigitsRun(gap: string, digits: string)
    requires forall i | 0 <= i < |gap| :: !IsDigit(gap[i])
    requires forall i | 0 <= i < |digits| :: IsDigit(digits[i])
    ensures KeepDigits(gap + digits) == digits
    decreases |digits|
  {
    if digits == [] {
      assert gap + digits == gap;
      KeepDigitsMeaning(gap);
    } else {
      var n := |digits| - 1;
      assert (gap + digits)[..|gap + digits| - 1] == gap + digits[..n];
      KeepDigitsRun(gap, digits[..n]);
    }
  }

  /** The digits of the example's time line. */
  lemma {:induction false} ExampleTimeDigits()
    ensures KeepDigits("Time:      7  15   30") == "71530"
  {
    KeepDigitsRun("Time:      ", "7");
    assert "Time:      " + "7" == "Time:      7";
    ExampleTimeTail();
    KeepDigitsAppend("Time:      7", "  15   30");
    assert "Time:      7" + "  15   30" == "Time:      7  15   30";
  }

  lemma {:induction false} ExampleTimeTail()
    ensures KeepDigits("  15   30") == "1530"
  {
    KeepDigitsRun("  ", "15");
    KeepDigitsRun("   ", "30");
    assert "  " + "15" == "  15" && "   " + "30" == "   30";
    KeepDigitsAppend("  15", "   30");
    assert "  15" + "   30" == "  15   30";
  }

  /** The digits of the example's distance line. */
  lemma {:induction false} ExampleDistanceDigits()
    ensures KeepDigits("Distance:  9  40  200") == "940200"
  {
    KeepDigitsRun("Distance:  ", "9");
    assert "Distance:  " + "9" == "Distance:  9";
    ExampleDistanceTail();
    KeepDigitsAppend("Distance:  9", "  40  200");
    assert "Distance:  9" + "  40  200" == "Distance:  9  40  200";
  }

  lemma {:induction false} ExampleDistanceTail()
    ensures KeepDigits("  40  200") == "40200"
  {
    KeepDigitsRun("  ", "40");
    KeepDigitsRun("  ", "200");
    assert "  " + "40" == "  40" && "  " + "200" == "  200";
    KeepDigitsAppend("  40", "  200");
    assert "  40" + "  200" == "  40  200";
  }

  /** Appending a digit to a number's digits appends it to the number. */
  lemma {:induction false} DigitsValueSnoc(s: string, c: char)
    requires forall i | 0 <= i < |s| :: IsDigit(s[i])
    requires IsDigit(c)
    ensures DigitsValue(s + [c]) == 10 * DigitsValue(s) + (c as int - '0' as int)
  {
    assert (s + [c])[..|s|] == s;
  }

  /** The example's digits read as 71530 and 940200. */
  lemma {:induction false} ExampleNumbers()
    ensures DigitsValue("71530") == 71530 && DigitsValue("940200") == 940200
  {
    ExampleTime();
    ExampleDistance();
  }

  lemma {:induction false} ExampleTime()
    ensures DigitsValue("71530") == 71530
  {
    assert DigitsValue("7") == 7;
    DigitsValueSnoc("7", '1');
    assert "7" + ['1'] == "71";
    DigitsValueSnoc("71", '5');
    assert "71" + ['5'] == "715";
    DigitsValueSnoc("715", '3');
    assert "715" + ['3'] == "7153";
    DigitsValueSnoc("7153", '0');
    assert "7153" + ['0'] == "71530";
  }

  lemma {:induction false} ExampleDistance()
    ensures DigitsValue("940200") == 940200
  {
    assert DigitsValue("9") == 9;
    DigitsValueSnoc("9", '4');
    assert "9" + ['4'] == "94";
    DigitsValueSnoc("94", '0');
    assert "94" + ['0'] == "940";
    DigitsValueSnoc("940", '2');
    assert "940" + ['2'] == "9402";
    DigitsValueSnoc("9402", '0');
    assert "9402" + ['0'] == "94020";
    DigitsValueSnoc("94020", '0');
    assert "94020" + ['0'] == "940200";
  }

  /** The example's lines read as the race 71530/940200. */
  lemma {:induction false} ExampleRace()
    ensures MyParser(["Time:      7  15   30", "Distance:  9  40  200"]) == Success(Race(71530, 940200))
  {
    var lines := ["Time:      7  15   30", "Distance:  9  40  200"];
    ExampleTimeDigits();
    ExampleDistanceDigits();
    ExampleNumbers();
    assert LineNumber(lines[0]) == Success(71530);
    assert LineNumber(lines[1]) == Success(940200);
  }

  /** The example race is won by holding from 14 to 71516 ms: 71503 ways. */
  lemma {:induction false} ExampleWays()
    ensures Process(["Time:      7  15   30", "Distance:  9  40  200"]) == Success(71503)
  {
    ExampleRace();
    var race := Race(71530, 940200);
    assert (race.time - 14) * 14 == 1001224;
    assert (race.time - 13) * 13 == 929721;
    WaysFromInterval(race, 14);
  }
}
