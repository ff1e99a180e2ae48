/** Day 3, the line scanner: every maximal run of digits in a line of the
    engine schematic becomes a numbered part, every other character except
    '.' a symbol part. */
module Day03Parser {
  import opened Wrappers
  import opened Text

  datatype Column = Column(start: nat, end: nat)

  datatype Location = Location(column: Column, line: nat)

  datatype CharPart = CharPart(value: char, location: Location)

  datatype ValuePart = ValuePart(value: nat, location: Location)

  datatype Parts = Parts(valueParts: seq<ValuePart>, charParts: seq<CharPart>)

  function Pow10(n: nat): nat {
    if n == 0 then 1 else 10 * Pow10(n - 1)
  }

  function DigitOf(c: char): nat
    requires IsDigit(c)
  {
    c as int - '0' as int
  }

  /** `to_u32`: the digits weighted by powers of ten, the last digit by
      10^0, the first by 10^(n-1); a non-digit panics. */
  function ToU32(digits: string): nat
    requires forall i | 0 <= i < |digits| :: IsDigit(digits[i])
  {
    if digits == [] then 0
    else DigitOf(digits[0]) * Pow10(|digits| - 1) + ToU32(digits[1..])
  }

  /** Appending a digit shifts the value one decimal place. */
  lemma {:induction false} ToU32Append(digits: string, c: char)
    requires (forall i | 0 <= i < |digits| :: IsDigit(digits[i])) && IsDigit(c)
    ensures ToU32(digits + [c]) == 10 * ToU32(digits) + DigitOf(c)
  {
    var s := digits + [c];
    if digits == [] {
      assert s == [c];
    } else {
      assert s[0] == digits[0] && s[1..] == digits[1..] + [c];
      ToU32Append(digits[1..], c);
      assert Pow10(|s| - 1) == 10 * Pow10(|digits| - 1);
      ShiftPlace(DigitOf(digits[0]), Pow10(|digits| - 1), ToU32(digits[1..]), DigitOf(c));
    }
  }

  lemma {:induction false} ShiftPlace(d: nat, p: nat, rest: nat, e: nat)
    ensures d * (10 * p) + (10 * rest + e) == 10 * (d * p + rest) + e
  {
  }

  /** The power sum of `to_u32` is the usual decimal reading of the digits,
      most significant first. */
  lemma {:induction false} ToU32IsDecimal(digits: string)
    requires forall i | 0 <= i < |digits| :: IsDigit(digits[i])
    ensures ToU32(digits) == DigitsValue(digits)
  {
    if digits != [] {
      var n := |digits| - 1;
      ToU32IsDecimal(digits[..n]);
      ToU32Append(digits[..n], digits[n]);
      assert digits[..n] + [digits[n]] == digits;
    }
  }

  /** A character that becomes a symbol part. */
  predicate Symbol(c: char) {
    !IsDigit(c) && c != '.'
  }

  /** `input[start..=end]` is a maximal run of digits. */
  predicate IsRun(input: string, start: nat, end: nat) {
    && start <= end < |input|
    && (forall i | start <= i <= end :: IsDigit(input[i]))
    && (start == 0 || !IsDigit(input[start - 1]))
    && (end == |input| - 1 || !IsDigit(input[end + 1]))
  }

  /** A number part: a maximal digit run of the line, with its value. */
  predicate ValueOk(input: string, lineNumber: nat, part: ValuePart) {
    var c := part.location.column;
    && IsRun(input, c.start, c.end)
    && part.location.line == lineNumber
    && part.value == DigitsValue(input[c.start..c.end + 1])
  }

  /** A symbol part: one non-digit, non-'.' character of the line. */
  predicate CharOk(input: string, lineNumber: nat, part: CharPart) {
    var c := part.location.column;
    && c.start == c.end < |input|
    && Symbol(input[c.start])
    && part.value == input[c.start]
    && part.location.line == lineNumber
  }

  predicate ValuesAscending(parts: seq<ValuePart>) {
    forall k | 0 <= k < |parts| - 1 :: parts[k].location.column.end < parts[k + 1].location.column.start
  }

  predicate CharsAscending(parts: seq<CharPart>) {
    forall k | 0 <= k < |parts| - 1 :: parts[k].location.column.start < parts[k + 1].location.column.start
  }

  /** Every digit before `upTo` lies in one of the number parts. */
  predicate CoversDigits(input: string, parts: seq<ValuePart>, upTo: nat)
    requires upTo <= |input|
  {
    forall p | 0 <= p < upTo && IsDigit(input[p]) ::
      exists k | 0 <= k < |parts| :: parts[k].location.column.start <= p <= parts[k].location.column.end
  }

  /** Every symbol before `upTo` has a symbol part. */
  predicate CoversSymbols(input: string, parts: seq<CharPart>, upTo: nat)
    requires upTo <= |input|
  {
    forall p | 0 <= p < upTo && Symbol(input[p]) ::
      exists k | 0 <= k < |parts| :: parts[k].location.column.start == p
  }

  /** The parts of a line: the number parts are its maximal digit runs, left
      to right, each with its decimal value, and together they hold every
      digit; the symbol parts are its non-digit, non-'.' characters, left to
      right, every one of them. Every part carries the line number. */
  predicate ParsedLine(input: string, lineNumber: nat, parts: Parts) {
    && (forall k | 0 <= k < |parts.valueParts| :: ValueOk(input, lineNumber, parts.valueParts[k]))
    && ValuesAscending(parts.valueParts) && CoversDigits(input, parts.valueParts, |input|)
    && (forall k | 0 <= k < |parts.charParts| :: CharOk(input, lineNumber, parts.charParts[k]))
    && CharsAscending(parts.charParts) && CoversSymbols(input, parts.charParts, |input|)
  }

  /** The number parts recorded before `position`. */
  ghost predicate ValuesSoFar(input: string, lineNumber: nat, values: seq<ValuePart>, position: nat) {
    && position <= |input|
    && (forall k | 0 <= k < |values| :: ValueOk(input, lineNumber, values[k]) && values[k].location.column.end < position)
    && ValuesAscending(values)
  }

  /** The symbol parts recorded before `position`: all of them. */
  ghost predicate CharsSoFar(input: string, lineNumber: nat, chars: seq<CharPart>, position: nat) {
    && position <= |input|
    && (forall k | 0 <= k < |chars| :: CharOk(input, lineNumber, chars[k]) && chars[k].location.column.start < position)
    && CharsAscending(chars)
    && CoversSymbols(input, chars, position)
  }

  /** A token is open from `ts`: `buffer` holds its digits so far, and every
      earlier digit is in a recorded part. */
  ghost predicate OpenToken(input: string, position: nat, buffer: string, ts: nat, values: seq<ValuePart>) {
    && ts < position <= |input| && buffer == input[ts..position]
    && (forall i | ts <= i < position :: IsDigit(input[i]))
    && (ts == 0 || !IsDigit(input[ts - 1]))
    && (values != [] ==> values[|values| - 1].location.column.end + 1 < ts)
    && CoversDigits(input, values, ts)
  }

  /** No token is open: the digit before `position`, if any, ends the last
      recorded part, and every digit before `position` is in a part. */
  ghost predicate NoToken(input: string, position: nat, values: seq<ValuePart>) {
    && position <= |input|
    && (position == 0 || !IsDigit(input[position - 1])
        || (values != [] && values[|values| - 1].location.column.end == position - 1))
    && CoversDigits(input, values, position)
  }

  /** What the scanner has seen before `position`. */
  ghost predicate Scanned(input: string, lineNumber: nat, position: nat, buffer: string,
                          tokenStart: Option<nat>, values: seq<ValuePart>, chars: seq<CharPart>)
  {
    && ValuesSoFar(input, lineNumber, values, position)
    && CharsSoFar(input, lineNumber, chars, position)
    && (tokenStart.Some? <==> buffer != [])
    && (match tokenStart
        case Some(ts) => OpenToken(input, position, buffer, ts, values)
        case None => NoToken(input, position, values))
  }

  lemma {:induction false} ValuesAdvance(input: string, lineNumber: nat, values: seq<ValuePart>, position: nat)
    requires ValuesSoFar(input, lineNumber, values, position) && position < |input|
    ensures ValuesSoFar(input, lineNumber, values, position + 1)
  {
  }

  lemma {:induction false} CharsAdvance(input: string, lineNumber: nat, chars: seq<CharPart>, position: nat)
    requires CharsSoFar(input, lineNumber, chars, position) && position < |input| && !Symbol(input[position])
    ensures CharsSoFar(input, lineNumber, chars, position + 1)
  {
  }

  /** `line_parser`: the scanner over the characters of a line. */
  method LineParser(input: string, lineNumber: nat) returns (parts: Parts)
    ensures ParsedLine(input, lineNumber, parts)
  {
    var buffer: string := [];
    var tokenStart: Option<nat> := None;
    var charParts: seq<CharPart> := [];
    var valueParts: seq<ValuePart> := [];
    for position := 0 to |input|
      invariant Scanned(input, lineNumber, position, buffer, tokenStart, valueParts, charParts)
    {
      var c := input[position];
      if IsDigit(c) {
        buffer, tokenStart := ScanDigit(input, lineNumber, position, buffer, tokenStart, valueParts, charParts);
      } else {
        if tokenStart.Some? {
          valueParts := CloseToken(input, lineNumber, position, buffer, tokenStart.value, valueParts, charParts);
          buffer := [];
          tokenStart := None;
        }
        if c != '.' {
          charParts := AddSymbol(input, lineNumber, position, valueParts, charParts);
        } else {
          SkipDot(input, lineNumber, position, valueParts, charParts);
        }
      }
    }
    if buffer != [] {
      valueParts := CloseToken(input, lineNumber, |input|, buffer, tokenStart.value, valueParts, charParts);
    }
    parts := Parts(valueParts, charParts);
    Finished(input, lineNumber, parts);
  }

  lemma {:induction false} Finished(input: string, lineNumber: nat, parts: Parts)
    requires Scanned(input, lineNumber, |input|, [], None, parts.valueParts, parts.charParts)
    ensures ParsedLine(input, lineNumber, parts)
  {
  }

  /** A digit opens a token or extends the open one. */
  method ScanDigit(input: string, lineNumber: nat, position: nat, buffer: string, tokenStart: Option<nat>,
                   ghost values: seq<ValuePart>, ghost chars: seq<CharPart>)
    returns (buffer': string, tokenStart': Option<nat>)
    requires position < |input| && IsDigit(input[position])
    requires Scanned(input, lineNumber, position, buffer, tokenStart, values, chars)
    ensures Scanned(input, lineNumber, position + 1, buffer', tokenStart', values, chars)
  {
    ValuesAdvance(input, lineNumber, values, position);
    CharsAdvance(input, lineNumber, chars, position);
    tokenStart' := tokenStart;
    if tokenStart'.None? {
      tokenStart' := Some(position);
    }
    buffer' := buffer + [input[position]];
    if tokenStart.None? {
      OpenAt(input, lineNumber, position, values);
      assert buffer' == [input[position]];
    } else {
      Extend(input, position, buffer, tokenStart.value, values);
    }
  }

  lemma {:induction false} OpenAt(input: string, lineNumber: nat, position: nat, values: seq<ValuePart>)
    requires position < |input| && IsDigit(input[position])
    requires NoToken(input, position, values) && ValuesSoFar(input, lineNumber, values, position)
    ensures OpenToken(input, position + 1, [input[position]], position, values)
  {
    if values != [] {
      LastRunBefore(input, lineNumber, position, values[|values| - 1]);
    }
    assert input[position..position + 1] == [input[position]];
  }

  /** A recorded run ends before the digit at `position`, with a gap. */
  lemma {:induction false} LastRunBefore(input: string, lineNumber: nat, position: nat, part: ValuePart)
    requires position < |input| && IsDigit(input[position])
    requires ValueOk(input, lineNumber, part) && part.location.column.end < position
    ensures part.location.column.end != position - 1
  {
    var c := part.location.column;
    assert c.end == |input| - 1 || !IsDigit(input[c.end + 1]);
  }

  lemma {:induction false} Extend(input: string, position: nat, buffer: string, ts: nat, values: seq<ValuePart>)
    requires position < |input| && IsDigit(input[position])
    requires OpenToken(input, position, buffer, ts, values)
    ensures OpenToken(input, position + 1, buffer + [input[position]], ts, values)
  {
    assert input[ts..position + 1] == input[ts..position] + [input[position]];
  }

  /** The token ends before `position` (a non-digit, or the end of the
      line): its run is recorded with the value of its digits. */
  method CloseToken(input: string, lineNumber: nat, position: nat, buffer: string, tokenStart: nat,
                    values: seq<ValuePart>, ghost chars: seq<CharPart>)
    returns (values': seq<ValuePart>)
    requires position <= |input| && (position == |input| || !IsDigit(input[position]))
    requires Scanned(input, lineNumber, position, buffer, Some(tokenStart), values, chars)
    ensures Scanned(input, lineNumber, position, [], None, values', chars)
  {
    var loc := Location(Column(tokenStart, position - 1), lineNumber);
    var val := ToU32(buffer);
    ToU32IsDecimal(buffer);
    values' := values + [ValuePart(val, loc)];
    CloseValues(input, lineNumber, position, buffer, tokenStart, values);
    CloseCovers(input, position, buffer, tokenStart, values, values'[|values|]);
  }

  lemma {:induction false} CloseValues(input: string, lineNumber: nat, position: nat, buffer: string, ts: nat,
                                       values: seq<ValuePart>)
    requires position <= |input| && (position == |input| || !IsDigit(input[position]))
    requires OpenToken(input, position, buffer, ts, values) && ValuesSoFar(input, lineNumber, values, position)
    ensures ValuesSoFar(input, lineNumber, values + [ValuePart(DigitsValue(buffer), Location(Column(ts, position - 1), lineNumber))], position)
  {
    var part := ValuePart(DigitsValue(buffer), Location(Column(ts, position - 1), lineNumber));
    var values' := values + [part];
    assert input[ts..position - 1 + 1] == buffer;
    assert IsRun(input, ts, position - 1);
    assert ValueOk(input, lineNumber, part);
    assert forall k | 0 <= k < |values| :: values'[k] == values[k];
  }

  lemma {:induction false} CloseCovers(input: string, position: nat, buffer: string, ts: nat,
                                       values: seq<ValuePart>, part: ValuePart)
    requires position <= |input| && OpenToken(input, position, buffer, ts, values)
    requires part.location.column == Column(ts, position - 1)
    ensures NoToken(input, position, values + [part])
  {
    var values' := values + [part];
    forall p | 0 <= p < position && IsDigit(input[p])
      ensures exists k | 0 <= k < |values'| :: values'[k].location.column.start <= p <= values'[k].location.column.end
    {
      if p < ts {
        var k :| 0 <= k < |values| && values[k].location.column.start <= p <= values[k].location.column.end;
        assert values'[k] == values[k];
      } else {
        assert values'[|values|] == part;
      }
    }
  }

  /** A '.' is passed over. */
  lemma {:induction false} SkipDot(input: string, lineNumber: nat, position: nat, values: seq<ValuePart>, chars: seq<CharPart>)
    requires position < |input| && input[position] == '.'
    requires Scanned(input, lineNumber, position, [], None, values, chars)
    ensures Scanned(input, lineNumber, position + 1, [], None, values, chars)
  {
  }

  /** A symbol gets its part. */
  method AddSymbol(input: string, lineNumber: nat, position: nat, ghost values: seq<ValuePart>, chars: seq<CharPart>)
    returns (chars': seq<CharPart>)
    requires position < |input| && Symbol(input[position])
    requires Scanned(input, lineNumber, position, [], None, values, chars)
    ensures Scanned(input, lineNumber, position + 1, [], None, values, chars')
  {
    var part := CharPart(input[position], Location(Column(position, position), lineNumber));
    chars' := chars + [part];
    assert CoversSymbols(input, chars', position + 1) by {
      forall p | 0 <= p < position + 1 && Symbol(input[p])
        ensures exists k | 0 <= k < |chars'| :: chars'[k].location.column.start == p
      {
        if p < position {
          var k :| 0 <= k < |chars| && chars[k].location.column.start == p;
          assert chars'[k] == chars[k];
        } else {
          assert chars'[|chars|] == part;
        }
      }
    }
  }

  /** `input.lines().enumerate().map(line_parser)`: every line scanned with
      its index as line number. */
  method ParseLines(lines: seq<string>) returns (parts: seq<Parts>)
    ensures |parts| == |lines| && forall i | 0 <= i < |lines| :: ParsedLine(lines[i], i, parts[i])
  {
    parts := [];
    for i := 0 to |lines|
      invariant |parts| == i && forall j | 0 <= j < i :: ParsedLine(lines[j], j, parts[j])
    {
      var p := LineParser(lines[i], i);
      parts := parts + [p];
    }
  }
}
