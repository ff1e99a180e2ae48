/** Day 3, part 1: add up the numbers of the schematic that lie next to a
    symbol, or, as this solution also counts, next to another number. */
module Day03Part1 {
  import opened Day03Parser

  /** `n.checked_sub(1).unwrap_or(n)`: one less, but not below zero. */
  function Below(n: nat): (r: nat)
    ensures r <= n && r + 1 >= n
  {
    if n >= 1 then n - 1 else n
  }

  /** The lines `line - 1 ..= line + 1` around a part (saturating at 0). */
  predicate LineNear(part: ValuePart, line: nat) {
    Below(part.location.line) <= line <= part.location.line + 1
  }

  /** The columns `start - 1 ..= end + 1` around a part (saturating at 0). */
  predicate ColumnNear(part: ValuePart, column: nat) {
    Below(part.location.column.start) <= column <= part.location.column.end + 1
  }

  /** The saturating windows are exactly the cells at most one line above or
      below and at most one column left of the start or right of the end. */
  lemma {:induction false} NearIsDistanceOne(part: ValuePart, line: nat, column: nat)
    ensures LineNear(part, line) <==> -1 <= line - part.location.line <= 1
    ensures ColumnNear(part, column) <==>
      part.location.column.start - 1 <= column <= part.location.column.end + 1
  {
  }

  /** A symbol part lies in the window of a number part. */
  predicate Adjacent(part: ValuePart, symbol: CharPart) {
    LineNear(part, symbol.location.line) && ColumnNear(part, symbol.location.column.start)
  }

  /** `ValuePart::touches`: some symbol lies in the window. */
  function Touches(part: ValuePart, others: seq<CharPart>): (b: bool)
    ensures b <==> exists i | 0 <= i < |others| :: Adjacent(part, others[i])
  {
    if others == [] then false
    else
      var rest := Touches(part, others[1..]);
      assert forall i | 1 <= i < |others| :: others[1..][i - 1] == others[i];
      Adjacent(part, others[0]) || rest
  }

  /** Another number part on a neighbouring line whose first or last column
      is in the column window. */
  predicate NearNumber(part: ValuePart, other: ValuePart) {
    && LineNear(part, other.location.line)
    && other != part
    && (ColumnNear(part, other.location.column.start) || ColumnNear(part, other.location.column.end))
  }

  /** `ValuePart::in_range_of`: some other number part is near. */
  function InRangeOf(part: ValuePart, others: seq<ValuePart>): (b: bool)
    ensures b <==> exists i | 0 <= i < |others| :: NearNumber(part, others[i])
  {
    if others == [] then false
    else
      var rest := InRangeOf(part, others[1..]);
      assert forall i | 1 <= i < |others| :: others[1..][i - 1] == others[i];
      NearNumber(part, others[0]) || rest
  }

  /** The number parts of all lines, line after line. */
  function AllValues(parts: seq<Parts>): seq<ValuePart> {
    if parts == [] then [] else AllValues(parts[..|parts| - 1]) + parts[|parts| - 1].valueParts
  }

  /** The symbol parts of all lines, line after line. */
  function AllChars(parts: seq<Parts>): seq<CharPart> {
    if parts == [] then [] else AllChars(parts[..|parts| - 1]) + parts[|parts| - 1].charParts
  }

  /** A number counts when it touches a symbol or is in range of another
      number. */
  predicate Counted(part: ValuePart, values: seq<ValuePart>, chars: seq<CharPart>) {
    Touches(part, chars) || InRangeOf(part, values)
  }

  /** The filtered sum over `parts`, checking against all parts. */
  function CountedSum(parts: seq<ValuePart>, values: seq<ValuePart>, chars: seq<CharPart>): nat {
    if parts == [] then 0
    else
      var last := parts[|parts| - 1];
      CountedSum(parts[..|parts| - 1], values, chars) + (if Counted(last, values, chars) then last.value else 0)
  }

  function Sum(parts: seq<ValuePart>): nat {
    if parts == [] then 0 else Sum(parts[..|parts| - 1]) + parts[|parts| - 1].value
  }

  /** The filtered sum adds up over pieces, is at most the sum of all
      numbers, is all of it when every number counts and nothing when none
      does. */
  lemma {:induction false} CountedSumFacts(parts: seq<ValuePart>, values: seq<ValuePart>, chars: seq<CharPart>)
    ensures CountedSum(parts, values, chars) <= Sum(parts)
    ensures (forall k | 0 <= k < |parts| :: Counted(parts[k], values, chars)) ==> CountedSum(parts, values, chars) == Sum(parts)
    ensures (forall k | 0 <= k < |parts| :: !Counted(parts[k], values, chars)) ==> CountedSum(parts, values, chars) == 0
  {
    if parts != [] {
      var n := |parts| - 1;
      CountedSumFacts(parts[..n], values, chars);
      assert forall k | 0 <= k < n :: parts[..n][k] == parts[k];
    }
  }

  lemma {:induction false} CountedSumAppend(xs: seq<ValuePart>, ys: seq<ValuePart>, values: seq<ValuePart>, chars: seq<CharPart>)
    ensures CountedSum(xs + ys, values, chars) == CountedSum(xs, values, chars) + CountedSum(ys, values, chars)
    decreases |ys|
  {
    if ys == [] {
      assert xs + ys == xs;
    } else {
      var n := |ys| - 1;
      assert (xs + ys)[..|xs + ys| - 1] == xs + ys[..n];
      assert (xs + ys)[|xs + ys| - 1] == ys[n];
      CountedSumAppend(xs, ys[..n], values, chars);
    }
  }

  /** The numbers of `parts` that count, in their order. */
  function CountedParts(parts: seq<ValuePart>, values: seq<ValuePart>, chars: seq<CharPart>): (r: seq<ValuePart>)
    ensures forall x :: x in r <==> x in parts && Counted(x, values, chars)
  {
    if parts == [] then []
    else
      var n := |parts| - 1;
      assert parts == parts[..n] + [parts[n]];
      CountedParts(parts[..n], values, chars) + (if Counted(parts[n], values, chars) then [parts[n]] else [])
  }

  lemma {:induction false} SumSnoc(xs: seq<ValuePart>, x: ValuePart)
    ensures Sum(xs + [x]) == Sum(xs) + x.value
  {
    assert (xs + [x])[..|xs|] == xs;
  }

  /** The filtered sum is the sum of the numbers that count. */
  lemma {:induction false} CountedSumIsSum(parts: seq<ValuePart>, values: seq<ValuePart>, chars: seq<CharPart>)
    ensures CountedSum(parts, values, chars) == Sum(CountedParts(parts, values, chars))
  {
    if parts != [] {
      var n := |parts| - 1;
      CountedSumIsSum(parts[..n], values, chars);
      if Counted(parts[n], values, chars) {
        SumSnoc(CountedParts(parts[..n], values, chars), parts[n]);
      } else {
        assert CountedParts(parts[..n], values, chars) + [] == CountedParts(parts[..n], values, chars);
      }
    }
  }

  /** `process`, on the parts of every line: the sum of exactly the numbers
      that touch a symbol or are in range of another number. */
  function Process(parts: seq<Parts>): (r: nat)
    ensures var values := AllValues(parts);
      r == Sum(CountedParts(values, values, AllChars(parts)))
    ensures r <= Sum(AllValues(parts))
  {
    var values := AllValues(parts);
    CountedSumFacts(values, values, AllChars(parts));
    CountedSumIsSum(values, values, AllChars(parts));
    CountedSum(values, values, AllChars(parts))
  }

  /** Two numbers near each other count without any symbol: a schematic of
      two lines holding one number each adds up to both. */
  lemma {:induction false} NeighbouringNumbersCount(a: ValuePart, b: ValuePart)
    requires NearNumber(a, b) && NearNumber(b, a)
    ensures Process([Parts([a], []), Parts([b], [])]) == a.value + b.value
  {
    var parts := [Parts([a], []), Parts([b], [])];
    TwoLines(parts);
    var values := [a, b];
    assert values[1] == b && values[0] == a;
    assert InRangeOf(a, values) && InRangeOf(b, values);
    assert values[..1] == [a] && [a][..0] == [];
    assert CountedSum([a], values, []) == a.value;
  }

  /** The parts of two lines of one number each, gathered. */
  lemma {:induction false} TwoLines(parts: seq<Parts>)
    requires |parts| == 2 && |parts[0].valueParts| == 1 && |parts[1].valueParts| == 1
    requires parts[0].charParts == [] && parts[1].charParts == []
    ensures AllValues(parts) == [parts[0].valueParts[0], parts[1].valueParts[0]]
    ensures AllChars(parts) == []
  {
    assert parts[..1][..0] == [] && parts[..1] == [parts[0]];
    assert AllValues(parts[..1]) == parts[0].valueParts;
    assert AllChars(parts[..1]) == [];
  }

  /** The schematic "1" over "2" adds up to 3. */
  lemma {:induction false} NeighbouringExample()
    ensures Process([Parts([ValuePart(1, Location(Column(0, 0), 0))], []),
                     Parts([ValuePart(2, Location(Column(0, 0), 1))], [])]) == 3
  {
    NeighbouringNumbersCount(ValuePart(1, Location(Column(0, 0), 0)), ValuePart(2, Location(Column(0, 0), 1)));
  }

  /** A schematic without symbols whose numbers are pairwise far apart adds
      up to nothing. */
  lemma {:induction false} IsolatedNumbersDoNotCount(parts: seq<Parts>)
    requires AllChars(parts) == []
    requires forall i, j | 0 <= i < |AllValues(parts)| && 0 <= j < |AllValues(parts)| ::
      !NearNumber(AllValues(parts)[i], AllValues(parts)[j])
    ensures Process(parts) == 0
  {
    var values := AllValues(parts);
    CountedSumFacts(values, values, []);
  }
}
