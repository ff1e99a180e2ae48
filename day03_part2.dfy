/** Day 3, part 2: a gear is a '*' that touches exactly two numbers; its
    ratio is their product, and the answer is the sum of the ratios. */
module Day03Part2 {
  import opened Day03Parser
  import opened Day03Part1

  /** The '*' symbols, in order. */
  function Gears(chars: seq<CharPart>): (gears: seq<CharPart>)
    ensures forall g :: g in gears <==> g in chars && g.value == '*'
  {
    if chars == [] then []
    else
      var rest := Gears(chars[..|chars| - 1]);
      var last := chars[|chars| - 1];
      assert forall g :: g in chars <==> g in chars[..|chars| - 1] || g == last;
      if last.value == '*' then rest + [last] else rest
  }

  /** The numbers that touch at least one gear, in order. */
  function Candidates(values: seq<ValuePart>, gears: seq<CharPart>): (r: seq<ValuePart>)
    ensures forall v :: v in r <==> v in values && Touches(v, gears)
  {
    if values == [] then []
    else
      var rest := Candidates(values[..|values| - 1], gears);
      var last := values[|values| - 1];
      assert forall v :: v in values <==> v in values[..|values| - 1] || v == last;
      if Touches(last, gears) then rest + [last] else rest
  }

  /** The numbers that touch one gear, in order. */
  function TouchingGear(values: seq<ValuePart>, gear: CharPart): (r: seq<ValuePart>)
    ensures forall v :: v in r <==> v in values && Adjacent(v, gear)
  {
    if values == [] then []
    else
      var rest := TouchingGear(values[..|values| - 1], gear);
      var last := values[|values| - 1];
      assert forall v :: v in values <==> v in values[..|values| - 1] || v == last;
      if Touches(last, [gear]) then rest + [last] else rest
  }

  /** Picking the candidates first loses no number touching a gear: the
      numbers touching a gear are the same, in the same order. */
  lemma {:induction false} CandidatesKeepTouching(values: seq<ValuePart>, gears: seq<CharPart>, gear: CharPart)
    requires gear in gears
    ensures TouchingGear(Candidates(values, gears), gear) == TouchingGear(values, gear)
  {
    if values != [] {
      var n := |values| - 1;
      var last := values[n];
      CandidatesKeepTouching(values[..n], gears, gear);
      var g :| g in gears && g == gear;
      if Adjacent(last, gear) {
        var i :| 0 <= i < |gears| && gears[i] == gear;
        assert Adjacent(last, gears[i]);
        assert Touches(last, gears);
      }
      var c := Candidates(values[..n], gears);
      if Touches(last, gears) {
        assert Candidates(values, gears) == c + [last];
        assert (c + [last])[..|c|] == c;
      }
    }
  }

  /** The ratio of a gear among the given numbers: the product of the two
      numbers touching it, or nothing unless exactly two do. */
  function Ratio(values: seq<ValuePart>, gear: CharPart): nat {
    var touching := TouchingGear(values, gear);
    if |touching| == 2 then touching[0].value * touching[1].value else 0
  }

  /** The ratios of the gears `gears[..k]`, summed. */
  function RatioSum(candidates: seq<ValuePart>, gears: seq<CharPart>): nat {
    if gears == [] then 0
    else RatioSum(candidates, gears[..|gears| - 1]) + Ratio(candidates, gears[|gears| - 1])
  }

  /** A gear's ratio among the candidates is its ratio among all numbers:
      the product of its two numbers when exactly two touch it, else
      nothing. */
  lemma {:induction false} RatioFromCandidates(values: seq<ValuePart>, gears: seq<CharPart>, gear: CharPart)
    requires gear in gears
    ensures var all := TouchingGear(values, gear);
      Ratio(Candidates(values, gears), gear) == if |all| == 2 then all[0].value * all[1].value else 0
  {
    CandidatesKeepTouching(values, gears, gear);
  }

  /** The sum adds up over the gears: every gear contributes its ratio
      among all numbers. */
  lemma {:induction false} RatioSumIsSumOfRatios(values: seq<ValuePart>, gears: seq<CharPart>, k: nat)
    requires k <= |gears|
    ensures RatioSum(Candidates(values, gears), gears[..k]) == RatioSumAll(values, gears, k)
  {
    if k > 0 {
      assert gears[..k][..k - 1] == gears[..k - 1];
      RatioSumIsSumOfRatios(values, gears, k - 1);
      RatioFromCandidates(values, gears, gears[k - 1]);
    }
  }

  /** The ratios of `gears[..k]` among all numbers, summed. */
  function RatioSumAll(values: seq<ValuePart>, gears: seq<CharPart>, k: nat): nat
    requires k <= |gears|
  {
    if k == 0 then 0 else RatioSumAll(values, gears, k - 1) + Ratio(values, gears[k - 1])
  }

  /** `process`, on the parts of every line. */
  function Process(parts: seq<Parts>): (r: nat)
    ensures r == RatioSumAll(AllValues(parts), Gears(AllChars(parts)), |Gears(AllChars(parts))|)
  {
    var gears := Gears(AllChars(parts));
    var candidates := Candidates(AllValues(parts), gears);
    RatioSumIsSumOfRatios(AllValues(parts), gears, |gears|);
    assert gears[..|gears|] == gears;
    RatioSum(candidates, gears)
  }

  /** Only gears with exactly two numbers add anything: when no gear has
      two, the sum is zero. */
  lemma {:induction false} NoPairNoRatio(values: seq<ValuePart>, gears: seq<CharPart>, k: nat)
    requires k <= |gears|
    requires forall i | 0 <= i < k :: |TouchingGear(values, gears[i])| != 2
    ensures RatioSumAll(values, gears, k) == 0
  {
    if k > 0 {
      NoPairNoRatio(values, gears, k - 1);
    }
  }
}
