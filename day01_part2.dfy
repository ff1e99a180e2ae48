/** Day 1, part 2: digits may also be spelled out ("one" … "nine"), and the
    words may overlap ("eighthree" ends in a three). */
module Day01Part2 {
  import opened Wrappers

  /** `NEEDLE`: the nine digits, then the nine words; `numberword` tries,
      for each number from 1 to 9, its digit and then its word. */
  const Needles: seq<string> :=
    ["1", "2", "3", "4", "5", "6", "7", "8", "9",
     "one", "two", "three", "four", "five", "six", "seven", "eight", "nine"]

  /** The number a needle stands for. */
  function NeedleValue(k: nat): (v: nat)
    requires k < |Needles|
    ensures 1 <= v <= 9
  {
    k % 9 + 1
  }

  predicate IsPrefix(tag: string, s: string) {
    |tag| <= |s| && s[..|tag|] == tag
  }

  predicate OccursAt(line: string, needle: string, i: nat) {
    i <= |line| && IsPrefix(needle, line[i..])
  }

  // ---------------------------------------------------------------------
  // `numberword`

  /** The alternatives from `d` to 9 of `numberword`, each the digit before
      the word. */
  function NumberFrom(input: string, d: nat): (r: Result<(string, nat)>)
    requires 1 <= d
    decreases 10 - d
    ensures r.Success? ==> d <= r.value.1 <= 9
  {
    if d > 9 then Failure("numberword")
    else if IsPrefix(Needles[d - 1], input) then Success((input[|Needles[d - 1]|..], d))
    else if IsPrefix(Needles[d + 8], input) then Success((input[|Needles[d + 8]|..], d))
    else NumberFrom(input, d + 1)
  }

  /** `numberword`: the number whose digit or word starts `input`, and the
      rest of `input`. */
  function NumberWord(input: string): (r: Result<(string, nat)>)
    ensures r.Success? ==> 1 <= r.value.1 <= 9
  {
    NumberFrom(input, 1)
  }

  /** No needle is a prefix of another: two needles never start at the
      same place. */
  lemma {:induction false} NeedlesPrefixFree(k: nat, k': nat, s: string)
    requires k < |Needles| && k' < |Needles|
    requires IsPrefix(Needles[k], s) && IsPrefix(Needles[k'], s)
    ensures k == k'
  {
    assert Needles[k][0] == s[0] == Needles[k'][0];
    assert |Needles[k]| >= 2 && |Needles[k']| >= 2 ==> Needles[k][1] == s[1] == Needles[k'][1];
  }

  /** The alternatives from `d` on find the needle that starts `input`,
      when its number is `d` or more. */
  lemma {:induction false} NumberFromNeedle(input: string, d: nat, k: nat)
    requires k < |Needles| && 1 <= d <= NeedleValue(k) && IsPrefix(Needles[k], input)
    decreases 10 - d
    ensures NumberFrom(input, d) == Success((input[|Needles[k]|..], NeedleValue(k)))
  {
    NeedleValueIs(k, d);
    if IsPrefix(Needles[d - 1], input) {
      NeedlesPrefixFree(k, d - 1, input);
      NumberFromDigit(input, d);
    } else if IsPrefix(Needles[d + 8], input) {
      NeedlesPrefixFree(k, d + 8, input);
      NumberFromWord(input, d);
    } else {
      NumberFromNeedle(input, d + 1, k);
      NumberFromNeither(input, d);
    }
  }

  /** The needles of number `d` are the digit `d - 1` and the word `d + 8`. */
  lemma {:induction false} NeedleValueIs(k: nat, d: nat)
    requires k < |Needles| && 1 <= d <= 9
    ensures NeedleValue(k) == d <==> k == d - 1 || k == d + 8
  {
  }

  lemma {:induction false} NumberFromDigit(input: string, d: nat)
    requires 1 <= d <= 9 && IsPrefix(Needles[d - 1], input)
    ensures NumberFrom(input, d) == Success((input[|Needles[d - 1]|..], d))
  {
  }

  lemma {:induction false} NumberFromWord(input: string, d: nat)
    requires 1 <= d <= 9 && !IsPrefix(Needles[d - 1], input) && IsPrefix(Needles[d + 8], input)
    ensures NumberFrom(input, d) == Success((input[|Needles[d + 8]|..], d))
  {
  }

  lemma {:induction false} NumberFromNeither(input: string, d: nat)
    requires 1 <= d <= 9 && !IsPrefix(Needles[d - 1], input) && !IsPrefix(Needles[d + 8], input)
    ensures NumberFrom(input, d) == NumberFrom(input, d + 1)
  {
  }

  /** What the alternatives from `d` on find, a needle starts. */
  lemma {:induction false} NumberFromSound(input: string, d: nat)
    requires 1 <= d
    decreases 10 - d
    ensures var r := NumberFrom(input, d);
      r.Success? ==> IsPrefix(Needles[r.value.1 - 1], input) || IsPrefix(Needles[r.value.1 + 8], input)
  {
    if d <= 9 && !IsPrefix(Needles[d - 1], input) && !IsPrefix(Needles[d + 8], input) {
      NumberFromSound(input, d + 1);
    }
  }

  /** The alternatives from `d` on fail when no needle starts `input`. */
  lemma {:induction false} NumberFromNone(input: string, d: nat)
    requires 1 <= d
    requires forall k | 0 <= k < |Needles| :: !IsPrefix(Needles[k], input)
    decreases 10 - d
    ensures NumberFrom(input, d).Failure?
  {
    if d <= 9 {
      NumberFromNone(input, d + 1);
    }
  }

  /** `numberword` succeeds exactly on the inputs a needle starts, with that
      needle's number, after consuming it. */
  lemma {:induction false} NumberWordMeaning(input: string)
    ensures NumberWord(input).Success? <==> exists k | 0 <= k < |Needles| :: IsPrefix(Needles[k], input)
    ensures forall k | 0 <= k < |Needles| && IsPrefix(Needles[k], input) ::
      NumberWord(input) == Success((input[|Needles[k]|..], NeedleValue(k)))
  {
    forall k | 0 <= k < |Needles| && IsPrefix(Needles[k], input)
      ensures NumberWord(input) == Success((input[|Needles[k]|..], NeedleValue(k)))
    {
      NumberFromNeedle(input, 1, k);
    }
    if forall k | 0 <= k < |Needles| :: !IsPrefix(Needles[k], input) {
      NumberFromNone(input, 1);
    }
    NumberFromSound(input, 1);
  }

  /** Every needle is known to `numberword`: "All Needles are known". */
  lemma {:induction false} NeedlesKnown(k: nat)
    requires k < |Needles|
    ensures NumberWord(Needles[k]) == Success(("", NeedleValue(k)))
  {
    NumberWordMeaning(Needles[k]);
    assert IsPrefix(Needles[k], Needles[k]);
  }

  // ---------------------------------------------------------------------
  // `match_indices` and `rmatch_indices`

  /** The first occurrence of `needle` at or after `i`. */
  function FirstFrom(line: string, needle: string, i: nat): (r: Option<nat>)
    decreases |line| - i
    ensures r.Some? ==> i <= r.value && OccursAt(line, needle, r.value)
    ensures r.Some? ==> forall j | i <= j < r.value :: !OccursAt(line, needle, j)
    ensures r.None? ==> forall j | i <= j :: !OccursAt(line, needle, j)
  {
    if i + |needle| > |line| then None
    else if OccursAt(line, needle, i) then Some(i)
    else FirstFrom(line, needle, i + 1)
  }

  /** The first of `line.match_indices(needle)`, if any. */
  function FirstMatch(line: string, needle: string): (r: Option<nat>)
    ensures r.Some? ==> OccursAt(line, needle, r.value)
    ensures r.Some? ==> forall j | 0 <= j < r.value :: !OccursAt(line, needle, j)
    ensures r.None? ==> forall j :: !OccursAt(line, needle, j)
  {
    FirstFrom(line, needle, 0)
  }

  /** The last occurrence of `needle` at or before `i`. */
  function LastUpTo(line: string, needle: string, i: nat): (r: Option<nat>)
    ensures r.Some? ==> r.value <= i && OccursAt(line, needle, r.value)
    ensures r.Some? ==> forall j | r.value < j <= i :: !OccursAt(line, needle, j)
    ensures r.None? ==> forall j | 0 <= j <= i :: !OccursAt(line, needle, j)
  {
    if OccursAt(line, needle, i) then Some(i)
    else if i == 0 then None
    else LastUpTo(line, needle, i - 1)
  }

  /** The first of `line.rmatch_indices(needle)`, that is, the last
      occurrence, if any. */
  function LastMatch(line: string, needle: string): (r: Option<nat>)
    ensures r.Some? ==> OccursAt(line, needle, r.value)
    ensures r.Some? ==> forall j | r.value < j :: !OccursAt(line, needle, j)
    ensures r.None? ==> forall j :: !OccursAt(line, needle, j)
  {
    if |needle| > |line| then None
    else LastUpTo(line, needle, |line| - |needle|)
  }

  /** The `filter_map` over the needles with `match_indices`: each needle
      that occurs, named by its index, with its first position. */
  function FirstMatches(line: string, needles: seq<string>): (r: seq<(nat, nat)>)
    ensures forall e | e in r :: e.1 < |needles| && FirstMatch(line, needles[e.1]) == Some(e.0)
    ensures forall k | 0 <= k < |needles| && FirstMatch(line, needles[k]).Some? ::
      (FirstMatch(line, needles[k]).value, k) in r
  {
    if needles == [] then []
    else
      var n := |needles| - 1;
      var rest := FirstMatches(line, needles[..n]);
      assert forall k | 0 <= k < n :: needles[..n][k] == needles[k];
      match FirstMatch(line, needles[n])
      case Some(p) => rest + [(p, n)]
      case None => rest
  }

  /** The `filter_map` over the needles with `rmatch_indices`: each needle
      that occurs, named by its index, with its last position. */
  function LastMatches(line: string, needles: seq<string>): (r: seq<(nat, nat)>)
    ensures forall e | e in r :: e.1 < |needles| && LastMatch(line, needles[e.1]) == Some(e.0)
    ensures forall k | 0 <= k < |needles| && LastMatch(line, needles[k]).Some? ::
      (LastMatch(line, needles[k]).value, k) in r
  {
    if needles == [] then []
    else
      var n := |needles| - 1;
      var rest := LastMatches(line, needles[..n]);
      assert forall k | 0 <= k < n :: needles[..n][k] == needles[k];
      match LastMatch(line, needles[n])
      case Some(p) => rest + [(p, n)]
      case None => rest
  }

  /** `min_by_key` on the position: the first of the smallest. */
  function MinByKey(c: seq<(nat, nat)>): (r: Option<(nat, nat)>)
    ensures r.None? <==> c == []
    ensures r.Some? ==> r.value in c
    ensures r.Some? ==> forall e | e in c :: r.value.0 <= e.0
  {
    if c == [] then None
    else
      var n := |c| - 1;
      var rest := MinByKey(c[..n]);
      assert forall e | e in c[..n] :: e in c;
      assert forall j | 0 <= j < n :: c[..n][j] == c[j];
      if rest.Some? && rest.value.0 <= c[n].0 then rest else Some(c[n])
  }

  /** `max_by_key` on the position: the last of the largest. */
  function MaxByKey(c: seq<(nat, nat)>): (r: Option<(nat, nat)>)
    ensures r.None? <==> c == []
    ensures r.Some? ==> r.value in c
    ensures r.Some? ==> forall e | e in c :: e.0 <= r.value.0
  {
    if c == [] then None
    else
      var n := |c| - 1;
      var rest := MaxByKey(c[..n]);
      assert forall e | e in c[..n] :: e in c;
      assert forall j | 0 <= j < n :: c[..n][j] == c[j];
      if rest.Some? && rest.value.0 > c[n].0 then rest else Some(c[n])
  }

  /** The tie-breaking of `min_by_key`: the pick comes before every other
      entry with the same position. */
  lemma {:induction false} MinByKeyFirst(c: seq<(nat, nat)>)
    ensures var r := MinByKey(c);
      r.Some? ==> exists i | 0 <= i < |c| :: c[i] == r.value && forall j | 0 <= j < i :: c[j].0 > r.value.0
  {
    if c != [] {
      var i := MinIndex(c);
      MinByKeyAt(c);
    }
  }

  /** Where `min_by_key` picks from: the first entry no other entry is
      below. */
  function MinIndex(c: seq<(nat, nat)>): (i: nat)
    requires c != []
    ensures i < |c|
    ensures forall j | 0 <= j < i :: c[j].0 > c[i].0
    ensures forall j | 0 <= j < |c| :: c[i].0 <= c[j].0
  {
    var n := |c| - 1;
    if n == 0 then 0
    else
      var i := MinIndex(c[..n]);
      assert c[..n][i] == c[i];
      assert forall j | 0 <= j < n :: c[..n][j] == c[j];
      if c[i].0 <= c[n].0 then i else n
  }

  lemma {:induction false} MinByKeyAt(c: seq<(nat, nat)>)
    requires c != []
    ensures MinByKey(c) == Some(c[MinIndex(c)])
  {
    var n := |c| - 1;
    if n > 0 {
      MinByKeyAt(c[..n]);
      assert c[..n][MinIndex(c[..n])] == c[MinIndex(c[..n])];
    }
  }


  /** The tie-breaking of `max_by_key`: the pick comes after every other
      entry with the same position. */
  lemma {:induction false} MaxByKeyLast(c: seq<(nat, nat)>)
    ensures var r := MaxByKey(c);
      r.Some? ==> exists i | 0 <= i < |c| :: c[i] == r.value && forall j | i < j < |c| :: c[j].0 < r.value.0
  {
    if c != [] {
      var i := MaxIndex(c);
      MaxByKeyAt(c);
    }
  }

  /** Where `max_by_key` picks from: the last entry no other entry is
      above. */
  function MaxIndex(c: seq<(nat, nat)>): (i: nat)
    requires c != []
    ensures i < |c|
    ensures forall j | i < j < |c| :: c[j].0 < c[i].0
  {
    var n := |c| - 1;
    if n == 0 then 0
    else
      var i := MaxIndex(c[..n]);
      assert c[..n][i] == c[i];
      assert forall j | 0 <= j < n :: c[..n][j] == c[j];
      if c[i].0 > c[n].0 then i else n
  }

  lemma {:induction false} MaxByKeyAt(c: seq<(nat, nat)>)
    requires c != []
    ensures MaxByKey(c) == Some(c[MaxIndex(c)])
  {
    var n := |c| - 1;
    if n > 0 {
      MaxByKeyAt(c[..n]);
      assert c[..n][MaxIndex(c[..n])] == c[MaxIndex(c[..n])];
    }
  }


  /** The numbers of the two picked needles, times ten and plus; no pick
      panics. An unknown needle would panic too, but every needle is known,
      so that branch is left out. */
  function Pick(left: Option<(nat, nat)>, right: Option<(nat, nat)>): (r: Result<nat>)
    requires left.Some? ==> left.value.1 < |Needles|
    requires right.Some? ==> right.value.1 < |Needles|
    ensures r.Failure? <==> left.None? || right.None?
    ensures r.Success? ==> r.value == 10 * NeedleValue(left.value.1) + NeedleValue(right.value.1)
  {
    if left.None? || right.None? then Failure("there should be at least one number")
    else
      NeedlesKnown(left.value.1);
      NeedlesKnown(right.value.1);
      var l := NumberWord(Needles[left.value.1]).value;
      var r := NumberWord(Needles[right.value.1]).value;
      Success(10 * l.1 + r.1)
  }

  /** `parse_line`: the number of the leftmost needle, times ten, plus the
      number of the rightmost one; a line without a needle panics. */
  function ParseLine(line: string): (r: Result<nat>)
    ensures r.Success? ==> 11 <= r.value <= 99
  {
    Pick(MinByKey(FirstMatches(line, Needles)), MaxByKey(LastMatches(line, Needles)))
  }

  // ---------------------------------------------------------------------
  // A reference reading: scan the positions of the line

  /** Some number starts at position `p`. */
  predicate NumberAt(line: string, p: nat) {
    p <= |line| && NumberWord(line[p..]).Success?
  }

  /** The first position at or after `i` where a number starts. */
  function FirstNumber(line: string, i: nat): (r: Option<nat>)
    ensures r.Some? ==> i <= r.value && NumberAt(line, r.value)
    ensures r.Some? ==> forall j | i <= j < r.value :: !NumberAt(line, j)
    ensures r.None? ==> forall j | i <= j :: !NumberAt(line, j)
  {
    var starts := (p: nat) => NumberAt(line, p);
    assert forall j: nat :: starts(j) == NumberAt(line, j);
    FirstWhere(starts, i, |line|)
  }

  /** The first position from `i` to `hi` where `starts` holds. */
  function FirstWhere(starts: nat -> bool, i: nat, hi: nat): (r: Option<nat>)
    decreases hi - i
    ensures r.Some? ==> i <= r.value <= hi && starts(r.value)
    ensures r.Some? ==> forall j | i <= j < r.value :: !starts(j)
    ensures r.None? ==> forall j | i <= j <= hi :: !starts(j)
  {
    if i > hi then None
    else if starts(i) then Some(i)
    else FirstWhere(starts, i + 1, hi)
  }

  /** The last position at or before `i` where `starts` holds. */
  function LastWhere(starts: nat -> bool, i: nat): (r: Option<nat>)
    ensures r.Some? ==> r.value <= i && starts(r.value)
    ensures r.Some? ==> forall j | r.value < j <= i :: !starts(j)
    ensures r.None? ==> forall j | 0 <= j <= i :: !starts(j)
  {
    if starts(i) then Some(i)
    else if i == 0 then None
    else LastWhere(starts, i - 1)
  }

  /** The last position at or before `i` where a number starts. */
  function LastNumber(line: string, i: nat): (r: Option<nat>)
    ensures r.Some? ==> r.value <= i && NumberAt(line, r.value)
    ensures r.Some? ==> forall j | r.value < j <= i :: !NumberAt(line, j)
    ensures r.None? ==> forall j | 0 <= j <= i :: !NumberAt(line, j)
  {
    var starts := (p: nat) => NumberAt(line, p);
    assert forall j: nat :: starts(j) == NumberAt(line, j);
    LastWhere(starts, i)
  }

  /** The calibration value read by scanning: the number at the first
      position where one starts, and the number at the last such position. */
  function Calibration(line: string): Option<nat> {
    match (FirstNumber(line, 0), LastNumber(line, |line|))
    case (Some(first), Some(last)) => Some(10 * NumberWord(line[first..]).value.1 + NumberWord(line[last..]).value.1)
    case _ => None
  }

  /** A number starts at `p` exactly when a needle occurs there. */
  lemma {:induction false} NumberAtIffOccurs(line: string, p: nat)
    ensures NumberAt(line, p) <==> exists k | 0 <= k < |Needles| :: OccursAt(line, Needles[k], p)
  {
    if p <= |line| {
      NumberWordMeaning(line[p..]);
    }
  }

  /** Every occurrence of a needle bounds the position `min_by_key` picks. */
  lemma {:induction false} LeftmostBelow(line: string, k: nat, q: nat)
    requires k < |Needles|
    ensures var m := MinByKey(FirstMatches(line, Needles));
      OccursAt(line, Needles[k], q) ==> m.Some? && m.value.0 <= q
  {
    var m := FirstMatch(line, Needles[k]);
    if m.Some? {
      assert (m.value, k) in FirstMatches(line, Needles);
    }
  }

  /** Every occurrence of a needle bounds the position `max_by_key` picks. */
  lemma {:induction false} RightmostAbove(line: string, k: nat, q: nat)
    requires k < |Needles|
    ensures var m := MaxByKey(LastMatches(line, Needles));
      OccursAt(line, Needles[k], q) ==> m.Some? && q <= m.value.0
  {
    var m := LastMatch(line, Needles[k]);
    if m.Some? {
      assert (m.value, k) in LastMatches(line, Needles);
    }
  }

  /** No number starts before the position `min_by_key` picks, nor anywhere
      when it picks nothing. */
  lemma {:induction false} NothingBeforeLeftmost(line: string, q: nat)
    ensures var m := MinByKey(FirstMatches(line, Needles));
      NumberAt(line, q) ==> m.Some? && m.value.0 <= q
  {
    NumberAtIffOccurs(line, q);
    forall k | 0 <= k < |Needles| {
      LeftmostBelow(line, k, q);
    }
  }

  /** No number starts after the position `max_by_key` picks, nor anywhere
      when it picks nothing. */
  lemma {:induction false} NothingAfterRightmost(line: string, q: nat)
    ensures var m := MaxByKey(LastMatches(line, Needles));
      NumberAt(line, q) ==> m.Some? && q <= m.value.0
  {
    NumberAtIffOccurs(line, q);
    forall k | 0 <= k < |Needles| {
      RightmostAbove(line, k, q);
    }
  }

  /** The scan from the start stops at the first position where a number
      starts. */
  lemma {:induction false} FirstNumberIs(line: string, p: nat)
    requires NumberAt(line, p) && forall q: nat | q < p :: !NumberAt(line, q)
    ensures FirstNumber(line, 0) == Some(p)
  {
    var f := FirstNumber(line, 0);
    assert f.Some? && !(f.value < p) && !(p < f.value);
  }

  /** The scan from the start finds nothing on a line where no number
      starts. */
  lemma {:induction false} FirstNumberNone(line: string)
    requires forall q :: !NumberAt(line, q)
    ensures FirstNumber(line, 0).None?
  {
  }

  /** The scan from the end stops at the last position where a number
      starts. */
  lemma {:induction false} LastNumberIs(line: string, p: nat)
    requires NumberAt(line, p) && forall q | p < q :: !NumberAt(line, q)
    ensures LastNumber(line, |line|) == Some(p)
  {
    var l := LastNumber(line, |line|);
    assert p <= |line|;
    assert l.Some? && !(l.value < p) && !(p < l.value);
  }

  /** The scan from the end finds nothing on a line where no number
      starts. */
  lemma {:induction false} LastNumberNone(line: string)
    requires forall q :: !NumberAt(line, q)
    ensures LastNumber(line, |line|).None?
  {
  }

  /** The needle `min_by_key` picks occurs where it is said to. */
  lemma {:induction false} LeftmostOccurs(line: string)
    ensures var m := MinByKey(FirstMatches(line, Needles));
      m.Some? ==> m.value.1 < |Needles| && OccursAt(line, Needles[m.value.1], m.value.0) && NumberAt(line, m.value.0)
  {
    var m := MinByKey(FirstMatches(line, Needles));
    if m.Some? {
      assert m.value in FirstMatches(line, Needles);
      NumberAtIffOccurs(line, m.value.0);
    }
  }

  /** The needle `min_by_key` picks occurs at the first position where any
      needle does, and none occurs at all when it picks nothing. */
  lemma {:induction false} LeftmostNeedle(line: string)
    ensures var m := MinByKey(FirstMatches(line, Needles));
      (m.None? <==> FirstNumber(line, 0).None?) &&
      (m.Some? ==> m.value.1 < |Needles| && FirstNumber(line, 0) == Some(m.value.0) && OccursAt(line, Needles[m.value.1], m.value.0))
  {
    var m := MinByKey(FirstMatches(line, Needles));
    LeftmostOccurs(line);
    if m.Some? {
      forall q: nat | q < m.value.0
        ensures !NumberAt(line, q)
      {
        NothingBeforeLeftmost(line, q);
      }
      FirstNumberIs(line, m.value.0);
    } else {
      forall q
        ensures !NumberAt(line, q)
      {
        NothingBeforeLeftmost(line, q);
      }
      FirstNumberNone(line);
    }
  }

  /** The needle `max_by_key` picks occurs where it is said to. */
  lemma {:induction false} RightmostOccurs(line: string)
    ensures var m := MaxByKey(LastMatches(line, Needles));
      m.Some? ==> m.value.1 < |Needles| && OccursAt(line, Needles[m.value.1], m.value.0) && NumberAt(line, m.value.0)
  {
    var m := MaxByKey(LastMatches(line, Needles));
    if m.Some? {
      assert m.value in LastMatches(line, Needles);
      NumberAtIffOccurs(line, m.value.0);
    }
  }

  /** The needle `max_by_key` picks occurs at the last position where any
      needle does, and none occurs at all when it picks nothing. */
  lemma {:induction false} RightmostNeedle(line: string)
    ensures var m := MaxByKey(LastMatches(line, Needles));
      (m.None? <==> LastNumber(line, |line|).None?) &&
      (m.Some? ==> m.value.1 < |Needles| && LastNumber(line, |line|) == Some(m.value.0) && OccursAt(line, Needles[m.value.1], m.value.0))
  {
    var m := MaxByKey(LastMatches(line, Needles));
    RightmostOccurs(line);
    if m.Some? {
      forall q | m.value.0 < q
        ensures !NumberAt(line, q)
      {
        NothingAfterRightmost(line, q);
      }
      LastNumberIs(line, m.value.0);
    } else {
      forall q
        ensures !NumberAt(line, q)
      {
        NothingAfterRightmost(line, q);
      }
      LastNumberNone(line);
    }
  }

  /** The number of the needle that occurs at `p` is the number read at
      `p`. */
  lemma {:induction false} PickedValue(line: string, k: nat, p: nat)
    requires k < |Needles| && OccursAt(line, Needles[k], p)
    ensures NumberAt(line, p) && NumberWord(line[p..]).value.1 == NeedleValue(k)
  {
    NumberWordMeaning(line[p..]);
  }

  /** A number starts somewhere exactly when there is a first and a last
      such position. */
  lemma {:induction false} FirstAndLastNumber(line: string)
    ensures FirstNumber(line, 0).None? <==> LastNumber(line, |line|).None?
  {
    var f := FirstNumber(line, 0);
    var l := LastNumber(line, |line|);
    if f.Some? {
      assert f.value <= |line|;
    }
    if l.Some? {
      assert 0 <= l.value;
    }
  }

  /** `parse_line` agrees with the scan: it fails exactly on a line where
      no number starts, and otherwise reads the first and the last number
      of the line, overlapping words included. */
  lemma {:induction false} ParseLineIsCalibration(line: string)
    ensures ParseLine(line).Failure? <==> Calibration(line).None?
    ensures ParseLine(line).Success? ==> ParseLine(line).value == Calibration(line).value
  {
    LeftmostNeedle(line);
    RightmostNeedle(line);
    FirstAndLastNumber(line);
    var left := MinByKey(FirstMatches(line, Needles));
    var right := MaxByKey(LastMatches(line, Needles));
    if left.Some? && right.Some? {
      PickedValue(line, left.value.1, left.value.0);
      PickedValue(line, right.value.1, right.value.0);
      PickBoth(line, left.value, right.value);
    }
  }

  /** Two picked needles whose numbers are the numbers read at the first
      and the last position give the calibration value. */
  lemma {:induction false} PickBoth(line: string, left: (nat, nat), right: (nat, nat))
    requires left.1 < |Needles| && right.1 < |Needles|
    requires FirstNumber(line, 0) == Some(left.0) && LastNumber(line, |line|) == Some(right.0)
    requires NumberWord(line[left.0..]).value.1 == NeedleValue(left.1)
    requires NumberWord(line[right.0..]).value.1 == NeedleValue(right.1)
    ensures Calibration(line) == Some(10 * NeedleValue(left.1) + NeedleValue(right.1))
  {
    CalibrationAt(line, left.0, right.0);
  }

  lemma {:induction false} CalibrationAt(line: string, first: nat, last: nat)
    requires FirstNumber(line, 0) == Some(first) && LastNumber(line, |line|) == Some(last)
    ensures Calibration(line) == Some(10 * NumberWord(line[first..]).value.1 + NumberWord(line[last..]).value.1)
  {
  }

  /** The `sum` of the line values, in order; the first line that panics
      ends it. */
  function Sum(values: seq<Result<nat>>): (r: Result<nat>)
    requires forall i | 0 <= i < |values| :: values[i].Success? ==> 11 <= values[i].value <= 99
    ensures r.Failure? <==> exists i | 0 <= i < |values| :: values[i].Failure?
    ensures r.Success? ==> 11 * |values| <= r.value <= 99 * |values|
  {
    if values == [] then Success(0)
    else
      var n := |values| - 1;
      assert forall i | 0 <= i < n :: values[..n][i] == values[i];
      match (Sum(values[..n]), values[n])
      case (Success(sum), Success(v)) => Success(sum + v)
      case (Failure(e), _) => Failure(e)
      case (_, Failure(e)) => Failure(e)
  }

  /** `process_part2`: the value of every line, summed. */
  function ProcessPart2(lines: seq<string>): (r: Result<nat>)
    ensures r.Failure? <==> exists l | 0 <= l < |lines| :: ParseLine(lines[l]).Failure?
    ensures r.Success? ==> 11 * |lines| <= r.value <= 99 * |lines|
  {
    var values := seq(|lines|, l requires 0 <= l < |lines| => ParseLine(lines[l]));
    assert forall l | 0 <= l < |lines| :: values[l] == ParseLine(lines[l]);
    Sum(values)
  }

  /** "eighthree" starts with an eight. */
  lemma {:induction false} ExampleOverlapFirst()
    ensures FirstNumber("eighthree", 0) == Some(0) && NumberWord("eighthree"[0..]).value.1 == 8
  {
    var line := "eighthree";
    assert OccursAt(line, Needles[16], 0);
    PickedValue(line, 16, 0);
    FirstNumberIs(line, 0);
  }

  /** "eighthree" ends with a three that shares its "t" with the eight. */
  lemma {:induction false} ExampleOverlapLast()
    ensures LastNumber("eighthree", 9) == Some(4) && NumberWord("eighthree"[4..]).value.1 == 3
  {
    var line := "eighthree";
    assert OccursAt(line, Needles[11], 4);
    PickedValue(line, 11, 4);
    forall p: nat | 4 < p
      ensures !NumberAt(line, p)
    {
      NumberAtIffOccurs(line, p);
      NoNeedleInTail(line, p);
    }
    LastNumberIs(line, 4);
  }

  /** "eighthree" is worth 83. */
  lemma {:induction false} ExampleOverlap()
    ensures ParseLine("eighthree") == Success(83)
  {
    ParseLineIsCalibration("eighthree");
    ExampleOverlapFirst();
    ExampleOverlapLast();
  }

  /** The first characters of the needles; the only one starting with
      "e" is "eight". */
  lemma {:induction false} NeedleHead(k: nat)
    requires k < |Needles|
    ensures |Needles[k]| >= 1 && Needles[k][0] in "123456789otfsen"
    ensures Needles[k][0] == 'e' ==> |Needles[k]| == 5
  {
  }

  /** No needle starts a string that starts with none of their first
      characters, or with an "e" too short to be "eight". */
  lemma {:induction false} NoNeedleStarts(s: string)
    requires s == [] || s[0] !in "123456789otfsen" || (s[0] == 'e' && |s| < 5)
    ensures forall k | 0 <= k < |Needles| :: !IsPrefix(Needles[k], s)
  {
    forall k | 0 <= k < |Needles|
      ensures !IsPrefix(Needles[k], s)
    {
      NeedleHead(k);
    }
  }

  /** No needle occurs in "eighthree" after the "three". */
  lemma {:induction false} NoNeedleInTail(line: string, p: nat)
    requires line == "eighthree" && 4 < p
    ensures forall k | 0 <= k < |Needles| :: !OccursAt(line, Needles[k], p)
  {
    if p <= |line| {
      assert line[p..] == [] || line[p..][0] in "hre";
      NoNeedleStarts(line[p..]);
    }
  }
}
