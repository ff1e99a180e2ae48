/** Text helpers shared by the puzzles: splitting a line at a separator
    the way `str::split` does, joining pieces, and reading unsigned decimal
    numbers the way `str::parse` does. */
module Text {
  import opened Wrappers

  // ---------------------------------------------------------------------
  // Splitting and joining text

  /** The pieces between the separators, as `str::split` yields them: a
      text with `n` separators has `n + 1` pieces, possibly empty. */
  function Split(s: string, sep: char): (parts: seq<string>)
    ensures |parts| >= 1
    decreases |s|
  {
    if s == [] then [""]
    else if s[0] == sep then [""] + Split(s[1..], sep)
    else
      var rest := Split(s[1..], sep);
      [[s[0]] + rest[0]] + rest[1..]
  }

  /** The pieces with the separator between neighbours. */
  function Join(parts: seq<string>, sep: char): (s: string)
    requires |parts| >= 1
    decreases |parts|
  {
    if |parts| == 1 then parts[0] else parts[0] + [sep] + Join(parts[1..], sep)
  }

  lemma {:induction false} SplitFree(s: string, sep: char)
    requires sep !in s
    ensures Split(s, sep) == [s]
    decreases |s|
  {
    if s != [] {
      assert s[0] != sep && sep !in s[1..] by {
        assert s[0] in s;
        assert forall c | c in s[1..] :: c in s;
      }
      SplitFree(s[1..], sep);
      assert [s[0]] + s[1..] == s;
    }
  }

  /** Splitting at a separator between two texts splits each of them. */
  lemma {:induction false} SplitAppend(a: string, b: string, sep: char)
    ensures Split(a + [sep] + b, sep) == Split(a, sep) + Split(b, sep)
    decreases |a|
  {
    var whole := a + [sep] + b;
    if a == [] {
      assert whole[0] == sep && whole[1..] == b;
    } else {
      assert whole[0] == a[0] && whole[1..] == a[1..] + [sep] + b;
      SplitAppend(a[1..], b, sep);
      var r := Split(a[1..], sep) + Split(b, sep);
      if a[0] != sep {
        assert r[0] == Split(a[1..], sep)[0];
        assert r[1..] == Split(a[1..], sep)[1..] + Split(b, sep);
      }
    }
  }

  /** Joining pieces free of the separator and splitting again gives the
      pieces back. */
  lemma {:induction false} SplitJoin(parts: seq<string>, sep: char)
    requires |parts| >= 1 && forall i | 0 <= i < |parts| :: sep !in parts[i]
    ensures Split(Join(parts, sep), sep) == parts
    decreases |parts|
  {
    SplitFree(parts[0], sep);
    if |parts| > 1 {
      SplitJoin(parts[1..], sep);
      SplitAppend(parts[0], Join(parts[1..], sep), sep);
      assert [parts[0]] + parts[1..] == parts;
    }
  }

  // ---------------------------------------------------------------------
  // Reading numbers

  predicate IsDigit(c: char) {
    '0' <= c <= '9'
  }

  function DigitsValue(s: string): nat
    requires forall i | 0 <= i < |s| :: IsDigit(s[i])
  {
    if s == [] then 0
    else
      assert IsDigit(s[|s| - 1]);
      10 * DigitsValue(s[..|s| - 1]) + (s[|s| - 1] as int - '0' as int)
  }

  /** `usize::from_str`: an optional `+` and at least one decimal digit. */
  function ParseNat(s: string): (r: Result<nat>)
    ensures r.Success? ==> s != []
  {
    var digits := if s != [] && s[0] == '+' then s[1..] else s;
    if digits != [] && forall i | 0 <= i < |digits| :: IsDigit(digits[i]) then Success(DigitsValue(digits))
    else Failure("parseable")
  }

  /** `i32::from_str`: an optional `+` or `-` and at least one decimal digit. */
  function ParseInt(s: string): (r: Result<int>)
    ensures r.Success? ==> s != []
  {
    var negative := s != [] && s[0] == '-';
    var digits := if s != [] && (s[0] == '+' || s[0] == '-') then s[1..] else s;
    if digits != [] && forall i | 0 <= i < |digits| :: IsDigit(digits[i]) then
      var v: int := DigitsValue(digits);
      Success(if negative then -v else v)
    else Failure("parseable")
  }
}
