/** Day 12, part 2: count the arrangements of damaged springs `#` and
    operational springs `.` that fill the unknown positions `?` of a
    condition record so that the runs of damaged springs have the listed
    sizes. Each record is first unfolded: five copies joined by `?`, and
    five copies of the size list. */
module Day12Part2 {
  import opened Wrappers
  import opened Text

  // ---------------------------------------------------------------------
  // Unfolding

  function Repeat(s: string, n: nat): (r: seq<string>)
    ensures |r| == n && forall i | 0 <= i < n :: r[i] == s
  {
    seq(n, _ => s)
  }

  // ---------------------------------------------------------------------
  // Reading a line

  /** Every piece parsed as a number, the first failure aborting. */
  function ParseNats(pieces: seq<string>): (r: Result<seq<nat>>)
    ensures r.Success? ==> (|r.value| == |pieces|
      && forall i | 0 <= i < |pieces| :: ParseNat(pieces[i]) == Success(r.value[i]))
    ensures r.Failure? ==> exists i | 0 <= i < |pieces| :: ParseNat(pieces[i]).Failure?
  {
    if pieces == [] then Success([])
    else
      match ParseNat(pieces[0])
      case Failure(e) => Failure(e)
      case Success(n) =>
        match ParseNats(pieces[1..])
        case Failure(e) => Failure(e)
        case Success(ns) => Success([n] + ns)
  }

  lemma {:induction false} ParseNatsAppend(a: seq<string>, b: seq<string>)
    requires ParseNats(a).Success? && ParseNats(b).Success?
    ensures ParseNats(a + b) == Success(ParseNats(a).value + ParseNats(b).value)
  {
    var ns := ParseNats(a).value + ParseNats(b).value;
    assert forall i | 0 <= i < |a + b| :: ParseNat((a + b)[i]) == Success(ns[i]) by {
      forall i | 0 <= i < |a + b| ensures ParseNat((a + b)[i]) == Success(ns[i]) {
        if i >= |a| {
          assert (a + b)[i] == b[i - |a|];
        }
      }
    }
    ParseNatsPointwise(a + b, ns);
  }

  lemma {:induction false} ParseNatsPointwise(pieces: seq<string>, ns: seq<nat>)
    requires |ns| == |pieces| && forall i | 0 <= i < |pieces| :: ParseNat(pieces[i]) == Success(ns[i])
    ensures ParseNats(pieces) == Success(ns)
    decreases |pieces|
  {
    if pieces != [] {
      ParseNatsPointwise(pieces[1..], ns[1..]);
      assert [ns[0]] + ns[1..] == ns;
    }
  }

  /** `line_parser`: the record before the first space and the sizes after
      it, separated by commas; fewer than two space-separated pieces or a
      size that is not a number panic. */
  function LineParser(input: string): (r: Result<(string, seq<nat>)>)
    ensures r.Success? <==> |Split(input, ' ')| >= 2 && ParseNats(Split(Split(input, ' ')[1], ',')).Success?
    ensures r.Success? ==> r.value.0 == Split(input, ' ')[0]
  {
    var pieces := Split(input, ' ');
    if |pieces| < 2 then Failure("exactly one")
    else
      match ParseNats(Split(pieces[1], ','))
      case Failure(e) => Failure(e)
      case Success(nums) => Success((pieces[0], nums))
  }

  /** `unfold`: five copies of the record joined by `?`, a space, five
      copies of the size list joined by `,`; a line without a space
      panics. */
  function Unfold(input: string): (r: Result<string>)
    ensures r.Success? <==> |Split(input, ' ')| >= 2
  {
    var parts := Split(input, ' ');
    if |parts| < 2 then Failure("index out of bounds")
    else Success(Join(Repeat(parts[0], 5), '?') + " " + Join(Repeat(parts[1], 5), ','))
  }

  lemma {:induction false} JoinFree(parts: seq<string>, sep: char, c: char)
    requires |parts| >= 1 && c != sep && forall i | 0 <= i < |parts| :: c !in parts[i]
    ensures c !in Join(parts, sep)
    decreases |parts|
  {
    if |parts| > 1 {
      JoinFree(parts[1..], sep, c);
    }
  }

  /** Splitting five copies of a size list joined by commas gives five
      copies of its pieces. */
  lemma {:induction false} SplitRepeated(g: string, n: nat)
    requires n >= 1
    ensures Split(Join(Repeat(g, n), ','), ',') == RepeatPieces(Split(g, ','), n)
    decreases n
  {
    if n > 1 {
      SplitRepeated(g, n - 1);
      assert Repeat(g, n)[1..] == Repeat(g, n - 1);
      SplitAppend(g, Join(Repeat(g, n - 1), ','), ',');
    }
  }

  function RepeatPieces<T>(s: seq<T>, n: nat): (r: seq<T>)
    ensures |r| == n * |s|
  {
    if n == 0 then [] else s + RepeatPieces(s, n - 1)
  }

  lemma {:induction false} ParseRepeated(pieces: seq<string>, n: nat)
    requires ParseNats(pieces).Success?
    ensures ParseNats(RepeatPieces(pieces, n)) == Success(RepeatPieces(ParseNats(pieces).value, n))
    decreases n
  {
    if n > 0 {
      ParseRepeated(pieces, n - 1);
      ParseNatsAppend(pieces, RepeatPieces(pieces, n - 1));
    }
  }

  /** Unfolding a well-formed line and reading it back gives the record
      five times joined by `?` and the size list five times over. */
  lemma {:induction false} UnfoldThenParse(record: string, sizes: string)
    requires ' ' !in record && ' ' !in sizes
    requires LineParser(record + " " + sizes).Success?
    ensures Unfold(record + " " + sizes).Success?
    ensures var nums := LineParser(record + " " + sizes).value.1;
      LineParser(Unfold(record + " " + sizes).value)
        == Success((Join(Repeat(record, 5), '?'), RepeatPieces(nums, 5)))
  {
    SplitAppend(record, sizes, ' ');
    SplitFree(record, ' ');
    SplitFree(sizes, ' ');
    assert Split(record + " " + sizes, ' ') == [record, sizes];
    var left, right := Join(Repeat(record, 5), '?'), Join(Repeat(sizes, 5), ',');
    JoinFree(Repeat(record, 5), '?', ' ');
    JoinFree(Repeat(sizes, 5), ',', ' ');
    SplitAppend(left, right, ' ');
    SplitFree(left, ' ');
    SplitFree(right, ' ');
    assert Split(left + " " + right, ' ') == [left, right];
    SplitRepeated(sizes, 5);
    ParseRepeated(Split(sizes, ','), 5);
  }

  // ---------------------------------------------------------------------
  // Counting arrangements

  function Min(a: nat, b: nat): nat {
    if a < b then a else b
  }

  /** `count`: the arrangements of `input` whose damaged runs are `nums`.
      The first character is either taken as operational (`.` or `?`), or
      starts a run of `nums[0]` damaged springs (`#` or `?`) that fits,
      contains no `.` and is not followed by another `#`; that run and the
      character after it are skipped. */
  function Count(input: string, nums: seq<nat>): nat
    decreases |input|
  {
    if input == [] then (if nums == [] then 1 else 0)
    else if nums == [] then (if '#' in input then 0 else 1)
    else
      var n := nums[0];
      (if input[0] == '.' || input[0] == '?' then Count(input[1..], nums) else 0)
      + (if (input[0] == '#' || input[0] == '?') && n <= |input| && '.' !in input[..n]
            && (n == |input| || input[n] != '#')
         then Count(input[Min(n + 1, |input|)..], nums[1..])
         else 0)
  }

  /** A record with every spring known. */
  predicate Known(s: string) {
    forall i | 0 <= i < |s| :: s[i] == '#' || s[i] == '.'
  }

  /** Leading damaged springs. */
  function LeadRun(s: string): (k: nat)
    ensures k <= |s| && (forall i | 0 <= i < k :: s[i] == '#') && (k < |s| ==> s[k] != '#')
  {
    if s == [] || s[0] != '#' then 0 else 1 + LeadRun(s[1..])
  }

  /** The sizes of the maximal runs of damaged springs, left to right. */
  function Groups(s: string): seq<nat>
    decreases |s|
  {
    if s == [] then []
    else if s[0] != '#' then Groups(s[1..])
    else
      var k := LeadRun(s);
      [k] + Groups(s[k..])
  }

  lemma {:induction false} GroupsEmpty(s: string)
    ensures Groups(s) == [] <==> '#' !in s
    decreases |s|
  {
    if s != [] && s[0] != '#' {
      GroupsEmpty(s[1..]);
      assert s == [s[0]] + s[1..];
    }
  }

  lemma {:induction false} LeadRunConcat(a: string, b: string)
    ensures LeadRun(a + b) == if LeadRun(a) < |a| then LeadRun(a) else |a| + LeadRun(b)
    decreases |a|
  {
    if a == [] {
      assert a + b == b;
    } else {
      assert (a + b)[0] == a[0] && (a + b)[1..] == a[1..] + b;
      if a[0] == '#' {
        LeadRunConcat(a[1..], b);
      }
    }
  }

  /** Gluing two texts whose runs do not touch glues their run lists. */
  lemma {:induction false} GroupsConcat(a: string, b: string)
    requires a == [] || a[|a| - 1] != '#' || b == [] || b[0] != '#'
    ensures Groups(a + b) == Groups(a) + Groups(b)
    decreases |a|
  {
    if a == [] {
      assert a + b == b;
    } else if a[0] != '#' {
      assert (a + b)[0] == a[0] && (a + b)[1..] == a[1..] + b;
      GroupsConcat(a[1..], b);
    } else {
      var k := LeadRun(a);
      LeadRunConcat(a, b);
      if k < |a| {
        assert (a + b)[k..] == a[k..] + b;
        GroupsConcat(a[k..], b);
      } else {
        assert (a + b)[k..] == b;
        assert a[k..] == [];
      }
    }
  }

  /** `n` damaged springs in a row. */
  function Hashes(n: nat): (s: string)
    ensures |s| == n && forall i | 0 <= i < n :: s[i] == '#'
  {
    seq(n, _ => '#')
  }

  lemma {:induction false} LeadRunHashes(n: nat)
    ensures LeadRun(Hashes(n)) == n
  {
    if n > 0 {
      LeadRunHashes(n - 1);
      assert Hashes(n)[1..] == Hashes(n - 1);
    }
  }

  lemma {:induction false} GroupsHashes(n: nat)
    ensures Groups(Hashes(n)) == if n == 0 then [] else [n]
  {
    if n > 0 {
      var h := Hashes(n);
      LeadRunHashes(n);
      assert h[n..] == [];
    }
  }

  /** In a known record a run of `n` fits at the start exactly when the
      record starts with a run of exactly `n` damaged springs. */
  lemma {:induction false} RunFitsKnown(s: string, n: nat)
    requires Known(s) && s != [] && s[0] == '#'
    ensures (n <= |s| && '.' !in s[..n] && (n == |s| || s[n] != '#')) <==> n == LeadRun(s)
  {
    var k := LeadRun(s);
    if n < k {
      assert s[n] == '#';
    } else if k < n <= |s| {
      assert s[..n][k] == s[k] == '.';
    }
    if n == k {
      assert forall i | 0 <= i < n :: s[..n][i] == '#';
    }
  }

  /** On a record with no unknown spring `count` is 1 exactly when its
      damaged runs are the sizes listed, and 0 otherwise. */
  lemma {:induction false} CountKnown(s: string, nums: seq<nat>)
    requires Known(s)
    ensures Count(s, nums) == if Groups(s) == nums then 1 else 0
    decreases |s|
  {
    if s == [] {
    } else if nums == [] {
      GroupsEmpty(s);
    } else if s[0] == '.' {
      CountKnown(s[1..], nums);
    } else {
      var rest := s[Min(LeadRun(s) + 1, |s|)..];
      assert Known(rest) by {
        forall i | 0 <= i < |rest| ensures rest[i] == s[i + Min(LeadRun(s) + 1, |s|)] { }
      }
      CountKnown(rest, nums[1..]);
      CountKnownRun(s, nums);
    }
  }

  /** The step of `CountKnown` for a record that opens with a run. */
  lemma {:induction false} CountKnownRun(s: string, nums: seq<nat>)
    requires Known(s) && s != [] && s[0] == '#' && nums != []
    requires var rest := s[Min(LeadRun(s) + 1, |s|)..];
      Count(rest, nums[1..]) == if Groups(rest) == nums[1..] then 1 else 0
    ensures Count(s, nums) == if Groups(s) == nums then 1 else 0
  {
    var k, n := LeadRun(s), nums[0];
    RunFitsKnown(s, n);
    var rest := s[Min(k + 1, |s|)..];
    if k < |s| {
      assert s[k..][0] == '.' && s[k..][1..] == rest;
    } else {
      assert s[k..] == rest;
    }
    assert Groups(s) == [k] + Groups(rest);
    if Groups(s) == nums {
      assert nums == [nums[0]] + nums[1..];
    }
  }

  /** Every arrangement has at least one spring per damaged run plus a
      separator between neighbouring runs. */
  function Needed(nums: seq<nat>): nat {
    if nums == [] then 0 else nums[0] + (if |nums| > 1 then 1 else 0) + Needed(nums[1..])
  }

  /** A record too short for the runs has no arrangement. */
  lemma {:induction false} CountTooShort(s: string, nums: seq<nat>)
    requires |s| < Needed(nums)
    ensures Count(s, nums) == 0
    decreases |s|
  {
    if s != [] && nums != [] {
      CountTooShort(s[1..], nums);
      var n := nums[0];
      if n < |s| {
        CountTooShort(s[n + 1..], nums[1..]);
      } else if n == |s| {
        assert nums[1..] != [];
      }
    }
  }

  // ---------------------------------------------------------------------
  // The arrangements, counted one filling at a time

  /** A condition record: every spring damaged, operational or unknown. */
  predicate Record(s: string) {
    forall i | 0 <= i < |s| :: s[i] == '#' || s[i] == '.' || s[i] == '?'
  }

  /** The fillings of `rest` that complete `done` into a text whose damaged
      runs are `nums`: an unknown spring is tried as `.` and as `#`, a known
      one is kept, and each complete text is checked against `nums`. */
  function Ways(done: string, rest: string, nums: seq<nat>): nat
    decreases |rest|
  {
    if rest == [] then (if Groups(done) == nums then 1 else 0)
    else
      (if rest[0] == '.' || rest[0] == '?' then Ways(done + ['.'], rest[1..], nums) else 0)
      + (if rest[0] == '#' || rest[0] == '?' then Ways(done + ['#'], rest[1..], nums) else 0)
  }

  /** The number of ways to fill the unknown springs of `s` so that its
      damaged runs have the sizes `nums`. */
  function Arrangements(s: string, nums: seq<nat>): nat {
    Ways([], s, nums)
  }

  lemma GroupsDot()
    ensures Groups(['.']) == []
  {
    assert ['.'][1..] == [];
  }

  /** A run of `j` damaged springs closed by an operational one. */
  lemma {:induction false} RunThenDot(j: nat)
    requires j >= 1
    ensures Groups(Hashes(j) + ['.']) == [j]
  {
    GroupsHashes(j);
    GroupsDot();
    GroupsConcat(Hashes(j), ['.']);
  }

  /** Once the text so far ends outside a run, its runs must open the list
      of sizes, and the rest is counted against the remaining sizes. */
  lemma {:induction false} WaysAfterClosed(p: string, d: string, rest: string, nums: seq<nat>)
    requires p == [] || p[|p| - 1] != '#'
    ensures Ways(p + d, rest, nums) ==
      if |Groups(p)| <= |nums| && nums[..|Groups(p)|] == Groups(p) then Ways(d, rest, nums[|Groups(p)|..]) else 0
    decreases |rest|
  {
    var g := Groups(p);
    if rest == [] {
      GroupsConcat(p, d);
      if |g| <= |nums| && nums[..|g|] == g {
        if Groups(d) == nums[|g|..] {
          assert nums == nums[..|g|] + nums[|g|..];
        }
        if g + Groups(d) == nums {
          assert (g + Groups(d))[|g|..] == Groups(d);
        }
      } else {
        PrefixOfConcat(g, Groups(d));
      }
    } else {
      WaysAfterClosed(p, d + ['.'], rest[1..], nums);
      WaysAfterClosed(p, d + ['#'], rest[1..], nums);
      assert (p + d) + ['.'] == p + (d + ['.']);
      assert (p + d) + ['#'] == p + (d + ['#']);
    }
  }

  lemma PrefixOfConcat(a: seq<nat>, b: seq<nat>)
    ensures |a| <= |a + b| && (a + b)[..|a|] == a
  {
  }

  /** A run already longer than the next size has no completion. */
  lemma {:induction false} WaysRunTooLong(j: nat, rest: string, nums: seq<nat>)
    requires j >= 1 && (nums == [] || nums[0] < j)
    ensures Ways(Hashes(j), rest, nums) == 0
    decreases |rest|
  {
    GroupsHashes(j);
    if rest != [] {
      RunThenDot(j);
      WaysAfterClosed(Hashes(j) + ['.'], [], rest[1..], nums);
      assert Hashes(j) + ['.'] + [] == Hashes(j) + ['.'];
      assert Hashes(j) + ['#'] == Hashes(j + 1);
      WaysRunTooLong(j + 1, rest[1..], nums);
    }
  }

  /** Inside a run of `j` damaged springs: the run must grow to the next
      size within `rest`, with no operational spring in the way, and then
      stop; what follows the spring that stops it is counted against the
      remaining sizes. */
  lemma {:induction false} WaysInRun(j: nat, rest: string, nums: seq<nat>)
    requires j >= 1 && Record(rest)
    ensures Ways(Hashes(j), rest, nums) ==
      if nums != [] && j <= nums[0] && nums[0] - j <= |rest| && '.' !in rest[..nums[0] - j]
         && (nums[0] - j == |rest| || rest[nums[0] - j] != '#')
      then Ways([], rest[Min(nums[0] - j + 1, |rest|)..], nums[1..])
      else 0
    decreases |rest|
  {
    GroupsHashes(j);
    if nums == [] || nums[0] < j {
      WaysRunTooLong(j, rest, nums);
    } else if rest == [] {
      assert nums == [j] <==> nums[0] == j && nums[1..] == [] by {
        assert nums == [nums[0]] + nums[1..];
      }
    } else {
      var m := nums[0] - j;
      RunThenDot(j);
      WaysAfterClosed(Hashes(j) + ['.'], [], rest[1..], nums);
      assert Hashes(j) + ['.'] + [] == Hashes(j) + ['.'];
      assert Hashes(j) + ['#'] == Hashes(j + 1);
      if m == 0 {
        WaysRunTooLong(j + 1, rest[1..], nums);
        assert nums[..1] == [j];
      } else {
        WaysInRun(j + 1, rest[1..], nums);
        assert Record(rest[1..]) by {
          forall i | 0 <= i < |rest| - 1 ensures rest[1..][i] == rest[i + 1] { }
        }
        if m <= |rest| {
          assert rest[..m] == [rest[0]] + rest[1..][..m - 1];
          if m < |rest| {
            assert rest[1..][m - 1] == rest[m];
          }
          assert rest[1..][Min(m, |rest| - 1)..] == rest[Min(m + 1, |rest|)..];
        }
      }
    }
  }

  /** `count` is the number of ways to fill the unknown springs of a record
      so that its damaged runs have the listed sizes, each at least one. */
  lemma {:induction false} CountIsArrangements(s: string, nums: seq<nat>)
    requires Record(s) && forall i | 0 <= i < |nums| :: nums[i] >= 1
    ensures Count(s, nums) == Arrangements(s, nums)
    decreases |s|
  {
    if s != [] {
      assert [] + ['.'] == ['.'] && [] + ['#'] == ['#'] == Hashes(1);
      GroupsDot();
      WaysAfterClosed(['.'], [], s[1..], nums);
      assert ['.'] + [] == ['.'];
      assert Record(s[1..]) by {
        forall i | 0 <= i < |s| - 1 ensures s[1..][i] == s[i + 1] { }
      }
      WaysInRun(1, s[1..], nums);
      CountIsArrangements(s[1..], nums);
      if nums == [] {
        assert s == [s[0]] + s[1..];
      } else {
        var n := nums[0];
        if n <= |s| {
          var tail := s[Min(n + 1, |s|)..];
          assert Record(tail) by {
            forall i | 0 <= i < |tail| ensures tail[i] == s[i + Min(n + 1, |s|)] { }
          }
          CountIsArrangements(tail, nums[1..]);
          assert s[..n] == [s[0]] + s[1..][..n - 1];
          if n < |s| {
            assert s[1..][n - 1] == s[n];
          }
          assert s[1..][Min(n, |s| - 1)..] == tail;
        }
      }
    }
  }

  /** A size of 0 is no run: `count` takes an unknown spring for an empty
      run, though no filling has a run of size 0. */
  lemma {:induction false} ZeroSizeCounted()
    ensures Count("?", [0]) == 1 && Arrangements("?", [0]) == 0
  {
    assert "?"[1..] == [];
    assert "?"[..0] == [];
    GroupsDot();
    GroupsHashes(1);
    assert [] + ['.'] == ['.'] && [] + ['#'] == Hashes(1);
  }

  // ---------------------------------------------------------------------
  // The puzzle

  function SumCounts(lines: seq<(string, seq<nat>)>): nat {
    if lines == [] then 0
    else SumCounts(lines[..|lines| - 1]) + Count(lines[|lines| - 1].0, lines[|lines| - 1].1)
  }

  /** Unfolded and read back, or the first panic. */
  function ReadUnfolded(input: seq<string>): (r: Result<seq<(string, seq<nat>)>>)
    ensures r.Success? ==> |r.value| == |input|
  {
    if input == [] then Success([])
    else
      match ReadUnfolded(input[..|input| - 1])
      case Failure(e) => Failure(e)
      case Success(done) =>
        match Unfold(input[|input| - 1])
        case Failure(e) => Failure(e)
        case Success(u) =>
          match LineParser(u)
          case Failure(e) => Failure(e)
          case Success(line) => Success(done + [line])
  }

  /** `process`: unfold and read every line, then add up the arrangement
      counts. */
  method Process(input: seq<string>) returns (r: Result<nat>)
    ensures r.Success? <==> ReadUnfolded(input).Success?
    ensures r.Success? ==> r.value == SumCounts(ReadUnfolded(input).value)
  {
    match ReadUnfolded(input)
    case Failure(e) =>
      return Failure(e);
    case Success(lines) =>
      var result := 0;
      for i := 0 to |lines|
        invariant result == SumCounts(lines[..i])
      {
        assert lines[..i + 1][..i] == lines[..i];
        result := result + Count(lines[i].0, lines[i].1);
      }
      assert lines[..|lines|] == lines;
      r := Success(result);
  }
}
