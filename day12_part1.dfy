/** Day 12, part 1: the brute-force arrangement count. Every maximal block
    of unknown springs gets all its damaged/operational assignments, the
    blocks' assignments are combined, every combined assignment is written
    into a copy of the record, and the copies whose damaged runs match the
    listed sizes are counted. */
module Day12Part1 {
  import opened Wrappers
  import Day12Part2
  import Text

  // ---------------------------------------------------------------------
  // Records

  datatype RecordType = Broken | Unknown | Empty

  datatype Position = Position(line: nat, column: nat)

  datatype Record = Record(typ: RecordType, position: Position)

  datatype Line = Line(records: seq<Record>, configuration: seq<nat>)

  /** One assignment: a column and the type written there. */
  type Assignment = seq<(nat, RecordType)>

  function Symbol(t: RecordType): char {
    match t
    case Broken => '#'
    case Unknown => '?'
    case Empty => '.'
  }

  /** `RecordType::try_from`: `#`, `?` and `.`, anything else an error. */
  function TryFrom(c: char): (r: Result<RecordType>)
    ensures r.Success? <==> c == '#' || c == '?' || c == '.'
    ensures r.Success? ==> Symbol(r.value) == c
  {
    match c
    case '#' => Success(Broken)
    case '?' => Success(Unknown)
    case '.' => Success(Empty)
    case _ => Failure("unknown type")
  }

  lemma {:induction false} TryFromSymbol(t: RecordType)
    ensures TryFrom(Symbol(t)) == Success(t)
  {
  }

  /** The record written back as text. */
  function Render(records: seq<Record>): (s: string)
    ensures |s| == |records| && forall i | 0 <= i < |records| :: s[i] == Symbol(records[i].typ)
  {
    seq(|records|, i requires 0 <= i < |records| => Symbol(records[i].typ))
  }

  /** Every record sits in the column given by its index, on one line. */
  predicate Placed(records: seq<Record>) {
    forall i | 0 <= i < |records| :: records[i].position == Position(records[0].position.line, i)
  }

  /** `parse_record`: one record per character, at (line, column); an
      unknown character panics. */
  function ParseRecord(input: string, lineIdx: nat): (r: Result<seq<Record>>)
    ensures r.Success? <==> forall i | 0 <= i < |input| :: TryFrom(input[i]).Success?
    ensures r.Success? ==> (Render(r.value) == input
      && forall i | 0 <= i < |input| :: r.value[i].position == Position(lineIdx, i))
  {
    if forall i | 0 <= i < |input| :: TryFrom(input[i]).Success? then
      Success(seq(|input|, i requires 0 <= i < |input| => Record(TryFrom(input[i]).value, Position(lineIdx, i))))
    else Failure("should work")
  }

  /** The sizes that parse as numbers; `flat_map` over `ok()` drops the
      others silently. */
  function KeepParsed(pieces: seq<string>): (ns: seq<nat>)
    ensures |ns| <= |pieces|
  {
    if pieces == [] then []
    else
      match Text.ParseNat(pieces[0])
      case Success(n) => [n] + KeepParsed(pieces[1..])
      case Failure(_) => KeepParsed(pieces[1..])
  }

  /** When every size parses, dropping the bad ones drops nothing. */
  lemma {:induction false} KeepParsedAll(pieces: seq<string>)
    requires Day12Part2.ParseNats(pieces).Success?
    ensures KeepParsed(pieces) == Day12Part2.ParseNats(pieces).value
    decreases |pieces|
  {
    if pieces != [] {
      KeepParsedAll(pieces[1..]);
    }
  }

  /** `line_parser`: the record before the first space, the sizes after it;
      a line without a space panics. */
  function LineParser(input: string, lineIdx: nat): (r: Result<Line>)
    ensures r.Success? ==> Placed(r.value.records)
  {
    var parts := Text.Split(input, ' ');
    if |parts| < 2 then Failure("index out of bounds")
    else
      match ParseRecord(parts[0], lineIdx)
      case Failure(e) => Failure(e)
      case Success(records) => Success(Line(records, KeepParsed(Text.Split(parts[1], ','))))
  }

  // ---------------------------------------------------------------------
  // Enumerating assignments

  function Pow2(n: nat): (p: nat)
    ensures p >= 1
  {
    if n == 0 then 1 else 2 * Pow2(n - 1)
  }

  lemma {:induction false} Pow2Add(a: nat, b: nat)
    ensures Pow2(a + b) == Pow2(a) * Pow2(b)
    decreases a
  {
    if a > 0 {
      Pow2Add(a - 1, b);
    }
  }

  /** `v` gives every column of `cols`, in order, a known type. */
  predicate Assigns(v: Assignment, cols: seq<nat>) {
    |v| == |cols| && forall k | 0 <= k < |v| :: v[k].0 == cols[k] && v[k].1 != Unknown
  }

  function Range(len: nat, offset: nat): (cols: seq<nat>)
    ensures |cols| == len && forall k | 0 <= k < len :: cols[k] == offset + k
  {
    seq(len, k => offset + k)
  }

  predicate NoDup<T(==)>(s: seq<T>) {
    forall i, j | 0 <= i < j < |s| :: s[i] != s[j]
  }

  function Prefix(t: (nat, RecordType), tails: seq<Assignment>): (r: seq<Assignment>)
    ensures |r| == |tails| && forall i | 0 <= i < |tails| :: r[i] == [t] + tails[i]
  {
    seq(|tails|, i requires 0 <= i < |tails| => [t] + tails[i])
  }

  /** Every assignment of known types to `cols`, the first column varying
      slowest, `Broken` before `Empty`. */
  function AllOver(cols: seq<nat>): (r: seq<Assignment>)
    ensures |r| == Pow2(|cols|)
  {
    if cols == [] then [[]]
    else
      var tails := AllOver(cols[1..]);
      Prefix((cols[0], Broken), tails) + Prefix((cols[0], Empty), tails)
  }

  /** `get_options_for_unknown`: the cartesian product of `len` copies of
      [Broken, Empty], each tagged with the columns from `offset` on. */
  function Options(len: nat, offset: nat): (r: seq<Assignment>)
    ensures |r| == Pow2(len)
  {
    AllOver(Range(len, offset))
  }

  lemma {:induction false} AssignsCons(v: Assignment, cols: seq<nat>)
    requires cols != [] && v != []
    ensures Assigns(v, cols) <==> v[0].0 == cols[0] && v[0].1 != Unknown && Assigns(v[1..], cols[1..])
  {
    if v[0].0 == cols[0] && v[0].1 != Unknown && Assigns(v[1..], cols[1..]) {
      forall k | 0 <= k < |v| ensures v[k].0 == cols[k] && v[k].1 != Unknown {
        if k > 0 {
          assert v[k] == v[1..][k - 1] && cols[k] == cols[1..][k - 1];
        }
      }
    }
  }

  lemma {:induction false} AllOverSound(cols: seq<nat>, v: Assignment)
    requires v in AllOver(cols)
    ensures Assigns(v, cols)
    decreases |cols|
  {
    if cols != [] {
      var tails := AllOver(cols[1..]);
      var all := AllOver(cols);
      var i :| 0 <= i < |all| && all[i] == v;
      var tail := if i < |tails| then tails[i] else tails[i - |tails|];
      assert v == [v[0]] + tail;
      AllOverSound(cols[1..], tail);
      assert v[1..] == tail;
      AssignsCons(v, cols);
    }
  }

  lemma {:induction false} AllOverComplete(cols: seq<nat>, v: Assignment)
    requires Assigns(v, cols)
    ensures v in AllOver(cols)
    decreases |cols|
  {
    if cols == [] {
      assert v == [];
    } else {
      var tails := AllOver(cols[1..]);
      AssignsCons(v, cols);
      AllOverComplete(cols[1..], v[1..]);
      var i :| 0 <= i < |tails| && tails[i] == v[1..];
      AllOverCons(cols, v, i);
    }
  }

  /** An assignment whose first entry is known and whose rest is the
      `i`-th assignment over the other columns is among the assignments. */
  lemma {:induction false} AllOverCons(cols: seq<nat>, v: Assignment, i: nat)
    requires cols != [] && v != [] && v[0].0 == cols[0] && v[0].1 != Unknown
    requires i < |AllOver(cols[1..])| && AllOver(cols[1..])[i] == v[1..]
    ensures v in AllOver(cols)
  {
    var tails := AllOver(cols[1..]);
    var all := AllOver(cols);
    assert v == [v[0]] + tails[i];
    if v[0].1 == Broken {
      assert all[i] == Prefix((cols[0], Broken), tails)[i];
    } else {
      assert all[|tails| + i] == Prefix((cols[0], Empty), tails)[i];
    }
  }

  lemma {:induction false} AllOverMembership(cols: seq<nat>, v: Assignment)
    ensures v in AllOver(cols) <==> Assigns(v, cols)
  {
    if v in AllOver(cols) {
      AllOverSound(cols, v);
    }
    if Assigns(v, cols) {
      AllOverComplete(cols, v);
    }
  }

  lemma {:induction false} AllOverNoDup(cols: seq<nat>)
    ensures NoDup(AllOver(cols))
    decreases |cols|
  {
    if cols != [] {
      var tails := AllOver(cols[1..]);
      AllOverNoDup(cols[1..]);
      var all := AllOver(cols);
      forall i, j | 0 <= i < j < |all| ensures all[i] != all[j] {
        var ti := if i < |tails| then i else i - |tails|;
        var tj := if j < |tails| then j else j - |tails|;
        assert all[i][1..] == tails[ti] && all[j][1..] == tails[tj];
        if (i < |tails|) != (j < |tails|) {
          assert all[i][0] != all[j][0];
        }
      }
    }
  }

  // ---------------------------------------------------------------------
  // Combining blocks

  function MergeRec(original: seq<Assignment>, options: seq<Assignment>): (r: seq<Assignment>)
    ensures |r| == |original| * |options|
  {
    if options == [] then []
    else
      var block := seq(|original|, j requires 0 <= j < |original| => original[j] + options[0]);
      block + MergeRec(original, options[1..])
  }

  /** `merge_options`: the new block's assignments when nothing came
      before; otherwise every earlier assignment followed by every new
      one, the new one varying slowest. */
  function Merge(original: seq<Assignment>, options: seq<Assignment>): (r: seq<Assignment>)
    ensures |r| == if original == [] then |options| else |original| * |options|
  {
    if original == [] then options else MergeRec(original, options)
  }

  /** Entry `i * |original| + j` of the merge is `original[j]` followed by
      `options[i]`. */
  lemma {:induction false} MergeRecAt(original: seq<Assignment>, options: seq<Assignment>, i: nat, j: nat)
    requires i < |options| && j < |original|
    ensures i * |original| + j < |MergeRec(original, options)|
    ensures MergeRec(original, options)[i * |original| + j] == original[j] + options[i]
    decreases i
  {
    if i > 0 {
      MergeRecAt(original, options[1..], i - 1, j);
      assert i * |original| + j == |original| + ((i - 1) * |original| + j);
    }
  }

  lemma {:induction false} MergeRecMembership(original: seq<Assignment>, options: seq<Assignment>, w: Assignment)
    ensures w in MergeRec(original, options) <==>
      exists i, j | 0 <= i < |options| && 0 <= j < |original| :: w == original[j] + options[i]
    decreases |options|
  {
    if options != [] {
      MergeRecMembership(original, options[1..], w);
      var block := seq(|original|, j requires 0 <= j < |original| => original[j] + options[0]);
      var rest := MergeRec(original, options[1..]);
      assert MergeRec(original, options) == block + rest;
      if exists i, j | 0 <= i < |options| && 0 <= j < |original| :: w == original[j] + options[i] {
        var i, j :| 0 <= i < |options| && 0 <= j < |original| && w == original[j] + options[i];
        if i == 0 {
          assert block[j] == w;
        } else {
          assert w == original[j] + options[1..][i - 1];
        }
      }
      if w in block {
        var j :| 0 <= j < |original| && block[j] == w;
        assert w == original[j] + options[0];
      }
      if w in rest {
        var i, j :| 0 <= i < |options| - 1 && 0 <= j < |original| && w == original[j] + options[1..][i];
        assert w == original[j] + options[i + 1];
      }
    }
  }

  lemma {:induction false} AssignsConcat(v: Assignment, a: seq<nat>, b: seq<nat>)
    ensures Assigns(v, a + b) <==> |v| >= |a| && Assigns(v[..|a|], a) && Assigns(v[|a|..], b)
  {
    if |v| >= |a| && Assigns(v[..|a|], a) && Assigns(v[|a|..], b) {
      forall k | 0 <= k < |v| ensures v[k].0 == (a + b)[k] && v[k].1 != Unknown {
        if k < |a| {
          assert v[k] == v[..|a|][k];
        } else {
          assert v[k] == v[|a|..][k - |a|];
        }
      }
    }
  }

  /** `options` lists every assignment to `cols` exactly once; an empty
      list stands for "no unknown block seen yet". */
  ghost predicate Enumerates(options: seq<Assignment>, cols: seq<nat>) {
    && (cols == [] ==> options == [])
    && (cols != [] ==> (forall v :: v in options <==> Assigns(v, cols)) && NoDup(options) && |options| == Pow2(|cols|))
  }

  lemma {:induction false} EnumeratesLengths(options: seq<Assignment>, cols: seq<nat>, j: nat)
    requires Enumerates(options, cols) && j < |options|
    ensures |options[j]| == |cols|
  {
    assert options[j] in options;
  }

  /** Concatenations of assignments of fixed length to `a` and to `b` are
      told apart by their parts. */
  lemma {:induction false} MergeRecNoDup(original: seq<Assignment>, options: seq<Assignment>, len: nat)
    requires NoDup(original) && NoDup(options)
    requires forall j | 0 <= j < |original| :: |original[j]| == len
    ensures NoDup(MergeRec(original, options))
    decreases |options|
  {
    if options != [] {
      var block := seq(|original|, j requires 0 <= j < |original| => original[j] + options[0]);
      var rest := MergeRec(original, options[1..]);
      MergeRecNoDup(original, options[1..], len);
      var m := MergeRec(original, options);
      assert m == block + rest;
      forall x, y | 0 <= x < y < |m| ensures m[x] != m[y] {
        if y < |block| {
          assert m[x][..len] == original[x] && m[y][..len] == original[y];
        } else if x < |block| {
          MergeRecMembership(original, options[1..], rest[y - |block|]);
          var i, j :| 0 <= i < |options| - 1 && 0 <= j < |original| && rest[y - |block|] == original[j] + options[1..][i];
          assert m[x][len..] == options[0] && m[y][len..] == options[i + 1];
        } else {
          assert m[x] == rest[x - |block|] && m[y] == rest[y - |block|];
        }
      }
    }
  }

  lemma {:induction false} MergeMembership(options: seq<Assignment>, cols: seq<nat>, block: seq<Assignment>,
                                           range: seq<nat>, w: Assignment)
    requires cols != [] && Enumerates(options, cols)
    requires forall v :: v in block <==> Assigns(v, range)
    ensures w in MergeRec(options, block) <==> Assigns(w, cols + range)
  {
    MergeRecMembership(options, block, w);
    AssignsConcat(w, cols, range);
    if Assigns(w, cols + range) {
      assert w[..|cols|] in options && w[|cols|..] in block;
      var j :| 0 <= j < |options| && options[j] == w[..|cols|];
      var i :| 0 <= i < |block| && block[i] == w[|cols|..];
      assert w == options[j] + block[i];
    }
    if w in MergeRec(options, block) {
      var i, j :| 0 <= i < |block| && 0 <= j < |options| && w == options[j] + block[i];
      EnumeratesLengths(options, cols, j);
      assert options[j] in options && block[i] in block;
      assert w[..|cols|] == options[j] && w[|cols|..] == block[i];
    }
  }

  /** Merging the assignments of a new block extends the enumeration by
      the block's columns. */
  lemma {:induction false} MergeEnumerates(options: seq<Assignment>, cols: seq<nat>, len: nat, offset: nat)
    requires Enumerates(options, cols) && len > 0
    ensures Enumerates(Merge(options, Options(len, offset)), cols + Range(len, offset))
  {
    var block := Options(len, offset);
    var range := Range(len, offset);
    AllOverNoDup(range);
    forall v ensures v in block <==> Assigns(v, range) {
      AllOverMembership(range, v);
    }
    if cols == [] {
      assert cols + range == range;
    } else {
      Pow2Add(|cols|, len);
      forall w ensures w in MergeRec(options, block) <==> Assigns(w, cols + range) {
        MergeMembership(options, cols, block, range, w);
      }
      forall j | 0 <= j < |options| ensures |options[j]| == |cols| {
        EnumeratesLengths(options, cols, j);
      }
      MergeRecNoDup(options, block, |cols|);
    }
  }

  // ---------------------------------------------------------------------
  // Checking one candidate

  /** The damaged runs must be exactly the listed sizes; an unknown spring
      left over panics. */
  function Filter(configuration: seq<nat>, records: seq<Record>): (r: Result<bool>)
    ensures r.Success? <==> forall i | 0 <= i < |records| :: records[i].typ != Unknown
  {
    if exists i | 0 <= i < |records| :: records[i].typ == Unknown then Failure("shouldn't exist here any longer")
    else Success(Day12Part2.Groups(Render(records)) == configuration)
  }

  /** `filter_option`: scan the records, closing a run of `Broken` at every
      `Empty` and once more at the end. */
  method FilterOption(configuration: seq<nat>, options: seq<Record>) returns (r: Result<bool>)
    ensures r == Filter(configuration, options)
  {
    ghost var text := Render(options);
    var ranges: seq<nat> := [];
    var rangeCount: nat := 0;
    for i := 0 to |options|
      invariant rangeCount <= i
      invariant forall k | 0 <= k < i :: options[k].typ != Unknown
      invariant ranges == Day12Part2.Groups(text[..i - rangeCount])
      invariant forall k | i - rangeCount <= k < i :: text[k] == '#'
      invariant i - rangeCount == 0 || text[i - rangeCount - 1] == '.'
    {
      match options[i].typ {
        case Empty =>
          if rangeCount != 0 {
            RunClosed(text, i, rangeCount);
            ranges := ranges + [rangeCount];
            rangeCount := 0;
          }
          DotAppended(text, i);
        case Broken =>
          rangeCount := rangeCount + 1;
        case Unknown =>
          return Failure("shouldn't exist here any longer");
      }
    }
    assert text[..|options|] == text;
    RunClosed(text, |options|, rangeCount);
    if rangeCount != 0 {
      ranges := ranges + [rangeCount];
    }
    r := Success(configuration == ranges);
  }

  /** A run of `rc` damaged springs ending at `j`, after an operational
      spring or the start, adds one group of size `rc`. */
  lemma {:induction false} RunClosed(text: string, j: nat, rc: nat)
    requires rc <= j <= |text|
    requires forall k | j - rc <= k < j :: text[k] == '#'
    requires j - rc == 0 || text[j - rc - 1] == '.'
    ensures Day12Part2.Groups(text[..j]) == Day12Part2.Groups(text[..j - rc]) + (if rc == 0 then [] else [rc])
  {
    var start := text[..j - rc];
    assert text[j - rc..j] == Day12Part2.Hashes(rc);
    assert text[..j] == start + text[j - rc..j];
    Day12Part2.GroupsConcat(start, text[j - rc..j]);
    Day12Part2.GroupsHashes(rc);
  }

  /** An operational spring adds no group. */
  lemma {:induction false} DotAppended(text: string, i: nat)
    requires i < |text| && text[i] == '.'
    ensures Day12Part2.Groups(text[..i + 1]) == Day12Part2.Groups(text[..i])
  {
    assert text[..i + 1] == text[..i] + ".";
    Day12Part2.GroupsConcat(text[..i], ".");
  }

  /** One assignment written into the record in order; a column past the
      end panics. */
  function Overwrite(line: seq<Record>, v: Assignment, lineNumber: nat): (r: Result<seq<Record>>)
    ensures r.Success? ==> |r.value| == |line|
    decreases |v|
  {
    if v == [] then Success(line)
    else if v[0].0 >= |line| then Failure("index out of bounds")
    else Overwrite(line[v[0].0 := Record(v[0].1, Position(lineNumber, v[0].0))], v[1..], lineNumber)
  }

  /** The candidates among `options` that pass the filter, or the first
      panic. */
  function Matching(line: seq<Record>, options: seq<Assignment>, configuration: seq<nat>, lineNumber: nat): Result<nat> {
    if options == [] then Success(0)
    else
      match Matching(line, options[..|options| - 1], configuration, lineNumber)
      case Failure(e) => Failure(e)
      case Success(n) =>
        match Overwrite(line, options[|options| - 1], lineNumber)
        case Failure(e) => Failure(e)
        case Success(candidate) =>
          match Filter(configuration, candidate)
          case Failure(e) => Failure(e)
          case Success(ok) => Success(n + if ok then 1 else 0)
  }

  /** A panic on an earlier candidate is the panic of the whole count. */
  lemma {:induction false} MatchingFailurePersists(line: seq<Record>, options: seq<Assignment>, k: nat,
                                                   configuration: seq<nat>, lineNumber: nat)
    requires k <= |options| && Matching(line, options[..k], configuration, lineNumber).Failure?
    ensures Matching(line, options, configuration, lineNumber) == Matching(line, options[..k], configuration, lineNumber)
    decreases |options| - k
  {
    if k < |options| {
      var init := options[..|options| - 1];
      assert init[..k] == options[..k];
      MatchingFailurePersists(line, init, k, configuration, lineNumber);
    } else {
      assert options[..k] == options;
    }
  }

  /** `new_line`: write every assignment into a copy of the record and
      count the copies that pass `filter_option`; an empty record fails
      the assertion at the start. */
  method NewLine(oldLine: seq<Record>, optionsForUnknown: seq<Assignment>, configuration: seq<nat>) returns (r: Result<nat>)
    ensures oldLine == [] ==> r.Failure?
    ensures oldLine != [] ==> r == Matching(oldLine, optionsForUnknown, configuration, oldLine[0].position.line)
  {
    if oldLine == [] {
      return Failure("assertion failed: !old_line.is_empty()");
    }
    var count := 0;
    var lineNumber := oldLine[0].position.line;
    for n := 0 to |optionsForUnknown|
      invariant Matching(oldLine, optionsForUnknown[..n], configuration, lineNumber) == Success(count)
    {
      var v := optionsForUnknown[n];
      assert optionsForUnknown[..n + 1][..n] == optionsForUnknown[..n];
      var tmpRec := oldLine;
      for m := 0 to |v|
        invariant Overwrite(oldLine, v, lineNumber) == Overwrite(tmpRec, v[m..], lineNumber)
      {
        var (idx, option) := v[m];
        if idx >= |tmpRec| {
          MatchingFailurePersists(oldLine, optionsForUnknown, n + 1, configuration, lineNumber);
          return Failure("index out of bounds");
        }
        assert v[m..][1..] == v[m + 1..];
        tmpRec := tmpRec[idx := Record(option, Position(lineNumber, idx))];
      }
      var ok := FilterOption(configuration, tmpRec);
      if ok.Failure? {
        MatchingFailurePersists(oldLine, optionsForUnknown, n + 1, configuration, lineNumber);
        return Failure(ok.error);
      }
      if ok.value {
        count := count + 1;
      }
    }
    assert optionsForUnknown[..|optionsForUnknown|] == optionsForUnknown;
    r := Success(count);
  }

  // ---------------------------------------------------------------------
  // What the count means

  /** Columns of the unknown records, left to right. */
  function UnknownCols(records: seq<Record>): (cols: seq<nat>)
    ensures forall k | 0 <= k < |cols| :: cols[k] < |records|
  {
    if records == [] then []
    else
      var rest := UnknownCols(records[..|records| - 1]);
      rest + if records[|records| - 1].typ == Unknown then [|records| - 1] else []
  }

  /** The unknown columns are exactly the unknown records' indices, in
      increasing order. */
  lemma {:induction false} UnknownColsFacts(records: seq<Record>)
    ensures var cols := UnknownCols(records);
      && (forall k | 0 <= k < |cols| :: cols[k] < |records| && records[cols[k]].typ == Unknown)
      && (forall k, l | 0 <= k < l < |cols| :: cols[k] < cols[l])
      && (forall i | 0 <= i < |records| && records[i].typ == Unknown :: i in cols)
    decreases |records|
  {
    if records != [] {
      var init := records[..|records| - 1];
      UnknownColsFacts(init);
      forall i | 0 <= i < |init| ensures init[i] == records[i] { }
    }
  }

  lemma {:induction false} UnknownColsSnoc(records: seq<Record>, i: nat)
    requires i < |records|
    ensures UnknownCols(records[..i + 1]) == UnknownCols(records[..i]) + if records[i].typ == Unknown then [i] else []
  {
    assert records[..i + 1][..i] == records[..i];
  }

  /** The record with assignment `v` written in. */
  function Fill(line: seq<Record>, v: Assignment, lineNumber: nat): (r: seq<Record>)
    requires forall k | 0 <= k < |v| :: v[k].0 < |line|
    ensures |r| == |line|
    decreases |v|
  {
    if v == [] then line
    else Fill(line[v[0].0 := Record(v[0].1, Position(lineNumber, v[0].0))], v[1..], lineNumber)
  }

  lemma {:induction false} OverwriteInBounds(line: seq<Record>, v: Assignment, lineNumber: nat)
    requires forall k | 0 <= k < |v| :: v[k].0 < |line|
    ensures Overwrite(line, v, lineNumber) == Success(Fill(line, v, lineNumber))
    decreases |v|
  {
    if v != [] {
      OverwriteInBounds(line[v[0].0 := Record(v[0].1, Position(lineNumber, v[0].0))], v[1..], lineNumber);
    }
  }

  /** Writing an assignment to increasing columns sets exactly those
      columns' types. */
  lemma {:induction false} FillTypes(line: seq<Record>, v: Assignment, cols: seq<nat>, lineNumber: nat, i: nat)
    requires Assigns(v, cols) && (forall k | 0 <= k < |cols| :: cols[k] < |line|)
    requires forall k, l | 0 <= k < l < |cols| :: cols[k] < cols[l]
    requires i < |line|
    ensures Fill(line, v, lineNumber)[i].typ == if i in cols then v[IndexOf(cols, i)].1 else line[i].typ
    decreases |v|
  {
    if v != [] {
      var line' := line[v[0].0 := Record(v[0].1, Position(lineNumber, v[0].0))];
      assert Assigns(v[1..], cols[1..]);
      FillTypes(line', v[1..], cols[1..], lineNumber, i);
      if i in cols[1..] {
        assert IndexOf(cols, i) == 1 + IndexOf(cols[1..], i) by {
          IndexOfTail(cols, i);
        }
      } else if i in cols {
        IndexOfTail(cols, i);
      }
    }
  }

  function IndexOf(cols: seq<nat>, x: nat): (k: nat)
    requires x in cols
    ensures k < |cols| && cols[k] == x && forall l | 0 <= l < k :: cols[l] != x
  {
    if cols[0] == x then 0 else 1 + IndexOf(cols[1..], x)
  }

  lemma {:induction false} IndexOfTail(cols: seq<nat>, x: nat)
    requires x in cols && (forall k, l | 0 <= k < l < |cols| :: cols[k] < cols[l])
    ensures x in cols[1..] ==> IndexOf(cols, x) == 1 + IndexOf(cols[1..], x)
    ensures x !in cols[1..] ==> IndexOf(cols, x) == 0
  {
    if x in cols[1..] {
      var l :| 0 <= l < |cols| - 1 && cols[1..][l] == x;
      assert cols[0] < cols[l + 1];
    }
  }

  /** `v` fills every unknown spring with a known type. */
  ghost predicate Fits(records: seq<Record>, v: Assignment, configuration: seq<nat>)
    requires records != [] && Assigns(v, UnknownCols(records))
  {
    Day12Part2.Groups(Render(Fill(records, v, records[0].position.line))) == configuration
  }

  /** The arrangements: the assignments to the unknown springs whose
      damaged runs are the listed sizes. */
  ghost function Arrangements(records: seq<Record>, configuration: seq<nat>): set<Assignment>
    requires records != []
  {
    set v | v in AllOver(UnknownCols(records)) && (AllOverMembership(UnknownCols(records), v); Fits(records, v, configuration))
  }

  lemma {:induction false} FilterFilled(records: seq<Record>, v: Assignment, configuration: seq<nat>)
    requires records != [] && Assigns(v, UnknownCols(records))
    ensures Overwrite(records, v, records[0].position.line) == Success(Fill(records, v, records[0].position.line))
    ensures Filter(configuration, Fill(records, v, records[0].position.line)) == Success(Fits(records, v, configuration))
  {
    var cols, ln := UnknownCols(records), records[0].position.line;
    UnknownColsFacts(records);
    OverwriteInBounds(records, v, ln);
    var filled := Fill(records, v, ln);
    forall i | 0 <= i < |records| ensures filled[i].typ != Unknown {
      FillTypes(records, v, cols, ln, i);
    }
  }

  /** Counting the candidates of a duplicate-free list of assignments to
      the unknown springs counts its arrangements. */
  lemma {:induction false} MatchingCounts(records: seq<Record>, options: seq<Assignment>, configuration: seq<nat>)
    requires records != [] && NoDup(options)
    requires forall v | v in options :: Assigns(v, UnknownCols(records))
    ensures Matching(records, options, configuration, records[0].position.line)
      == Success(|set v | v in options && Fits(records, v, configuration)|)
    decreases |options|
  {
    if options != [] {
      var ln := records[0].position.line;
      var init, last := options[..|options| - 1], options[|options| - 1];
      var before := set v | v in init && Fits(records, v, configuration);
      var fits := Fits(records, last, configuration);
      assert Matching(records, options, configuration, ln) == Success(|before| + if fits then 1 else 0) by {
        assert NoDup(init) && forall v | v in init :: v in options;
        MatchingCounts(records, init, configuration);
        FilterFilled(records, last, configuration);
      }
      assert options == init + [last];
      CountGrows(records, init, last, configuration);
    }
  }

  lemma {:induction false} NoDupLast<T>(s: seq<T>)
    requires s != [] && NoDup(s)
    ensures s[|s| - 1] !in s[..|s| - 1]
  {
    var init := s[..|s| - 1];
    forall k | 0 <= k < |init| ensures init[k] != s[|s| - 1] {
      assert s[k] != s[|s| - 1];
    }
  }

  lemma {:induction false} CountGrows(records: seq<Record>, init: seq<Assignment>, last: Assignment, configuration: seq<nat>)
    requires records != [] && NoDup(init + [last])
    requires forall v | v in init + [last] :: Assigns(v, UnknownCols(records))
    ensures |set v | v in init + [last] && Fits(records, v, configuration)|
      == |set v | v in init && Fits(records, v, configuration)| + if Fits(records, last, configuration) then 1 else 0
  {
    NoDupLast(init + [last]);
    assert (init + [last])[..|init|] == init;
    FitsSnoc(records, init, last, configuration);
  }

  /** The assignments of `init + [last]` that fit are those of `init` and
      possibly `last`. */
  lemma {:induction false} FitsSnoc(records: seq<Record>, init: seq<Assignment>, last: Assignment, configuration: seq<nat>)
    requires records != [] && last !in init
    requires forall v | v in init + [last] :: Assigns(v, UnknownCols(records))
    ensures var before := set v | v in init && Fits(records, v, configuration);
      && last !in before
      && (set v | v in init + [last] && Fits(records, v, configuration))
        == if Fits(records, last, configuration) then before + {last} else before
  {
    assert forall v :: v in init + [last] <==> v in init || v == last;
  }

  /** Both lists list the same assignments, so they count the same
      arrangements. */
  lemma {:induction false} SameArrangements(records: seq<Record>, options: seq<Assignment>, configuration: seq<nat>)
    requires records != [] && Enumerates(options, UnknownCols(records)) && UnknownCols(records) != []
    ensures (set v | v in options && Fits(records, v, configuration)) == Arrangements(records, configuration)
  {
    forall v ensures v in AllOver(UnknownCols(records)) <==> Assigns(v, UnknownCols(records)) {
      AllOverMembership(UnknownCols(records), v);
    }
  }

  // ---------------------------------------------------------------------
  // Finding the options of a line

  /** `find_options` as written: collect the blocks of unknown springs,
      merge their assignments, and count the candidates that pass. A line
      without any `?` gets no assignment at all and therefore 0. */
  method FindOptionsAsWritten(line: Line) returns (r: Result<nat>, options: seq<Assignment>)
    requires Placed(line.records)
    ensures Enumerates(options, UnknownCols(line.records))
    ensures line.records == [] ==> r.Failure?
    ensures line.records != [] ==>
      r == Matching(line.records, options, line.configuration, line.records[0].position.line)
  {
    var records := line.records;
    var unknownRange: seq<nat> := [];
    options := [];
    for i := 0 to |records|
      invariant ScanInv(records, i, unknownRange, options)
    {
      unknownRange, options := ScanRecord(records, i, unknownRange, options);
    }
    assert records[..|records|] == records;
    options := CloseRange(records, unknownRange, options);
    r := NewLine(records, options, line.configuration);
  }

  /** What the scan of `find_options` knows after `i` records: the open
      block of unknown springs ends at `i`, and the options enumerate the
      unknown springs before it. */
  ghost predicate ScanInv(records: seq<Record>, i: nat, unknownRange: seq<nat>, options: seq<Assignment>)
    requires i <= |records|
  {
    && |unknownRange| <= i && unknownRange == Range(|unknownRange|, i - |unknownRange|)
    && UnknownCols(records[..i]) == UnknownCols(records[..i - |unknownRange|]) + unknownRange
    && Enumerates(options, UnknownCols(records[..i - |unknownRange|]))
  }

  /** One record of the scan: an unknown spring extends the open block, any
      other record closes it and merges its assignments into the options. */
  method ScanRecord(records: seq<Record>, i: nat, unknownRange: seq<nat>, options: seq<Assignment>)
    returns (unknownRange': seq<nat>, options': seq<Assignment>)
    requires Placed(records) && i < |records| && ScanInv(records, i, unknownRange, options)
    ensures ScanInv(records, i + 1, unknownRange', options')
  {
    unknownRange', options' := unknownRange, options;
    if records[i].typ == Unknown {
      ScanUnknown(records, i, unknownRange, options);
      unknownRange' := unknownRange + [records[i].position.column];
    } else if unknownRange != [] {
      ScanClose(records, i, unknownRange, options);
      var block := Options(|unknownRange|, records[i].position.column - |unknownRange|);
      unknownRange' := [];
      options' := Merge(options, block);
    } else {
      ScanKnown(records, i, options);
    }
  }

  lemma {:induction false} ScanUnknown(records: seq<Record>, i: nat, unknownRange: seq<nat>, options: seq<Assignment>)
    requires Placed(records) && i < |records| && ScanInv(records, i, unknownRange, options)
    requires records[i].typ == Unknown
    ensures records[i].position.column == i
    ensures ScanInv(records, i + 1, unknownRange + [i], options)
  {
    var start := i - |unknownRange|;
    var done := UnknownCols(records[..start]);
    assert records[i].position.column == i;
    UnknownColsSnoc(records, i);
    assert (i + 1) - |unknownRange + [i]| == start;
    assert unknownRange + [i] == Range(|unknownRange| + 1, start);
    assert UnknownCols(records[..i + 1]) == done + (unknownRange + [i]);
    assert Enumerates(options, done);
  }

  lemma {:induction false} ScanClose(records: seq<Record>, i: nat, unknownRange: seq<nat>, options: seq<Assignment>)
    requires Placed(records) && i < |records| && ScanInv(records, i, unknownRange, options)
    requires records[i].typ != Unknown && unknownRange != []
    ensures records[i].position.column == i
    ensures ScanInv(records, i + 1, [], Merge(options, Options(|unknownRange|, i - |unknownRange|)))
  {
    var start := i - |unknownRange|;
    var done := UnknownCols(records[..start]);
    UnknownColsSnoc(records, i);
    MergeEnumerates(options, done, |unknownRange|, start);
    assert UnknownCols(records[..i + 1]) == done + Range(|unknownRange|, start);
  }

  lemma {:induction false} ScanKnown(records: seq<Record>, i: nat, options: seq<Assignment>)
    requires Placed(records) && i < |records| && ScanInv(records, i, [], options)
    requires records[i].typ != Unknown
    ensures ScanInv(records, i + 1, [], options)
  {
    UnknownColsSnoc(records, i);
    assert UnknownCols(records[..i]) + [] == UnknownCols(records[..i]);
  }

  /** The end of the scan: a block still open at the end of the line is
      merged in as well. */
  method CloseRange(records: seq<Record>, unknownRange: seq<nat>, options: seq<Assignment>) returns (options': seq<Assignment>)
    requires Placed(records) && ScanInv(records, |records|, unknownRange, options)
    ensures Enumerates(options', UnknownCols(records))
  {
    assert records[..|records|] == records;
    options' := options;
    if unknownRange != [] {
      ghost var start := |records| - |unknownRange|;
      ghost var done := UnknownCols(records[..start]);
      assert UnknownCols(records) == done + Range(|unknownRange|, start);
      MergeEnumerates(options, done, |unknownRange|, start);
      var block := Options(|unknownRange|, |records| - |unknownRange|);
      options' := Merge(options, block);
    }
  }

  /** As written, a line with at least one `?` gets the number of its
      arrangements, and a line without any gets 0 even when it matches its
      sizes. */
  lemma {:induction false} AsWrittenCount(records: seq<Record>, options: seq<Assignment>, configuration: seq<nat>)
    requires records != [] && Enumerates(options, UnknownCols(records))
    ensures UnknownCols(records) == [] ==> Matching(records, options, configuration, records[0].position.line) == Success(0)
    ensures UnknownCols(records) != [] ==>
      Matching(records, options, configuration, records[0].position.line) == Success(|Arrangements(records, configuration)|)
  {
    if UnknownCols(records) != [] {
      MatchingCounts(records, options, configuration);
      SameArrangements(records, options, configuration);
    }
  }

  /** The record `#` with sizes `1` has exactly one arrangement, yet the
      code as written counts none. */
  lemma {:induction false} NoUnknownCountsZero()
    ensures var records := [Record(Broken, Position(0, 0))];
      && |Arrangements(records, [1])| == 1
      && Matching(records, [], [1], 0) == Success(0)
  {
    var records := [Record(Broken, Position(0, 0))];
    assert UnknownCols(records) == [];
    assert AllOver([]) == [[]];
    assert Render(records) == "#";
    assert Day12Part2.LeadRun("#") == 1;
    assert "#"[1..] == [];
    assert Fits(records, [], [1]);
    assert Arrangements(records, [1]) == {[]};
  }

  /** `find_options` with the empty assignment standing in when the line
      has no `?`: every line gets the number of its arrangements. */
  method FindOptions(line: Line) returns (r: Result<nat>)
    requires Placed(line.records)
    ensures line.records == [] ==> r.Failure?
    ensures line.records != [] ==> r == Success(|Arrangements(line.records, line.configuration)|)
  {
    var found, options := FindOptionsAsWritten(line);
    if line.records == [] {
      return found;
    }
    if options == [] {
      AllOverNoDup([]);
      assert UnknownCols(line.records) == [];
      assert AllOver([]) == [[]];
      options := [[]];
      MatchingCountsEmpty(line.records, line.configuration);
      r := NewLine(line.records, [[]], line.configuration);
    } else {
      AsWrittenCount(line.records, options, line.configuration);
      r := found;
    }
  }

  lemma {:induction false} MatchingCountsEmpty(records: seq<Record>, configuration: seq<nat>)
    requires records != [] && UnknownCols(records) == []
    ensures Matching(records, [[]], configuration, records[0].position.line) == Success(|Arrangements(records, configuration)|)
  {
    assert Assigns([], UnknownCols(records));
    MatchingCounts(records, [[]], configuration);
    assert AllOver([]) == [[]];
    assert (set v | v in [[]] && Fits(records, v, configuration)) == Arrangements(records, configuration);
  }

  // ---------------------------------------------------------------------
  // The puzzle

  function ReadLines(input: seq<string>): (r: Result<seq<Line>>)
    ensures r.Success? ==> |r.value| == |input| && forall i | 0 <= i < |input| :: Placed(r.value[i].records)
  {
    if input == [] then Success([])
    else
      match ReadLines(input[..|input| - 1])
      case Failure(e) => Failure(e)
      case Success(done) =>
        match LineParser(input[|input| - 1], |input| - 1)
        case Failure(e) => Failure(e)
        case Success(line) => Success(done + [line])
  }

  ghost function TotalArrangements(lines: seq<Line>): nat
    requires forall i | 0 <= i < |lines| :: lines[i].records != []
  {
    if lines == [] then 0
    else
      var last := lines[|lines| - 1];
      TotalArrangements(lines[..|lines| - 1]) + |Arrangements(last.records, last.configuration)|
  }

  lemma {:induction false} TotalArrangementsSnoc(lines: seq<Line>, i: nat)
    requires i < |lines| && forall k | 0 <= k <= i :: lines[k].records != []
    ensures TotalArrangements(lines[..i + 1])
      == TotalArrangements(lines[..i]) + |Arrangements(lines[i].records, lines[i].configuration)|
  {
    assert lines[..i + 1][..i] == lines[..i];
  }

  /** `process`: read every line and add up its arrangements; an empty
      record panics. */
  method Process(input: seq<string>) returns (r: Result<nat>)
    ensures r.Failure? <==> ReadLines(input).Failure? || exists i | 0 <= i < |input| :: ReadLines(input).value[i].records == []
    ensures r.Success? ==> (ReadLines(input).Success?
      && (forall i | 0 <= i < |input| :: ReadLines(input).value[i].records != [])
      && r.value == TotalArrangements(ReadLines(input).value))
  {
    match ReadLines(input)
    case Failure(e) =>
      return Failure(e);
    case Success(lines) =>
      var result := 0;
      for i := 0 to |lines|
        invariant forall k | 0 <= k < i :: lines[k].records != []
        invariant result == TotalArrangements(lines[..i])
      {
        var n := FindOptions(lines[i]);
        if n.Failure? {
          assert lines[i].records == [];
          return Failure(n.error);
        }
        TotalArrangementsSnoc(lines, i);
        result := result + n.value;
      }
      assert lines[..|lines|] == lines;
      r := Success(result);
  }
}
