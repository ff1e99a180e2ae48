/** Day 5, part 2: the seed line lists ranges of seeds as (start, length)
    pairs; the answer is the lowest location of any seed in any range. */
module Day05Part2 {
  import opened Wrappers
  import opened Day05Part1

  /** `array_chunks::<2>`: consecutive pairs, a trailing odd number dropped. */
  function Pairs(seeds: seq<nat>): (r: seq<(nat, nat)>)
    ensures |r| == |seeds| / 2
    ensures forall k | 0 <= k < |r| :: r[k] == (seeds[2 * k], seeds[2 * k + 1])
  {
    if |seeds| < 2 then []
    else
      var rest := Pairs(seeds[2..]);
      assert forall k | 0 <= k < |rest| :: seeds[2..][2 * k] == seeds[2 * (k + 1)];
      [(seeds[0], seeds[1])] + rest
  }

  /** `start..start + len`. */
  function Span(start: nat, len: nat): (r: seq<nat>)
    ensures |r| == len && forall i | 0 <= i < len :: r[i] == start + i
  {
    seq(len, i requires 0 <= i < len => start + i)
  }

  /** The seeds of all ranges, one range after the other (`flatten`). */
  function Expand(pairs: seq<(nat, nat)>): seq<nat> {
    if pairs == [] then [] else Span(pairs[0].0, pairs[0].1) + Expand(pairs[1..])
  }

  /** `seed` lies in the range of the k-th pair. */
  predicate InRange(pair: (nat, nat), seed: nat) {
    pair.0 <= seed < pair.0 + pair.1
  }

  /** Some range holds `seed`. */
  ghost predicate InSomeRange(pairs: seq<(nat, nat)>, seed: nat) {
    exists k | 0 <= k < |pairs| :: InRange(pairs[k], seed)
  }

  /** The expansion holds exactly the seeds some range contains. */
  lemma {:induction false} ExpandMembers(pairs: seq<(nat, nat)>)
    ensures forall seed: nat :: seed in Expand(pairs) <==> InSomeRange(pairs, seed)
  {
    if pairs != [] {
      var rest := pairs[1..];
      ExpandMembers(rest);
      var span := Span(pairs[0].0, pairs[0].1);
      forall seed: nat ensures seed in Expand(pairs) <==> exists k | 0 <= k < |pairs| :: InRange(pairs[k], seed) {
        if seed in span {
          assert InRange(pairs[0], seed);
        } else if seed in Expand(rest) {
          var k :| 0 <= k < |rest| && InRange(rest[k], seed);
          assert pairs[k + 1] == rest[k];
        }
        if exists k | 0 <= k < |pairs| :: InRange(pairs[k], seed) {
          var k :| 0 <= k < |pairs| && InRange(pairs[k], seed);
          if k == 0 {
            assert span[seed - pairs[0].0] == seed;
          } else {
            assert rest[k - 1] == pairs[k];
          }
        }
      }
    }
  }

  /** No seed at all exactly when every range is empty. */
  lemma {:induction false} ExpandEmpty(pairs: seq<(nat, nat)>)
    ensures Expand(pairs) == [] <==> forall k | 0 <= k < |pairs| :: pairs[k].1 == 0
  {
    if pairs != [] {
      ExpandEmpty(pairs[1..]);
      assert forall k | 1 <= k < |pairs| :: pairs[1..][k - 1] == pairs[k];
    }
  }

  /** `process`: the lowest location of a seed in one of the ranges; when
      every range is empty `min` finds nothing and the `expect` panics. */
  function Process(almanac: Almanac): (r: Result<nat>)
    ensures r.Failure? <==> forall k | 0 <= k < |Pairs(almanac.seeds)| :: Pairs(almanac.seeds)[k].1 == 0
    ensures r.Success? ==>
      && (exists seed: nat | InSomeRange(Pairs(almanac.seeds), seed) :: r.value == Location(almanac, seed))
      && forall seed: nat | InSomeRange(Pairs(almanac.seeds), seed) :: r.value <= Location(almanac, seed)
  {
    var pairs := Pairs(almanac.seeds);
    var seeds := Expand(pairs);
    ExpandEmpty(pairs);
    ExpandMembers(pairs);
    var locations := Locations(almanac, seeds);
    match Minimum(locations)
    case None => Failure("slice should not be empty")
    case Some(v) =>
      var i :| 0 <= i < |locations| && v == locations[i];
      assert seeds[i] in seeds && InSomeRange(pairs, seeds[i]);
      assert forall seed: nat | InSomeRange(pairs, seed) :: v <= Location(almanac, seed) by {
        forall seed: nat | InSomeRange(pairs, seed) ensures v <= Location(almanac, seed) {
          var j :| 0 <= j < |seeds| && seeds[j] == seed;
          assert locations[j] == Location(almanac, seed);
        }
      }
      Success(v)
  }

  /** Ranges of length one are just their start seeds: on such a seed line
      part 2 gives the answer part 1 gives for the starts alone. */
  lemma {:induction false} UnitRangesAreSeeds(almanac: Almanac, starts: seq<nat>)
    requires |almanac.seeds| == 2 * |starts|
    requires forall k | 0 <= k < |starts| :: almanac.seeds[2 * k] == starts[k] && almanac.seeds[2 * k + 1] == 1
    ensures Process(almanac) == Day05Part1.Process(almanac.(seeds := starts))
  {
    var a1 := almanac.(seeds := starts);
    var seeds := Expand(Pairs(almanac.seeds));
    UnitRangesExpand(almanac.seeds, starts);
    SameLocations(almanac, a1, seeds, starts);
    MinimumOfSameValues(Locations(almanac, seeds), Locations(a1, starts));
  }

  /** Ranges of length one expand to their start seeds. */
  lemma {:induction false} UnitRangesExpand(line: seq<nat>, starts: seq<nat>)
    requires |line| == 2 * |starts|
    requires forall k | 0 <= k < |starts| :: line[2 * k] == starts[k] && line[2 * k + 1] == 1
    ensures forall seed :: seed in Expand(Pairs(line)) <==> seed in starts
  {
    var pairs := Pairs(line);
    ExpandMembers(pairs);
    var seeds := Expand(pairs);
    forall seed: nat ensures seed in seeds <==> seed in starts {
      if seed in starts {
        var k :| 0 <= k < |starts| && starts[k] == seed;
        assert InRange(pairs[k], seed);
      }
      if seed in seeds {
        assert InSomeRange(pairs, seed);
        var k :| 0 <= k < |pairs| && InRange(pairs[k], seed);
        assert starts[k] == seed;
      }
    }
  }

  /** Two almanacs with the same maps send lists of the same seeds to lists
      of the same locations. */
  lemma {:induction false} SameLocations(a2: Almanac, a1: Almanac, seeds: seq<nat>, starts: seq<nat>)
    requires a2.(seeds := a1.seeds) == a1
    requires forall seed :: seed in seeds <==> seed in starts
    ensures forall v :: v in Locations(a2, seeds) <==> v in Locations(a1, starts)
  {
    var l2, l1 := Locations(a2, seeds), Locations(a1, starts);
    forall v ensures v in l2 <==> v in l1 {
      if v in l2 {
        var i :| 0 <= i < |l2| && l2[i] == v;
        assert seeds[i] in starts;
        var j :| 0 <= j < |starts| && starts[j] == seeds[i];
        SameMaps(a2, a1, seeds[i]);
        assert l1[j] == v;
      }
      if v in l1 {
        var j :| 0 <= j < |l1| && l1[j] == v;
        assert starts[j] in seeds;
        var i :| 0 <= i < |seeds| && seeds[i] == starts[j];
        SameMaps(a2, a1, starts[j]);
        assert l2[i] == v;
      }
    }
  }

  /** The location of a seed does not depend on the seed line. */
  lemma {:induction false} SameMaps(a2: Almanac, a1: Almanac, seed: nat)
    requires a2.(seeds := a1.seeds) == a1
    ensures Location(a2, seed) == Location(a1, seed)
  {
  }
}
