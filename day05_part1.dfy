/** Day 5, part 1: send every seed through the seven almanac maps (seed to
    soil, soil to fertilizer, ..., humidity to location) and report the
    lowest location. */
module Day05Part1 {
  import opened Wrappers

  /** One line of a map: `len` numbers from `sourceStart` on are sent to the
      same offsets from `destinationStart`. */
  datatype MapData = MapData(destinationStart: nat, sourceStart: nat, len: nat)

  datatype Almanac = Almanac(
    seeds: seq<nat>,
    seedToSoil: seq<MapData>,
    soilToFertilizer: seq<MapData>,
    fertilizerToWater: seq<MapData>,
    waterToLight: seq<MapData>,
    lightToTemperature: seq<MapData>,
    temperatureToHumidity: seq<MapData>,
    humidityToLocation: seq<MapData>)

  /** The source range of a map line holds `num`. */
  predicate Covers(data: MapData, num: nat) {
    data.sourceStart <= num < data.sourceStart + data.len
  }

  /** What a map does to a number, range by range. */
  function Lookup(num: nat, ranges: seq<MapData>): nat {
    if ranges == [] then num
    else if Covers(ranges[0], num) then ranges[0].destinationStart + (num - ranges[0].sourceStart)
    else Lookup(num, ranges[1..])
  }

  /** A number no range covers is left as it is; otherwise the first range
      that covers it sends it to the same offset from its destination start. */
  lemma {:induction false} LookupFirst(num: nat, ranges: seq<MapData>)
    ensures (forall i | 0 <= i < |ranges| :: !Covers(ranges[i], num)) ==> Lookup(num, ranges) == num
    ensures forall i | 0 <= i < |ranges| && Covers(ranges[i], num) && (forall j | 0 <= j < i :: !Covers(ranges[j], num)) ::
      Lookup(num, ranges) == ranges[i].destinationStart + (num - ranges[i].sourceStart)
  {
    if ranges != [] && !Covers(ranges[0], num) {
      var rest := ranges[1..];
      LookupFirst(num, rest);
      forall i | 0 <= i < |ranges| && Covers(ranges[i], num) && (forall j | 0 <= j < i :: !Covers(ranges[j], num))
        ensures Lookup(num, ranges) == ranges[i].destinationStart + (num - ranges[i].sourceStart)
      {
        assert i > 0 && rest[i - 1] == ranges[i];
        assert forall j | 0 <= j < i - 1 :: rest[j] == ranges[j + 1];
      }
      if forall i | 0 <= i < |ranges| :: !Covers(ranges[i], num) {
        assert forall i | 0 <= i < |rest| :: rest[i] == ranges[i + 1];
      }
    }
  }

  /** A covered number lands inside the destination range of the line that
      covers it. */
  lemma {:induction false} LookupLandsInRange(num: nat, ranges: seq<MapData>)
    requires exists i | 0 <= i < |ranges| :: Covers(ranges[i], num)
    ensures exists i | 0 <= i < |ranges| :: (Covers(ranges[i], num) &&
      ranges[i].destinationStart <= Lookup(num, ranges) < ranges[i].destinationStart + ranges[i].len)
  {
    if !Covers(ranges[0], num) {
      var rest := ranges[1..];
      var i :| 0 <= i < |ranges| && Covers(ranges[i], num);
      assert rest[i - 1] == ranges[i];
      LookupLandsInRange(num, rest);
      var k :| 0 <= k < |rest| && Covers(rest[k], num) &&
        rest[k].destinationStart <= Lookup(num, rest) < rest[k].destinationStart + rest[k].len;
      assert ranges[k + 1] == rest[k];
    }
  }

  /** `mapping`: the loop over the lines of a map, stopping at the first
      that covers the number. */
  method Mapping(num: nat, ranges: seq<MapData>) returns (found: nat)
    ensures found == Lookup(num, ranges)
  {
    found := num;
    for k := 0 to |ranges|
      invariant found == num
      invariant Lookup(num, ranges[k..]) == Lookup(num, ranges)
    {
      var data := ranges[k];
      assert ranges[k..][1..] == ranges[k + 1..];
      if data.sourceStart <= num && num < data.sourceStart + data.len {
        var offset := num - data.sourceStart;
        found := data.destinationStart + offset;
        break;
      }
    }
  }

  /** The location a seed ends up at, through the seven maps in order. */
  function Location(almanac: Almanac, seed: nat): nat {
    var soil := Lookup(seed, almanac.seedToSoil);
    var fertilizer := Lookup(soil, almanac.soilToFertilizer);
    var water := Lookup(fertilizer, almanac.fertilizerToWater);
    var light := Lookup(water, almanac.waterToLight);
    var temperature := Lookup(light, almanac.lightToTemperature);
    var humidity := Lookup(temperature, almanac.temperatureToHumidity);
    Lookup(humidity, almanac.humidityToLocation)
  }

  function Locations(almanac: Almanac, seeds: seq<nat>): (r: seq<nat>)
    ensures |r| == |seeds| && forall i | 0 <= i < |seeds| :: r[i] == Location(almanac, seeds[i])
  {
    seq(|seeds|, i requires 0 <= i < |seeds| => Location(almanac, seeds[i]))
  }

  /** `Iterator::min`: nothing for no values, otherwise a value that is at
      most every value. */
  function Minimum(xs: seq<nat>): (r: Option<nat>)
    ensures r.None? <==> xs == []
    ensures r.Some? ==> r.value in xs && forall i | 0 <= i < |xs| :: r.value <= xs[i]
  {
    if xs == [] then None
    else
      match Minimum(xs[1..])
      case None => Some(xs[0])
      case Some(m) => if m < xs[0] then Some(m) else Some(xs[0])
  }

  /** The minimum depends only on the values, not on their order or count. */
  lemma {:induction false} MinimumOfSameValues(xs: seq<nat>, ys: seq<nat>)
    requires forall x :: x in xs <==> x in ys
    ensures Minimum(xs) == Minimum(ys)
  {
    if xs != [] {
      assert xs[0] in ys;
    }
    if ys != [] {
      assert ys[0] in xs;
    }
    if xs != [] && ys != [] {
      var a, b := Minimum(xs).value, Minimum(ys).value;
      assert a in ys && b in xs;
    }
  }

  /** `process`: the lowest location of any seed; with no seeds `min` finds
      nothing and the `expect` panics. */
  function Process(almanac: Almanac): (r: Result<nat>)
    ensures r.Failure? <==> almanac.seeds == []
    ensures r.Success? ==>
      && (exists i | 0 <= i < |almanac.seeds| :: r.value == Location(almanac, almanac.seeds[i]))
      && forall i | 0 <= i < |almanac.seeds| :: r.value <= Location(almanac, almanac.seeds[i])
  {
    var locations := Locations(almanac, almanac.seeds);
    match Minimum(locations)
    case None => Failure("slice should not be empty")
    case Some(v) =>
      assert exists i | 0 <= i < |locations| :: v == locations[i];
      Success(v)
  }

  function Example(): Almanac {
    Almanac(
      [79, 14, 55, 13],
      [MapData(50, 98, 2), MapData(52, 50, 48)],
      [MapData(0, 15, 37), MapData(37, 52, 2), MapData(39, 0, 15)],
      [MapData(49, 53, 8), MapData(0, 11, 42), MapData(42, 0, 7), MapData(57, 7, 4)],
      [MapData(88, 18, 7), MapData(18, 25, 70)],
      [MapData(45, 77, 23), MapData(81, 45, 19), MapData(68, 64, 13)],
      [MapData(0, 69, 1), MapData(1, 0, 69)],
      [MapData(60, 56, 37), MapData(56, 93, 4)])
  }

  /** The worked example: the seeds end at 82, 43, 86 and 35, so the answer
      is 35. */
  lemma {:induction false} ExampleLowest()
    ensures Process(Example()) == Success(35)
  {
    ExampleLocations();
    LowestOf(Example());
  }

  /** An almanac whose seeds 79, 14, 55 and 13 end at 82, 43, 86 and 35. */
  lemma {:induction false} LowestOf(a: Almanac)
    requires a.seeds == [79, 14, 55, 13]
    requires Location(a, 79) == 82 && Location(a, 14) == 43
    requires Location(a, 55) == 86 && Location(a, 13) == 35
    ensures Process(a) == Success(35)
  {
    assert Locations(a, a.seeds) == [82, 43, 86, 35];
    assert Minimum([82, 43, 86, 35]) == Some(35);
  }

  lemma {:induction false} ExampleLocations()
    ensures Location(Example(), 79) == 82 && Location(Example(), 14) == 43
    ensures Location(Example(), 55) == 86 && Location(Example(), 13) == 35
  {
    ExampleSeed79();
    ExampleSeed14();
    ExampleSeed55();
    ExampleSeed13();
  }

  lemma {:induction false} ExampleSeed79()
    ensures Location(Example(), 79) == 82
  {
    var a := Example();
    assert Lookup(79, a.seedToSoil) == 81;
  }

  lemma {:induction false} ExampleSeed14()
    ensures Location(Example(), 14) == 43
  {
    var a := Example();
    assert Lookup(14, a.seedToSoil) == 14;
  }

  lemma {:induction false} ExampleSeed55()
    ensures Location(Example(), 55) == 86
  {
    var a := Example();
    assert Lookup(55, a.seedToSoil) == 57;
  }

  lemma {:induction false} ExampleSeed13()
    ensures Location(Example(), 13) == 35
  {
    var a := Example();
    assert Lookup(13, a.seedToSoil) == 13;
  }
}
