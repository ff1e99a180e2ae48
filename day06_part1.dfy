/** Day 6, part 1: a boat held for `hold` milliseconds of a `time`-long race
    travels `(time - hold) * hold`; count the holds that beat the record
    distance, and multiply the counts of all races. */
module Day06Part1 {
  datatype Race = Race(time: nat, distance: nat)

  /** `Race::alternatives`: the distance travelled for every hold from 1 to
      `time - 1`. Each is at least 1, and the list reads the same
      backwards, since holding `h` and holding `time - h` go as far. */
  function Alternatives(race: Race): (r: seq<nat>)
    ensures |r| == if race.time <= 1 then 0 else race.time - 1
    ensures forall i | 0 <= i < |r| :: r[i] >= 1
    ensures forall i | 0 <= i < |r| :: r[i] == r[|r| - 1 - i]
  {
    if race.time <= 1 then []
    else
      var r := seq(race.time - 1, i requires 0 <= i < race.time - 1 => (race.time - (i + 1)) * (i + 1));
      HoldsMirror(race.time, r);
      r
  }

  /** Every hold goes somewhere, and holding `i + 1` and holding
      `time - (i + 1)` go equally far. */
  lemma {:induction false} HoldsMirror(time: nat, r: seq<nat>)
    requires time >= 2 && |r| == time - 1
    requires forall i | 0 <= i < |r| :: r[i] == (time - (i + 1)) * (i + 1)
    ensures forall i | 0 <= i < |r| :: r[i] >= 1
    ensures forall i | 0 <= i < |r| :: r[i] == r[|r| - 1 - i]
  {
    forall i | 0 <= i < |r|
      ensures r[i] >= 1
    {
      MulPositive(time - (i + 1), i + 1);
    }
    forall i | 0 <= i < |r|
      ensures r[i] == r[|r| - 1 - i]
    {
      var j := |r| - 1 - i;
      assert r[j] == (time - (j + 1)) * (j + 1);
      assert time - (j + 1) == i + 1 && j + 1 == time - (i + 1);
    }
  }

  /** The alternatives above `distance`, counted. */
  function CountAbove(alternatives: seq<nat>, distance: nat): (n: nat)
    ensures n <= |alternatives|
  {
    if alternatives == [] then 0
    else CountAbove(alternatives[..|alternatives| - 1], distance) + (if alternatives[|alternatives| - 1] > distance then 1 else 0)
  }

  /** The number of ways to beat the record of a race. */
  function Ways(race: Race): nat {
    CountAbove(Alternatives(race), race.distance)
  }

  /** For a hold strictly between 0 and `time`: it beats the record exactly
      when it lies in `lo ..= time - lo`, given that `lo` beats it and
      `lo - 1` does not. */
  lemma {:induction false} BeatsIffInInterval(time: nat, distance: nat, lo: nat, hold: nat)
    requires 1 <= lo && 2 * lo <= time
    requires (time - lo) * lo > distance && (time - (lo - 1)) * (lo - 1) <= distance
    requires 1 <= hold < time
    ensures (time - hold) * hold > distance <==> lo <= hold <= time - lo
  {
    var t, h, l: int := time, hold, lo;
    if l <= h <= t - l {
      assert (t - h) * h - (t - l) * l == (h - l) * (t - l - h);
      MulNonNegative(h - l, t - l - h);
    } else {
      var h' := if h < l then h else t - h;
      assert (t - h) * h == (t - h') * h';
      assert (t - (l - 1)) * (l - 1) - (t - h') * h' == (l - 1 - h') * (t - (l - 1) - h');
      MulNonNegative(l - 1 - h', t - (l - 1) - h');
    }
  }

  lemma {:induction false} MulNonNegative(a: int, b: int)
    requires a >= 0 && b >= 0
    ensures a * b >= 0
  {
  }

  /** The first `k` alternatives beat the record in as many places as
      `1 ..= k` meets `lo ..= time - lo`. */
  lemma {:induction false} CountPrefix(race: Race, lo: nat, k: nat)
    requires 1 <= lo && 2 * lo <= race.time
    requires (race.time - lo) * lo > race.distance && (race.time - (lo - 1)) * (lo - 1) <= race.distance
    requires k <= race.time - 1
    ensures CountAbove(Alternatives(race)[..k], race.distance) ==
      if k < lo then 0 else if k <= race.time - lo then k - lo + 1 else race.time + 1 - 2 * lo
  {
    var alternatives := Alternatives(race);
    if k > 0 {
      assert alternatives[..k][..k - 1] == alternatives[..k - 1];
      CountPrefix(race, lo, k - 1);
      BeatsIffInInterval(race.time, race.distance, lo, k);
    }
  }

  /** The holds that beat the record form the interval `lo ..= time - lo`,
      where `lo` is the first hold that beats it: there are
      `time + 1 - 2 * lo` of them. */
  lemma {:induction false} WaysFromInterval(race: Race, lo: nat)
    requires 1 <= lo && 2 * lo <= race.time
    requires (race.time - lo) * lo > race.distance && (race.time - (lo - 1)) * (lo - 1) <= race.distance
    ensures Ways(race) == race.time + 1 - 2 * lo
  {
    CountPrefix(race, lo, race.time - 1);
    assert Alternatives(race)[..race.time - 1] == Alternatives(race);
  }

  /** The number of ways of every race. */
  function WaysOf(races: seq<Race>): (r: seq<nat>)
    ensures |r| == |races| && forall i | 0 <= i < |races| :: r[i] == Ways(races[i])
  {
    seq(|races|, i requires 0 <= i < |races| => Ways(races[i]))
  }

  /** `Iterator::product`. */
  function ProductOf(xs: seq<nat>): nat {
    if xs == [] then 1 else ProductOf(xs[..|xs| - 1]) * xs[|xs| - 1]
  }

  /** `process`, on the parsed races: the product of the numbers of ways. */
  function Product(races: seq<Race>): nat {
    ProductOf(WaysOf(races))
  }

  /** A product is zero exactly when a factor is. */
  lemma {:induction false} ProductOfZeroIff(xs: seq<nat>)
    ensures ProductOf(xs) == 0 <==> exists i | 0 <= i < |xs| :: xs[i] == 0
  {
    if xs != [] {
      var n := |xs| - 1;
      ProductOfZeroIff(xs[..n]);
      assert forall i | 0 <= i < n :: xs[..n][i] == xs[i];
      ZeroProduct(ProductOf(xs[..n]), xs[n]);
    }
  }

  /** The product is zero exactly when some race cannot be won. */
  lemma {:induction false} ProductZeroIff(races: seq<Race>)
    ensures Product(races) == 0 <==> exists i | 0 <= i < |races| :: Ways(races[i]) == 0
  {
    var ways := WaysOf(races);
    ProductOfZeroIff(ways);
    if exists i | 0 <= i < |races| :: Ways(races[i]) == 0 {
      var i :| 0 <= i < |races| && Ways(races[i]) == 0;
      assert ways[i] == 0;
    }
  }

  lemma {:induction false} ZeroProduct(a: nat, b: nat)
    ensures a * b == 0 <==> a == 0 || b == 0
  {
    if a > 0 && b > 0 {
      MulPositive(a, b);
    }
  }

  lemma {:induction false} MulPositive(a: nat, b: nat)
    requires a > 0 && b > 0
    ensures a * b > 0
  {
  }

  /** The example races 7/9, 15/40 and 30/200 can be won in 4, 8 and 9
      ways: 288. */
  lemma {:induction false} ExampleProduct()
    ensures Product([Race(7, 9), Race(15, 40), Race(30, 200)]) == 288
  {
    var races := [Race(7, 9), Race(15, 40), Race(30, 200)];
    WaysFromInterval(races[0], 2);
    WaysFromInterval(races[1], 4);
    WaysFromInterval(races[2], 11);
    var ways := WaysOf(races);
    assert ways[0] == 4 && ways[1] == 8 && ways[2] == 9;
    assert ways == [4, 8, 9];
    assert [4, 8, 9][..2] == [4, 8] && [4, 8][..1] == [4] && [4][..0] == [];
    assert ProductOf([4]) == 4;
    assert ProductOf([4, 8]) == 32;
  }
}
