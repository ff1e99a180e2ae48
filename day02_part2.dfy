/** Day 2, part 2: the power of a game is the product of its per-colour
    maxima, the fewest cubes that make it possible; the powers are summed. */
module Day02Part2 {
  import opened Day02Game

  /** `MaxVal::power`. */
  function Power(m: MaxVal): nat {
    m.blue * m.green * m.red
  }

  lemma {:induction false} ProductMonotone(a: nat, b: nat, c: nat, a': nat, b': nat, c': nat)
    requires a <= a' && b <= b' && c <= c'
    ensures a * b * c <= a' * b' * c'
  {
    assert a * b <= a' * b by {
      assert a' * b - a * b == (a' - a) * b;
    }
    assert a' * b <= a' * b' by {
      assert a' * b' - a' * b == a' * (b' - b);
    }
    assert (a * b) * c <= (a' * b') * c by {
      assert (a' * b') * c - (a * b) * c == (a' * b' - a * b) * c;
    }
    assert (a' * b') * c <= (a' * b') * c' by {
      assert (a' * b') * c' - (a' * b') * c == (a' * b') * (c' - c);
    }
  }

  /** The maxima are the smallest bag the game is possible with: they make
      it possible, and every bag that makes it possible has at least that
      power. */
  lemma {:induction false} PowerIsFewestCubes(flat: seq<Move>, limit: MaxVal)
    ensures Fits(Maxima(flat), Maxima(flat))
    ensures Fits(Maxima(flat), limit) ==> Power(Maxima(flat)) <= Power(limit)
  {
    var m := Maxima(flat);
    if Fits(m, limit) {
      ProductMonotone(m.blue, m.green, m.red, limit.blue, limit.green, limit.red);
    }
  }

  /** A game in which some colour never appears has power 0, because that
      colour's maximum stays at the default 0. */
  lemma {:induction false} MissingColorZeroPower(flat: seq<Move>, c: Color)
    requires forall k | 0 <= k < |flat| :: flat[k].color != c
    ensures Power(Maxima(flat)) == 0
  {
    MaximaIsMax(flat, c);
  }

  /** The powers of the games with the given draws, summed. */
  function PowerSum(games: seq<seq<seq<Move>>>): nat {
    if games == [] then 0 else PowerSum(games[..|games| - 1]) + Power(Maxima(Flatten(games[|games| - 1])))
  }

  /** The draws of every game. */
  function AllMoves(games: seq<Game>): (r: seq<seq<seq<Move>>>)
    ensures |r| == |games| && forall i | 0 <= i < |games| :: r[i] == games[i].moves
  {
    seq(|games|, i requires 0 <= i < |games| => games[i].moves)
  }

  /** `process`: records the maxima of every game and sums their powers. */
  method Process(games: seq<Game>) returns (result: nat)
    modifies set g | g in games
    ensures forall g | g in games :: g.max == Maxima(Flatten(g.moves))
    ensures result == PowerSum(AllMoves(games))
  {
    result := 0;
    for i := 0 to |games|
      invariant forall g | g in games[..i] :: g.max == Maxima(Flatten(g.moves))
      invariant result == PowerSum(AllMoves(games)[..i])
    {
      var game := games[i];
      game.InitializeMax();
      result := result + Power(game.max);
      assert AllMoves(games)[..i + 1][..i] == AllMoves(games)[..i];
      assert games[..i + 1] == games[..i] + [game];
    }
    assert AllMoves(games)[..|games|] == AllMoves(games);
  }

  /** The draws of the five example games. */
  const Example: seq<seq<seq<Move>>> := [
    [[Move(3, Blue), Move(4, Red)], [Move(1, Red), Move(2, Green), Move(6, Blue)], [Move(2, Green)]],
    [[Move(1, Blue), Move(2, Green)], [Move(3, Green), Move(4, Blue), Move(1, Red)], [Move(1, Green), Move(1, Blue)]],
    [[Move(8, Green), Move(6, Blue), Move(20, Red)], [Move(5, Blue), Move(4, Red), Move(13, Green)], [Move(5, Green), Move(1, Red)]],
    [[Move(1, Green), Move(3, Red), Move(6, Blue)], [Move(3, Green), Move(6, Red)], [Move(3, Green), Move(15, Blue), Move(14, Red)]],
    [[Move(6, Red), Move(1, Blue), Move(3, Green)], [Move(2, Blue), Move(1, Red), Move(2, Green)]]
  ]

  /** The draws of a game of two or three draws, one after the other. */
  lemma {:induction false} FlattenDraws(d1: seq<Move>, d2: seq<Move>, d3: seq<Move>)
    ensures Flatten([d1, d2]) == d1 + d2
    ensures Flatten([d1, d2, d3]) == d1 + d2 + d3
  {
    assert Flatten([d1]) == d1 by { assert [d1][..0] == []; }
    assert [d1, d2][..1] == [d1];
    assert [d1, d2, d3][..2] == [d1, d2];
  }

  /** The example's first game,
      "3 blue, 4 red; 1 red, 2 green, 6 blue; 2 green",
      has maxima (4, 2, 6). */
  lemma {:induction false} ExampleGameOne()
    ensures Maxima(Flatten(Example[0])) == MaxVal(4, 2, 6)
  {
    var d1, d2, d3 := [Move(3, Blue), Move(4, Red)], [Move(1, Red), Move(2, Green), Move(6, Blue)], [Move(2, Green)];
    FlattenDraws(d1, d2, d3);
    var flat := d1 + d2 + d3;
    assert Flatten(Example[0]) == flat;
    assert flat[..0] == [];
    assert forall k | 0 < k <= 6 :: flat[..k][..k - 1] == flat[..k - 1];
    assert Maxima(flat[..1]) == MaxVal(0, 0, 3);
    assert Maxima(flat[..2]) == MaxVal(4, 0, 3);
    assert Maxima(flat[..3]) == MaxVal(4, 0, 3);
    assert Maxima(flat[..4]) == MaxVal(4, 2, 3);
    assert Maxima(flat[..5]) == MaxVal(4, 2, 6);
    assert Maxima(flat[..6]) == MaxVal(4, 2, 6);
    assert flat[..6] == flat;
  }

  /** The example's second game,
      "1 blue, 2 green; 3 green, 4 blue, 1 red; 1 green, 1 blue",
      has maxima (1, 3, 4). */
  lemma {:induction false} ExampleGameTwo()
    ensures Maxima(Flatten(Example[1])) == MaxVal(1, 3, 4)
  {
    var d1, d2, d3 := [Move(1, Blue), Move(2, Green)], [Move(3, Green), Move(4, Blue), Move(1, Red)], [Move(1, Green), Move(1, Blue)];
    FlattenDraws(d1, d2, d3);
    var flat := d1 + d2 + d3;
    assert Flatten(Example[1]) == flat;
    assert flat[..0] == [];
    assert forall k | 0 < k <= 7 :: flat[..k][..k - 1] == flat[..k - 1];
    assert Maxima(flat[..1]) == MaxVal(0, 0, 1);
    assert Maxima(flat[..2]) == MaxVal(0, 2, 1);
    assert Maxima(flat[..3]) == MaxVal(0, 3, 1);
    assert Maxima(flat[..4]) == MaxVal(0, 3, 4);
    assert Maxima(flat[..5]) == MaxVal(1, 3, 4);
    assert Maxima(flat[..6]) == MaxVal(1, 3, 4);
    assert Maxima(flat[..7]) == MaxVal(1, 3, 4);
    assert flat[..7] == flat;
  }

  /** The example's third game,
      "8 green, 6 blue, 20 red; 5 blue, 4 red, 13 green; 5 green, 1 red",
      has maxima (20, 13, 6). */
  lemma {:induction false} ExampleGameThree()
    ensures Maxima(Flatten(Example[2])) == MaxVal(20, 13, 6)
  {
    var d1, d2, d3 := [Move(8, Green), Move(6, Blue), Move(20, Red)], [Move(5, Blue), Move(4, Red), Move(13, Green)], [Move(5, Green), Move(1, Red)];
    FlattenDraws(d1, d2, d3);
    var flat := d1 + d2 + d3;
    assert Flatten(Example[2]) == flat;
    assert flat[..0] == [];
    assert forall k | 0 < k <= 8 :: flat[..k][..k - 1] == flat[..k - 1];
    assert Maxima(flat[..1]) == MaxVal(0, 8, 0);
    assert Maxima(flat[..2]) == MaxVal(0, 8, 6);
    assert Maxima(flat[..3]) == MaxVal(20, 8, 6);
    assert Maxima(flat[..4]) == MaxVal(20, 8, 6);
    assert Maxima(flat[..5]) == MaxVal(20, 8, 6);
    assert Maxima(flat[..6]) == MaxVal(20, 13, 6);
    assert Maxima(flat[..7]) == MaxVal(20, 13, 6);
    assert Maxima(flat[..8]) == MaxVal(20, 13, 6);
    assert flat[..8] == flat;
  }

  /** The example's fourth game,
      "1 green, 3 red, 6 blue; 3 green, 6 red; 3 green, 15 blue, 14 red",
      has maxima (14, 3, 15). */
  lemma {:induction false} ExampleGameFour()
    ensures Maxima(Flatten(Example[3])) == MaxVal(14, 3, 15)
  {
    var d1, d2, d3 := [Move(1, Green), Move(3, Red), Move(6, Blue)], [Move(3, Green), Move(6, Red)], [Move(3, Green), Move(15, Blue), Move(14, Red)];
    FlattenDraws(d1, d2, d3);
    var flat := d1 + d2 + d3;
    assert Flatten(Example[3]) == flat;
    assert flat[..0] == [];
    assert forall k | 0 < k <= 8 :: flat[..k][..k - 1] == flat[..k - 1];
    assert Maxima(flat[..1]) == MaxVal(0, 1, 0);
    assert Maxima(flat[..2]) == MaxVal(3, 1, 0);
    assert Maxima(flat[..3]) == MaxVal(3, 1, 6);
    assert Maxima(flat[..4]) == MaxVal(3, 3, 6);
    assert Maxima(flat[..5]) == MaxVal(6, 3, 6);
    assert Maxima(flat[..6]) == MaxVal(6, 3, 6);
    assert Maxima(flat[..7]) == MaxVal(6, 3, 15);
    assert Maxima(flat[..8]) == MaxVal(14, 3, 15);
    assert flat[..8] == flat;
  }

  /** The example's fifth game,
      "6 red, 1 blue, 3 green; 2 blue, 1 red, 2 green",
      has maxima (6, 3, 2). */
  lemma {:induction false} ExampleGameFive()
    ensures Maxima(Flatten(Example[4])) == MaxVal(6, 3, 2)
  {
    var d1, d2 := [Move(6, Red), Move(1, Blue), Move(3, Green)], [Move(2, Blue), Move(1, Red), Move(2, Green)];
    FlattenDraws(d1, d2, []);
    var flat := d1 + d2;
    assert Flatten(Example[4]) == flat;
    assert flat[..0] == [];
    assert forall k | 0 < k <= 6 :: flat[..k][..k - 1] == flat[..k - 1];
    assert Maxima(flat[..1]) == MaxVal(6, 0, 0);
    assert Maxima(flat[..2]) == MaxVal(6, 0, 1);
    assert Maxima(flat[..3]) == MaxVal(6, 3, 1);
    assert Maxima(flat[..4]) == MaxVal(6, 3, 2);
    assert Maxima(flat[..5]) == MaxVal(6, 3, 2);
    assert Maxima(flat[..6]) == MaxVal(6, 3, 2);
    assert flat[..6] == flat;
  }

  /** The example's five games have powers 48, 12, 1560, 630 and 36,
      2286 in all. */
  lemma {:induction false} ExamplePowerSum()
    ensures PowerSum(Example) == 2286
  {
    ExampleGameOne();
    ExampleGameTwo();
    ExampleGameThree();
    ExampleGameFour();
    ExampleGameFive();
    assert Example[..5][..4] == Example[..4];
    assert Example[..4][..3] == Example[..3];
    assert Example[..3][..2] == Example[..2];
    assert Example[..2][..1] == Example[..1];
    assert Example[..1][..0] == [];
    assert PowerSum(Example[..1]) == 48;
    assert PowerSum(Example[..2]) == 60;
    assert PowerSum(Example[..3]) == 1620;
    assert PowerSum(Example[..4]) == 2250;
    assert Example[..5] == Example;
  }
}
