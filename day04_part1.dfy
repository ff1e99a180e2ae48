/** Day 4, part 1: each scratchcard lists winning numbers and the numbers
    one has; a card with matches is worth a power of two. */
module Day04Part1 {
  datatype Card = Card(number: nat, winning: seq<nat>, numbers: seq<nat>)

  /** How many entries of `numbers` occur among `winning` (each entry
      counted, repeated ones included). */
  function CountIn(numbers: seq<nat>, winning: seq<nat>): (r: nat)
    ensures r <= |numbers|
  {
    if numbers == [] then 0
    else (if numbers[0] in winning then 1 else 0) + CountIn(numbers[1..], winning)
  }

  /** No match exactly when no entry is a winning number, and every entry
      matches exactly when all of them are winning numbers. */
  lemma {:induction false} CountInBounds(numbers: seq<nat>, winning: seq<nat>)
    ensures CountIn(numbers, winning) == 0 <==> forall i | 0 <= i < |numbers| :: numbers[i] !in winning
    ensures CountIn(numbers, winning) == |numbers| <==> forall i | 0 <= i < |numbers| :: numbers[i] in winning
  {
    if numbers != [] {
      CountInBounds(numbers[1..], winning);
      assert forall i | 1 <= i < |numbers| :: numbers[1..][i - 1] == numbers[i];
    }
  }

  /** Counting splits over concatenation. */
  lemma {:induction false} CountInAppend(xs: seq<nat>, ys: seq<nat>, winning: seq<nat>)
    ensures CountIn(xs + ys, winning) == CountIn(xs, winning) + CountIn(ys, winning)
  {
    if xs == [] {
      assert xs + ys == ys;
    } else {
      assert (xs + ys)[0] == xs[0];
      assert (xs + ys)[1..] == xs[1..] + ys;
      CountInAppend(xs[1..], ys, winning);
    }
  }

  /** The number of matches of a card. */
  function Matches(card: Card): nat {
    CountIn(card.numbers, card.winning)
  }

  function Pow2(n: nat): (r: nat)
    ensures r >= 1
  {
    if n == 0 then 1 else 2 * Pow2(n - 1)
  }

  /** The points of a card: 2^(matches - 1), nothing without matches. */
  function Score(card: Card): nat {
    var m := Matches(card);
    if m >= 1 then Pow2(m - 1) else 0
  }

  /** A card scores exactly when it has a match; one match is worth one
      point and every further match doubles the points. */
  lemma {:induction false} ScoreDoubles(card: Card, more: nat)
    ensures Score(card) == 0 <==> forall i | 0 <= i < |card.numbers| :: card.numbers[i] !in card.winning
    ensures Matches(card) == 1 ==> Score(card) == 1
    ensures more in card.winning && Matches(card) >= 1 ==>
      Score(card.(numbers := card.numbers + [more])) == 2 * Score(card)
  {
    CountInBounds(card.numbers, card.winning);
    CountInAppend(card.numbers, [more], card.winning);
    assert [more][1..] == [];
  }

  /** The sum of the card points. */
  function Total(cards: seq<Card>): nat {
    if cards == [] then 0 else Total(cards[..|cards| - 1]) + Score(cards[|cards| - 1])
  }

  /** The sum is over all cards: appending cards adds their points, and a
      pile whose cards have no matches is worth nothing. */
  lemma {:induction false} TotalAppend(xs: seq<Card>, ys: seq<Card>)
    ensures Total(xs + ys) == Total(xs) + Total(ys)
    decreases |ys|
  {
    if ys == [] {
      assert xs + ys == xs;
    } else {
      var n := |ys| - 1;
      assert (xs + ys)[..|xs + ys| - 1] == xs + ys[..n];
      assert (xs + ys)[|xs + ys| - 1] == ys[n];
      TotalAppend(xs, ys[..n]);
    }
  }

  lemma {:induction false} TotalZero(cards: seq<Card>)
    ensures Total(cards) == 0 <==> forall i | 0 <= i < |cards| :: Matches(cards[i]) == 0
  {
    if cards != [] {
      var n := |cards| - 1;
      TotalZero(cards[..n]);
      assert forall i | 0 <= i < n :: cards[..n][i] == cards[i];
    }
  }

  function Example(): seq<Card> {
    [ Card(1, [41, 48, 83, 86, 17], [83, 86, 6, 31, 17, 9, 48, 53]),
      Card(2, [13, 32, 20, 16, 61], [61, 30, 68, 82, 17, 32, 24, 19]),
      Card(3, [1, 21, 53, 59, 44], [69, 82, 63, 72, 16, 21, 14, 1]),
      Card(4, [41, 92, 73, 84, 69], [59, 84, 76, 51, 58, 5, 54, 83]),
      Card(5, [87, 83, 26, 28, 32], [88, 30, 70, 12, 93, 22, 82, 36]),
      Card(6, [31, 18, 13, 56, 72], [74, 77, 10, 23, 35, 67, 36, 11]) ]
  }

  /** Six cards with 4, 2, 2, 1, 0 and 0 matches, as in the example (see
      ExampleMatches), are worth 8 + 2 + 2 + 1 = 13 points. */
  lemma {:induction false} ExampleTotal(cards: seq<Card>)
    requires |cards| == 6
    requires Matches(cards[0]) == 4 && Matches(cards[1]) == 2 && Matches(cards[2]) == 2
    requires Matches(cards[3]) == 1 && Matches(cards[4]) == 0 && Matches(cards[5]) == 0
    ensures Total(cards) == 13
  {
    var scores := [8, 2, 2, 1, 0, 0];
    assert Pow2(3) == 8;
    assert forall i | 0 <= i < 6 :: Score(cards[i]) == scores[i];
    TotalOfScores(cards, scores);
    assert SumOf(scores[..1]) == 8 by { assert scores[..1][..0] == []; }
    assert SumOf(scores[..2]) == 10 by { assert scores[..2][..1] == scores[..1]; }
    assert SumOf(scores[..3]) == 12 by { assert scores[..3][..2] == scores[..2]; }
    assert SumOf(scores[..4]) == 13 by { assert scores[..4][..3] == scores[..3]; }
    assert SumOf(scores[..5]) == 13 by { assert scores[..5][..4] == scores[..4]; }
    assert scores[..6][..5] == scores[..5] && scores[..6] == scores;
  }

  /** The total is the sum of the given card scores. */
  lemma {:induction false} TotalOfScores(cards: seq<Card>, scores: seq<nat>)
    requires |cards| == |scores| && forall i | 0 <= i < |cards| :: Score(cards[i]) == scores[i]
    ensures Total(cards) == SumOf(scores)
  {
    if cards != [] {
      var n := |cards| - 1;
      TotalOfScores(cards[..n], scores[..n]);
    }
  }

  function SumOf(xs: seq<nat>): nat {
    if xs == [] then 0 else SumOf(xs[..|xs| - 1]) + xs[|xs| - 1]
  }

  /** The example cards have 4, 2, 2, 1, 0 and 0 matches, each counted
      entry by entry from the back. */
  lemma {:induction false} ExampleMatches()
    ensures |Example()| == 6
    ensures Matches(Example()[0]) == 4 && Matches(Example()[1]) == 2 && Matches(Example()[2]) == 2
    ensures Matches(Example()[3]) == 1 && Matches(Example()[4]) == 0 && Matches(Example()[5]) == 0
  {
    var cards := Example();
    assert Matches(cards[0]) == 4 by { Card1Matches(); }
    assert Matches(cards[1]) == 2 by { Card2Matches(); }
    assert Matches(cards[2]) == 2 by { Card3Matches(); }
    assert Matches(cards[3]) == 1 by { Card4Matches(); }
    assert Matches(cards[4]) == 0 by { Card5Matches(); }
    assert Matches(cards[5]) == 0 by { Card6Matches(); }
  }

  lemma {:induction false} Card1Matches()
    ensures CountIn([83, 86, 6, 31, 17, 9, 48, 53], [41, 48, 83, 86, 17]) == 4
  {
    var w := [41, 48, 83, 86, 17];
    assert CountIn([83, 86, 6, 31], w) == 2;
    assert CountIn([17, 9, 48, 53], w) == 2;
    CountInAppend([83, 86, 6, 31], [17, 9, 48, 53], w);
    assert [83, 86, 6, 31] + [17, 9, 48, 53] == [83, 86, 6, 31, 17, 9, 48, 53];
  }

  lemma {:induction false} Card2Matches()
    ensures CountIn([61, 30, 68, 82, 17, 32, 24, 19], [13, 32, 20, 16, 61]) == 2
  {
    var w := [13, 32, 20, 16, 61];
    assert CountIn([61, 30, 68, 82], w) == 1;
    assert CountIn([17, 32, 24, 19], w) == 1;
    CountInAppend([61, 30, 68, 82], [17, 32, 24, 19], w);
    assert [61, 30, 68, 82] + [17, 32, 24, 19] == [61, 30, 68, 82, 17, 32, 24, 19];
  }

  lemma {:induction false} Card3Matches()
    ensures CountIn([69, 82, 63, 72, 16, 21, 14, 1], [1, 21, 53, 59, 44]) == 2
  {
    var w := [1, 21, 53, 59, 44];
    assert CountIn([69, 82, 63, 72], w) == 0;
    assert CountIn([16, 21, 14, 1], w) == 2;
    CountInAppend([69, 82, 63, 72], [16, 21, 14, 1], w);
    assert [69, 82, 63, 72] + [16, 21, 14, 1] == [69, 82, 63, 72, 16, 21, 14, 1];
  }

  lemma {:induction false} Card4Matches()
    ensures CountIn([59, 84, 76, 51, 58, 5, 54, 83], [41, 92, 73, 84, 69]) == 1
  {
    var w := [41, 92, 73, 84, 69];
    assert CountIn([59, 84, 76, 51], w) == 1;
    assert CountIn([58, 5, 54, 83], w) == 0;
    CountInAppend([59, 84, 76, 51], [58, 5, 54, 83], w);
    assert [59, 84, 76, 51] + [58, 5, 54, 83] == [59, 84, 76, 51, 58, 5, 54, 83];
  }

  lemma {:induction false} Card5Matches()
    ensures CountIn([88, 30, 70, 12, 93, 22, 82, 36], [87, 83, 26, 28, 32]) == 0
  {
    var w := [87, 83, 26, 28, 32];
    assert CountIn([88, 30, 70, 12], w) == 0;
    assert CountIn([93, 22, 82, 36], w) == 0;
    CountInAppend([88, 30, 70, 12], [93, 22, 82, 36], w);
    assert [88, 30, 70, 12] + [93, 22, 82, 36] == [88, 30, 70, 12, 93, 22, 82, 36];
  }

  lemma {:induction false} Card6Matches()
    ensures CountIn([74, 77, 10, 23, 35, 67, 36, 11], [31, 18, 13, 56, 72]) == 0
  {
    var w := [31, 18, 13, 56, 72];
    assert CountIn([74, 77, 10, 23], w) == 0;
    assert CountIn([35, 67, 36, 11], w) == 0;
    CountInAppend([74, 77, 10, 23], [35, 67, 36, 11], w);
    assert [74, 77, 10, 23] + [35, 67, 36, 11] == [74, 77, 10, 23, 35, 67, 36, 11];
  }
}
