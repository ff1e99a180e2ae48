/** Day 2, part 1: the ids of the games that are possible with 12 red, 13
    green and 14 blue cubes, summed. */
module Day02Part1 {
  import opened Day02Game

  /** The bag of the puzzle. */
  const Bag := MaxVal(12, 13, 14)

  /** The ids of the games among `games` possible under `limit`, summed. */
  function PossibleIds(games: seq<Game>, limit: MaxVal): nat {
    if games == [] then 0
    else
      var last := games[|games| - 1];
      PossibleIds(games[..|games| - 1], limit) + (if Fits(Maxima(Flatten(last.moves)), limit) then last.id else 0)
  }

  /** All ids, summed. */
  function AllIds(games: seq<Game>): nat {
    if games == [] then 0 else AllIds(games[..|games| - 1]) + games[|games| - 1].id
  }

  /** Only games are dropped: the sum is at most the sum of all ids, all of
      it when every move of every game fits, and nothing when no game
      fits. */
  lemma {:induction false} PossibleIdsBounds(games: seq<Game>, limit: MaxVal)
    ensures PossibleIds(games, limit) <= AllIds(games)
    ensures (forall i | 0 <= i < |games| :: Fits(Maxima(Flatten(games[i].moves)), limit)) ==>
      PossibleIds(games, limit) == AllIds(games)
    ensures (forall i | 0 <= i < |games| :: !Fits(Maxima(Flatten(games[i].moves)), limit)) ==>
      PossibleIds(games, limit) == 0
  {
    if games != [] {
      var n := |games| - 1;
      PossibleIdsBounds(games[..n], limit);
      assert forall i | 0 <= i < n :: games[..n][i] == games[i];
    }
  }

  /** A game counts exactly when none of its draws shows more cubes of a
      colour than the bag holds. */
  lemma {:induction false} GameCountsIffDrawsFit(game: Game)
    ensures Fits(Maxima(Flatten(game.moves)), Bag) <==>
      forall k | 0 <= k < |Flatten(game.moves)| ::
        Flatten(game.moves)[k].number <= Component(Bag, Flatten(game.moves)[k].color)
  {
    FitsIffMovesFit(Flatten(game.moves), Bag);
  }

  /** `process`: records the maxima of every game and sums the ids of the
      games possible with the bag. */
  method Process(games: seq<Game>) returns (result: nat)
    modifies set g | g in games
    ensures forall g | g in games :: g.max == Maxima(Flatten(g.moves))
    ensures result == PossibleIds(games, Bag)
  {
    result := 0;
    for i := 0 to |games|
      invariant forall g | g in games[..i] :: g.max == Maxima(Flatten(g.moves))
      invariant result == PossibleIds(games[..i], Bag)
    {
      var game := games[i];
      game.InitializeMax();
      if game.IsPossible(Bag) {
        result := result + game.id;
      }
      assert games[..i + 1][..i] == games[..i];
      assert games[..i + 1] == games[..i] + [game];
    }
    assert games[..|games|] == games;
  }
}
