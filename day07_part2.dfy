/** Day 7, part 2: jacks are jokers. A joker is the weakest card when
    hands of the same type are compared, but it may stand for any other
    card when the type is decided: every hand is given the best type that
    some replacement of its jokers reaches. */
module Day07Part2 {
  import opened Wrappers
  import P1 = Day07Part1

  datatype Card = CJ | C2 | C3 | C4 | C5 | C6 | C7 | C8 | C9 | CT | CQ | CK | CA

  /** The derived order of the cards with the joker first. */
  function CardRank(c: Card): (r: nat)
    ensures r < 13
    ensures r == 0 <==> c == CJ
  {
    match c
    case CJ => 0
    case C2 => 1
    case C3 => 2
    case C4 => 3
    case C5 => 4
    case C6 => 5
    case C7 => 6
    case C8 => 7
    case C9 => 8
    case CT => 9
    case CQ => 10
    case CK => 11
    case CA => 12
  }

  /** `Card::iter()` without the joker, in declaration order. */
  const NonJokers: seq<Card> := [C2, C3, C4, C5, C6, C7, C8, C9, CT, CQ, CK, CA]

  type Hand = P1.Hand<Card>

  /** A hand as the parser builds it: five cards and their own type. */
  predicate Consistent(h: Hand) {
    |h.cards| == 5 && h.handType == P1.Classify(h.cards)
  }

  function Jokers(cards: seq<Card>): nat {
    multiset(cards)[CJ]
  }

  /** `s` keeps every card of `cards` that is not a joker; each joker may
      stay or become any card. */
  ghost predicate InReach(cards: seq<Card>, s: seq<Card>) {
    |s| == |cards| && forall i | 0 <= i < |cards| :: s[i] == cards[i] || cards[i] == CJ
  }

  /** Some hand of `hands` has a type at least as strong as the cards
      `s`. */
  ghost predicate Dominated(hands: seq<Hand>, s: seq<Card>)
    requires |s| == 5
  {
    exists h | h in hands :: P1.TypeRank(P1.Classify(s)) <= P1.TypeRank(h.handType)
  }

  /** Every way to play the jokers left after putting `c` at position `j`
      is dominated by `hands`. */
  ghost predicate ChildCovered(hands: seq<Hand>, cards: seq<Card>, j: nat, c: Card)
    requires j < |cards| == 5
  {
    forall s | InReach(cards[j := c], s) :: Dominated(hands, s)
  }

  /** `get_highest_hand`: the maximum under `Hand::cmp`; like
      `Iterator::max`, the last of several equal maxima. An empty list
      panics. */
  function HighestHand(hands: seq<Hand>): (r: Hand)
    requires hands != []
    ensures r in hands
  {
    if |hands| == 1 then hands[0]
    else
      var best := HighestHand(hands[..|hands| - 1]);
      var last := hands[|hands| - 1];
      if P1.Compare(CardRank, last, best) != P1.Less then last else best
  }

  /** No hand of the list is greater than the highest one, so no hand has
      a stronger type. */
  lemma {:induction false} HighestIsMax(hands: seq<Hand>)
    requires hands != []
    ensures forall h | h in hands :: P1.Compare(CardRank, h, HighestHand(hands)) != P1.Greater
    ensures forall h | h in hands :: P1.TypeRank(h.handType) <= P1.TypeRank(HighestHand(hands).handType)
  {
    var r := HighestHand(hands);
    P1.LexEqual(P1.Key(CardRank, r), P1.Key(CardRank, r));
    if |hands| > 1 {
      var init, last := hands[..|hands| - 1], hands[|hands| - 1];
      var best := HighestHand(init);
      HighestIsMax(init);
      P1.LexFlip(P1.Key(CardRank, last), P1.Key(CardRank, best));
      P1.LexEqual(P1.Key(CardRank, last), P1.Key(CardRank, last));
      assert hands == init + [last];
      forall h | h in hands ensures P1.Compare(CardRank, h, r) != P1.Greater {
        if h in init && r == last {
          P1.LexTransitive(P1.Key(CardRank, h), P1.Key(CardRank, best), P1.Key(CardRank, last));
        }
      }
    }
    forall h | h in hands ensures P1.TypeRank(h.handType) <= P1.TypeRank(r.handType) {
      assert P1.Key(CardRank, h)[0] == P1.TypeRank(h.handType);
      assert P1.Key(CardRank, r)[0] == P1.TypeRank(r.handType);
    }
  }

  lemma {:induction false} NonJokersComplete(c: Card)
    requires c != CJ
    ensures c in NonJokers
  {
  }

  /** Putting a card in place of a joker narrows the reach. */
  lemma {:induction false} ReachNarrows(cards: seq<Card>, j: nat, c: Card, s: seq<Card>)
    requires j < |cards| && cards[j] == CJ && InReach(cards[j := c], s)
    ensures InReach(cards, s)
  {
    forall i | 0 <= i < |cards| ensures s[i] == cards[i] || cards[i] == CJ {
      if i != j {
        assert cards[j := c][i] == cards[i];
      }
    }
  }

  lemma {:induction false} MoreHandsCover(hands: seq<Hand>, extra: Hand, cards: seq<Card>, j: nat, c: Card)
    requires j < |cards| == 5 && ChildCovered(hands, cards, j, c)
    ensures ChildCovered(hands + [extra], cards, j, c)
  {
    forall s | InReach(cards[j := c], s) ensures Dominated(hands + [extra], s) {
      assert Dominated(hands, s);
      var h :| h in hands && P1.TypeRank(P1.Classify(s)) <= P1.TypeRank(h.handType);
      assert h in hands + [extra];
    }
  }

  lemma {:induction false} JokersUpdate(cards: seq<Card>, j: nat, c: Card)
    requires j < |cards| && cards[j] == CJ && c != CJ
    ensures Jokers(cards[j := c]) == Jokers(cards) - 1
  {
    assert cards == cards[..j] + [CJ] + cards[j + 1..];
    assert cards[j := c] == cards[..j] + [c] + cards[j + 1..];
  }

  lemma {:induction false} JokersPrefix(cards: seq<Card>, idx: nat)
    requires idx < |cards|
    ensures Jokers(cards[..idx + 1]) == Jokers(cards[..idx]) + if cards[idx] == CJ then 1 else 0
  {
    assert cards[..idx + 1] == cards[..idx] + [cards[idx]];
  }

  /** The best hand of one child's list covers the child's reach. */
  lemma {:induction false} BestCoversChild(hands: seq<Hand>, perms: seq<Hand>, cards: seq<Card>, j: nat, c: Card)
    requires j < |cards| == 5 && perms != []
    requires forall s | InReach(cards[j := c], s) :: Dominated(perms, s)
    ensures ChildCovered(hands + [HighestHand(perms)], cards, j, c)
  {
    var best := HighestHand(perms);
    HighestIsMax(perms);
    forall s | InReach(cards[j := c], s) ensures Dominated(hands + [best], s) {
      assert Dominated(perms, s);
      var h :| h in perms && P1.TypeRank(P1.Classify(s)) <= P1.TypeRank(h.handType);
      assert best in hands + [best];
    }
  }

  /** The state of the search once the jokers before position `idx`, and
      at position `idx` the first `k` replacement cards, are explored. */
  ghost predicate Explored(hands: seq<Hand>, hand: Hand, idx: nat, k: nat)
    requires Consistent(hand) && k <= 12
  {
    && hands != [] && hands[0] == hand
    && (forall h | h in hands :: Consistent(h) && InReach(hand.cards, h.cards))
    && (forall j, c | 0 <= j < 5 && hand.cards[j] == CJ && c != CJ && (j < idx || (j == idx && c in NonJokers[..k])) ::
          ChildCovered(hands, hand.cards, j, c))
  }

  /** `permutate_hand`: the hand itself, and for every joker and every
      other card the best hand reachable once that card replaces the
      joker. The jokers left decrease with every recursive call. */
  method PermutateHand(hand: Hand) returns (hands: seq<Hand>)
    requires Consistent(hand)
    ensures hands != [] && hands[0] == hand
    ensures Jokers(hand.cards) == 0 ==> hands == [hand]
    ensures |hands| == 1 + 12 * Jokers(hand.cards)
    ensures forall h | h in hands :: Consistent(h) && InReach(hand.cards, h.cards)
    ensures forall s | InReach(hand.cards, s) :: Dominated(hands, s)
    decreases Jokers(hand.cards), 1
  {
    var cards := hand.cards;
    hands := [hand];
    if CJ in cards {
      for idx := 0 to 5
        invariant Explored(hands, hand, idx, 0)
        invariant |hands| == 1 + 12 * Jokers(cards[..idx])
      {
        JokersPrefix(cards, idx);
        if cards[idx] == CJ {
          for k := 0 to 12
            invariant Explored(hands, hand, idx, k)
            invariant |hands| == 1 + 12 * Jokers(cards[..idx]) + k
          {
            hands := ExploreChild(hand, hands, idx, k);
          }
          ExploredAllCards(hands, hand, idx);
        } else {
          ExploredNoJoker(hands, hand, idx);
        }
      }
      assert cards[..5] == cards;
    } else {
      assert Jokers(cards) == 0;
    }
    ExploredAll(hands, hand);
  }

  lemma {:induction false} ExploredAllCards(hands: seq<Hand>, hand: Hand, idx: nat)
    requires Consistent(hand) && Explored(hands, hand, idx, 12)
    ensures Explored(hands, hand, idx + 1, 0)
  {
    assert NonJokers[..12] == NonJokers;
    forall c | c != CJ ensures c in NonJokers {
      NonJokersComplete(c);
    }
  }

  lemma {:induction false} ExploredNoJoker(hands: seq<Hand>, hand: Hand, idx: nat)
    requires Consistent(hand) && Explored(hands, hand, idx, 0) && idx < 5 && hand.cards[idx] != CJ
    ensures Explored(hands, hand, idx + 1, 0)
  {
  }

  /** Once every joker was tried with every card, every play of the
      jokers is dominated. */
  lemma {:induction false} ExploredAll(hands: seq<Hand>, hand: Hand)
    requires Consistent(hand)
    requires CJ in hand.cards ==> Explored(hands, hand, 5, 0)
    requires CJ !in hand.cards ==> hands == [hand]
    ensures forall s | InReach(hand.cards, s) :: Dominated(hands, s)
  {
    var cards := hand.cards;
    forall s | InReach(cards, s) ensures Dominated(hands, s) {
      if s == cards {
        assert hands[0] == hand;
        assert hand in hands && P1.Classify(s) == hand.handType;
      } else {
        var i :| 0 <= i < 5 && s[i] != cards[i];
        assert cards[i] == CJ;
        NonJokersComplete(s[i]);
        assert ChildCovered(hands, cards, i, s[i]);
        assert InReach(cards[i := s[i]], s);
      }
    }
  }

  /** One step of the inner loop of `permutate_hand`: put the `k`-th other
      card in place of the joker at `idx`, build that hand and its type,
      and keep the highest hand of its own permutations. */
  method ExploreChild(hand: Hand, hands: seq<Hand>, idx: nat, k: nat) returns (hands': seq<Hand>)
    requires Consistent(hand) && idx < 5 && k < 12 && hand.cards[idx] == CJ
    requires Explored(hands, hand, idx, k)
    ensures Explored(hands', hand, idx, k + 1)
    ensures |hands'| == |hands| + 1
    decreases Jokers(hand.cards), 0
  {
    var cards := hand.cards;
    var card := NonJokers[k];
    var newCards := cards[idx := card];
    var newType := P1.HandTypeOf(newCards);
    var newHand := P1.Hand(newType, newCards);
    JokersUpdate(cards, idx, card);
    var perms := PermutateHand(newHand);
    var best := HighestHand(perms);
    hands' := hands + [best];
    ExploredStep(hands, hand, idx, k, perms);
  }

  lemma {:induction false} ExploredStep(hands: seq<Hand>, hand: Hand, idx: nat, k: nat, perms: seq<Hand>)
    requires Consistent(hand) && idx < 5 && k < 12 && hand.cards[idx] == CJ
    requires Explored(hands, hand, idx, k)
    requires perms != []
    requires forall h | h in perms :: Consistent(h) && InReach(hand.cards[idx := NonJokers[k]], h.cards)
    requires forall s | InReach(hand.cards[idx := NonJokers[k]], s) :: Dominated(perms, s)
    ensures Explored(hands + [HighestHand(perms)], hand, idx, k + 1)
  {
    var cards, card, best := hand.cards, NonJokers[k], HighestHand(perms);
    var hands' := hands + [best];
    assert hands'[0] == hand;
    ReachNarrows(cards, idx, card, best.cards);
    assert forall h | h in hands' :: Consistent(h) && InReach(cards, h.cards) by {
      forall h | h in hands' ensures Consistent(h) && InReach(cards, h.cards) {
        if h != best {
          assert h in hands;
        }
      }
    }
    forall j, c | 0 <= j < 5 && cards[j] == CJ && c != CJ && (j < idx || (j == idx && c in NonJokers[..k + 1]))
      ensures ChildCovered(hands', cards, j, c)
    {
      assert NonJokers[..k + 1] == NonJokers[..k] + [card];
      if j == idx && c == card {
        BestCoversChild(hands, perms, cards, idx, card);
      } else {
        MoreHandsCover(hands, best, cards, j, c);
      }
    }
  }

  /** The best type any play of the jokers reaches: `t` is reached by some
      play, and no play beats it. */
  ghost predicate BestOf(cards: seq<Card>, t: P1.HandType) {
    && (exists s | InReach(cards, s) && |s| == 5 :: P1.Classify(s) == t)
    && (forall s | InReach(cards, s) && |s| == 5 :: P1.TypeRank(P1.Classify(s)) <= P1.TypeRank(t))
  }

  /** The best type of a list of cards is unique. */
  lemma {:induction false} BestOfUnique(cards: seq<Card>, t: P1.HandType, u: P1.HandType)
    requires BestOf(cards, t) && BestOf(cards, u)
    ensures t == u
  {
    var s :| InReach(cards, s) && |s| == 5 && P1.Classify(s) == t;
    var r :| InReach(cards, r) && |r| == 5 && P1.Classify(r) == u;
    assert P1.TypeRank(t) <= P1.TypeRank(u) && P1.TypeRank(u) <= P1.TypeRank(t);
  }

  /** `get_highest_hand(&permutate_hand(hand)).hand_type`: the best type
      the jokers allow, never weaker than the hand's own type. */
  method BestType(hand: Hand) returns (t: P1.HandType)
    requires Consistent(hand)
    ensures BestOf(hand.cards, t)
    ensures P1.TypeRank(hand.handType) <= P1.TypeRank(t)
  {
    var hands := PermutateHand(hand);
    var best := HighestHand(hands);
    HighestIsMax(hands);
    t := best.handType;
    assert InReach(hand.cards, best.cards);
    forall s | InReach(hand.cards, s) && |s| == 5 ensures P1.TypeRank(P1.Classify(s)) <= P1.TypeRank(t) {
      assert Dominated(hands, s);
    }
    assert InReach(hand.cards, hand.cards);
  }

  /** A hand without jokers keeps its type. */
  lemma {:induction false} NoJokerKeepsType(hand: Hand, t: P1.HandType)
    requires Consistent(hand) && CJ !in hand.cards && BestOf(hand.cards, t)
    ensures t == hand.handType
  {
    var s :| InReach(hand.cards, s) && |s| == 5 && P1.Classify(s) == t;
    assert s == hand.cards;
  }

  /** Game `i` after its hand got its best type; cards and bet stay. */
  ghost predicate UpgradedAt(games: seq<P1.Game<Card>>, upgraded: seq<P1.Game<Card>>, i: nat)
    requires i < |games| && i < |upgraded|
  {
    && upgraded[i].bet == games[i].bet
    && upgraded[i].hand.cards == games[i].hand.cards
    && BestOf(games[i].hand.cards, upgraded[i].hand.handType)
  }

  ghost predicate Upgraded(games: seq<P1.Game<Card>>, upgraded: seq<P1.Game<Card>>) {
    |upgraded| == |games| && forall i | 0 <= i < |games| :: UpgradedAt(games, upgraded, i)
  }

  /** `process`: give every hand its best type, then rank the games with
      the joker as the lowest card. */
  method Process(games: seq<P1.Game<Card>>) returns (total: nat, ghost upgraded: seq<P1.Game<Card>>)
    requires forall i | 0 <= i < |games| :: Consistent(games[i].hand)
    ensures Upgraded(games, upgraded)
    ensures total == P1.Winnings(P1.Sort(CardRank, upgraded))
  {
    var current := games;
    for i := 0 to |games|
      invariant |current| == |games|
      invariant forall j | 0 <= j < i :: UpgradedAt(games, current, j)
      invariant forall j | i <= j < |games| :: current[j] == games[j]
    {
      var game := current[i];
      var t := BestType(game.hand);
      ghost var before := current;
      current := current[i := P1.Game(P1.Hand(t, game.hand.cards), game.bet)];
      forall j | 0 <= j <= i ensures UpgradedAt(games, current, j) {
        if j < i {
          assert current[j] == before[j] && UpgradedAt(games, before, j);
        } else {
          assert game == games[i];
        }
      }
    }
    upgraded := current;
    total := P1.TotalWinnings(CardRank, current);
  }
}
