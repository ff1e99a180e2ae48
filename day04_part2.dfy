/** Day 4, part 2: a card with m matches wins one copy of each of the next m
    cards; copies win in turn. The answer is the number of cards one ends
    up with. */
module Day04Part2 {
  import opened Wrappers
  import opened Day04Part1

  /** The number of matches of every card. */
  function Wins(cards: seq<Card>): (w: seq<nat>)
    ensures |w| == |cards| && forall i | 0 <= i < |cards| :: w[i] == Matches(cards[i])
  {
    seq(|cards|, i requires 0 <= i < |cards| => Matches(cards[i]))
  }

  /** How many instances of card `i` one ends up with: the original plus one
      per instance of every earlier card whose wins reach card `i`. */
  function Copies(wins: seq<nat>, i: nat): (c: nat)
    requires i < |wins|
    ensures c >= 1
    decreases i, 1
  {
    1 + Won(wins, i, i)
  }

  /** The copies of card `i` won by the instances of cards `0 .. j-1`. */
  function Won(wins: seq<nat>, i: nat, j: nat): nat
    requires j <= i < |wins|
    decreases j, 0
  {
    if j == 0 then 0
    else Won(wins, i, j - 1) + (if i <= j - 1 + wins[j - 1] then Copies(wins, j - 1) else 0)
  }

  /** The instances of cards `0 .. k-1` together. */
  function CopiesBelow(wins: seq<nat>, k: nat): nat
    requires k <= |wins|
  {
    if k == 0 then 0 else CopiesBelow(wins, k - 1) + Copies(wins, k - 1)
  }

  /** One ends up with at least one instance of every card, and with
      exactly the originals when no card has a match. */
  lemma {:induction false} CopiesBelowBounds(wins: seq<nat>, k: nat)
    requires k <= |wins|
    ensures CopiesBelow(wins, k) >= k
    ensures (forall i | 0 <= i < |wins| :: wins[i] == 0) ==> CopiesBelow(wins, k) == k
  {
    if k > 0 {
      CopiesBelowBounds(wins, k - 1);
      if forall i | 0 <= i < |wins| :: wins[i] == 0 {
        NoWinsNoCopies(wins, k - 1, k - 1);
      }
    }
  }

  lemma {:induction false} NoWinsNoCopies(wins: seq<nat>, i: nat, j: nat)
    requires j <= i < |wins| && forall k | 0 <= k < |wins| :: wins[k] == 0
    ensures Won(wins, i, j) == 0
  {
    if j > 0 {
      NoWinsNoCopies(wins, i, j - 1);
    }
  }

  /** Card `i` after cards `0 .. idx-1` were played, and the cards
      `idx+1 .. f-1` credited with the copies of card `idx`. */
  ghost predicate PlayedUpTo(wins: seq<nat>, played: seq<nat>, idx: nat, f: nat)
    requires |played| == |wins|
  {
    forall k | 0 <= k < |wins| ::
      played[k] == 1 + Won(wins, k, if idx < k then idx else k) + (if idx < k < f && idx < |wins| then Copies(wins, idx) else 0)
  }

  /** Adding the copies of card `idx` to the cards it reaches completes
      round `idx`. */
  lemma {:induction false} RoundDone(wins: seq<nat>, played: seq<nat>, idx: nat, f: nat)
    requires |played| == |wins| && idx < |wins|
    requires f == (if |wins| - 1 < idx + wins[idx] then |wins| - 1 else idx + wins[idx]) + 1
    requires PlayedUpTo(wins, played, idx, f)
    ensures PlayedUpTo(wins, played, idx + 1, idx + 1)
  {
    forall k | 0 <= k < |wins|
      ensures played[k] == 1 + Won(wins, k, if idx + 1 < k then idx + 1 else k)
    {
      if idx < k {
        assert Won(wins, k, idx + 1) == Won(wins, k, idx) + (if k <= idx + wins[idx] then Copies(wins, idx) else 0);
      }
    }
  }

  /** `process` with the inner loop stopping at the last card: every card
      `idx` adds its instance count to each of the next `wins[idx]` cards
      that exist, and the instance counts are summed. */
  method Process(cards: seq<Card>) returns (total: nat)
    ensures total == CopiesBelow(Wins(cards), |cards|)
    ensures total >= |cards|
  {
    var wins := Wins(cards);
    var n := |cards|;
    var played := new nat[n](_ => 1);
    for idx := 0 to n
      invariant PlayedUpTo(wins, played[..], idx, idx)
    {
      var winningCount := Matches(cards[idx]);
      var last := if n - 1 < winningCount + idx then n - 1 else winningCount + idx;
      Credit(played, wins, idx, last);
      RoundDone(wins, played[..], idx, last + 1);
    }
    total := Sum(played, wins);
    CopiesBelowBounds(wins, n);
  }

  /** The inner loop: the cards `idx+1 ..= last` are credited with the
      instances of card `idx`. */
  method Credit(played: array<nat>, ghost wins: seq<nat>, idx: nat, last: nat)
    modifies played
    requires played.Length == |wins| && idx <= last < |wins|
    requires PlayedUpTo(wins, played[..], idx, idx)
    ensures PlayedUpTo(wins, played[..], idx, last + 1)
  {
    assert played[idx] == Copies(wins, idx);
    for f := idx + 1 to last + 1
      invariant PlayedUpTo(wins, played[..], idx, f)
    {
      played[f] := played[f] + played[idx];
    }
  }

  /** `played.iter().sum()`, once every card is played. */
  method Sum(played: array<nat>, ghost wins: seq<nat>) returns (total: nat)
    requires played.Length == |wins| && PlayedUpTo(wins, played[..], |wins|, |wins|)
    ensures total == CopiesBelow(wins, |wins|)
  {
    total := 0;
    for k := 0 to played.Length
      invariant total == CopiesBelow(wins, k)
    {
      assert played[k] == 1 + Won(wins, k, k);
      total := total + played[k];
    }
  }

  /** Some card's wins reach past the last card. */
  predicate ReachesPastEnd(wins: seq<nat>) {
    exists i | 0 <= i < |wins| :: i + wins[i] >= |wins|
  }

  /** `process` as written: the inner range runs up to
      `min(max_cards, winning_count + card_idx)` inclusive, so it reaches
      index `max_cards` and panics whenever a card's wins reach past the
      last card. */
  method ProcessAsWritten(cards: seq<Card>) returns (r: Result<nat>)
    ensures r.Failure? <==> ReachesPastEnd(Wins(cards))
    ensures r.Success? ==> r.value == CopiesBelow(Wins(cards), |cards|)
  {
    var wins := Wins(cards);
    var n := |cards|;
    var played := new nat[n](_ => 1);
    for idx := 0 to n
      invariant PlayedUpTo(wins, played[..], idx, idx)
      invariant forall i | 0 <= i < idx :: i + wins[i] < n
    {
      var winningCount := Matches(cards[idx]);
      var last := if n < winningCount + idx then n else winningCount + idx;
      if last >= n {
        // the cards up to the last one are credited, then `played[max_cards]` panics
        Credit(played, wins, idx, n - 1);
        return Failure("index out of bounds");
      }
      Credit(played, wins, idx, last);
      RoundDone(wins, played[..], idx, last + 1);
    }
    var total := Sum(played, wins);
    r := Success(total);
  }

  /** Whenever the last card has a match, the code as written panics, while
      every card still has its well-defined count. */
  lemma {:induction false} LastCardWinsPanics(wins: seq<nat>)
    requires wins != [] && wins[|wins| - 1] > 0
    ensures ReachesPastEnd(wins)
    ensures CopiesBelow(wins, |wins|) >= |wins|
  {
    assert (|wins| - 1) + wins[|wins| - 1] >= |wins|;
    CopiesBelowBounds(wins, |wins|);
  }

  /** The example cards have 4, 2, 2, 1, 0 and 0 matches (ExampleMatches);
      one ends up with 1, 2, 4, 8, 14 and 1 instances, 30 in all. */
  lemma {:induction false} ExampleTotal(wins: seq<nat>)
    requires wins == [4, 2, 2, 1, 0, 0]
    ensures CopiesBelow(wins, 6) == 30
  {
    assert Copies(wins, 0) == 1;
    assert Copies(wins, 1) == 2;
    assert Copies(wins, 2) == 4;
    assert Copies(wins, 3) == 8;
    assert Copies(wins, 4) == 14;
    assert Copies(wins, 5) == 1;
    assert CopiesBelow(wins, 1) == 1;
    assert CopiesBelow(wins, 2) == 3;
    assert CopiesBelow(wins, 3) == 7;
    assert CopiesBelow(wins, 4) == 15;
    assert CopiesBelow(wins, 5) == 29;
  }
}
