/** Day 7, part 1: Camel Cards. Every hand of five cards is classified by
    how often its cards repeat; hands are ordered by their type first and
    then card by card from the left; each hand wins its bet times its rank
    in that order.

    The classification, the hand order and the ranking are written once,
    for any card type with a rank: part 2 reuses them with its own card
    order, in which the joker is the lowest card. */
module Day07Part1 {
  import opened Wrappers

  datatype HandType = HighCard | OnePair | TwoPair | ThreeOfAKind | FullHouse | FourOfAKind | FiveAfAKind

  /** The derived order of the hand types, weakest first. */
  function TypeRank(t: HandType): (r: nat)
    ensures r < 7
  {
    match t
    case HighCard => 0
    case OnePair => 1
    case TwoPair => 2
    case ThreeOfAKind => 3
    case FullHouse => 4
    case FourOfAKind => 5
    case FiveAfAKind => 6
  }

  datatype Card = C2 | C3 | C4 | C5 | C6 | C7 | C8 | C9 | CT | CJ | CQ | CK | CA

  /** The derived order of the cards: 2 is the lowest card, the ace the
      highest, and the jack sits between ten and queen. */
  function CardRank(c: Card): (r: nat)
    ensures r < 13
  {
    match c
    case C2 => 0
    case C3 => 1
    case C4 => 2
    case C5 => 3
    case C6 => 4
    case C7 => 5
    case C8 => 6
    case C9 => 7
    case CT => 8
    case CJ => 9
    case CQ => 10
    case CK => 11
    case CA => 12
  }

  datatype Hand<C> = Hand(handType: HandType, cards: seq<C>)

  datatype Game<C> = Game(hand: Hand<C>, bet: nat)

  // ---------------------------------------------------------------------
  // Classifying a hand

  /** The distinct cards of a hand. */
  function Kinds<C(==)>(cards: seq<C>): set<C> {
    set c | c in cards
  }

  /** The cards that occur exactly twice. */
  function Pairs<C(==)>(cards: seq<C>): set<C> {
    set c | c in cards && multiset(cards)[c] == 2
  }

  /** The largest number of copies among the cards `xs` of the hand
      `cards`. */
  function MaxOver<C(==)>(cards: seq<C>, xs: seq<C>): nat {
    if xs == [] then 0
    else
      var rest := MaxOver(cards, xs[1..]);
      if multiset(cards)[xs[0]] > rest then multiset(cards)[xs[0]] else rest
  }

  function MaxMult<C(==)>(cards: seq<C>): nat {
    MaxOver(cards, cards)
  }

  lemma {:induction false} MaxOverFacts<C>(cards: seq<C>, xs: seq<C>)
    ensures forall c | c in xs :: multiset(cards)[c] <= MaxOver(cards, xs)
    ensures xs != [] ==> exists c | c in xs :: multiset(cards)[c] == MaxOver(cards, xs)
    ensures xs == [] ==> MaxOver(cards, xs) == 0
  {
    if xs != [] {
      MaxOverFacts(cards, xs[1..]);
      forall c | c in xs ensures multiset(cards)[c] <= MaxOver(cards, xs) {
        if c != xs[0] {
          assert c in xs[1..];
        }
      }
      if xs[1..] != [] {
        var c :| c in xs[1..] && multiset(cards)[c] == MaxOver(cards, xs[1..]);
        assert c in xs;
      }
    }
  }

  /** A value that bounds every card's count and is reached by one of them
      is the largest count. */
  lemma {:induction false} MaxMultIs<C>(cards: seq<C>, m: nat)
    requires cards != []
    requires forall c | c in cards :: multiset(cards)[c] <= m
    requires exists c | c in cards :: multiset(cards)[c] == m
    ensures MaxMult(cards) == m
  {
    MaxOverFacts(cards, cards);
    var c :| c in cards && multiset(cards)[c] == m;
    var d :| d in cards && multiset(cards)[d] == MaxMult(cards);
  }

  lemma {:induction false} CountAtMostLength<C>(s: seq<C>, c: C)
    ensures multiset(s)[c] <= |s|
  {
    if s != [] {
      assert s == s[..|s| - 1] + [s[|s| - 1]];
      CountAtMostLength(s[..|s| - 1], c);
    }
  }

  /** Every card of a nonempty hand occurs between once and five times, so
      the `Malformed input` panic cannot be reached. */
  lemma {:induction false} MaxMultBounds<C>(cards: seq<C>)
    requires cards != []
    ensures 1 <= MaxMult(cards) <= |cards|
  {
    MaxOverFacts(cards, cards);
    var c :| c in cards && multiset(cards)[c] == MaxMult(cards);
    CountAtMostLength(cards, c);
  }

  /** `hand_type`, stated on the counts of the cards: the largest count
      decides, a largest count of 2 is two pair when two cards reach it,
      and a largest count of 3 is a full house when the hand holds only two
      kinds of card. */
  function Classify<C(==)>(cards: seq<C>): HandType
    requires |cards| == 5
  {
    var top := MaxMult(cards);
    if top == 1 then HighCard
    else if top == 2 then (if |Pairs(cards)| == 2 then TwoPair else OnePair)
    else if top == 3 then (if |Kinds(cards)| == 2 then FullHouse else ThreeOfAKind)
    else if top == 4 then FourOfAKind
    else FiveAfAKind
  }

  /** The cards counted so far among the keys `keys`, by count. */
  ghost function WithCount<C>(counts: map<C, nat>, keys: set<C>, v: nat): set<C> {
    set c | c in keys && c in counts && counts[c] == v
  }

  /** The counts that occur among the keys `keys`. */
  ghost function CountsOf<C>(counts: map<C, nat>, keys: set<C>): set<nat> {
    set c | c in keys && c in counts :: counts[c]
  }

  /** For every count, how many of the keys `keys` have it. */
  ghost function Tally<C>(counts: map<C, nat>, keys: set<C>): map<nat, nat> {
    map v | v in CountsOf(counts, keys) :: |WithCount(counts, keys, v)|
  }

  lemma {:induction false} TallyAdd<C>(counts: map<C, nat>, keys: set<C>, k: C)
    requires k in counts && k !in keys
    ensures var v, before := counts[k], Tally(counts, keys);
      Tally(counts, keys + {k}) == before[v := if v in before then before[v] + 1 else 1]
  {
    var v, before := counts[k], Tally(counts, keys);
    var after := Tally(counts, keys + {k});
    var expected := before[v := if v in before then before[v] + 1 else 1];
    CountsOfAdd(counts, keys, k);
    assert after.Keys == expected.Keys;
    forall w | w in after ensures after[w] == expected[w] {
      if w == v {
        WithCountAdd(counts, keys, k);
      } else {
        WithCountOther(counts, keys, k, w);
      }
    }
  }

  lemma {:induction false} CountsOfAdd<C>(counts: map<C, nat>, keys: set<C>, k: C)
    requires k in counts
    ensures CountsOf(counts, keys + {k}) == CountsOf(counts, keys) + {counts[k]}
  {
  }

  /** The new key joins the keys with its count. */
  lemma {:induction false} WithCountAdd<C>(counts: map<C, nat>, keys: set<C>, k: C)
    requires k in counts && k !in keys
    ensures |WithCount(counts, keys + {k}, counts[k])| == |WithCount(counts, keys, counts[k])| + 1
    ensures counts[k] !in CountsOf(counts, keys) ==> WithCount(counts, keys, counts[k]) == {}
  {
    var v := counts[k];
    assert WithCount(counts, keys + {k}, v) == WithCount(counts, keys, v) + {k};
    if WithCount(counts, keys, v) != {} {
      var c :| c in WithCount(counts, keys, v);
      assert v in CountsOf(counts, keys);
    }
  }

  /** The keys with another count stay as they are. */
  lemma {:induction false} WithCountOther<C>(counts: map<C, nat>, keys: set<C>, k: C, w: nat)
    requires k in counts && w != counts[k]
    ensures WithCount(counts, keys + {k}, w) == WithCount(counts, keys, w)
  {
  }

  /** The first loop of `hand_type`: how often each card occurs. */
  method CountCards<C(==)>(cards: seq<C>) returns (s: map<C, nat>)
    ensures s.Keys == Kinds(cards)
    ensures forall c | c in s :: s[c] == multiset(cards)[c]
  {
    s := map[];
    for i := 0 to |cards|
      invariant s.Keys == Kinds(cards[..i])
      invariant forall c | c in s :: s[c] == multiset(cards[..i])[c]
    {
      assert cards[..i + 1] == cards[..i] + [cards[i]];
      var card := cards[i];
      if card in s {
        s := s[card := s[card] + 1];
      } else {
        s := s[card := 1];
      }
    }
    assert cards[..|cards|] == cards;
  }

  /** The second loop of `hand_type`: how many cards share each count. */
  method CountCounts<C(==)>(s: map<C, nat>) returns (valueMap: map<nat, nat>)
    ensures valueMap == Tally(s, s.Keys)
  {
    valueMap := map[];
    var rest := s.Keys;
    ghost var done: set<C> := {};
    while rest != {}
      invariant rest + done == s.Keys && rest !! done
      invariant valueMap == Tally(s, done)
      decreases |rest|
    {
      var k :| k in rest;
      var v := s[k];
      TallyAdd(s, done, k);
      if v in valueMap {
        valueMap := valueMap[v := valueMap[v] + 1];
      } else {
        valueMap := valueMap[v := 1];
      }
      rest, done := rest - {k}, done + {k};
    }
  }

  /** `s.values().max()`: the largest count, reached by some card. */
  method MaxCount<C(==)>(s: map<C, nat>) returns (top: nat)
    ensures forall c | c in s :: s[c] <= top
    ensures s != map[] ==> exists c | c in s :: s[c] == top
  {
    top := 0;
    var rest := s.Keys;
    ghost var done: set<C> := {};
    while rest != {}
      invariant rest <= s.Keys && done == s.Keys - rest
      invariant forall c | c in done :: s[c] <= top
      invariant done == {} ==> top == 0
      invariant done != {} ==> exists c | c in done :: s[c] == top
      decreases |rest|
    {
      var k :| k in rest;
      if s[k] >= top {
        top := s[k];
        assert k in done + {k};
      } else {
        ghost var c :| c in done && s[c] == top;
        assert c in done + {k};
      }
      rest, done := rest - {k}, done + {k};
    }
  }

  /** `hand_type`: count every card in a map, count the counts in a second
      map, and classify by the largest count. */
  method HandTypeOf<C(==)>(cards: seq<C>) returns (t: HandType)
    requires |cards| == 5
    ensures t == Classify(cards)
  {
    var s := CountCards(cards);
    var valueMap := CountCounts(s);
    var top := MaxCount(s);
    assert cards[0] in s;
    MaxMultBounds(cards);
    MaxMultIs(cards, top);
    if top == 1 {
      t := HighCard;
    } else if top == 2 {
      ghost var c :| c in s && s[c] == top;
      assert 2 in CountsOf(s, s.Keys);
      assert WithCount(s, s.Keys, 2) == Pairs(cards);
      t := if valueMap[2] == 2 then TwoPair else OnePair;
    } else if top == 3 {
      // `is_full_house`: two kinds of card, one of them three times
      assert |s| == |s.Keys|;
      t := if |s| == 2 then FullHouse else ThreeOfAKind;
    } else if top == 4 {
      t := FourOfAKind;
    } else {
      assert top == 5;
      t := FiveAfAKind;
    }
  }

  /** The type depends only on which cards the hand holds, not on their
      order. */
  lemma {:induction false} ClassifyPermutation<C>(a: seq<C>, b: seq<C>)
    requires |a| == 5 && multiset(a) == multiset(b)
    ensures |b| == 5 && Classify(a) == Classify(b)
  {
    assert |multiset(a)| == |multiset(b)|;
    forall c ensures c in a <==> c in b {
      assert c in a <==> c in multiset(a);
      assert c in b <==> c in multiset(b);
    }
    assert Kinds(a) == Kinds(b);
    assert Pairs(a) == Pairs(b);
    MaxOverFacts(a, a);
    MaxOverFacts(b, b);
    var c :| c in a && multiset(a)[c] == MaxMult(a);
    MaxMultIs(b, MaxMult(a));
  }

  lemma {:induction false} AllCountedEqual<C>(s: seq<C>, c: C)
    requires multiset(s)[c] == |s|
    ensures forall i | 0 <= i < |s| :: s[i] == c
  {
    if s != [] {
      var init := s[..|s| - 1];
      assert s == init + [s[|s| - 1]];
      CountAtMostLength(init, c);
      assert s[|s| - 1] == c;
      AllCountedEqual(init, c);
      forall i | 0 <= i < |s| ensures s[i] == c {
        if i < |s| - 1 {
          assert s[i] == init[i];
        }
      }
    }
  }

  lemma {:induction false} ConstantCount<C>(s: seq<C>, c: C)
    requires forall i | 0 <= i < |s| :: s[i] == c
    ensures multiset(s)[c] == |s|
  {
    if s != [] {
      assert s == s[..|s| - 1] + [s[|s| - 1]];
      ConstantCount(s[..|s| - 1], c);
    }
  }

  /** Five of a kind exactly when all five cards are the same. */
  lemma {:induction false} FiveOfAKindIff<C>(cards: seq<C>)
    requires |cards| == 5
    ensures Classify(cards) == FiveAfAKind <==> forall i | 0 <= i < 5 :: cards[i] == cards[0]
  {
    MaxMultBounds(cards);
    MaxOverFacts(cards, cards);
    if forall i | 0 <= i < 5 :: cards[i] == cards[0] {
      ConstantCount(cards, cards[0]);
      assert multiset(cards)[cards[0]] <= MaxMult(cards);
    }
    if Classify(cards) == FiveAfAKind {
      var c :| c in cards && multiset(cards)[c] == MaxMult(cards);
      AllCountedEqual(cards, c);
    }
  }

  /** A card seen twice in a sequence is counted at least twice. */
  lemma {:induction false} RepeatCounted<C>(s: seq<C>, i: nat, j: nat)
    requires i < j < |s| && s[i] == s[j]
    ensures multiset(s)[s[i]] >= 2
  {
    assert s == s[..j] + [s[j]] + s[j + 1..];
    assert s[..j][i] == s[i];
    assert s[i] in multiset(s[..j]);
  }

  lemma {:induction false} DistinctCountsOne<C>(s: seq<C>, c: C)
    requires forall i, j | 0 <= i < j < |s| :: s[i] != s[j]
    ensures multiset(s)[c] <= 1
  {
    if s != [] {
      var init := s[..|s| - 1];
      assert s == init + [s[|s| - 1]];
      assert forall i, j | 0 <= i < j < |init| :: init[i] != init[j] by {
        forall i, j | 0 <= i < j < |init| ensures init[i] != init[j] {
          assert init[i] == s[i] && init[j] == s[j];
        }
      }
      DistinctCountsOne(init, c);
      assert s[|s| - 1] !in init by {
        forall k | 0 <= k < |init| ensures init[k] != s[|s| - 1] {
          assert init[k] == s[k];
        }
      }
    }
  }

  /** High card exactly when all five cards differ. */
  lemma {:induction false} HighCardIff<C>(cards: seq<C>)
    requires |cards| == 5
    ensures Classify(cards) == HighCard <==> forall i, j | 0 <= i < j < 5 :: cards[i] != cards[j]
  {
    MaxMultBounds(cards);
    MaxOverFacts(cards, cards);
    if forall i, j | 0 <= i < j < 5 :: cards[i] != cards[j] {
      var c :| c in cards && multiset(cards)[c] == MaxMult(cards);
      DistinctCountsOne(cards, c);
    } else {
      var i, j :| 0 <= i < j < 5 && cards[i] == cards[j];
      RepeatCounted(cards, i, j);
      assert multiset(cards)[cards[i]] <= MaxMult(cards);
    }
  }

  // ---------------------------------------------------------------------
  // Ordering hands

  datatype Ordering = Less | Equal | Greater

  function Flip(o: Ordering): Ordering {
    match o
    case Less => Greater
    case Equal => Equal
    case Greater => Less
  }

  /** Lexicographic order of two sequences of ranks. */
  function Lex(a: seq<nat>, b: seq<nat>): Ordering {
    if a == [] && b == [] then Equal
    else if a == [] then Less
    else if b == [] then Greater
    else if a[0] < b[0] then Less
    else if a[0] > b[0] then Greater
    else Lex(a[1..], b[1..])
  }

  lemma {:induction false} LexEqual(a: seq<nat>, b: seq<nat>)
    ensures Lex(a, b) == Equal <==> a == b
  {
    if a != [] && b != [] && a[0] == b[0] {
      LexEqual(a[1..], b[1..]);
      if a[1..] == b[1..] {
        assert a == [a[0]] + a[1..] && b == [b[0]] + b[1..];
      }
    }
  }

  lemma {:induction false} LexFlip(a: seq<nat>, b: seq<nat>)
    ensures Lex(b, a) == Flip(Lex(a, b))
  {
    if a != [] && b != [] && a[0] == b[0] {
      LexFlip(a[1..], b[1..]);
    }
  }

  lemma {:induction false} LexTransitive(a: seq<nat>, b: seq<nat>, c: seq<nat>)
    requires Lex(a, b) != Greater && Lex(b, c) != Greater
    ensures Lex(a, c) != Greater
    ensures Lex(a, b) == Less || Lex(b, c) == Less ==> Lex(a, c) == Less
  {
    if a != [] && b != [] && c != [] && a[0] == b[0] == c[0] {
      LexTransitive(a[1..], b[1..], c[1..]);
    }
  }

  /** The ranks of the cards, left to right. */
  function Ranks<C(==)>(rank: C -> nat, cards: seq<C>): (r: seq<nat>)
    ensures |r| == |cards|
    ensures forall i | 0 <= i < |cards| :: r[i] == rank(cards[i])
  {
    seq(|cards|, i requires 0 <= i < |cards| => rank(cards[i]))
  }

  /** What `Hand::cmp` compares: the type, then the cards left to right. */
  function Key<C(==)>(rank: C -> nat, h: Hand<C>): seq<nat> {
    [TypeRank(h.handType)] + Ranks(rank, h.cards)
  }

  function Compare<C(==)>(rank: C -> nat, a: Hand<C>, b: Hand<C>): Ordering {
    Lex(Key(rank, a), Key(rank, b))
  }

  lemma {:induction false} LexSuffix(a: seq<nat>, b: seq<nat>, i: nat)
    requires i < |a| == |b| && a[i] == b[i]
    ensures Lex(a[i..], b[i..]) == Lex(a[i + 1..], b[i + 1..])
  {
    assert a[i..][1..] == a[i + 1..] && b[i..][1..] == b[i + 1..];
  }

  /** `Hand::cmp`: the types decide unless they are equal; then the first
      pair of differing cards decides, and hands with equal cards are
      equal. */
  method Cmp<C(==)>(rank: C -> nat, a: Hand<C>, b: Hand<C>) returns (o: Ordering)
    requires |a.cards| == |b.cards|
    ensures o == Compare(rank, a, b)
  {
    var ka, kb := Key(rank, a), Key(rank, b);
    assert ka[1..] == Ranks(rank, a.cards) && kb[1..] == Ranks(rank, b.cards);
    var ta, tb := TypeRank(a.handType), TypeRank(b.handType);
    if ta != tb {
      o := if ta < tb then Less else Greater;
      return;
    }
    var ra, rb := Ranks(rank, a.cards), Ranks(rank, b.cards);
    var ordering: Option<Ordering> := None;
    var i := 0;
    while i < |a.cards|
      invariant i <= |a.cards|
      invariant Lex(ka, kb) == Lex(ra[i..], rb[i..])
    {
      var own, other := rank(a.cards[i]), rank(b.cards[i]);
      if own != other {
        ordering := Some(if own < other then Less else Greater);
        break;
      }
      LexSuffix(ra, rb, i);
      i := i + 1;
    }
    match ordering
    case Some(ord) => o := ord;
    case None => o := Equal;
  }

  /** With a rank that tells cards apart, two hands compare equal exactly
      when they have the same type and the same cards. */
  lemma {:induction false} CompareEqualIff<C>(rank: C -> nat, a: Hand<C>, b: Hand<C>)
    requires forall x: C, y: C :: rank(x) == rank(y) ==> x == y
    requires |a.cards| == |b.cards|
    ensures Compare(rank, a, b) == Equal <==> a == b
  {
    LexEqual(Key(rank, a), Key(rank, b));
    if Key(rank, a) == Key(rank, b) {
      assert TypeRank(a.handType) == Key(rank, a)[0] == Key(rank, b)[0] == TypeRank(b.handType);
      forall i | 0 <= i < |a.cards| ensures a.cards[i] == b.cards[i] {
        assert Key(rank, a)[i + 1] == Key(rank, b)[i + 1];
      }
    }
  }

  /** The hand type outranks the cards: a stronger type always wins. */
  lemma {:induction false} TypeDecides<C>(rank: C -> nat, a: Hand<C>, b: Hand<C>)
    requires TypeRank(a.handType) < TypeRank(b.handType)
    ensures Compare(rank, a, b) == Less
  {
  }

  // ---------------------------------------------------------------------
  // Ranking the games

  /** Every earlier game's hand is at most every later one's. */
  ghost predicate SortedBy<C>(rank: C -> nat, games: seq<Game<C>>) {
    forall i, j | 0 <= i < j < |games| :: Compare(rank, games[i].hand, games[j].hand) != Greater
  }

  /** Place `g` after every game whose hand is at most its own. */
  function Insert<C(==)>(rank: C -> nat, g: Game<C>, games: seq<Game<C>>): seq<Game<C>> {
    if games == [] then [g]
    else if Compare(rank, g.hand, games[0].hand) == Less then [g] + games
    else [games[0]] + Insert(rank, g, games[1..])
  }

  /** `sort_by` with `Hand::cmp`: a stable sort, written as an insertion
      sort from the left. */
  function Sort<C(==)>(rank: C -> nat, games: seq<Game<C>>): seq<Game<C>> {
    if games == [] then []
    else Insert(rank, games[|games| - 1], Sort(rank, games[..|games| - 1]))
  }

  lemma {:induction false} InsertFacts<C>(rank: C -> nat, g: Game<C>, games: seq<Game<C>>)
    requires SortedBy(rank, games)
    ensures multiset(Insert(rank, g, games)) == multiset(games) + multiset{g}
    ensures SortedBy(rank, Insert(rank, g, games))
  {
    if games != [] {
      if Compare(rank, g.hand, games[0].hand) == Less {
        InsertFront(rank, g, games);
      } else {
        InsertFacts(rank, g, games[1..]);
        InsertBehind(rank, g, games);
      }
    }
  }

  /** A game below the first goes in front. */
  lemma {:induction false} InsertFront<C>(rank: C -> nat, g: Game<C>, games: seq<Game<C>>)
    requires SortedBy(rank, games) && games != [] && Compare(rank, g.hand, games[0].hand) == Less
    ensures SortedBy(rank, [g] + games)
  {
    var h := games[0];
    var r := [g] + games;
    forall i, j | 0 <= i < j < |r| ensures Compare(rank, r[i].hand, r[j].hand) != Greater {
      if i == 0 && j > 1 {
        LexTransitive(Key(rank, g.hand), Key(rank, h.hand), Key(rank, r[j].hand));
      }
    }
  }

  /** A game not below the first goes among the rest. */
  lemma {:induction false} InsertBehind<C>(rank: C -> nat, g: Game<C>, games: seq<Game<C>>)
    requires SortedBy(rank, games) && games != [] && Compare(rank, g.hand, games[0].hand) != Less
    requires multiset(Insert(rank, g, games[1..])) == multiset(games[1..]) + multiset{g}
    requires SortedBy(rank, Insert(rank, g, games[1..]))
    ensures multiset(Insert(rank, g, games)) == multiset(games) + multiset{g}
    ensures SortedBy(rank, Insert(rank, g, games))
  {
    var h := games[0];
    var tail := Insert(rank, g, games[1..]);
    assert games == [h] + games[1..];
    assert Insert(rank, g, games) == [h] + tail;
    forall x | x in tail ensures Compare(rank, h.hand, x.hand) != Greater {
      assert x in multiset(tail);
      HeadBelow(rank, g, games, x);
    }
    SortedCons(rank, h, tail);
  }

  /** The first of sorted games is at most the rest and every game not
      below it. */
  lemma {:induction false} HeadBelow<C>(rank: C -> nat, g: Game<C>, games: seq<Game<C>>, x: Game<C>)
    requires SortedBy(rank, games) && games != [] && Compare(rank, g.hand, games[0].hand) != Less
    requires x in multiset(games[1..]) + multiset{g}
    ensures Compare(rank, games[0].hand, x.hand) != Greater
  {
    if x == g {
      LexFlip(Key(rank, g.hand), Key(rank, games[0].hand));
    } else {
      assert x in games[1..];
      var k :| 0 <= k < |games[1..]| && games[1..][k] == x;
      assert games[k + 1] == x;
    }
  }

  /** A game at most every sorted game goes in front of them. */
  lemma {:induction false} SortedCons<C>(rank: C -> nat, h: Game<C>, tail: seq<Game<C>>)
    requires SortedBy(rank, tail)
    requires forall x | x in tail :: Compare(rank, h.hand, x.hand) != Greater
    ensures SortedBy(rank, [h] + tail)
  {
    var r := [h] + tail;
    forall i, j | 0 <= i < j < |r| ensures Compare(rank, r[i].hand, r[j].hand) != Greater {
      assert r[j] == tail[j - 1];
      if i > 0 {
        assert r[i] == tail[i - 1];
      }
    }
  }

  /** The sorted games are the same games, in order of their hands. */
  lemma {:induction false} SortFacts<C>(rank: C -> nat, games: seq<Game<C>>)
    ensures multiset(Sort(rank, games)) == multiset(games)
    ensures SortedBy(rank, Sort(rank, games))
  {
    if games != [] {
      var init := games[..|games| - 1];
      SortFacts(rank, init);
      InsertFacts(rank, games[|games| - 1], Sort(rank, init));
      assert games == init + [games[|games| - 1]];
    }
  }

  /** The games whose hand compares equal to `h`, in their order. */
  function Ties<C(==)>(rank: C -> nat, h: Hand<C>, games: seq<Game<C>>): seq<Game<C>> {
    if games == [] then []
    else (if Compare(rank, games[0].hand, h) == Equal then [games[0]] else []) + Ties(rank, h, games[1..])
  }

  lemma {:induction false} TiesSnoc<C>(rank: C -> nat, h: Hand<C>, a: seq<Game<C>>, x: Game<C>)
    ensures Ties(rank, h, a + [x]) == Ties(rank, h, a) + (if Compare(rank, x.hand, h) == Equal then [x] else [])
  {
    if a == [] {
      assert [x][1..] == [];
    } else {
      assert (a + [x])[0] == a[0] && (a + [x])[1..] == a[1..] + [x];
      TiesSnoc(rank, h, a[1..], x);
    }
  }

  lemma {:induction false} TiesNone<C>(rank: C -> nat, h: Hand<C>, games: seq<Game<C>>)
    requires forall i | 0 <= i < |games| :: Compare(rank, games[i].hand, h) != Equal
    ensures Ties(rank, h, games) == []
  {
    if games != [] {
      TiesNone(rank, h, games[1..]);
    }
  }

  /** Sorted games all above a game tied with `h` hold no tie of `h`. */
  lemma {:induction false} TiesAbove<C>(rank: C -> nat, h: Hand<C>, g: Game<C>, games: seq<Game<C>>)
    requires SortedBy(rank, games) && games != [] && Compare(rank, g.hand, games[0].hand) == Less
    requires Compare(rank, g.hand, h) == Equal
    ensures Ties(rank, h, games) == []
  {
    LexEqual(Key(rank, g.hand), Key(rank, h));
    forall i | 0 <= i < |games| ensures Compare(rank, games[i].hand, h) != Equal {
      if i > 0 {
        LexTransitive(Key(rank, g.hand), Key(rank, games[0].hand), Key(rank, games[i].hand));
      }
      LexFlip(Key(rank, h), Key(rank, games[i].hand));
    }
    TiesNone(rank, h, games);
  }

  /** Inserting into sorted games puts `g` behind every game tied with it. */
  lemma {:induction false} InsertTies<C>(rank: C -> nat, h: Hand<C>, g: Game<C>, games: seq<Game<C>>)
    requires SortedBy(rank, games)
    ensures Ties(rank, h, Insert(rank, g, games))
         == Ties(rank, h, games) + (if Compare(rank, g.hand, h) == Equal then [g] else [])
  {
    if games == [] {
      assert [g][1..] == [];
    } else if Compare(rank, g.hand, games[0].hand) == Less {
      TiesInFront(rank, h, g, games);
    } else {
      InsertTies(rank, h, g, games[1..]);
      TiesCons(rank, h, games[0], Insert(rank, g, games[1..]));
      TiesCons(rank, h, games[0], games[1..]);
      assert games == [games[0]] + games[1..];
    }
  }

  lemma TiesCons<C>(rank: C -> nat, h: Hand<C>, x: Game<C>, games: seq<Game<C>>)
    ensures Ties(rank, h, [x] + games)
         == (if Compare(rank, x.hand, h) == Equal then [x] else []) + Ties(rank, h, games)
  {
    assert ([x] + games)[0] == x && ([x] + games)[1..] == games;
  }

  /** A game below the first of sorted games goes in front, ahead of no
      game tied with it. */
  lemma {:induction false} TiesInFront<C>(rank: C -> nat, h: Hand<C>, g: Game<C>, games: seq<Game<C>>)
    requires SortedBy(rank, games) && games != [] && Compare(rank, g.hand, games[0].hand) == Less
    ensures Ties(rank, h, [g] + games)
         == Ties(rank, h, games) + (if Compare(rank, g.hand, h) == Equal then [g] else [])
  {
    TiesCons(rank, h, g, games);
    if Compare(rank, g.hand, h) == Equal {
      TiesAbove(rank, h, g, games);
    }
  }

  /** The sort is stable: the games whose hands compare equal to any hand
      `h` keep their input order, so ties are ranked as they were listed. */
  lemma {:induction false} SortStable<C>(rank: C -> nat, h: Hand<C>, games: seq<Game<C>>)
    ensures Ties(rank, h, Sort(rank, games)) == Ties(rank, h, games)
  {
    if games != [] {
      var init, last := games[..|games| - 1], games[|games| - 1];
      SortStable(rank, h, init);
      SortFacts(rank, init);
      InsertTies(rank, h, last, Sort(rank, init));
      assert games == init + [last];
      TiesSnoc(rank, h, init, last);
    }
  }

  /** The winnings of ranked games: each bet times its 1-based rank. */
  function Winnings<C(==)>(games: seq<Game<C>>): nat {
    if games == [] then 0
    else Winnings(games[..|games| - 1]) + |games| * games[|games| - 1].bet
  }

  /** Winnings grow with every game, by at least its bet. */
  lemma {:induction false} WinningsAtLeastBets<C>(games: seq<Game<C>>)
    ensures forall i | 0 <= i < |games| :: games[i].bet <= Winnings(games)
  {
    if games != [] {
      var init := games[..|games| - 1];
      WinningsAtLeastBets(init);
      forall i | 0 <= i < |games| ensures games[i].bet <= Winnings(games) {
        if i < |games| - 1 {
          assert games[i] == init[i];
        }
      }
    }
  }

  /** The ranking fold of `process`: sort, then add up bet times rank. */
  method TotalWinnings<C(==)>(rank: C -> nat, games: seq<Game<C>>) returns (total: nat)
    ensures total == Winnings(Sort(rank, games))
  {
    var sorted := Sort(rank, games);
    total := 0;
    for idx := 0 to |sorted|
      invariant total == Winnings(sorted[..idx])
    {
      assert sorted[..idx + 1][..idx] == sorted[..idx];
      total := total + (idx + 1) * sorted[idx].bet;
    }
    assert sorted[..|sorted|] == sorted;
  }

  /** `process`: the total winnings of the games, ranked by `Hand::cmp`
      with the jack between ten and queen. */
  method Process(games: seq<Game<Card>>) returns (total: nat)
    ensures total == Winnings(Sort(CardRank, games))
    ensures SortedBy(CardRank, Sort(CardRank, games))
    ensures multiset(Sort(CardRank, games)) == multiset(games)
  {
    total := TotalWinnings(CardRank, games);
    SortFacts(CardRank, games);
  }
}
