/** The standard ranking of five-card poker hands, and what makes a choice of
    five cards best among those on offer. */
module PokerRanking {

  datatype Card = Card(suit: nat, face: nat)

  predicate ValidCard(c: Card) {
    c.suit < 4 && 1 <= c.face <= 13
  }

  /** `GetCardFaceNum(true)`: the ace counts as fourteen. */
  function Rank(c: Card): nat {
    if c.face == 1 then 14 else c.face
  }

  /** Cards of a pack: valid, and none of them twice. */
  ghost predicate Pack(cards: seq<Card>) {
    (forall c | c in cards :: ValidCard(c)) && (forall c :: multiset(cards)[c] <= 1)
  }

  function Count(cards: seq<Card>, r: int): nat {
    if cards == [] then 0 else (if Rank(cards[0]) == r then 1 else 0) + Count(cards[1..], r)
  }

  /** The ranks up to `top` held exactly `n` times, best first. */
  function Groups(cards: seq<Card>, n: nat, top: nat): seq<int> {
    if top < 2 then []
    else (if Count(cards, top) == n then [top] else []) + Groups(cards, n, top - 1)
  }

  /** Rank `r` is held; rank 1 is the ace counted low. */
  predicate Has(cards: seq<Card>, r: int) {
    Count(cards, if r == 1 then 14 else r) > 0
  }

  predicate RunTo(cards: seq<Card>, top: int) {
    Has(cards, top) && Has(cards, top - 1) && Has(cards, top - 2) && Has(cards, top - 3) && Has(cards, top - 4)
  }

  /** The best top card, up to `top`, of five ranks in a row; 0 if there are none. */
  function StraightTop(cards: seq<Card>, top: nat): nat {
    if top < 5 then 0 else if RunTo(cards, top) then top else StraightTop(cards, top - 1)
  }

  predicate IsFlush(hand: seq<Card>) {
    hand != [] && forall c | c in hand :: c.suit == hand[0].suit
  }

  /** Ranks ordered by how often they occur, then by rank. */
  function GroupKey(hand: seq<Card>): seq<int> {
    Groups(hand, 4, 14) + Groups(hand, 3, 14) + Groups(hand, 2, 14) + Groups(hand, 1, 14)
  }

  /** A hand's category, from 8 for a straight flush down to 0 for a high card,
      and the ranks that decide between hands of one category. */
  datatype Score = Score(category: nat, key: seq<int>)

  function ScoreOf(hand: seq<Card>): Score {
    var straight := StraightTop(hand, 14);
    if straight > 0 && IsFlush(hand) then Score(8, [straight])
    else if Groups(hand, 4, 14) != [] then Score(7, GroupKey(hand))
    else if Groups(hand, 3, 14) != [] && Groups(hand, 2, 14) != [] then Score(6, GroupKey(hand))
    else if IsFlush(hand) then Score(5, GroupKey(hand))
    else if straight > 0 then Score(4, [straight])
    else if Groups(hand, 3, 14) != [] then Score(3, GroupKey(hand))
    else if |Groups(hand, 2, 14)| >= 2 then Score(2, GroupKey(hand))
    else if |Groups(hand, 2, 14)| == 1 then Score(1, GroupKey(hand))
    else Score(0, GroupKey(hand))
  }

  /** Lexicographic comparison: 1, 0 or -1. */
  function Lex(a: seq<int>, b: seq<int>): int {
    if a == [] && b == [] then 0
    else if a == [] then -1
    else if b == [] then 1
    else if a[0] != b[0] then (if a[0] > b[0] then 1 else -1)
    else Lex(a[1..], b[1..])
  }

  function Compare(x: Score, y: Score): int {
    if x.category != y.category then (if x.category > y.category then 1 else -1) else Lex(x.key, y.key)
  }

  /** A hand drawn from the cards. */
  ghost predicate Drawn(hand: seq<Card>, cards: seq<Card>) {
    |hand| == 5 && multiset(hand) <= multiset(cards)
  }

  /** A hand at least as good as every hand that can be drawn. */
  ghost predicate Best(hand: seq<Card>, cards: seq<Card>) {
    Drawn(hand, cards) && forall h | Drawn(h, cards) :: Compare(ScoreOf(hand), ScoreOf(h)) >= 0
  }

  // ---------------------------------------------------------------- counting

  lemma {:induction false} CountAppend(a: seq<Card>, b: seq<Card>, r: int)
    ensures Count(a + b, r) == Count(a, r) + Count(b, r)
  {
    if a == [] {
      assert a + b == b;
    } else {
      assert (a + b)[1..] == a[1..] + b;
      CountAppend(a[1..], b, r);
    }
  }

  lemma CountRemove(cards: seq<Card>, i: nat, r: int)
    requires i < |cards|
    ensures Count(cards, r) == Count(Without(cards, i), r) + (if Rank(cards[i]) == r then 1 else 0)
    ensures multiset(cards) == multiset(Without(cards, i)) + multiset{cards[i]}
  {
    assert cards == cards[..i] + ([cards[i]] + cards[i + 1..]);
    CountAppend(cards[..i], [cards[i]] + cards[i + 1..], r);
    CountAppend(cards[..i], cards[i + 1..], r);
    CountAppend([cards[i]], cards[i + 1..], r);
  }

  function Without(cards: seq<Card>, i: nat): seq<Card>
    requires i < |cards|
  {
    cards[..i] + cards[i + 1..]
  }

  /** The first card of the hand, found among the cards and taken out of both. */
  lemma TakeFirst(hand: seq<Card>, cards: seq<Card>) returns (i: nat)
    requires hand != [] && multiset(hand) <= multiset(cards)
    ensures i < |cards| && cards[i] == hand[0]
    ensures multiset(hand[1..]) <= multiset(Without(cards, i))
  {
    assert hand[0] in multiset(hand);
    assert hand[0] in cards;
    i :| 0 <= i < |cards| && cards[i] == hand[0];
    CountRemove(cards, i, 0);
    assert hand == [hand[0]] + hand[1..];
    var mine, theirs := multiset(hand[1..]), multiset(Without(cards, i));
    assert multiset(hand) == multiset{hand[0]} + mine;
    forall x ensures mine[x] <= theirs[x] {
      assert multiset(hand)[x] <= multiset(cards)[x];
    }
  }

  lemma {:induction false} CountMono(hand: seq<Card>, cards: seq<Card>, r: int)
    requires multiset(hand) <= multiset(cards)
    ensures Count(hand, r) <= Count(cards, r)
    decreases |hand|
  {
    if hand != [] {
      var i := TakeFirst(hand, cards);
      CountRemove(cards, i, r);
      CountMono(hand[1..], Without(cards, i), r);
    }
  }

  lemma CountPermutation(a: seq<Card>, b: seq<Card>, r: int)
    requires multiset(a) == multiset(b)
    ensures Count(a, r) == Count(b, r)
  {
    CountMono(a, b, r);
    CountMono(b, a, r);
  }

  lemma {:induction false} CountPositive(cards: seq<Card>, r: int)
    ensures Count(cards, r) > 0 <==> exists k :: 0 <= k < |cards| && Rank(cards[k]) == r
  {
    if cards != [] {
      CountPositive(cards[1..], r);
      if Count(cards[1..], r) > 0 {
        var k :| 0 <= k < |cards[1..]| && Rank(cards[1..][k]) == r;
        assert Rank(cards[k + 1]) == r;
      }
    }
  }

  ghost predicate Different(ranks: seq<int>) {
    forall i, j | 0 <= i < j < |ranks| :: ranks[i] != ranks[j]
  }

  function SumCounts(cards: seq<Card>, ranks: seq<int>): nat {
    if ranks == [] then 0 else Count(cards, ranks[0]) + SumCounts(cards, ranks[1..])
  }

  lemma {:induction false} SumCountsRemove(cards: seq<Card>, i: nat, ranks: seq<int>)
    requires i < |cards| && Different(ranks)
    ensures SumCounts(cards, ranks) ==
      SumCounts(Without(cards, i), ranks) + (if Rank(cards[i]) in ranks then 1 else 0)
  {
    if ranks != [] {
      CountRemove(cards, i, ranks[0]);
      SumCountsRemove(cards, i, ranks[1..]);
      assert ranks == [ranks[0]] + ranks[1..];
    }
  }

  /** The ranks listed cannot be held more often among the cards than among some
      of them, by more than the number of the others. */
  lemma {:induction false} Surplus(some: seq<Card>, cards: seq<Card>, ranks: seq<int>)
    requires multiset(some) <= multiset(cards) && Different(ranks)
    ensures |some| <= |cards| && SumCounts(cards, ranks) <= SumCounts(some, ranks) + |cards| - |some|
    decreases |cards|
  {
    if some != [] {
      var i := TakeFirst(some, cards);
      SumCountsRemove(cards, i, ranks);
      SumCountsRemove(some, 0, ranks);
      assert Without(some, 0) == some[1..];
      Surplus(some[1..], Without(cards, i), ranks);
    } else {
      NoneCounted(ranks);
      if cards != [] {
        SumCountsRemove(cards, 0, ranks);
        Surplus([], Without(cards, 0), ranks);
      }
    }
  }

  lemma {:induction false} NoneCounted(ranks: seq<int>)
    ensures SumCounts([], ranks) == 0
  {
    if ranks != [] {
      NoneCounted(ranks[1..]);
    }
  }

  lemma PairCounts(cards: seq<Card>, r: int, q: int)
    ensures SumCounts(cards, [r, q]) == Count(cards, r) + Count(cards, q)
  {
    assert [r, q][1..] == [q];
    assert [q][1..] == [];
    assert SumCounts(cards, [q]) == Count(cards, q);
  }

  /** Among at most seven cards, five of different ranks leave no room for four of
      a kind or a full house. */
  lemma Pigeonhole(five: seq<Card>, cards: seq<Card>, r: int, q: int)
    requires multiset(five) <= multiset(cards) && |five| >= 5 && |cards| <= 7
    requires forall x :: Count(five, x) <= 1
    ensures Count(cards, r) < 4
    ensures r != q ==> !(Count(cards, r) >= 3 && Count(cards, q) >= 2)
  {
    Surplus(five, cards, [r]);
    assert SumCounts(cards, [r]) == Count(cards, r) && SumCounts(five, [r]) == Count(five, r);
    if r != q {
      Surplus(five, cards, [r, q]);
      PairCounts(cards, r, q);
      PairCounts(five, r, q);
    }
  }
}
