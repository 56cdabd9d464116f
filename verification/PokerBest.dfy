/** When five cards are the best hand: a greedy choice of ranks dominates every
    other hand of its pattern, and no hand of a better category is on offer. */
module PokerBest {
  import opened PokerRanking

  ghost predicate Descending(ranks: seq<int>) {
    forall i, j | 0 <= i < j < |ranks| :: ranks[i] > ranks[j]
  }

  // ---------------------------------------------------------------- groups

  lemma {:induction false} GroupsMembers(cards: seq<Card>, n: nat, top: nat)
    ensures forall r :: r in Groups(cards, n, top) <==> 2 <= r <= top && Count(cards, r) == n
    ensures Descending(Groups(cards, n, top))
  {
    if top >= 2 {
      GroupsMembers(cards, n, top - 1);
      var tail := Groups(cards, n, top - 1);
      forall k | 0 <= k < |tail| ensures tail[k] < top {
        assert tail[k] in tail;
      }
    }
  }

  lemma {:induction false} SameDescending(a: seq<int>, b: seq<int>)
    requires Descending(a) && Descending(b) && forall r :: r in a <==> r in b
    ensures a == b
  {
    assert a != [] ==> a[0] in a;
    assert b != [] ==> b[0] in b;
    if a != [] && b != [] {
      assert a[0] in b && b[0] in a;
      assert a[0] == b[0];
      forall r ensures r in a[1..] <==> r in b[1..] {
        assert r in a[1..] <==> r in a && r != a[0] by { assert a == [a[0]] + a[1..]; }
        assert r in b[1..] <==> r in b && r != b[0] by { assert b == [b[0]] + b[1..]; }
      }
      SameDescending(a[1..], b[1..]);
      assert a == [a[0]] + a[1..] && b == [b[0]] + b[1..];
    }
  }

  lemma GroupIs(cards: seq<Card>, n: nat, ranks: seq<int>)
    requires Descending(ranks)
    requires forall r :: r in ranks <==> 2 <= r <= 14 && Count(cards, r) == n
    ensures Groups(cards, n, 14) == ranks
  {
    GroupsMembers(cards, n, 14);
    SameDescending(Groups(cards, n, 14), ranks);
  }

  /** How many cards have a rank from 2 up to `top`. */
  function Mass(cards: seq<Card>, top: nat): nat {
    if top < 2 then 0 else Count(cards, top) + Mass(cards, top - 1)
  }

  lemma {:induction false} MassStep(cards: seq<Card>, top: nat)
    requires cards != []
    ensures Mass(cards, top) == Mass(cards[1..], top) + (if 2 <= Rank(cards[0]) <= top then 1 else 0)
  {
    if top >= 2 {
      MassStep(cards, top - 1);
    }
  }

  lemma {:induction false} MassOfAll(cards: seq<Card>)
    requires forall c | c in cards :: ValidCard(c)
    ensures Mass(cards, 14) == |cards|
  {
    if cards == [] {
      MassOfNone(14);
    } else {
      MassStep(cards, 14);
      assert ValidCard(cards[0]);
      MassOfAll(cards[1..]);
    }
  }

  lemma {:induction false} MassOfNone(top: nat)
    ensures Mass([], top) == 0
  {
    if top >= 2 {
      MassOfNone(top - 1);
    }
  }

  lemma {:induction false} GroupMass(cards: seq<Card>, top: nat)
    requires forall r :: Count(cards, r) <= 4
    ensures 4 * |Groups(cards, 4, top)| + 3 * |Groups(cards, 3, top)|
            + 2 * |Groups(cards, 2, top)| + |Groups(cards, 1, top)|
         == Mass(cards, top)
  {
    if top >= 2 {
      GroupMass(cards, top - 1);
    }
  }

  // ---------------------------------------------------------------- suits

  /** The card of suit `s` and rank `r`. */
  function CardOf(s: nat, r: int): Card
    requires 2 <= r <= 14
  {
    Card(s, if r == 14 then 1 else r)
  }

  lemma {:induction false} CountBySuit(cards: seq<Card>, r: int)
    requires 2 <= r <= 14 && forall c | c in cards :: ValidCard(c)
    ensures Count(cards, r) == multiset(cards)[CardOf(0, r)] + multiset(cards)[CardOf(1, r)]
                             + multiset(cards)[CardOf(2, r)] + multiset(cards)[CardOf(3, r)]
  {
    if cards != [] {
      CountBySuit(cards[1..], r);
      assert cards == [cards[0]] + cards[1..];
      assert multiset(cards) == multiset{cards[0]} + multiset(cards[1..]);
      assert ValidCard(cards[0]);
      assert Rank(cards[0]) == r <==> cards[0] == CardOf(cards[0].suit, r);
    }
  }

  lemma {:induction false} NoOtherRanks(cards: seq<Card>, r: int)
    requires !(2 <= r <= 14) && forall c | c in cards :: ValidCard(c)
    ensures Count(cards, r) == 0
  {
    if cards != [] {
      assert ValidCard(cards[0]);
      NoOtherRanks(cards[1..], r);
    }
  }

  lemma AtMostFour(cards: seq<Card>)
    requires Pack(cards)
    ensures forall r :: Count(cards, r) <= 4
  {
    forall r ensures Count(cards, r) <= 4 {
      if 2 <= r <= 14 {
        CountBySuit(cards, r);
      } else {
        NoOtherRanks(cards, r);
      }
    }
  }

  function Suited(cards: seq<Card>, s: nat): seq<Card> {
    if cards == [] then []
    else (if cards[0].suit == s then [cards[0]] else []) + Suited(cards[1..], s)
  }

  lemma {:induction false} SuitedMultiset(cards: seq<Card>, s: nat)
    ensures forall c :: multiset(Suited(cards, s))[c] == if c.suit == s then multiset(cards)[c] else 0
  {
    if cards != [] {
      SuitedMultiset(cards[1..], s);
      assert cards == [cards[0]] + cards[1..];
      assert multiset(cards) == multiset{cards[0]} + multiset(cards[1..]);
    }
  }

  lemma SubPack(some: seq<Card>, cards: seq<Card>)
    requires Pack(cards) && multiset(some) <= multiset(cards)
    ensures Pack(some)
  {
    forall c | c in some ensures ValidCard(c) {
      assert c in multiset(some);
      assert c in cards;
    }
    forall c ensures multiset(some)[c] <= 1 {
      assert multiset(some)[c] <= multiset(cards)[c];
    }
  }

  lemma SuitedPack(cards: seq<Card>, s: nat)
    requires Pack(cards)
    ensures multiset(Suited(cards, s)) <= multiset(cards) && Pack(Suited(cards, s))
    ensures forall r :: Count(Suited(cards, s), r) <= 1
  {
    SuitedMultiset(cards, s);
    var v := Suited(cards, s);
    SubPack(v, cards);
    forall r ensures Count(v, r) <= 1 {
      if 2 <= r <= 14 {
        CountBySuit(v, r);
      } else {
        NoOtherRanks(v, r);
      }
    }
  }

  /** A flush drawn from the cards is drawn from those of its suit. */
  lemma FlushSuited(hand: seq<Card>, cards: seq<Card>)
    requires multiset(hand) <= multiset(cards) && IsFlush(hand)
    ensures multiset(hand) <= multiset(Suited(cards, hand[0].suit))
  {
    var s := hand[0].suit;
    SuitedMultiset(cards, s);
    forall c ensures multiset(hand)[c] <= multiset(Suited(cards, s))[c] {
      assert multiset(hand)[c] <= multiset(cards)[c];
      if multiset(hand)[c] > 0 {
        assert c in hand;
      }
    }
  }

  /** Two suits of five cards each take ten cards. */
  lemma OneLongSuit(cards: seq<Card>, s: nat, t: nat)
    requires s != t
    ensures |Suited(cards, s)| + |Suited(cards, t)| <= |cards|
  {
  }

  // ---------------------------------------------------------------- straights

  lemma HasMono(some: seq<Card>, cards: seq<Card>, r: int)
    requires multiset(some) <= multiset(cards) && Has(some, r)
    ensures Has(cards, r)
  {
    CountMono(some, cards, if r == 1 then 14 else r);
  }

  lemma RunMono(some: seq<Card>, cards: seq<Card>, top: int)
    requires multiset(some) <= multiset(cards) && RunTo(some, top)
    ensures RunTo(cards, top)
  {
    HasMono(some, cards, top);
    HasMono(some, cards, top - 1);
    HasMono(some, cards, top - 2);
    HasMono(some, cards, top - 3);
    HasMono(some, cards, top - 4);
  }

  lemma {:induction false} StraightTopIs(cards: seq<Card>, top: nat)
    ensures var t := StraightTop(cards, top); t <= top && (t > 0 ==> t >= 5 && RunTo(cards, t))
    ensures forall x | 5 <= x <= top && RunTo(cards, x) :: x <= StraightTop(cards, top)
  {
    if top >= 5 && !RunTo(cards, top) {
      StraightTopIs(cards, top - 1);
    }
  }

  lemma StraightMono(some: seq<Card>, cards: seq<Card>)
    requires multiset(some) <= multiset(cards)
    ensures StraightTop(some, 14) <= StraightTop(cards, 14)
  {
    StraightTopIs(some, 14);
    StraightTopIs(cards, 14);
    if StraightTop(some, 14) > 0 {
      RunMono(some, cards, StraightTop(some, 14));
    }
  }

  // ---------------------------------------------------------------- greedy keys

  /** The rank at `j` is the best one held often enough that was not taken before. */
  ghost predicate GreedyAt(cards: seq<Card>, n: nat, key: seq<int>, j: nat) {
    && j < |key| && Count(cards, key[j]) >= n && key[j] !in key[..j]
    && forall r | 2 <= r <= 14 && r !in key[..j] && Count(cards, r) >= n :: r <= key[j]
  }

  ghost predicate Greedy(cards: seq<Card>, times: seq<nat>, key: seq<int>) {
    |times| == |key| && forall j | 0 <= j < |key| :: GreedyAt(cards, times[j], key, j)
  }

  /** Different ranks, each held often enough. */
  ghost predicate Offered(cards: seq<Card>, times: seq<nat>, key: seq<int>) {
    && |times| == |key| && Different(key)
    && forall j | 0 <= j < |key| :: 2 <= key[j] <= 14 && Count(cards, key[j]) >= times[j]
  }

  lemma {:induction false} GreedyDominates(cards: seq<Card>, times: seq<nat>, best: seq<int>, key: seq<int>, j: nat)
    requires Greedy(cards, times, best) && Offered(cards, times, key)
    requires j <= |times| && best[..j] == key[..j]
    ensures Lex(best[j..], key[j..]) >= 0
    decreases |times| - j
  {
    if j < |times| {
      assert key[j] !in key[..j];
      assert GreedyAt(cards, times[j], best, j);
      assert best[j..][1..] == best[j + 1..] && key[j..][1..] == key[j + 1..];
      if key[j] == best[j] {
        assert best[..j + 1] == best[..j] + [best[j]] && key[..j + 1] == key[..j] + [key[j]];
        GreedyDominates(cards, times, best, key, j + 1);
      }
    }
  }

  // ---------------------------------------------------------------- patterns

  /** How often the ranks of a hand occur, by category. */
  function Pattern(category: nat): seq<nat> {
    if category == 7 then [4, 1]
    else if category == 6 then [3, 2]
    else if category == 3 then [3, 1, 1]
    else if category == 2 then [2, 2, 1]
    else if category == 1 then [2, 1, 1, 1]
    else [1, 1, 1, 1, 1]
  }

  lemma GroupCounts(hand: seq<Card>)
    requires Pack(hand) && |hand| == 5
    ensures 4 * |Groups(hand, 4, 14)| + 3 * |Groups(hand, 3, 14)|
            + 2 * |Groups(hand, 2, 14)| + |Groups(hand, 1, 14)| == 5
  {
    AtMostFour(hand);
    GroupMass(hand, 14);
    MassOfAll(hand);
  }

  /** The category of a hand without straight or flush, by its numbers of fours,
      threes and pairs. */
  function GroupCategory(fours: nat, threes: nat, pairs: nat): nat {
    if fours > 0 then 7
    else if threes > 0 && pairs > 0 then 6
    else if threes > 0 then 3
    else if pairs >= 2 then 2
    else if pairs == 1 then 1
    else 0
  }

  lemma TimesArePattern(fours: nat, threes: nat, pairs: nat, singles: nat)
    requires 4 * fours + 3 * threes + 2 * pairs + singles == 5
    ensures Times(fours, threes, pairs, singles) == Pattern(GroupCategory(fours, threes, pairs))
  {
    if fours > 0 {
      assert fours == 1 && threes == 0 && pairs == 0 && singles == 1;
    } else if threes > 0 {
      assert threes == 1;
    }
  }

  /** A hand without a straight offers its key in the pattern of its category. */
  lemma HandOffers(hand: seq<Card>)
    requires Pack(hand) && |hand| == 5
    ensures var score := ScoreOf(hand);
      score.category != 8 && score.category != 4 ==>
        score.key == GroupKey(hand) && Offered(hand, Pattern(score.category), score.key)
  {
    hide Pack, Offered, Times, Pattern, StraightTop, Groups;
    GroupCounts(hand);
    var a, b, c, d := Groups(hand, 4, 14), Groups(hand, 3, 14), Groups(hand, 2, 14), Groups(hand, 1, 14);
    GroupsMembers(hand, 4, 14);
    GroupsMembers(hand, 3, 14);
    GroupsMembers(hand, 2, 14);
    GroupsMembers(hand, 1, 14);
    KeyOffered(hand, a, b, c, d);
    TimesArePattern(|a|, |b|, |c|, |d|);
    if IsFlush(hand) {
      FlushHasNoPairs(hand);
      SinglesOnly(hand);
      assert Pattern(5) == Pattern(0) by { SamePattern(); }
    }
  }

  lemma SamePattern()
    ensures Pattern(5) == Pattern(0)
  {
  }

  lemma FlushHasNoPairs(hand: seq<Card>)
    requires Pack(hand) && IsFlush(hand)
    ensures forall r :: Count(hand, r) <= 1
  {
    FlushSuited(hand, hand);
    SuitedPack(hand, hand[0].suit);
    forall r ensures Count(hand, r) <= 1 {
      CountMono(hand, Suited(hand, hand[0].suit), r);
    }
  }

  function Repeated(n: nat, times: nat): seq<nat> {
    seq(times, _ => n)
  }

  function Times(fours: nat, threes: nat, pairs: nat, singles: nat): seq<nat> {
    Repeated(4, fours) + Repeated(3, threes) + Repeated(2, pairs) + Repeated(1, singles)
  }

  lemma KeyOffered(hand: seq<Card>, a: seq<int>, b: seq<int>, c: seq<int>, d: seq<int>)
    requires forall r :: r in a <==> 2 <= r <= 14 && Count(hand, r) == 4
    requires forall r :: r in b <==> 2 <= r <= 14 && Count(hand, r) == 3
    requires forall r :: r in c <==> 2 <= r <= 14 && Count(hand, r) == 2
    requires forall r :: r in d <==> 2 <= r <= 14 && Count(hand, r) == 1
    requires Descending(a) && Descending(b) && Descending(c) && Descending(d)
    ensures Offered(hand, Times(|a|, |b|, |c|, |d|), a + b + c + d)
  {
    var key, times := a + b + c + d, Times(|a|, |b|, |c|, |d|);
    forall j | 0 <= j < |key| ensures 2 <= key[j] <= 14 && Count(hand, key[j]) == times[j] {
      if j < |a| { assert key[j] in a; }
      else if j < |a| + |b| { assert key[j] in b; }
      else if j < |a| + |b| + |c| { assert key[j] in c; }
      else { assert key[j] in d; }
    }
    forall i, j | 0 <= i < j < |key| ensures key[i] != key[j] {
      if times[i] == times[j] {
        if j < |a| { assert key[i] == a[i] && key[j] == a[j]; }
        else if j < |a| + |b| { assert key[i] == b[i - |a|] && key[j] == b[j - |a|]; }
        else if j < |a| + |b| + |c| { assert key[i] == c[i - |a| - |b|] && key[j] == c[j - |a| - |b|]; }
        else { assert key[i] == d[i - |a| - |b| - |c|] && key[j] == d[j - |a| - |b| - |c|]; }
      }
    }
  }

  // ---------------------------------------------------------------- best hands

  /** Nothing among the cards for a hand of a better pattern than `category`. */
  ghost predicate NothingBetter(cards: seq<Card>, category: nat) {
    && (category < 7 ==> forall r :: Count(cards, r) < 4)
    && (category < 6 ==> forall r, q :: r != q ==> !(Count(cards, r) >= 3 && Count(cards, q) >= 2))
    && (category < 3 ==> forall r :: Count(cards, r) < 3)
    && (category < 2 ==> forall r, q :: r != q ==> !(Count(cards, r) >= 2 && Count(cards, q) >= 2))
    && (category < 1 ==> forall r :: Count(cards, r) < 2)
  }

  lemma OfferedMono(hand: seq<Card>, cards: seq<Card>, times: seq<nat>, key: seq<int>)
    requires Offered(hand, times, key) && multiset(hand) <= multiset(cards)
    ensures Offered(cards, times, key)
  {
    forall j | 0 <= j < |key| ensures Count(cards, key[j]) >= times[j] {
      CountMono(hand, cards, key[j]);
    }
  }

  lemma OfferedIsNotBetter(cards: seq<Card>, category: nat, other: nat, key: seq<int>)
    requires Offered(cards, Pattern(other), key) && other in {7, 6, 3, 2, 1, 0}
    ensures NothingBetter(cards, category) ==> other <= category
  {
    assert Count(cards, key[0]) >= Pattern(other)[0];
    assert Count(cards, key[1]) >= Pattern(other)[1];
    assert key[0] != key[1];
  }

  lemma LexOfOne(a: int, b: int)
    requires a >= b
    ensures Lex([a], [b]) >= 0
  {
    assert [a][1..] == [] && [b][1..] == [];
  }

  /** Without a straight or a flush, five cards with a greedy key and nothing
      better on offer are best. */
  lemma GroupsBest(hand: seq<Card>, cards: seq<Card>, category: nat, key: seq<int>)
    requires Pack(cards) && Drawn(hand, cards)
    requires StraightTop(cards, 14) == 0 && forall s :: |Suited(cards, s)| < 5
    requires category in {7, 6, 3, 2, 1, 0} && NothingBetter(cards, category)
    requires Greedy(cards, Pattern(category), key) && ScoreOf(hand) == Score(category, key)
    ensures Best(hand, cards)
  {
    forall h: seq<Card> | Drawn(h, cards) ensures Compare(ScoreOf(hand), ScoreOf(h)) >= 0 {
      StraightMono(h, cards);
      NoFlushDrawn(h, cards);
      OtherHandWorse(h, cards, category, key);
    }
  }

  lemma OtherHandWorse(h: seq<Card>, cards: seq<Card>, category: nat, key: seq<int>)
    requires Pack(cards) && Drawn(h, cards) && !IsFlush(h) && StraightTop(h, 14) == 0
    requires category in {7, 6, 3, 2, 1, 0} && NothingBetter(cards, category)
    requires Greedy(cards, Pattern(category), key)
    ensures Compare(Score(category, key), ScoreOf(h)) >= 0
  {
    hide GroupKey, Pack, Greedy;
    SubPack(h, cards);
    HandOffers(h);
    var score := ScoreOf(h);
    var other := score.category;
    OfferedMono(h, cards, Pattern(other), score.key);
    assert other in {7, 6, 3, 2, 1, 0};
    OfferedIsNotBetter(cards, category, other, score.key);
    if other == category {
      GreedyDominates(cards, Pattern(category), key, score.key, 0);
      assert key[0..] == key && score.key[0..] == score.key;
    }
  }

  /** Five cards of a run, when no suit is long: best if no higher run is there. */
  lemma StraightBest(hand: seq<Card>, cards: seq<Card>)
    requires Pack(cards) && |cards| <= 7 && Drawn(hand, cards)
    requires forall s :: |Suited(cards, s)| < 5
    requires forall r :: Count(hand, r) <= 1
    requires StraightTop(hand, 14) == StraightTop(cards, 14) > 0
    ensures Best(hand, cards) && ScoreOf(hand) == Score(4, [StraightTop(cards, 14)])
  {
    hide Groups, Pack, StraightTop, Suited, GroupKey;
    NoFlushDrawn(hand, cards);
    SinglesOnly(hand);
    forall h: seq<Card> | Drawn(h, cards) ensures Compare(ScoreOf(hand), ScoreOf(h)) >= 0 {
      StraightMono(h, cards);
      NoFlushDrawn(h, cards);
      NoQuadsNoFullHouse(h, hand, cards);
      if StraightTop(h, 14) > 0 {
        LexOfOne(StraightTop(cards, 14), StraightTop(h, 14));
      }
    }
  }

  lemma NoFlushDrawn(hand: seq<Card>, cards: seq<Card>)
    requires Drawn(hand, cards) && forall s :: |Suited(cards, s)| < 5
    ensures !IsFlush(hand)
  {
    if IsFlush(hand) {
      FlushSuited(hand, cards);
      Surplus(hand, Suited(cards, hand[0].suit), []);
    }
  }

  lemma SinglesOnly(hand: seq<Card>)
    requires forall r :: Count(hand, r) <= 1
    ensures Groups(hand, 4, 14) == Groups(hand, 3, 14) == Groups(hand, 2, 14) == []
  {
    GroupIs(hand, 4, []);
    GroupIs(hand, 3, []);
    GroupIs(hand, 2, []);
  }

  lemma NoQuadsNoFullHouse(h: seq<Card>, five: seq<Card>, cards: seq<Card>)
    requires Drawn(h, cards) && multiset(five) <= multiset(cards) && |five| >= 5 && |cards| <= 7
    requires forall r :: Count(five, r) <= 1
    ensures Groups(h, 4, 14) == [] && (Groups(h, 3, 14) == [] || Groups(h, 2, 14) == [])
  {
    hide Groups, Count;
    var a, b, c := Groups(h, 4, 14), Groups(h, 3, 14), Groups(h, 2, 14);
    GroupHead(h, cards, 4);
    GroupHead(h, cards, 3);
    GroupHead(h, cards, 2);
    if a != [] {
      Pigeonhole(five, cards, a[0], a[0]);
    }
    if b != [] && c != [] {
      Pigeonhole(five, cards, b[0], c[0]);
    }
  }

  lemma GroupHead(h: seq<Card>, cards: seq<Card>, n: nat)
    requires multiset(h) <= multiset(cards)
    ensures var g := Groups(h, n, 14);
      g != [] ==> Count(cards, g[0]) >= n && Count(h, g[0]) == n
  {
    GroupsMembers(h, n, 14);
    var g := Groups(h, n, 14);
    if g != [] {
      assert g[0] in g;
      CountMono(h, cards, g[0]);
    }
  }

  lemma FlushOfOneSuit(h: seq<Card>, cards: seq<Card>, s: nat)
    requires Drawn(h, cards) && IsFlush(h) && |Suited(cards, s)| >= 5 && |cards| <= 7
    ensures multiset(h) <= multiset(Suited(cards, s))
  {
    FlushSuited(h, cards);
    Surplus(h, Suited(cards, h[0].suit), []);
    if h[0].suit != s {
      OneLongSuit(cards, s, h[0].suit);
    }
  }

  /** A run within the long suit, with no higher run in it, is best. */
  lemma StraightFlushBest(hand: seq<Card>, cards: seq<Card>, s: nat)
    requires Pack(cards) && |cards| <= 7 && |hand| == 5 && |Suited(cards, s)| >= 5
    requires multiset(hand) <= multiset(Suited(cards, s))
    requires StraightTop(hand, 14) == StraightTop(Suited(cards, s), 14) > 0
    ensures Best(hand, cards) && ScoreOf(hand) == Score(8, [StraightTop(hand, 14)])
  {
    SuitedPack(cards, s);
    SuitedIsFlush(hand, cards, s);
    forall h: seq<Card> | Drawn(h, cards) ensures Compare(ScoreOf(hand), ScoreOf(h)) >= 0 {
      if IsFlush(h) {
        FlushOfOneSuit(h, cards, s);
        StraightMono(h, Suited(cards, s));
        LexOfOne(StraightTop(hand, 14), StraightTop(h, 14));
      }
    }
  }

  lemma SuitedIsFlush(hand: seq<Card>, cards: seq<Card>, s: nat)
    requires hand != [] && multiset(hand) <= multiset(Suited(cards, s))
    ensures IsFlush(hand)
  {
    SuitedMultiset(cards, s);
    forall c | c in hand ensures c.suit == s {
      assert c in multiset(hand);
      assert multiset(Suited(cards, s))[c] > 0;
    }
    assert hand[0] in hand;
  }

  /** The five best cards of the long suit are best when no run lies in it. */
  lemma FlushBest(hand: seq<Card>, cards: seq<Card>, s: nat, key: seq<int>)
    requires Pack(cards) && |cards| <= 7 && |hand| == 5 && |Suited(cards, s)| >= 5
    requires multiset(hand) <= multiset(Suited(cards, s))
    requires StraightTop(Suited(cards, s), 14) == 0
    requires Greedy(Suited(cards, s), Pattern(5), key) && GroupKey(hand) == key
    ensures Best(hand, cards) && ScoreOf(hand) == Score(5, key)
  {
    hide Groups, Greedy, Pack, Pattern, GroupKey;
    var v := Suited(cards, s);
    SuitedPack(cards, s);
    SuitedIsFlush(hand, cards, s);
    StraightMono(hand, v);
    SubPack(hand, v);
    FlushHasNoPairs(hand);
    SinglesOnly(hand);
    forall h: seq<Card> | Drawn(h, cards) ensures Compare(ScoreOf(hand), ScoreOf(h)) >= 0 {
      NoQuadsNoFullHouse(h, v, cards);
      if IsFlush(h) {
        FlushOfOneSuit(h, cards, s);
        StraightMono(h, v);
        SubPack(h, v);
        HandOffers(h);
        OfferedMono(h, v, Pattern(5), ScoreOf(h).key);
        GreedyDominates(v, Pattern(5), key, ScoreOf(h).key, 0);
        assert key[0..] == key && ScoreOf(h).key[0..] == ScoreOf(h).key;
      }
    }
  }
}
