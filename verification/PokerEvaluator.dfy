/** `CTaxasPokerPeerCard`: the cards of one player and the choice of the five best. */
module PokerEvaluator {
  import opened Wrappers
  import opened StdSort
  import opened PokerRanking
  import opened PokerBest
  import opened PokerStraight
  import opened PokerGroups
  import opened PokerHands
  import opened PokerChoice

  // The card types, as the source numbers them.
  const STRAIGHT_FLUSH := 1
  const FOUR := 2
  const FULL_HOUSE := 3
  const FLUSH := 4
  const STRAIGHT := 5
  const THREE := 6
  const TWO_PAIR := 7
  const PAIR := 8
  const HIGH_CARD := 9
  const NO_TYPE := 10

  // ---------------------------------------------------------------- permuted hands

  lemma {:induction false} SameGroups(a: seq<Card>, b: seq<Card>, n: nat, top: nat)
    requires forall r :: Count(a, r) == Count(b, r)
    ensures Groups(a, n, top) == Groups(b, n, top)
  {
    if top >= 2 {
      SameGroups(a, b, n, top - 1);
    }
  }

  lemma SameStraight(a: seq<Card>, b: seq<Card>)
    requires multiset(a) == multiset(b)
    ensures StraightTop(a, 14) == StraightTop(b, 14)
  {
    StraightMono(a, b);
    StraightMono(b, a);
  }

  lemma SameFlush(a: seq<Card>, b: seq<Card>)
    requires multiset(a) == multiset(b) && IsFlush(a)
    ensures IsFlush(b)
  {
    assert a[0] in multiset(a);
    assert a[0] in multiset(b);
    forall c | c in b ensures c.suit == a[0].suit {
      assert c in multiset(b);
      assert c in a;
    }
    assert b[0] in b;
  }

  /** A score does not depend on the order of the cards. */
  lemma SameScore(a: seq<Card>, b: seq<Card>)
    requires multiset(a) == multiset(b)
    ensures ScoreOf(a) == ScoreOf(b)
  {
    hide Groups, StraightTop, IsFlush, Count;
    forall r ensures Count(a, r) == Count(b, r) {
      CountPermutation(a, b, r);
    }
    SameGroups(a, b, 4, 14);
    SameGroups(a, b, 3, 14);
    SameGroups(a, b, 2, 14);
    SameGroups(a, b, 1, 14);
    SameStraight(a, b);
    if IsFlush(a) { SameFlush(a, b); }
    if IsFlush(b) { SameFlush(b, a); }
  }

  lemma SameBest(a: seq<Card>, b: seq<Card>, all: seq<Card>, all': seq<Card>)
    requires multiset(a) == multiset(b) && multiset(all) == multiset(all') && Best(a, all)
    ensures Best(b, all')
  {
    hide ScoreOf, Compare;
    SameScore(a, b);
    assert |multiset(a)| == |a| && |multiset(b)| == |b|;
    forall h: seq<Card> | Drawn(h, all') ensures Compare(ScoreOf(b), ScoreOf(h)) >= 0 {
      assert Drawn(h, all);
    }
  }

  // ---------------------------------------------------------------- what is found

  /** What the fields hold once the hand is chosen: five cards at least as good as
      any other five, their type, and the ranks that decide first. */
  ghost predicate Chosen(all: seq<Card>, hand: seq<Card>, first: seq<Card>, second: seq<Card>, kind: nat) {
    var score := ScoreOf(hand);
    && Best(hand, all) && kind + score.category == 9
    && (kind in {FOUR, THREE, PAIR, FULL_HOUSE, TWO_PAIR} ==> score.key != [] && IsRankOf(first, score.key[0]))
    && (kind in {FULL_HOUSE, TWO_PAIR} ==> |score.key| >= 2 && IsRankOf(second, score.key[1]))
  }

  lemma SameChosen(all: seq<Card>, hand: seq<Card>, hand': seq<Card>, first: seq<Card>, second: seq<Card>, kind: nat)
    requires Chosen(all, hand, first, second, kind) && multiset(hand') == multiset(hand)
    ensures Chosen(all, hand', first, second, kind)
  {
    hide ScoreOf, Best;
    SameScore(hand, hand');
    SameBest(hand, hand', all, all);
  }

  // ---------------------------------------------------------------- flushes and straights

  function RankKey(c: Card): int {
    Rank(c)
  }

  lemma SortedByRank(cards: seq<Card>)
    requires Ascending(cards, RankKey)
    ensures RankOrdered(cards)
  {
    forall i, j | 0 <= i < j < |cards| ensures Rank(cards[i]) <= Rank(cards[j]) {
      assert RankKey(cards[i]) <= RankKey(cards[j]);
    }
  }

  method SortByRank(cards: seq<Card>) returns (sorted: seq<Card>)
    ensures multiset(sorted) == multiset(cards) && |sorted| == |cards| && RankOrdered(sorted)
  {
    sorted := Sort(cards, RankKey);
    SortedByRank(sorted);
  }

  lemma Associate(a: seq<Card>, b: seq<Card>, c: seq<Card>)
    ensures a + (b + c) == (a + b) + c
  {
  }

  lemma {:induction false} SuitedAppend(cards: seq<Card>, c: Card, s: nat)
    ensures Suited(cards + [c], s) == Suited(cards, s) + (if c.suit == s then [c] else [])
  {
    if cards == [] {
      assert [] + [c] == [c] && [c][1..] == [];
    } else {
      assert (cards + [c])[1..] == cards[1..] + [c];
      SuitedAppend(cards[1..], c, s);
      Associate(if cards[0].suit == s then [cards[0]] else [], Suited(cards[1..], s), if c.suit == s then [c] else []);
    }
  }

  /** The cards put into one list per suit. */
  method SplitColors(all: seq<Card>) returns (colors: seq<seq<Card>>)
    requires Pack(all)
    ensures |colors| == 4 && forall s | 0 <= s < 4 :: colors[s] == Suited(all, s)
  {
    colors := [[], [], [], []];
    for i := 0 to |all|
      invariant |colors| == 4
      invariant forall s | 0 <= s < 4 :: colors[s] == Suited(all[..i], s)
    {
      var c := all[i];
      assert ValidCard(c);
      assert all[..i + 1] == all[..i] + [c];
      forall s | 0 <= s < 4 ensures Suited(all[..i + 1], s) == Suited(all[..i], s) + (if c.suit == s then [c] else []) {
        SuitedAppend(all[..i], c, s);
      }
      colors := colors[c.suit := colors[c.suit] + [c]];
    }
    assert all[..|all|] == all;
  }

  lemma {:induction false} OnlyFourSuits(all: seq<Card>, s: nat)
    requires s >= 4 && forall c | c in all :: ValidCard(c)
    ensures Suited(all, s) == []
  {
    if all != [] {
      assert ValidCard(all[0]);
      OnlyFourSuits(all[1..], s);
    }
  }

  /** The first suit of five cards or more: its best straight, or its five highest. */
  method FindFlush(all: seq<Card>) returns (hand: seq<Card>, kind: nat)
    requires Pack(all) && |all| <= 7
    ensures hand == [] ==> forall s :: |Suited(all, s)| < 5
    ensures hand != [] ==> Chosen(all, hand, [], [], kind)
  {
    hide Chosen, Suited, Pack;
    var colors := SplitColors(all);
    var i := 0;
    while i < 4
      invariant i <= 4 && forall s | 0 <= s < i :: |Suited(all, s)| < 5
    {
      if |colors[i]| >= 5 {
        hand, kind := LongSuit(all, i, colors[i]);
        return;
      }
      i := i + 1;
    }
    NoLongSuit(all);
    return [], NO_TYPE;
  }

  lemma NoLongSuit(all: seq<Card>)
    requires Pack(all) && forall s | 0 <= s < 4 :: |Suited(all, s)| < 5
    ensures forall s :: |Suited(all, s)| < 5
  {
    forall s: nat ensures |Suited(all, s)| < 5 {
      if s >= 4 {
        OnlyFourSuits(all, s);
      }
    }
  }

  method LongSuit(all: seq<Card>, s: nat, suited: seq<Card>) returns (hand: seq<Card>, kind: nat)
    requires Pack(all) && |all| <= 7 && suited == Suited(all, s) && |suited| >= 5
    ensures hand != [] && Chosen(all, hand, [], [], kind)
  {
    hide Chosen, Best, ScoreOf, Suited, StraightTop, Pack, Count, RankOrdered, Drawn;
    var sorted := SortByRank(suited);
    SortedSuit(all, s, sorted);
    var five := FillUp([], Listed(sorted));
    CompactListed(sorted);
    FlushFilled(sorted, five);
    hand := CheckShunZi(sorted, true);
    if hand == [] {
      hand := CheckShunZi(sorted, false);
    }
    if hand != [] {
      StraightFlushChosen(all, s, sorted, hand);
      kind := STRAIGHT_FLUSH;
    } else {
      FlushChosen(all, s, sorted, five);
      hand, kind := five, FLUSH;
    }
  }

  lemma SortedSuit(all: seq<Card>, s: nat, sorted: seq<Card>)
    requires Pack(all) && multiset(sorted) == multiset(Suited(all, s))
    ensures Pack(sorted) && StraightTop(sorted, 14) == StraightTop(Suited(all, s), 14)
  {
    SuitedPack(all, s);
    SubPack(sorted, Suited(all, s));
    SameStraight(sorted, Suited(all, s));
  }

  lemma FlushFilled(sorted: seq<Card>, five: seq<Card>)
    requires |sorted| >= 5 && five == [] + TopDown(sorted, 5)
    ensures five == TopDown(sorted, 5) && |five| == 5
  {
    TopDownIs(sorted, 5);
  }

  lemma StraightFlushChosen(all: seq<Card>, s: nat, sorted: seq<Card>, hand: seq<Card>)
    requires Pack(all) && |all| <= 7 && multiset(sorted) == multiset(Suited(all, s)) && |Suited(all, s)| >= 5
    requires |hand| == 5 && multiset(hand) <= multiset(sorted)
    requires StraightTop(hand, 14) == StraightTop(Suited(all, s), 14) > 0
    ensures Chosen(all, hand, [], [], STRAIGHT_FLUSH)
  {
    StraightFlushBest(hand, all, s);
  }

  lemma FlushChosen(all: seq<Card>, s: nat, sorted: seq<Card>, five: seq<Card>)
    requires Pack(all) && |all| <= 7 && |Suited(all, s)| >= 5 && RankOrdered(sorted)
    requires multiset(sorted) == multiset(Suited(all, s)) && |sorted| == |Suited(all, s)|
    requires StraightTop(Suited(all, s), 14) == 0 && five == TopDown(sorted, 5)
    ensures Chosen(all, five, [], [], FLUSH)
  {
    hide Best, Suited, Pack, Count, GroupKey, Greedy, StraightTop;
    var v := Suited(all, s);
    SuitedPack(all, s);
    TopDownIs(sorted, 5);
    TopDownWithin(sorted, 5);
    forall r ensures Count(sorted, r) <= 1 {
      CountPermutation(sorted, v, r);
    }
    FlushKey(sorted, v, five);
    FlushBest(five, all, s, Ranks(five));
  }

  lemma FlushKey(sorted: seq<Card>, v: seq<Card>, five: seq<Card>)
    requires Pack(v) && multiset(sorted) == multiset(v) && RankOrdered(sorted) && |sorted| >= 5
    requires five == TopDown(sorted, 5) && forall r :: Count(sorted, r) <= 1
    ensures Greedy(v, Pattern(5), Ranks(five)) && GroupKey(five) == Ranks(five)
  {
    hide Count, GroupKey, Pack, RankOrdered, Greedy, TopDown;
    TopDownIs(sorted, 5);
    FiveHighest(sorted);
    GreedySame(sorted, v, Pattern(5), Ranks(five));
    HoldsItsRanks(five);
    KeyOfHand(five, v, 5, Ranks(five));
  }

  lemma FiveHighest(sorted: seq<Card>)
    requires RankOrdered(sorted) && |sorted| >= 5 && forall r :: Count(sorted, r) <= 1
    ensures Greedy(sorted, Pattern(5), Ranks(TopDown(sorted, 5)))
  {
    hide Count, RankOrdered, TopDown, Ranks, Pattern, Repeated;
    assert PoolOf(sorted, [], sorted) by { assert multiset(sorted) == multiset([]) + multiset(sorted); }
    GreedyKickers(sorted, [], sorted, [], [], 5);
    FivePattern(Ranks(TopDown(sorted, 5)));
  }

  lemma FivePattern(key: seq<int>)
    ensures [] + Repeated(1, 5) == Pattern(5) && [] + key == key
  {
  }

  lemma HoldsItsRanks(five: seq<Card>)
    requires |five| == 5
    ensures forall j | 0 <= j < 5 :: Count(five, Ranks(five)[j]) >= Pattern(5)[j]
  {
    forall j | 0 <= j < 5 ensures Count(five, Ranks(five)[j]) >= 1 {
      assert Rank(five[j]) == Ranks(five)[j];
      CountPositive(five, Rank(five[j]));
    }
  }

  lemma GreedySame(a: seq<Card>, b: seq<Card>, times: seq<nat>, key: seq<int>)
    requires multiset(a) == multiset(b) && Greedy(a, times, key)
    ensures Greedy(b, times, key)
  {
    hide Count;
    forall r ensures Count(a, r) == Count(b, r) {
      CountPermutation(a, b, r);
    }
    forall j | 0 <= j < |key| ensures GreedyAt(b, times[j], key, j) {
      assert GreedyAt(a, times[j], key, j);
    }
  }

  /** The best straight, ace high first. */
  method FindStraight(all: seq<Card>) returns (hand: seq<Card>)
    requires RankOrdered(all) && Pack(all) && 5 <= |all| <= 7 && forall s :: |Suited(all, s)| < 5
    ensures hand == [] ==> StraightTop(all, 14) == 0
    ensures hand != [] ==> Chosen(all, hand, [], [], STRAIGHT)
  {
    hide Pack, Suited, StraightTop, Count, RankOrdered, Chosen;
    hand := CheckShunZi(all, true);
    if hand == [] {
      hand := CheckShunZi(all, false);
    }
    if hand != [] {
      StraightChosen(all, hand);
    }
  }

  lemma StraightChosen(all: seq<Card>, hand: seq<Card>)
    requires Pack(all) && |all| <= 7 && |hand| == 5 && multiset(hand) <= multiset(all)
    requires forall s :: |Suited(all, s)| < 5
    requires forall r :: Count(hand, r) <= 1
    requires StraightTop(hand, 14) == StraightTop(all, 14) > 0
    ensures Chosen(all, hand, [], [], STRAIGHT)
  {
    StraightBest(hand, all);
  }

  // ---------------------------------------------------------------- groups

  lemma HighCardChosen(all: seq<Card>, groups: seq<seq<Card>>, rest: seq<Card>, hand: seq<Card>)
    requires OnlyGroups(all) && RankOrdered(all) && Grouped(all, groups, rest) && groups[2] == []
    requires multiset(hand) == multiset(TopDown(all, 5))
    ensures Chosen(all, hand, [], [], HIGH_CARD)
  {
    hide Best, ScoreOf, OnlyGroups, RankOrdered, Grouped;
    HighCardBest(all, groups, rest);
    SameScore(TopDown(all, 5), hand);
    SameBest(TopDown(all, 5), hand, all, all);
  }

  /** The hand made of groups and kickers, and the groups themselves. */
  method FromGroups(all: seq<Card>) returns (hand: seq<Card>, first: seq<Card>, second: seq<Card>, kind: nat)
    requires OnlyGroups(all) && RankOrdered(all)
    ensures Chosen(all, hand, first, second, kind)
  {
    assert Pack(all) && 5 <= |all| <= 7;
    hide OnlyGroups, Chosen, RankOrdered, Found, Exchanged, Pack;
    var found, helper := FindGroups(all);
    ghost var rest := Compact(helper);
    var groups := OrderGroups(all, found, rest);
    assert Grouped(all, groups, rest);
    GroupSizes(all, groups, rest);
    MostOfARank(all, groups, rest);
    first, second := groups[2], [];
    if groups[2] == [] {
      hand := HighCard(all, groups, rest);
      kind := HIGH_CARD;
    } else if |groups[2]| == 4 {
      hand := Four(all, groups, helper);
      kind := FOUR;
    } else if |groups[2]| == 3 {
      hand, second, kind := ThreeOrFullHouse(all, groups, helper);
    } else {
      hand, second, kind := Pairs(all, groups, helper);
    }
  }

  lemma MostOfARank(all: seq<Card>, groups: seq<seq<Card>>, rest: seq<Card>)
    requires OnlyGroups(all) && Grouped(all, groups, rest)
    ensures |groups[2]| <= 4
  {
    if groups[2] != [] {
      TopGroup(all, groups, rest);
      AtMostFour(all);
    }
  }

  method HighCard(all: seq<Card>, ghost groups: seq<seq<Card>>, ghost rest: seq<Card>) returns (hand: seq<Card>)
    requires OnlyGroups(all) && RankOrdered(all) && Grouped(all, groups, rest) && groups[2] == []
    ensures Chosen(all, hand, [], [], HIGH_CARD)
  {
    hide Chosen, Grouped, RankOrdered;
    var five := FillUp([], Listed(all));
    CompactListed(all);
    FlushFilled(all, five);
    hand := SortByRank(five);
    HighCardChosen(all, groups, rest, hand);
  }

  /** Cards put back, nulls cleared, sorted: the pool of kickers. */
  lemma RestoredPool(all: seq<Card>, groups: seq<seq<Card>>, rest: seq<Card>, chosen: seq<Card>, back: seq<Card>,
                     list: seq<Option<Card>>)
    requires Found(all, groups, rest) && RankOrdered(Compact(list))
    requires multiset(Compact(list)) == multiset(back) + multiset(rest)
    requires multiset(chosen) + multiset(back) == multiset(groups[0]) + multiset(groups[1]) + multiset(groups[2])
    ensures PoolOf(all, chosen, Compact(list))
  {
  }

  lemma FoundPool(all: seq<Card>, groups: seq<seq<Card>>, rest: seq<Card>)
    requires Found(all, groups, rest) && groups[0] == [] && groups[1] == []
    ensures PoolOf(all, groups[2], rest)
  {
  }

  lemma CompactBoth(back: seq<Card>, helper: seq<Option<Card>>)
    ensures multiset(Compact(Listed(back) + helper)) == multiset(back) + multiset(Compact(helper))
    ensures multiset(Compact(helper + Listed(back))) == multiset(back) + multiset(Compact(helper))
  {
    CompactListed(back);
    CompactAppend(Listed(back), helper);
    CompactAppend(helper, Listed(back));
  }

  lemma OneGroupChosen(all: seq<Card>, groups: seq<seq<Card>>, rest: seq<Card>, pool: seq<Card>, hand: seq<Card>,
                       kind: nat)
    requires OnlyGroups(all) && Grouped(all, groups, rest) && groups[2] != [] && PoolOf(all, groups[2], pool)
    requires |groups[2]| == 4 || (groups[1] == [] && pool == rest)
    requires |groups[2]| <= 4 && hand == groups[2] + TopDown(pool, 5 - |groups[2]|)
    requires kind == (if |groups[2]| == 4 then FOUR else if |groups[2]| == 3 then THREE else PAIR)
    ensures Chosen(all, hand, groups[2], [], kind)
  {
    hide Best, ScoreOf, Pack;
    GroupSizes(all, groups, rest);
    hide Grouped, PoolOf;
    OneGroupBest(all, groups, rest, pool);
  }

  /** The list with the cards of the second group put back. */
  method PutBack(all: seq<Card>, groups: seq<seq<Card>>, helper: seq<Option<Card>>) returns (list: seq<Option<Card>>)
    requires Grouped(all, groups, Compact(helper)) && groups[0] == []
    ensures PoolOf(all, groups[2], Compact(list))
  {
    ghost var rest := Compact(helper);
    hide RankOrdered, Exchanged, Compact, WholeGroup;
    list := Listed(groups[1]) + helper;
    CompactBoth(groups[1], helper);
    list := Restore(list);
    RestoredPool(all, groups, rest, groups[2], groups[1], list);
  }

  /** Four of a kind; the other group, if there is one, goes back to the kickers. */
  method Four(all: seq<Card>, groups: seq<seq<Card>>, helper: seq<Option<Card>>) returns (hand: seq<Card>)
    requires OnlyGroups(all) && Grouped(all, groups, Compact(helper)) && |groups[2]| == 4
    ensures Chosen(all, hand, groups[2], [], FOUR)
  {
    ghost var rest := Compact(helper);
    GroupSizes(all, groups, rest);
    assert |all| <= 7;
    hide Chosen, OnlyGroups, RankOrdered, Found, Exchanged, Compact, PoolOf;
    var list := helper;
    if |groups[1]| > 0 {
      list := PutBack(all, groups, helper);
    } else {
      FoundPool(all, groups, rest);
    }
    hand := FillUp(groups[2], list);
    OneGroupChosen(all, groups, rest, Compact(list), hand, FOUR);
  }

  lemma FullHouseChosen(all: seq<Card>, groups: seq<seq<Card>>, rest: seq<Card>, hand: seq<Card>, second: seq<Card>)
    requires OnlyGroups(all) && Grouped(all, groups, rest) && |groups[2]| == 3 && |groups[1]| >= 2
    requires hand == groups[2] + [groups[1][0]] + [groups[1][1]] && second == [groups[1][0], groups[1][1]]
    ensures Chosen(all, hand, groups[2], second, FULL_HOUSE)
  {
    GroupSizes(all, groups, rest);
    assert hand == groups[2] + groups[1][..2];
    hide Best, ScoreOf, Grouped;
    FullHouseBest(all, groups, rest);
  }

  method ThreeOrFullHouse(all: seq<Card>, groups: seq<seq<Card>>, helper: seq<Option<Card>>)
    returns (hand: seq<Card>, second: seq<Card>, kind: nat)
    requires OnlyGroups(all) && Grouped(all, groups, Compact(helper)) && |groups[2]| == 3
    ensures Chosen(all, hand, groups[2], second, kind)
  {
    ghost var rest := Compact(helper);
    GroupSizes(all, groups, rest);
    hide Chosen, OnlyGroups, Found, Exchanged, Compact;
    if |groups[1]| >= 2 {
      hand := groups[2] + [groups[1][0]] + [groups[1][1]];
      second := [groups[1][0], groups[1][1]];
      kind := FULL_HOUSE;
      FullHouseChosen(all, groups, rest, hand, second);
    } else {
      FoundPool(all, groups, rest);
      hand := FillUp(groups[2], helper);
      second, kind := [], THREE;
      OneGroupChosen(all, groups, rest, rest, hand, THREE);
    }
  }

  lemma TwoPairChosen(all: seq<Card>, groups: seq<seq<Card>>, rest: seq<Card>, pool: seq<Card>, hand: seq<Card>)
    requires OnlyGroups(all) && Grouped(all, groups, rest) && |groups[2]| == 2 && |groups[1]| == 2
    requires PoolOf(all, groups[1] + groups[2], pool) && hand == groups[1] + groups[2] + TopDown(pool, 1)
    ensures Chosen(all, hand, groups[2], groups[1], TWO_PAIR)
  {
    GroupSizes(all, groups, rest);
    hide Best, ScoreOf, Grouped, PoolOf;
    TwoPairBest(all, groups, rest, pool, groups[1] + groups[2]);
  }

  /** One pair or two; a third pair goes back to the kickers. */
  method Pairs(all: seq<Card>, groups: seq<seq<Card>>, helper: seq<Option<Card>>)
    returns (hand: seq<Card>, second: seq<Card>, kind: nat)
    requires OnlyGroups(all) && Grouped(all, groups, Compact(helper)) && |groups[2]| == 2
    ensures Chosen(all, hand, groups[2], second, kind)
  {
    ghost var rest := Compact(helper);
    GroupSizes(all, groups, rest);
    hide Chosen, OnlyGroups, RankOrdered, Found, Exchanged, Compact;
    if |groups[1]| == 2 {
      hand := TwoPair(all, groups, helper);
      second, kind := groups[1], TWO_PAIR;
    } else {
      FoundPool(all, groups, rest);
      hand := FillUp(groups[2], helper);
      second, kind := [], PAIR;
      OneGroupChosen(all, groups, rest, rest, hand, PAIR);
    }
  }

  method TwoPair(all: seq<Card>, groups: seq<seq<Card>>, helper: seq<Option<Card>>) returns (hand: seq<Card>)
    requires OnlyGroups(all) && Grouped(all, groups, Compact(helper)) && |groups[2]| == 2 && |groups[1]| == 2
    ensures Chosen(all, hand, groups[2], groups[1], TWO_PAIR)
  {
    ghost var rest := Compact(helper);
    GroupSizes(all, groups, rest);
    hide *;
    hand := groups[1] + groups[2];
    var list := helper;
    if |groups[0]| == 2 {
      list := PutBackThird(all, groups, helper);
    } else {
      TwoPairPool(all, groups, rest);
    }
    hand := FillUp(hand, list);
    TwoPairChosen(all, groups, rest, Compact(list), hand);
  }

  /** The list with the cards of the third pair put back. */
  method PutBackThird(all: seq<Card>, groups: seq<seq<Card>>, helper: seq<Option<Card>>)
    returns (list: seq<Option<Card>>)
    requires Grouped(all, groups, Compact(helper)) && |groups[0]| == |groups[1]| == |groups[2]| == 2
    ensures PoolOf(all, groups[1] + groups[2], Compact(list))
  {
    hide RankOrdered, Exchanged, Compact, WholeGroup;
    list := helper + Listed(groups[0]);
    CompactBoth(groups[0], helper);
    list := Restore(list);
    RestoredPool(all, groups, Compact(helper), groups[1] + groups[2], groups[0], list);
  }

  lemma TwoPairPool(all: seq<Card>, groups: seq<seq<Card>>, rest: seq<Card>)
    requires Found(all, groups, rest) && groups[0] == []
    ensures PoolOf(all, groups[1] + groups[2], rest)
  {
  }

  /** A pack without its card `i`. */
  lemma TakenOut(cards: seq<Card>, i: nat)
    requires Pack(cards) && i < |cards|
    ensures var less := cards[..i] + cards[i + 1..];
      Pack(less) && |less| == |cards| - 1 && multiset(less) == multiset(cards) - multiset{cards[i]}
  {
    CountRemove(cards, i, 0);
    SubPack(Without(cards, i), cards);
  }

  // ---------------------------------------------------------------- the class

  class PeerCard {
    var allCards: seq<Card>
    var finalCards: seq<Card>
    var pairs0: seq<Card>
    var pairs1: seq<Card>
    var kind: nat
    var dirty: bool

    /** At most seven different cards; what was chosen is right unless cards changed since. */
    ghost predicate Valid()
      reads this
    {
      && Pack(allCards) && |allCards| <= 7
      && (!dirty && allCards != [] ==> |allCards| >= 5 && Chosen(allCards, finalCards, pairs0, pairs1, kind))
    }

    constructor ()
      ensures Valid() && allCards == []
    {
      allCards, finalCards, pairs0, pairs1, kind, dirty := [], [], [], [], NO_TYPE, false;
    }

    method Reset()
      modifies this
      ensures Valid() && allCards == [] && finalCards == [] && kind == NO_TYPE && !dirty
    {
      allCards, finalCards, pairs0, pairs1, kind, dirty := [], [], [], [], NO_TYPE, false;
    }

    method AddCard(c: Card)
      requires Valid() && |allCards| < 7 && ValidCard(c) && c !in allCards
      modifies this`allCards, this`dirty
      ensures Valid() && allCards == old(allCards) + [c] && dirty
    {
      forall x ensures multiset(allCards + [c])[x] <= 1 {
        assert c !in multiset(allCards);
      }
      allCards := allCards + [c];
      dirty := true;
    }

    /** The first occurrence of the card is taken out. */
    method RemovePublicCard(c: Card) returns (found: bool)
      requires Valid()
      modifies this`allCards, this`dirty
      ensures Valid() && found == (c in old(allCards))
      ensures if found then dirty && multiset(allCards) == multiset(old(allCards)) - multiset{c}
              else allCards == old(allCards) && dirty == old(dirty)
    {
      var i := 0;
      while i < |allCards| && allCards[i] != c
        invariant i <= |allCards| && forall k | 0 <= k < i :: allCards[k] != c
      {
        i := i + 1;
      }
      if i == |allCards| {
        return false;
      }
      TakenOut(allCards, i);
      hide *;
      allCards := allCards[..i] + allCards[i + 1..];
      dirty := true;
      return true;
    }

    /** `CaculateFinalCard`: nothing happens unless cards changed and five are there;
        then the best hand is chosen. The cards are only reordered. */
    method CaculateFinalCard()
      requires Valid()
      modifies this
      ensures Valid() && multiset(allCards) == multiset(old(allCards))
      ensures old(dirty) && |old(allCards)| >= 5 ==> !dirty
      ensures !dirty && allCards != [] ==> Best(finalCards, allCards) && kind + ScoreOf(finalCards).category == 9
      ensures !old(dirty) || |old(allCards)| < 5 ==>
        allCards == old(allCards) && finalCards == old(finalCards) && pairs0 == old(pairs0) && pairs1 == old(pairs1)
        && kind == old(kind) && dirty == old(dirty)
    {
      if !dirty || |allCards| < 5 {
        return;
      }
      hide Pack, Chosen, RankOrdered, Best, ScoreOf;
      dirty := false;
      var sorted := SortByRank(allCards);
      assert Pack(sorted) by { SubPack(sorted, allCards); }
      allCards := sorted;
      finalCards, pairs0, pairs1, kind := Evaluate(sorted);
    }
  }

  /** Flush first, then straight, then groups. */
  method Evaluate(sorted: seq<Card>) returns (hand: seq<Card>, first: seq<Card>, second: seq<Card>, kind: nat)
    requires Pack(sorted) && RankOrdered(sorted) && 5 <= |sorted| <= 7
    ensures Chosen(sorted, hand, first, second, kind) && Best(hand, sorted) && kind + ScoreOf(hand).category == 9
  {
    hide Pack, Chosen, RankOrdered, OnlyGroups, Best, ScoreOf;
    first, second := [], [];
    hand, kind := FindFlush(sorted);
    if hand == [] {
      hand := FindStraight(sorted);
      kind := STRAIGHT;
      if hand == [] {
        assert OnlyGroups(sorted) by { NoRunNoFlush(sorted); }
        hand, first, second, kind := FromGroups(sorted);
      }
    }
    ChosenIsBest(sorted, hand, first, second, kind);
  }

  lemma ChosenIsBest(all: seq<Card>, hand: seq<Card>, first: seq<Card>, second: seq<Card>, kind: nat)
    requires Chosen(all, hand, first, second, kind)
    ensures Best(hand, all) && kind + ScoreOf(hand).category == 9
  {
  }

  lemma NoRunNoFlush(all: seq<Card>)
    requires Pack(all) && 5 <= |all| <= 7 && StraightTop(all, 14) == 0 && forall s :: |Suited(all, s)| < 5
    ensures OnlyGroups(all)
  {
  }
}
