/** Each way the groups can turn out, and why the hand made of them is best. */
module PokerChoice {
  import opened PokerRanking
  import opened PokerBest
  import opened PokerStraight
  import opened PokerGroups
  import opened PokerHands

  /** Sorted cards in which there is neither a straight nor a flush. */
  ghost predicate OnlyGroups(all: seq<Card>) {
    Pack(all) && 5 <= |all| <= 7 && StraightTop(all, 14) == 0 && forall s :: |Suited(all, s)| < 5
  }

  /** The groups of the cards, the best one last. */
  ghost predicate Grouped(all: seq<Card>, groups: seq<seq<Card>>, rest: seq<Card>) {
    Found(all, groups, rest) && Exchanged(groups, 3, 3)
  }

  predicate IsRankOf(group: seq<Card>, r: int) {
    group != [] && Rank(group[0]) == r
  }

  lemma GroupSizes(all: seq<Card>, groups: seq<seq<Card>>, rest: seq<Card>)
    requires Grouped(all, groups, rest)
    ensures |groups| == 3 && |groups[0]| + |groups[1]| + |groups[2]| + |rest| == |all|
    ensures AtMost(groups[0], groups[1]) && AtMost(groups[1], groups[2]) && AtMost(groups[0], groups[2])
    ensures forall k | 0 <= k < 3 && groups[k] != [] :: |groups[k]| >= 2
  {
    assert WholeGroup(all, groups[0]) && WholeGroup(all, groups[1]) && WholeGroup(all, groups[2]);
    assert |multiset(all)| == |groups[0]| + |groups[1]| + |groups[2]| + |rest|;
  }

  lemma CountSplit(all: seq<Card>, groups: seq<seq<Card>>, rest: seq<Card>, r: int)
    requires Split(all, groups, rest)
    ensures Count(all, r) == Count(groups[0], r) + Count(groups[1], r) + Count(groups[2], r) + Count(rest, r)
  {
    var parts := groups[0] + groups[1] + groups[2] + rest;
    assert multiset(parts) == multiset(all);
    CountPermutation(all, parts, r);
    CountAppend(groups[0] + groups[1] + groups[2], rest, r);
    CountAppend(groups[0] + groups[1], groups[2], r);
    CountAppend(groups[0], groups[1], r);
  }

  /** A rank held more than once is the rank of a group of just as many cards. */
  lemma RankIsGrouped(all: seq<Card>, groups: seq<seq<Card>>, rest: seq<Card>, r: int)
    requires Found(all, groups, rest)
    ensures Count(all, r) >= 2 ==> exists k :: 0 <= k < 3 && IsRankOf(groups[k], r) && |groups[k]| == Count(all, r)
    ensures Count(rest, r) <= 1
  {
    CountSplit(all, groups, rest, r);
    UniformCount(groups[0], r);
    UniformCount(groups[1], r);
    UniformCount(groups[2], r);
    if Count(rest, r) > 0 {
      CountPositive(rest, r);
      var k :| 0 <= k < |rest| && Rank(rest[k]) == r;
      assert rest[k] in rest;
    }
    assert WholeGroup(all, groups[0]) && WholeGroup(all, groups[1]) && WholeGroup(all, groups[2]);
    if Count(all, r) >= 2 {
      assert IsRankOf(groups[0], r) || IsRankOf(groups[1], r) || IsRankOf(groups[2], r);
    }
  }

  lemma GroupBounds(all: seq<Card>, groups: seq<seq<Card>>, rest: seq<Card>, r: int)
    requires Grouped(all, groups, rest) && Count(all, r) >= 2
    ensures groups[2] != [] && 2 <= Count(all, r) <= |groups[2]|
    ensures Count(all, r) == |groups[2]| ==> r <= Rank(groups[2][0])
    ensures groups[1] == [] ==> r == Rank(groups[2][0])
  {
    hide Count, Rank;
    RankIsGrouped(all, groups, rest, r);
    GroupSizes(all, groups, rest);
  }

  lemma TopGroup(all: seq<Card>, groups: seq<seq<Card>>, rest: seq<Card>)
    requires Grouped(all, groups, rest) && groups[2] != []
    ensures |groups[2]| >= 2 && GreedyAt(all, |groups[2]|, [Rank(groups[2][0])], 0)
    ensures Count(all, Rank(groups[2][0])) == Count(groups[2], Rank(groups[2][0])) == |groups[2]|
  {
    var a := groups[2];
    GroupSizes(all, groups, rest);
    assert WholeGroup(all, a);
    UniformCount(a, Rank(a[0]));
    forall r | Count(all, r) >= |a| ensures r <= Rank(a[0]) {
      GroupBounds(all, groups, rest, r);
    }
  }

  lemma NextGroup(all: seq<Card>, groups: seq<seq<Card>>, rest: seq<Card>)
    requires Grouped(all, groups, rest) && groups[1] != [] && |all| <= 7 && |groups[2]| <= 3
    ensures groups[2] != [] && |groups[1]| >= 2
    ensures GreedyAt(all, 2, [Rank(groups[2][0]), Rank(groups[1][0])], 1)
    ensures Count(all, Rank(groups[1][0])) == Count(groups[1], Rank(groups[1][0])) == |groups[1]|
    ensures Rank(groups[1][0]) != Rank(groups[2][0])
  {
    var a, b := groups[2], groups[1];
    GroupSizes(all, groups, rest);
    assert WholeGroup(all, b);
    var key := [Rank(a[0]), Rank(b[0])];
    assert key[..1] == [Rank(a[0])];
    DifferentRanks(all, groups, rest);
    UniformCount(b, Rank(b[0]));
    forall r | r != Rank(a[0]) && Count(all, r) >= 2 ensures r <= Rank(b[0]) {
      RankIsGrouped(all, groups, rest, r);
    }
  }

  lemma DifferentRanks(all: seq<Card>, groups: seq<seq<Card>>, rest: seq<Card>)
    requires Found(all, groups, rest) && groups[1] != [] && groups[2] != []
    ensures Rank(groups[1][0]) != Rank(groups[2][0])
  {
    var r := Rank(groups[2][0]);
    CountSplit(all, groups, rest, r);
    assert WholeGroup(all, groups[1]) && WholeGroup(all, groups[2]);
    UniformCount(groups[1], r);
    UniformCount(groups[2], r);
  }

  lemma Unbeaten(all: seq<Card>, groups: seq<seq<Card>>, rest: seq<Card>, category: nat)
    requires Grouped(all, groups, rest)
    requires category < 7 ==> |groups[2]| < 4
    requires category < 6 ==> |groups[2]| < 3 || groups[1] == []
    requires category < 3 ==> |groups[2]| < 3
    requires category < 2 ==> groups[1] == []
    requires category < 1 ==> groups[2] == []
    ensures NothingBetter(all, category)
  {
    GroupSizes(all, groups, rest);
    hide Grouped, Count;
    forall r | Count(all, r) >= 2
      ensures groups[2] != [] && Count(all, r) <= |groups[2]| && (groups[1] == [] ==> r == Rank(groups[2][0])) {
      GroupBounds(all, groups, rest, r);
    }
  }

  lemma NotInPool(all: seq<Card>, chosen: seq<Card>, pool: seq<Card>, front: seq<int>)
    requires PoolOf(all, chosen, pool)
    requires forall j | 0 <= j < |front| :: Count(all, front[j]) == Count(chosen, front[j])
    ensures forall c | c in pool :: Rank(c) !in front
  {
    forall c | c in pool ensures Rank(c) !in front {
      PoolCounts(all, chosen, pool, Rank(c));
      CountPositive(pool, Rank(c));
      var i :| 0 <= i < |pool| && pool[i] == c;
      assert Rank(pool[i]) == Rank(c);
    }
  }

  /** Chosen groups and the best kickers make the best hand. */
  lemma ChosenBest(all: seq<Card>, chosen: seq<Card>, pool: seq<Card>, category: nat, times: seq<nat>, front: seq<int>,
                   k: nat)
    requires OnlyGroups(all) && PoolOf(all, chosen, pool) && Greedy(all, times, front)
    requires |chosen| + k == 5 && Pattern(category) == times + Repeated(1, k)
    requires (forall c | c in chosen :: Rank(c) in front) && (forall c | c in pool :: Rank(c) !in front)
    requires forall j | 0 <= j < |front| :: Count(chosen, front[j]) >= times[j]
    requires k <= 1 || forall r :: Count(pool, r) <= 1
    requires category in {7, 6, 3, 2, 1, 0} && NothingBetter(all, category)
    ensures var hand := chosen + TopDown(pool, k);
      Best(hand, all) && ScoreOf(hand) == Score(category, front + Ranks(TopDown(pool, k)))
  {
    hide Pattern, Greedy, Count, NothingBetter, ScoreOf, Best;
    var hand, key := chosen + TopDown(pool, k), front + Ranks(TopDown(pool, k));
    PoolSize(all, chosen, pool);
    GreedyKickers(all, chosen, pool, times, front, k);
    TopDownIs(pool, k);
    HandDrawn(all, chosen, pool, k);
    GreedyLength(all, times, front);
    forall j | 0 <= j < |key| ensures Count(hand, key[j]) >= (times + Repeated(1, k))[j] {
      HandHolds(chosen, TopDown(pool, k), front, times, j);
    }
    GreedyHandBest(hand, all, category, key);
  }

  lemma PoolSize(all: seq<Card>, chosen: seq<Card>, pool: seq<Card>)
    requires PoolOf(all, chosen, pool)
    ensures |pool| == |all| - |chosen|
  {
    assert |multiset(all)| == |chosen| + |pool|;
  }

  lemma HandDrawn(all: seq<Card>, chosen: seq<Card>, pool: seq<Card>, k: nat)
    requires PoolOf(all, chosen, pool) && k <= |pool| && |chosen| + k == 5
    ensures Drawn(chosen + TopDown(pool, k), all)
  {
    TopDownIs(pool, k);
    TopDownWithin(pool, k);
  }

  lemma HandHolds(chosen: seq<Card>, kickers: seq<Card>, front: seq<int>, times: seq<nat>, j: nat)
    requires |front| == |times| && j < |front| + |kickers|
    requires forall i | 0 <= i < |front| :: Count(chosen, front[i]) >= times[i]
    ensures Count(chosen + kickers, (front + Ranks(kickers))[j]) >= (times + Repeated(1, |kickers|))[j]
  {
    var r := (front + Ranks(kickers))[j];
    CountAppend(chosen, kickers, r);
    if j >= |front| {
      assert Rank(kickers[j - |front|]) == r;
      CountPositive(kickers, r);
    }
  }

  // ---------------------------------------------------------------- the cases

  lemma HighCardBest(all: seq<Card>, groups: seq<seq<Card>>, rest: seq<Card>)
    requires OnlyGroups(all) && RankOrdered(all) && Grouped(all, groups, rest) && groups[2] == []
    ensures Best(TopDown(all, 5), all) && ScoreOf(TopDown(all, 5)).category == 0
  {
    hide Best, ScoreOf, OnlyGroups, Found, Exchanged, RankOrdered;
    GroupSizes(all, groups, rest);
    forall r ensures Count(all, r) <= 1 {
      if Count(all, r) >= 2 {
        GroupBounds(all, groups, rest, r);
      }
    }
    Unbeaten(all, groups, rest, 0);
    assert Pattern(0) == [] + Repeated(1, 5);
    assert multiset(all) == multiset([]) + multiset(all);
    ChosenBest(all, [], all, 0, [], [], 5);
    assert [] + TopDown(all, 5) == TopDown(all, 5);
  }

  /** The group with the highest kickers is best, its score led by the group's rank. */
  ghost predicate BestWithGroup(all: seq<Card>, a: seq<Card>, pool: seq<Card>) {
    && 0 < |a| <= 4
    && var hand := a + TopDown(pool, 5 - |a|);
    && Best(hand, all) && ScoreOf(hand).category == (if |a| == 4 then 7 else if |a| == 3 then 3 else 1)
    && ScoreOf(hand).key != [] && ScoreOf(hand).key[0] == Rank(a[0])
  }

  /** Four of a kind and three of a kind, and one pair, with their kickers. */
  lemma OneGroupBest(all: seq<Card>, groups: seq<seq<Card>>, rest: seq<Card>, pool: seq<Card>)
    requires OnlyGroups(all) && Grouped(all, groups, rest) && groups[2] != [] && PoolOf(all, groups[2], pool)
    requires |groups[2]| == 4 || (groups[1] == [] && pool == rest)
    ensures BestWithGroup(all, groups[2], pool)
  {
    var a := groups[2];
    hide Best, ScoreOf, Found, Exchanged, Count, NothingBetter, Pattern, GreedyAt, PoolOf;
    TopGroup(all, groups, rest);
    AtMostFour(all);
    var category := if |a| == 4 then 7 else if |a| == 3 then 3 else 1;
    var k := 5 - |a|;
    assert Pattern(category) == [|a|] + Repeated(1, k) by { OneGroupPattern(|a|); }
    Unbeaten(all, groups, rest, category);
    WholeRanks(all, groups, rest, 2);
    NotInPool(all, a, pool, [Rank(a[0])]);
    if |a| < 4 {
      forall r ensures Count(pool, r) <= 1 {
        RankIsGrouped(all, groups, rest, r);
      }
    }
    ChosenBest(all, a, pool, category, [|a|], [Rank(a[0])], k);
  }

  lemma OneGroupPattern(n: nat)
    requires 2 <= n <= 4
    ensures Pattern(if n == 4 then 7 else if n == 3 then 3 else 1) == [n] + Repeated(1, 5 - n)
  {
  }

  lemma WholeRanks(all: seq<Card>, groups: seq<seq<Card>>, rest: seq<Card>, k: nat)
    requires Found(all, groups, rest) && k < 3 && groups[k] != []
    ensures forall c | c in groups[k] :: Rank(c) == Rank(groups[k][0])
  {
    assert WholeGroup(all, groups[0]) && WholeGroup(all, groups[1]) && WholeGroup(all, groups[2]);
  }

  lemma TwoPairBest(all: seq<Card>, groups: seq<seq<Card>>, rest: seq<Card>, pool: seq<Card>, chosen: seq<Card>)
    requires OnlyGroups(all) && Grouped(all, groups, rest) && |groups[2]| == 2 && |groups[1]| == 2
    requires chosen == groups[1] + groups[2] && PoolOf(all, chosen, pool)
    ensures var hand := chosen + TopDown(pool, 1);
      && Best(hand, all) && ScoreOf(hand).category == 2 && |ScoreOf(hand).key| >= 2
      && ScoreOf(hand).key[0] == Rank(groups[2][0]) && ScoreOf(hand).key[1] == Rank(groups[1][0])
  {
    var a, b := groups[2], groups[1];
    hide Best, ScoreOf, Found, Exchanged, Count, NothingBetter, Pattern, PoolOf;
    TopGroup(all, groups, rest);
    NextGroup(all, groups, rest);
    var front := [Rank(a[0]), Rank(b[0])];
    TwoGreedy(all, 2, Rank(a[0]), Rank(b[0]));
    WholeRanks(all, groups, rest, 2);
    WholeRanks(all, groups, rest, 1);
    TwoGroupCounts(b, a, Rank(a[0]), Rank(b[0]));
    assert Pattern(2) == [2, 2] + Repeated(1, 1) by { TwoPairPattern(); }
    Unbeaten(all, groups, rest, 2);
    NotInPool(all, chosen, pool, front);
    ChosenBest(all, chosen, pool, 2, [2, 2], front, 1);
  }

  lemma TwoPairPattern()
    ensures Pattern(2) == [2, 2] + Repeated(1, 1)
  {
  }

  lemma TwoGreedy(all: seq<Card>, n: nat, p: int, q: int)
    requires GreedyAt(all, n, [p], 0) && GreedyAt(all, 2, [p, q], 1)
    ensures Greedy(all, [n, 2], [p, q])
  {
    GreedyLonger(all, n, [p], [p, q], 0);
  }

  lemma TwoGroupCounts(b: seq<Card>, a: seq<Card>, p: int, q: int)
    requires a != [] && b != [] && p == Rank(a[0]) != q == Rank(b[0])
    requires (forall c | c in a :: Rank(c) == p) && (forall c | c in b :: Rank(c) == q)
    ensures Count(b + a, p) == |a| && Count(b + a, q) == |b|
    ensures forall c | c in b + a :: Rank(c) in [p, q]
  {
    UniformCount(a, p);
    UniformCount(a, q);
    UniformCount(b, p);
    UniformCount(b, q);
    CountAppend(b, a, p);
    CountAppend(b, a, q);
    assert [p, q][0] == p && [p, q][1] == q;
  }

  /** Three of a kind and two cards of the next group. */
  lemma FullHouseBest(all: seq<Card>, groups: seq<seq<Card>>, rest: seq<Card>)
    requires OnlyGroups(all) && Grouped(all, groups, rest) && |groups[2]| == 3 && |groups[1]| >= 2
    ensures var hand := groups[2] + groups[1][..2];
      && Best(hand, all) && ScoreOf(hand).category == 6 && |ScoreOf(hand).key| >= 2
      && ScoreOf(hand).key[0] == Rank(groups[2][0]) && ScoreOf(hand).key[1] == Rank(groups[1][0])
  {
    hide Best, ScoreOf, Exchanged, Count, NothingBetter, Pattern, Singles, WholeGroup;
    var a, b := groups[2], groups[1];
    var two := b[..2];
    TopGroup(all, groups, rest);
    NextGroup(all, groups, rest);
    TwoGreedy(all, 3, Rank(a[0]), Rank(b[0]));
    WholeRanks(all, groups, rest, 2);
    WholeRanks(all, groups, rest, 1);
    TwoGroupCounts(a, two, Rank(two[0]), Rank(a[0]));
    assert Pattern(6) == [3, 2] by { FullHousePattern(); }
    Unbeaten(all, groups, rest, 6);
    assert b == two + b[2..];
    assert multiset(a + two) <= multiset(all);
    GreedyHandBest(a + two, all, 6, [Rank(a[0]), Rank(b[0])]);
  }

  lemma FullHousePattern()
    ensures Pattern(6) == [3, 2]
  {
  }
}
