/** The order of the groups, the kickers, and why a hand built from them has a
    greedy key. */
module PokerHands {
  import opened Wrappers
  import opened StdSort
  import opened PokerRanking
  import opened PokerBest
  import opened PokerStraight
  import opened PokerGroups

  // ---------------------------------------------------------------- order of groups

  /** Smaller, or as large and of no higher rank. */
  predicate AtMost(x: seq<Card>, y: seq<Card>) {
    |x| < |y| || (|x| == |y| && (x == [] || Rank(x[0]) <= Rank(y[0])))
  }

  ghost predicate Exchanged(groups: seq<seq<Card>>, i: nat, j: nat) {
    && |groups| == 3 && i <= 3 && j <= 3
    && (forall p, q | 0 <= p < i && p < q < 3 :: AtMost(groups[p], groups[q]))
    && (i < 3 ==> forall q | i < q < j :: AtMost(groups[i], groups[q]))
  }

  lemma ExchangeKeeps(groups: seq<seq<Card>>, i: nat, j: nat)
    requires i < j < 3 && Exchanged(groups, i, j)
    ensures AtMost(groups[i], groups[j]) ==> Exchanged(groups, i, j + 1)
    ensures AtMost(groups[j], groups[i]) ==> Exchanged(groups[i := groups[j]][j := groups[i]], i, j + 1)
  {
  }

  lemma FoundSwapped(all: seq<Card>, groups: seq<seq<Card>>, i: nat, j: nat, rest: seq<Card>)
    requires i < j < 3 && Found(all, groups, rest)
    ensures Found(all, groups[i := groups[j]][j := groups[i]], rest)
  {
    hide Singles, WholeGroup;
  }

  /** The groups by size, then by rank, best last. */
  method OrderGroups(all: seq<Card>, found: seq<seq<Card>>, ghost rest: seq<Card>) returns (groups: seq<seq<Card>>)
    requires Found(all, found, rest)
    ensures Found(all, groups, rest) && Exchanged(groups, 3, 3)
  {
    groups := found;
    assert Exchanged(groups, 0, 1);
    hide *;
    var i := 0;
    while i < 3
      invariant i <= 3
      invariant Found(all, groups, rest) && Exchanged(groups, i, if i < 3 then i + 1 else 3)
    {
      groups := PutSmallest(all, groups, i, rest);
      i := i + 1;
    }
  }

  /** The inner loop: the least of the groups from `i` on comes to place `i`. */
  method PutSmallest(all: seq<Card>, found: seq<seq<Card>>, i: nat, ghost rest: seq<Card>)
    returns (groups: seq<seq<Card>>)
    requires i < 3 && Found(all, found, rest) && Exchanged(found, i, i + 1)
    ensures Found(all, groups, rest) && Exchanged(groups, i + 1, if i + 1 < 3 then i + 2 else 3)
  {
    hide Found;
    groups := found;
    var j := i + 1;
    while j < 3
      invariant i < j <= 3 && |groups| == 3
      invariant Found(all, groups, rest) && Exchanged(groups, i, j)
    {
      ExchangeKeeps(groups, i, j);
      if |groups[j]| < |groups[i]| || groups[j] == []
         || (|groups[j]| == |groups[i]| && Rank(groups[j][0]) < Rank(groups[i][0])) {
        FoundSwapped(all, groups, i, j, rest);
        groups := groups[i := groups[j]][j := groups[i]];
      }
      j := j + 1;
    }
  }

  // ---------------------------------------------------------------- the list of the others

  lemma {:induction false} CompactMultiset(helper: seq<Option<Card>>, c: Card)
    ensures multiset(Compact(helper))[c] == multiset(helper)[Some(c)]
  {
    if helper != [] {
      assert helper == [helper[0]] + helper[1..];
      assert multiset(helper) == multiset{helper[0]} + multiset(helper[1..]);
      CompactMultiset(helper[1..], c);
    }
  }

  ghost predicate NoNulls(helper: seq<Option<Card>>) {
    forall k | 0 <= k < |helper| :: helper[k].Some?
  }

  lemma {:induction false} CompactFull(helper: seq<Option<Card>>)
    requires NoNulls(helper)
    ensures |Compact(helper)| == |helper| && forall k | 0 <= k < |helper| :: Compact(helper)[k] == helper[k].value
  {
    if helper != [] {
      CompactFull(helper[1..]);
    }
  }

  lemma CompactWithout(helper: seq<Option<Card>>, i: nat)
    requires i < |helper| && helper[i].None?
    ensures Compact(helper[..i] + helper[i + 1..]) == Compact(helper)
  {
    assert helper == helper[..i] + ([helper[i]] + helper[i + 1..]);
    CompactAppend(helper[..i], [helper[i]] + helper[i + 1..]);
    CompactAppend(helper[..i], helper[i + 1..]);
  }

  /** Nulls are erased one by one, each time starting over. */
  method ClearNulls(list: seq<Option<Card>>) returns (helper: seq<Option<Card>>)
    ensures NoNulls(helper) && Compact(helper) == Compact(list)
  {
    helper := list;
    var i := 0;
    while i < |helper|
      invariant i <= |helper| && Compact(helper) == Compact(list)
      invariant forall k | 0 <= k < i :: helper[k].Some?
      decreases |helper|, |helper| - i
    {
      if helper[i].None? {
        CompactWithout(helper, i);
        helper := helper[..i] + helper[i + 1..];
        i := 0;
      } else {
        i := i + 1;
      }
    }
  }

  function OptionRank(o: Option<Card>): int {
    if o.Some? then Rank(o.value) else 0
  }

  /** Cards added to the list, nulls cleared, the rest sorted. */
  method Restore(list: seq<Option<Card>>) returns (helper: seq<Option<Card>>)
    ensures RankOrdered(Compact(helper)) && multiset(Compact(helper)) == multiset(Compact(list))
  {
    var full := ClearNulls(list);
    helper := Sort(full, OptionRank);
    SortedList(full, helper);
  }

  lemma SortedList(full: seq<Option<Card>>, helper: seq<Option<Card>>)
    requires NoNulls(full) && multiset(helper) == multiset(full) && Ascending(helper, OptionRank)
    ensures RankOrdered(Compact(helper)) && multiset(Compact(helper)) == multiset(Compact(full))
  {
    forall k | 0 <= k < |helper| ensures helper[k].Some? {
      assert helper[k] in multiset(helper);
      assert helper[k] in full;
    }
    CompactFull(helper);
    forall i, j | 0 <= i < j < |helper| ensures Rank(Compact(helper)[i]) <= Rank(Compact(helper)[j]) {
      assert OptionRank(helper[i]) <= OptionRank(helper[j]);
    }
    forall c ensures multiset(Compact(helper))[c] == multiset(Compact(full))[c] {
      CompactMultiset(helper, c);
      CompactMultiset(full, c);
    }
  }

  // ---------------------------------------------------------------- kickers

  /** The last `k` cards of the pool, the last one first. */
  function TopDown(pool: seq<Card>, k: nat): (r: seq<Card>) {
    if k == 0 || pool == [] then [] else [pool[|pool| - 1]] + TopDown(pool[..|pool| - 1], k - 1)
  }

  lemma {:induction false} TopDownIs(pool: seq<Card>, k: nat)
    requires k <= |pool|
    ensures |TopDown(pool, k)| == k && forall j | 0 <= j < k :: TopDown(pool, k)[j] == pool[|pool| - 1 - j]
  {
    if k > 0 {
      TopDownIs(pool[..|pool| - 1], k - 1);
    }
  }

  lemma {:induction false} TopDownWithin(pool: seq<Card>, k: nat)
    ensures multiset(TopDown(pool, k)) <= multiset(pool)
  {
    if k > 0 && pool != [] {
      var top, low := pool[|pool| - 1], pool[..|pool| - 1];
      TopDownWithin(low, k - 1);
      assert pool == low + [top];
      assert TopDown(pool, k) == [top] + TopDown(low, k - 1);
      OneMore(TopDown(low, k - 1), low, top);
    }
  }

  lemma OneMore(some: seq<Card>, low: seq<Card>, top: Card)
    requires multiset(some) <= multiset(low)
    ensures multiset([top] + some) <= multiset(low + [top])
  {
  }

  /** Cards from the end of the pool are added until the hand is full. */
  function Filled(hand: seq<Card>, pool: seq<Card>): seq<Card>
    decreases |pool|
  {
    if |hand| >= 5 || pool == [] then hand else Filled(hand + [pool[|pool| - 1]], pool[..|pool| - 1])
  }

  lemma Reassociate(a: seq<Card>, v: Card, b: seq<Card>)
    ensures (a + [v]) + b == a + ([v] + b)
  {
  }

  lemma {:induction false} FilledIs(hand: seq<Card>, pool: seq<Card>)
    requires |hand| <= 5
    ensures Filled(hand, pool) == hand + TopDown(pool, 5 - |hand|)
    decreases |pool|
  {
    if |hand| < 5 && pool != [] {
      var top, low := pool[|pool| - 1], pool[..|pool| - 1];
      FilledIs(hand + [top], low);
      Reassociate(hand, top, TopDown(low, 4 - |hand|));
    }
  }

  lemma CompactTake(helper: seq<Option<Card>>, i: nat)
    requires i < |helper|
    ensures Compact(helper[..i + 1]) ==
      if helper[i].Some? then Compact(helper[..i]) + [helper[i].value] else Compact(helper[..i])
  {
    assert helper[..i + 1] == helper[..i] + [helper[i]];
    CompactAppend(helper[..i], [helper[i]]);
    assert Compact([helper[i]]) == if helper[i].Some? then [helper[i].value] else [];
  }

  lemma FillStep(helper: seq<Option<Card>>, i: nat, hand: seq<Card>)
    requires i < |helper| && |hand| < 5
    ensures Filled(hand, Compact(helper[..i + 1]))
         == Filled(if helper[i].Some? then hand + [helper[i].value] else hand, Compact(helper[..i]))
  {
    hide Compact;
    CompactTake(helper, i);
    if helper[i].Some? {
      var low := Compact(helper[..i]);
      assert (low + [helper[i].value])[..|low|] == low;
    }
  }

  /** Cards still there are taken from the end of the list until the hand is full. */
  method FillUp(hand: seq<Card>, helper: seq<Option<Card>>) returns (full: seq<Card>)
    requires |hand| < 5
    ensures full == hand + TopDown(Compact(helper), 5 - |hand|)
  {
    full := hand;
    var i := |helper|;
    assert helper[..i] == helper;
    FilledIs(hand, Compact(helper));
    while i > 0 && |full| < 5
      invariant i <= |helper| && |full| <= 5
      invariant Filled(full, Compact(helper[..i])) == Filled(hand, Compact(helper))
    {
      i := i - 1;
      FillStep(helper, i, full);
      if helper[i].Some? {
        full := full + [helper[i].value];
      }
    }
  }

  // ---------------------------------------------------------------- greedy keys

  /** What is left when the chosen cards are taken, in ascending order. */
  ghost predicate PoolOf(all: seq<Card>, chosen: seq<Card>, pool: seq<Card>) {
    RankOrdered(pool) && multiset(all) == multiset(chosen) + multiset(pool)
  }

  lemma PoolCounts(all: seq<Card>, chosen: seq<Card>, pool: seq<Card>, r: int)
    requires PoolOf(all, chosen, pool)
    ensures Count(all, r) == Count(chosen, r) + Count(pool, r)
  {
    CountPermutation(all, chosen + pool, r);
    CountAppend(chosen, pool, r);
  }

  function Ranks(cards: seq<Card>): (r: seq<int>)
    ensures |r| == |cards|
  {
    seq(|cards|, i requires 0 <= i < |cards| => Rank(cards[i]))
  }

  /** The pool's highest ranks extend a greedy key. */
  lemma GreedyKickers(all: seq<Card>, chosen: seq<Card>, pool: seq<Card>, times: seq<nat>, front: seq<int>, k: nat)
    requires PoolOf(all, chosen, pool) && Greedy(all, times, front) && k <= |pool|
    requires (forall c | c in chosen :: Rank(c) in front) && (forall c | c in pool :: Rank(c) !in front)
    requires k <= 1 || forall r :: Count(pool, r) <= 1
    ensures Greedy(all, times + Repeated(1, k), front + Ranks(TopDown(pool, k)))
  {
    hide Count, PoolOf, Rank, TopDown, GreedyAt;
    var key, allTimes := front + Ranks(TopDown(pool, k)), times + Repeated(1, k);
    TopDownIs(pool, k);
    forall j | |front| <= j < |key| ensures key[j] == Rank(pool[|pool| - 1 - (j - |front|)]) {
    }
    forall j | 0 <= j < |key| ensures GreedyAt(all, allTimes[j], key, j) {
      if j < |front| {
        GreedyLonger(all, times[j], front, key, j);
      } else {
        assert allTimes[j] == 1;
        Kicker(all, chosen, pool, front, key, k, j - |front|);
      }
    }
  }

  lemma GreedyLonger(all: seq<Card>, n: nat, front: seq<int>, key: seq<int>, j: nat)
    requires GreedyAt(all, n, front, j) && front <= key
    ensures GreedyAt(all, n, key, j)
  {
    assert key[..j] == front[..j];
  }

  lemma Kicker(all: seq<Card>, chosen: seq<Card>, pool: seq<Card>, front: seq<int>, key: seq<int>, k: nat, d: nat)
    requires PoolOf(all, chosen, pool) && d < k <= |pool| && |key| == |front| + k && front == key[..|front|]
    requires forall j | |front| <= j < |key| :: key[j] == Rank(pool[|pool| - 1 - (j - |front|)])
    requires (forall c | c in chosen :: Rank(c) in front) && (forall c | c in pool :: Rank(c) !in front)
    requires k <= 1 || forall r :: Count(pool, r) <= 1
    ensures GreedyAt(all, 1, key, |front| + d)
  {
    hide Count, PoolOf, Rank;
    var j := |front| + d;
    var at := |pool| - 1 - d;
    assert key[j] == Rank(pool[at]);
    CountPositive(pool, key[j]);
    PoolCounts(all, chosen, pool, key[j]);
    if i :| 0 <= i < j && key[i] == key[j] {
      if i < |front| {
        assert false;
      } else {
        TwoOfARank(pool, at, |pool| - 1 - (i - |front|));
      }
    }
    forall r | r !in key[..j] && Count(all, r) >= 1 ensures r <= key[j] {
      NotAbove(all, chosen, pool, front, key, d, r);
    }
  }

  lemma NotAbove(all: seq<Card>, chosen: seq<Card>, pool: seq<Card>, front: seq<int>, key: seq<int>, d: nat, r: int)
    requires PoolOf(all, chosen, pool) && d < |pool| && |front| + d < |key| && front == key[..|front|]
    requires forall j | |front| <= j <= |front| + d :: key[j] == Rank(pool[|pool| - 1 - (j - |front|)])
    requires forall c | c in chosen :: Rank(c) in front
    requires r !in key[..|front| + d] && Count(all, r) >= 1
    ensures r <= key[|front| + d]
  {
    PoolCounts(all, chosen, pool, r);
    NotChosen(chosen, front, key, |front| + d, r);
    CountPositive(pool, r);
    hide Count, Rank;
    var p :| 0 <= p < |pool| && Rank(pool[p]) == r;
    if p > |pool| - 1 - d {
      InPrefix(key, |front| + d, |front| + (|pool| - 1 - p));
    } else {
      LowerInPool(pool, p, |pool| - 1 - d);
    }
  }

  lemma LowerInPool(pool: seq<Card>, p: nat, q: nat)
    requires RankOrdered(pool) && p <= q < |pool|
    ensures Rank(pool[p]) <= Rank(pool[q])
  {
  }

  lemma NotChosen(chosen: seq<Card>, front: seq<int>, key: seq<int>, j: nat, r: int)
    requires |front| <= j <= |key| && front == key[..|front|] && r !in key[..j]
    requires forall c | c in chosen :: Rank(c) in front
    ensures Count(chosen, r) == 0
  {
    CountPositive(chosen, r);
    if x :| 0 <= x < |chosen| && Rank(chosen[x]) == r {
      RankInFront(chosen, front, key, j, x);
    }
  }

  lemma RankInFront(chosen: seq<Card>, front: seq<int>, key: seq<int>, j: nat, x: nat)
    requires x < |chosen| && |front| <= j <= |key| && front == key[..|front|]
    requires forall c | c in chosen :: Rank(c) in front
    ensures Rank(chosen[x]) in key[..j]
  {
    assert chosen[x] in chosen;
    var y :| 0 <= y < |front| && front[y] == Rank(chosen[x]);
    InPrefix(key, j, y);
  }

  lemma InPrefix(key: seq<int>, j: nat, y: nat)
    requires y < j <= |key|
    ensures key[y] in key[..j]
  {
    assert key[..j][y] == key[y];
  }

  lemma TwoOfARank(cards: seq<Card>, i: nat, j: nat)
    requires i < j < |cards| && Rank(cards[i]) == Rank(cards[j])
    ensures Count(cards, Rank(cards[i])) >= 2
  {
    var r := Rank(cards[i]);
    CountRemove(cards, j, r);
    var w := Without(cards, j);
    assert w[i] == cards[i];
    CountPositive(w, r);
  }

  // ---------------------------------------------------------------- scores

  lemma CountsWithin(hand: seq<Card>, ranks: seq<int>)
    requires Different(ranks)
    ensures SumCounts(hand, ranks) <= |hand|
  {
    Surplus([], hand, ranks);
    NoneCounted(ranks);
  }

  function Sum(times: seq<nat>): nat {
    if times == [] then 0 else times[0] + Sum(times[1..])
  }

  lemma {:induction false} SumCountsAtLeast(hand: seq<Card>, ranks: seq<int>, times: seq<nat>)
    requires |ranks| == |times| && forall j | 0 <= j < |ranks| :: Count(hand, ranks[j]) >= times[j]
    ensures SumCounts(hand, ranks) >= Sum(times)
    ensures SumCounts(hand, ranks) == Sum(times) ==> forall j | 0 <= j < |ranks| :: Count(hand, ranks[j]) == times[j]
  {
    if ranks != [] {
      SumCountsAtLeast(hand, ranks[1..], times[1..]);
      if SumCounts(hand, ranks) == Sum(times) {
        forall j | 0 <= j < |ranks| ensures Count(hand, ranks[j]) == times[j] {
          if j > 0 {
            assert ranks[1..][j - 1] == ranks[j] && times[1..][j - 1] == times[j];
          }
        }
      }
    }
  }

  lemma {:induction false} SumCountsAppend(hand: seq<Card>, ranks: seq<int>, r: int)
    ensures SumCounts(hand, ranks + [r]) == SumCounts(hand, ranks) + Count(hand, r)
  {
    if ranks == [] {
      assert [] + [r] == [r] && [r][1..] == [];
    } else {
      assert (ranks + [r])[1..] == ranks[1..] + [r];
      SumCountsAppend(hand, ranks[1..], r);
    }
  }

  /** A hand that offers a key of as many cards as it has holds just that. */
  lemma ExactCounts(hand: seq<Card>, times: seq<nat>, key: seq<int>)
    requires Different(key) && |key| == |times| && Sum(times) == |hand|
    requires forall j | 0 <= j < |key| :: Count(hand, key[j]) >= times[j]
    ensures forall j | 0 <= j < |key| :: Count(hand, key[j]) == times[j]
    ensures forall r | r !in key :: Count(hand, r) == 0
  {
    CountsWithin(hand, key);
    SumCountsAtLeast(hand, key, times);
    forall r | r !in key ensures Count(hand, r) == 0 {
      assert Different(key + [r]);
      CountsWithin(hand, key + [r]);
      SumCountsAppend(hand, key, r);
    }
  }

  lemma SumFrom(times: seq<nat>, k: nat)
    requires k < |times|
    ensures Sum(times[k..]) == times[k] + Sum(times[k + 1..])
  {
    assert times[k..][1..] == times[k + 1..];
  }

  lemma PatternSum(category: nat)
    ensures Sum(Pattern(category)) == 5
  {
    var t := Pattern(category);
    assert t[0..] == t && t[|t|..] == [];
    SumFrom(t, 0);
    SumFrom(t, 1);
    if |t| > 2 { SumFrom(t, 2); }
    if |t| > 3 { SumFrom(t, 3); }
    if |t| > 4 { SumFrom(t, 4); }
  }

  /** Ranks taken greedily are different, and descend where they are taken for the
      same number of cards. */
  lemma GreedyDescends(cards: seq<Card>, times: seq<nat>, key: seq<int>)
    requires Greedy(cards, times, key) && forall j | 0 <= j < |key| :: 2 <= key[j] <= 14
    ensures Different(key)
    ensures forall i, j | 0 <= i < j < |key| && times[i] == times[j] :: key[i] > key[j]
  {
    forall i, j | 0 <= i < j < |key| ensures key[i] != key[j] {
      assert GreedyAt(cards, times[j], key, j);
      InPrefix(key, j, i);
    }
    forall i, j | 0 <= i < j < |key| && times[i] == times[j] ensures key[i] > key[j] {
      assert GreedyAt(cards, times[i], key, i) && GreedyAt(cards, times[j], key, j);
      assert key[..i] == key[..j][..i];
    }
  }

  lemma KeyRanks(cards: seq<Card>, times: seq<nat>, key: seq<int>)
    requires Pack(cards) && Greedy(cards, times, key) && forall j | 0 <= j < |times| :: times[j] >= 1
    ensures forall j | 0 <= j < |key| :: 2 <= key[j] <= 14
  {
    forall j | 0 <= j < |key| ensures 2 <= key[j] <= 14 {
      assert GreedyAt(cards, times[j], key, j);
      if !(2 <= key[j] <= 14) {
        NoOtherRanks(cards, key[j]);
      }
    }
  }

  /** The ranks of a key taken for `n` cards each, when these stand together. */
  lemma KeyGroup(hand: seq<Card>, times: seq<nat>, key: seq<int>, n: nat, from: nat, to: nat)
    requires from <= to <= |key| == |times| && n > 0
    requires forall j | 0 <= j < |key| :: 2 <= key[j] <= 14 && Count(hand, key[j]) == times[j]
    requires forall r | r !in key :: Count(hand, r) == 0
    requires forall i, j | 0 <= i < j < |key| && times[i] == times[j] :: key[i] > key[j]
    requires forall j | 0 <= j < |key| :: times[j] == n <==> from <= j < to
    ensures Groups(hand, n, 14) == key[from..to]
  {
    var part := key[from..to];
    forall i, j | 0 <= i < j < |part| ensures part[i] > part[j] {
      assert part[i] == key[from + i] && part[j] == key[from + j];
    }
    forall r ensures r in part <==> 2 <= r <= 14 && Count(hand, r) == n {
      if r in part {
        var x :| 0 <= x < |part| && part[x] == r;
        assert key[from + x] == r;
      }
      if Count(hand, r) == n {
        assert r in key;
        var x :| 0 <= x < |key| && key[x] == r;
        assert part[x - from] == r;
      }
    }
    GroupIs(hand, n, part);
  }

  /** Where the fours, threes, pairs and singles of a pattern stand. */
  function Bounds(category: nat): (nat, nat, nat, nat) {
    if category == 7 then (1, 1, 1, 2)
    else if category == 6 then (0, 1, 2, 2)
    else if category == 3 then (0, 1, 1, 3)
    else if category == 2 then (0, 0, 2, 3)
    else if category == 1 then (0, 0, 1, 4)
    else (0, 0, 0, 5)
  }

  lemma PatternBounds(category: nat)
    ensures var (a, b, c, d) := Bounds(category);
      var t := Pattern(category);
      && a <= b <= c <= d == |t|
      && (forall j | 0 <= j < d :: t[j] == 4 <==> 0 <= j < a) && (forall j | 0 <= j < d :: t[j] == 3 <==> a <= j < b)
      && (forall j | 0 <= j < d :: t[j] == 2 <==> b <= j < c) && (forall j | 0 <= j < d :: t[j] == 1 <==> c <= j < d)
  {
  }

  /** What a hand holds of a greedy key: just the counts of its pattern. */
  lemma KeyCounts(hand: seq<Card>, cards: seq<Card>, category: nat, key: seq<int>)
    requires Pack(cards) && |hand| == 5 && Greedy(cards, Pattern(category), key)
    requires forall j | 0 <= j < |key| :: Count(hand, key[j]) >= Pattern(category)[j]
    ensures |key| == |Pattern(category)|
    ensures forall j | 0 <= j < |key| :: 2 <= key[j] <= 14 && Count(hand, key[j]) == Pattern(category)[j]
    ensures forall r | r !in key :: Count(hand, r) == 0
    ensures forall i, j | 0 <= i < j < |key| && Pattern(category)[i] == Pattern(category)[j] :: key[i] > key[j]
  {
    var times := Pattern(category);
    GreedyLength(cards, times, key);
    PatternBounds(category);
    PatternSum(category);
    hide Count, Pattern, Bounds, Greedy, Different;
    KeyRanks(cards, times, key);
    GreedyDescends(cards, times, key);
    ExactCounts(hand, times, key);
  }

  /** A hand that holds a greedy key has that key. */
  lemma KeyOfHand(hand: seq<Card>, cards: seq<Card>, category: nat, key: seq<int>)
    requires Pack(cards) && |hand| == 5 && Greedy(cards, Pattern(category), key)
    requires forall j | 0 <= j < |key| :: Count(hand, key[j]) >= Pattern(category)[j]
    ensures GroupKey(hand) == key
    ensures var (a, b, c, d) := Bounds(category);
      |Groups(hand, 4, 14)| == a && |Groups(hand, 3, 14)| == b - a && |Groups(hand, 2, 14)| == c - b
  {
    hide Groups, Count, Pattern, Bounds, Greedy, Different;
    var times := Pattern(category);
    var (a, b, c, d) := Bounds(category);
    PatternBounds(category);
    KeyCounts(hand, cards, category, key);
    KeyGroup(hand, times, key, 4, 0, a);
    KeyGroup(hand, times, key, 3, a, b);
    KeyGroup(hand, times, key, 2, b, c);
    KeyGroup(hand, times, key, 1, c, d);
    CutInFour(key, a, b, c, d);
  }

  lemma CutInFour(key: seq<int>, a: nat, b: nat, c: nat, d: nat)
    requires a <= b <= c <= d == |key|
    ensures key == key[0..a] + key[a..b] + key[b..c] + key[c..d]
  {
  }

  lemma GreedyLength(cards: seq<Card>, times: seq<nat>, key: seq<int>)
    requires Greedy(cards, times, key)
    ensures |key| == |times|
  {
  }

  /** A hand that holds the greedy key of its pattern is best, when there is no
      straight, no flush, and nothing for a better pattern. */
  lemma GreedyHandBest(hand: seq<Card>, cards: seq<Card>, category: nat, key: seq<int>)
    requires Pack(cards) && Drawn(hand, cards)
    requires StraightTop(cards, 14) == 0 && forall s :: |Suited(cards, s)| < 5
    requires category in {7, 6, 3, 2, 1, 0} && NothingBetter(cards, category)
    requires Greedy(cards, Pattern(category), key)
    requires forall j | 0 <= j < |key| :: Count(hand, key[j]) >= Pattern(category)[j]
    ensures Best(hand, cards) && ScoreOf(hand) == Score(category, key)
  {
    assert ScoreOf(hand) == Score(category, key) by {
      hide Groups, Count, Pattern, Greedy, NothingBetter, Pack, Suited;
      KeyOfHand(hand, cards, category, key);
      StraightMono(hand, cards);
      NoFlushDrawn(hand, cards);
      StraightTopIs(hand, 14);
    }
    GroupsBest(hand, cards, category, key);
  }
}
