/** `PK`: two players' hands compared by type, by the ranks of their groups, and
    then card by card over the whole sorted hands. */
module PokerCompare {
  import opened PokerRanking
  import opened PokerBest
  import opened PokerStraight
  import opened PokerHands
  import opened PokerChoice
  import opened PokerEvaluator

  // ---------------------------------------------------------------- scores are ordered

  lemma {:induction false} LexAntisymmetric(a: seq<int>, b: seq<int>)
    ensures Lex(a, b) == -Lex(b, a) && -1 <= Lex(a, b) <= 1
    ensures Lex(a, b) == 0 <==> a == b
  {
    if a != [] && b != [] && a[0] == b[0] {
      LexAntisymmetric(a[1..], b[1..]);
      assert a == [a[0]] + a[1..] && b == [b[0]] + b[1..];
    }
  }

  lemma {:induction false} LexTransitive(a: seq<int>, b: seq<int>, c: seq<int>)
    requires Lex(a, b) >= 0 && Lex(b, c) >= 0
    ensures Lex(a, c) >= 0
  {
    if a != [] && b != [] && c != [] && a[0] == b[0] == c[0] {
      LexTransitive(a[1..], b[1..], c[1..]);
    }
  }

  /** The comparison of scores is a total order. */
  lemma CompareIsOrder(x: Score, y: Score, z: Score)
    ensures Compare(x, y) == -Compare(y, x) && (Compare(x, y) == 0 <==> x == y)
    ensures Compare(x, y) >= 0 && Compare(y, z) >= 0 ==> Compare(x, z) >= 0
  {
    LexAntisymmetric(x.key, y.key);
    if Compare(x, y) >= 0 && Compare(y, z) >= 0 && x.category == y.category == z.category {
      LexTransitive(x.key, y.key, z.key);
    }
  }

  /** All best hands of the same cards have one score. */
  lemma BestIsUnique(h: seq<Card>, g: seq<Card>, all: seq<Card>, all': seq<Card>)
    requires Best(h, all) && Best(g, all') && multiset(all) == multiset(all')
    ensures ScoreOf(h) == ScoreOf(g)
  {
    hide ScoreOf, Compare;
    assert Drawn(g, all) && Drawn(h, all');
    assert Compare(ScoreOf(h), ScoreOf(g)) >= 0 && Compare(ScoreOf(g), ScoreOf(h)) >= 0;
    CompareIsOrder(ScoreOf(h), ScoreOf(g), ScoreOf(h));
  }

  // ---------------------------------------------------------------- card by card

  /** The last cards decide, then the ones before them. */
  function TopCompare(a: seq<Card>, b: seq<Card>): int
    requires |a| == |b|
  {
    if a == [] then 0
    else
      var x, y := Rank(a[|a| - 1]), Rank(b[|b| - 1]);
      if x > y then 1 else if x < y then -1 else TopCompare(a[..|a| - 1], b[..|b| - 1])
  }

  /** The highest rank held by one hand more often than by the other decides. */
  function Decide(a: seq<Card>, b: seq<Card>, top: nat): int {
    if top < 2 then 0
    else if Count(a, top) > Count(b, top) then 1
    else if Count(a, top) < Count(b, top) then -1
    else Decide(a, b, top - 1)
  }

  /** The same card taken from both hands changes nothing. */
  lemma {:induction false} DecideCancels(a: seq<Card>, b: seq<Card>, a': seq<Card>, b': seq<Card>, top: nat)
    requires forall r :: Count(a, r) - Count(a', r) == Count(b, r) - Count(b', r)
    ensures Decide(a, b, top) == Decide(a', b', top)
  {
    if top >= 2 {
      assert Count(a, top) - Count(a', top) == Count(b, top) - Count(b', top);
      DecideCancels(a, b, a', b', top - 1);
    }
  }

  lemma {:induction false} NotAboveLast(cards: seq<Card>, r: int)
    requires RankOrdered(cards) && cards != [] && r > Rank(cards[|cards| - 1])
    ensures Count(cards, r) == 0
  {
    CountPositive(cards, r);
  }

  lemma LastCount(cards: seq<Card>, r: int)
    requires cards != []
    ensures Count(cards, r) == Count(cards[..|cards| - 1], r) + (if Rank(cards[|cards| - 1]) == r then 1 else 0)
  {
    CountRemove(cards, |cards| - 1, r);
    assert Without(cards, |cards| - 1) == cards[..|cards| - 1];
  }

  /** Comparing sorted hands card by card from the top is deciding by the highest
      rank held unequally often. */
  lemma {:induction false} TopCompareDecides(a: seq<Card>, b: seq<Card>, top: nat)
    requires |a| == |b| && RankOrdered(a) && RankOrdered(b)
    requires forall c | c in a || c in b :: 2 <= Rank(c) <= top
    ensures TopCompare(a, b) == Decide(a, b, top)
    decreases |a|, top
  {
    if a == [] {
      BothEmpty(a, b, top);
    } else {
      var x, y := a[|a| - 1], b[|b| - 1];
      assert x in a && y in b;
      if Rank(x) == Rank(y) {
        var a', b' := a[..|a| - 1], b[..|b| - 1];
        forall r ensures Count(a, r) - Count(a', r) == Count(b, r) - Count(b', r) {
          LastCount(a, r);
          LastCount(b, r);
        }
        DecideCancels(a, b, a', b', top);
        TopCompareDecides(a', b', top);
      } else {
        LastDecides(a, b, top);
      }
    }
  }

  lemma {:induction false} BothEmpty(a: seq<Card>, b: seq<Card>, top: nat)
    requires a == [] == b
    ensures Decide(a, b, top) == 0
  {
    if top >= 2 {
      BothEmpty(a, b, top - 1);
    }
  }

  lemma {:induction false} LastDecides(a: seq<Card>, b: seq<Card>, top: nat)
    requires a != [] && b != [] && RankOrdered(a) && RankOrdered(b)
    requires 2 <= Rank(a[|a| - 1]) <= top && 2 <= Rank(b[|b| - 1]) <= top
    ensures Rank(a[|a| - 1]) > Rank(b[|b| - 1]) ==> Decide(a, b, top) == 1
    ensures Rank(a[|a| - 1]) < Rank(b[|b| - 1]) ==> Decide(a, b, top) == -1
  {
    var x, y := Rank(a[|a| - 1]), Rank(b[|b| - 1]);
    if x != y {
      CountPositive(a, x);
      CountPositive(b, y);
      if x < top { NotAboveLast(a, top); }
      if y < top { NotAboveLast(b, top); }
      if x < top && y < top {
        LastDecides(a, b, top - 1);
      }
    }
  }

  // ---------------------------------------------------------------- keys

  lemma {:induction false} BelowTop(cards: seq<Card>, n: nat, top: nat)
    ensures Groups(cards, n, top) != [] ==> Groups(cards, n, top)[0] <= top
  {
    GroupsMembers(cards, n, top);
    if Groups(cards, n, top) != [] {
      assert Groups(cards, n, top)[0] in Groups(cards, n, top);
    }
  }

  lemma GroupsStep(cards: seq<Card>, n: nat, top: nat)
    requires top >= 2
    ensures Groups(cards, n, top) ==
      if Count(cards, top) == n then [top] + Groups(cards, n, top - 1) else Groups(cards, n, top - 1)
  {
  }

  lemma LexFirst(x: int, p: seq<int>, q: seq<int>)
    requires q != [] ==> q[0] < x
    ensures Lex([x] + p, q) == 1 && Lex(q, [x] + p) == -1
  {
  }

  /** When ranks held more than once are held alike, the single ranks decide. */
  lemma {:induction false} SinglesDecide(a: seq<Card>, b: seq<Card>, top: nat)
    requires forall r :: Count(a, r) >= 2 || Count(b, r) >= 2 ==> Count(a, r) == Count(b, r)
    ensures Lex(Groups(a, 1, top), Groups(b, 1, top)) == Decide(a, b, top)
  {
    hide Count, Groups, Lex;
    if top < 2 {
      assert Lex([], []) == 0 by { LexAntisymmetric([], []); }
      NoGroups(a, top);
      NoGroups(b, top);
    } else {
      var p, q := Groups(a, 1, top - 1), Groups(b, 1, top - 1);
      GroupsStep(a, 1, top);
      GroupsStep(b, 1, top);
      if Count(a, top) == Count(b, top) {
        SinglesDecide(a, b, top - 1);
        LexPrefix([top], p, q);
      } else {
        BelowTop(a, 1, top - 1);
        BelowTop(b, 1, top - 1);
        LexFirst(top, p, q);
        LexFirst(top, q, p);
      }
    }
  }

  lemma NoGroups(cards: seq<Card>, top: nat)
    requires top < 2
    ensures Groups(cards, 1, top) == []
  {
  }

  lemma {:induction false} LexPrefix(front: seq<int>, a: seq<int>, b: seq<int>)
    ensures Lex(front + a, front + b) == Lex(a, b)
  {
    if front == [] {
      assert [] + a == a && [] + b == b;
    } else {
      assert (front + a)[1..] == front[1..] + a && (front + b)[1..] == front[1..] + b;
      LexPrefix(front[1..], a, b);
    }
  }

  /** How many ranks of the key come from fours, threes and pairs. */
  function Leads(category: nat): nat {
    if category in {7, 3, 1} then 1 else if category in {6, 2} then 2 else 0
  }

  function Lead(hand: seq<Card>): seq<int> {
    Groups(hand, 4, 14) + Groups(hand, 3, 14) + Groups(hand, 2, 14)
  }

  /** The numbers of fours, threes and pairs of a hand, by category. */
  lemma Shape(hand: seq<Card>)
    requires Pack(hand) && |hand| == 5
    ensures var s := ScoreOf(hand);
      s.category !in {8, 4} ==>
        && s.key == Lead(hand) + Groups(hand, 1, 14) && |Lead(hand)| == Leads(s.category)
        && |Groups(hand, 4, 14)| == (if s.category == 7 then 1 else 0)
        && |Groups(hand, 3, 14)| == (if s.category in {6, 3} then 1 else 0)
  {
    hide Groups, Pack, StraightTop, IsFlush;
    GroupCounts(hand);
    if IsFlush(hand) {
      FlushHasNoPairs(hand);
      SinglesOnly(hand);
    }
  }

  lemma {:induction false} SplitEqual(a: seq<int>, b: seq<int>, c: seq<int>, d: seq<int>)
    requires |a| == |c| && a + b == c + d
    ensures a == c && b == d
  {
    assert (a + b)[..|a|] == a && (c + d)[..|c|] == c;
    assert (a + b)[|a|..] == b && (c + d)[|c|..] == d;
  }

  lemma HeldOften(hand: seq<Card>, r: int)
    requires Pack(hand)
    ensures Count(hand, r) >= 2 ==> r in Groups(hand, Count(hand, r), 14) && Count(hand, r) <= 4
  {
    AtMostFour(hand);
    GroupsMembers(hand, Count(hand, r), 14);
    if !(2 <= r <= 14) {
      NoOtherRanks(hand, r);
    }
  }

  lemma SameOften(a: seq<Card>, b: seq<Card>, r: int)
    requires Pack(a) && Count(a, r) >= 2
    requires Groups(a, 4, 14) == Groups(b, 4, 14) && Groups(a, 3, 14) == Groups(b, 3, 14)
    requires Groups(a, 2, 14) == Groups(b, 2, 14)
    ensures Count(b, r) == Count(a, r)
  {
    HeldOften(a, r);
    GroupsMembers(b, Count(a, r), 14);
  }

  /** Hands of one category with the same groups are compared by whole hands. */
  lemma LeadThenSingles(a: seq<Card>, b: seq<Card>)
    requires Pack(a) && Pack(b) && |a| == |b| == 5
    requires ScoreOf(a).category == ScoreOf(b).category && ScoreOf(a).category !in {8, 4}
    requires Lead(a) == Lead(b)
    ensures Lex(ScoreOf(a).key, ScoreOf(b).key) == Decide(a, b, 14)
  {
    hide ScoreOf, Groups, Pack, Lex, Count;
    Shape(a);
    Shape(b);
    SplitEqual(Groups(a, 4, 14) + Groups(a, 3, 14), Groups(a, 2, 14), Groups(b, 4, 14) + Groups(b, 3, 14),
               Groups(b, 2, 14));
    SplitEqual(Groups(a, 4, 14), Groups(a, 3, 14), Groups(b, 4, 14), Groups(b, 3, 14));
    forall r | Count(a, r) >= 2 || Count(b, r) >= 2 ensures Count(a, r) == Count(b, r) {
      if Count(a, r) >= 2 {
        SameOften(a, b, r);
      } else {
        SameOften(b, a, r);
      }
    }
    SinglesDecide(a, b, 14);
    LexPrefix(Lead(a), Groups(a, 1, 14), Groups(b, 1, 14));
  }

  /** The leading ranks, when they differ, decide. */
  lemma LeadDecides(a: seq<int>, b: seq<int>)
    requires a != [] && b != []
    ensures a[0] > b[0] ==> Lex(a, b) == 1
    ensures a[0] < b[0] ==> Lex(a, b) == -1
    ensures a[0] == b[0] && |a| >= 2 && |b| >= 2 && a[1] > b[1] ==> Lex(a, b) == 1
    ensures a[0] == b[0] && |a| >= 2 && |b| >= 2 && a[1] < b[1] ==> Lex(a, b) == -1
  {
  }

  // ---------------------------------------------------------------- straights

  /** The five ranks of a straight, its ace low when it ends at five. */
  function StraightRank(top: int, i: int): int {
    if top == 5 && i == 0 then 14 else top - 4 + i
  }

  function StraightKey(t: int): seq<int> {
    [StraightRank(t, 0), StraightRank(t, 1), StraightRank(t, 2), StraightRank(t, 3), StraightRank(t, 4)]
  }

  lemma StraightKeyRanks(t: int)
    requires 5 <= t <= 14
    ensures Different(StraightKey(t)) && |StraightKey(t)| == 5
    ensures forall r :: r in StraightKey(t) <==> InStraight(t, r)
  {
    var key := StraightKey(t);
    forall r ensures r in key <==> InStraight(t, r) {
      assert key[0] in key && key[1] in key && key[2] in key && key[3] in key && key[4] in key;
    }
  }

  predicate InStraight(t: int, r: int) {
    if t == 5 then r == 14 || 2 <= r <= 5 else t - 4 <= r <= t
  }

  lemma StraightHeld(hand: seq<Card>, t: int)
    requires StraightTop(hand, 14) == t > 0
    ensures 5 <= t <= 14 && forall j | 0 <= j < 5 :: Count(hand, StraightKey(t)[j]) >= Pattern(0)[j]
  {
    StraightTopIs(hand, 14);
    hide Count;
    assert Has(hand, t - 4) && Has(hand, t - 3) && Has(hand, t - 2) && Has(hand, t - 1) && Has(hand, t);
  }

  lemma StraightCounts(hand: seq<Card>, t: int)
    requires Pack(hand) && |hand| == 5 && StraightTop(hand, 14) == t > 0
    ensures 5 <= t <= 14 && forall r :: Count(hand, r) == if InStraight(t, r) then 1 else 0
  {
    hide Count, Has, RunTo, StraightTop, StraightKey, InStraight, Different, Sum;
    StraightHeld(hand, t);
    StraightKeyRanks(t);
    PatternSum(0);
    var key := StraightKey(t);
    ExactCounts(hand, Pattern(0), key);
    forall r ensures Count(hand, r) == if InStraight(t, r) then 1 else 0 {
      if r in key {
        var j :| 0 <= j < 5 && key[j] == r;
        assert Count(hand, key[j]) == Pattern(0)[j];
      }
    }
  }

  lemma StrictlyOrdered(cards: seq<Card>)
    requires RankOrdered(cards) && forall r :: Count(cards, r) <= 1
    ensures forall i, j | 0 <= i < j < |cards| :: Rank(cards[i]) < Rank(cards[j])
  {
    forall i, j | 0 <= i < j < |cards| ensures Rank(cards[i]) < Rank(cards[j]) {
      if Rank(cards[i]) == Rank(cards[j]) {
        TwoOfARank(cards, i, j);
      }
    }
  }

  /** A sorted straight, and what turning its low ace to the front makes of it. */
  lemma SortedStraight(sorted: seq<Card>, t: int)
    requires Pack(sorted) && |sorted| == 5 && RankOrdered(sorted) && StraightTop(sorted, 14) == t > 0
    ensures t != 5 ==> forall i | 0 <= i < 5 :: Rank(sorted[i]) == StraightRank(t, i)
    ensures t == 5 ==> Rank(sorted[4]) == 14 && forall i | 0 <= i < 4 :: Rank(sorted[i]) == StraightRank(5, i + 1)
  {
    hide Pack, StraightTop, Count, RankOrdered, Rank;
    StraightCounts(sorted, t);
    StrictlyOrdered(sorted);
    forall i | 0 <= i < 5 ensures InStraight(t, Rank(sorted[i])) {
      CountPositive(sorted, Rank(sorted[i]));
    }
    var a, b, c, d, e := Rank(sorted[0]), Rank(sorted[1]), Rank(sorted[2]), Rank(sorted[3]), Rank(sorted[4]);
    assert a < b < c < d < e;
    if t == 5 {
      assert Count(sorted, 14) == 1;
      CountPositive(sorted, 14);
      assert e == 14;
      FiveBetween(a, b, c, d, d + 1, 2);
    } else {
      FiveBetween(a, b, c, d, e, t - 4);
    }
  }

  lemma FiveBetween(a: int, b: int, c: int, d: int, e: int, low: int)
    requires low <= a < b < c < d < e <= low + 4
    ensures a == low && b == low + 1 && c == low + 2 && d == low + 3 && e == low + 4
  {
  }

  lemma {:induction false} SameRanksTie(a: seq<Card>, b: seq<Card>)
    requires |a| == |b| && forall i | 0 <= i < |a| :: Rank(a[i]) == Rank(b[i])
    ensures TopCompare(a, b) == 0
  {
    if a != [] {
      SameRanksTie(a[..|a| - 1], b[..|b| - 1]);
    }
  }

  /** A straight in comparing order: its top card last. */
  ghost predicate Turned(hand: seq<Card>, t: int) {
    |hand| == 5 && forall i | 0 <= i < 5 :: Rank(hand[i]) == StraightRank(t, i)
  }

  lemma StraightsCompare(a: seq<Card>, b: seq<Card>, t: int, u: int)
    requires Turned(a, t) && Turned(b, u)
    ensures TopCompare(a, b) == Lex([t], [u])
  {
    assert Rank(a[4]) == t && Rank(b[4]) == u;
    assert [t][1..] == [u][1..] == [];
    if t == u {
      forall i | 0 <= i < 5 ensures Rank(a[i]) == Rank(b[i]) {
        assert Rank(a[i]) == StraightRank(t, i) && Rank(b[i]) == StraightRank(u, i);
      }
      SameRanksTie(a, b);
    }
  }

  /** `adjustPosForSpecailShunZi`: the ace of a low straight goes to the front. */
  method AdjustPos(hand: seq<Card>, kind: nat) returns (r: seq<Card>)
    requires Pack(hand) && |hand| == 5
    ensures multiset(r) == multiset(hand) && |r| == 5
    ensures kind != STRAIGHT && kind != STRAIGHT_FLUSH ==> r == hand
    ensures (kind == STRAIGHT || kind == STRAIGHT_FLUSH) && StraightTop(hand, 14) > 0 ==>
      Turned(r, StraightTop(hand, 14))
  {
    if kind != STRAIGHT && kind != STRAIGHT_FLUSH {
      return hand;
    }
    r := SortByRank(hand);
    ghost var sorted := r;
    SubPack(sorted, hand);
    if r[0].face == 2 && r[4].face == 1 {
      assert r == r[..4] + [r[4]];
      r := [r[4]] + r[..4];
    }
    TurnedStraight(hand, sorted, r);
  }

  lemma TurnedStraight(hand: seq<Card>, sorted: seq<Card>, r: seq<Card>)
    requires Pack(sorted) && |sorted| == 5 && RankOrdered(sorted) && multiset(sorted) == multiset(hand)
    requires r == if sorted[0].face == 2 && sorted[4].face == 1 then [sorted[4]] + sorted[..4] else sorted
    ensures StraightTop(hand, 14) > 0 ==> Turned(r, StraightTop(hand, 14))
  {
    var t := StraightTop(hand, 14);
    SameStraight(hand, sorted);
    if t > 0 {
      assert sorted[0] in sorted && sorted[4] in sorted;
      hide Pack, RankOrdered, StraightTop;
      SortedStraight(sorted, t);
      StraightTopIs(sorted, 14);
      RankFaces(sorted, sorted[0]);
      RankFaces(sorted, sorted[4]);
    }
  }

  lemma RankFaces(cards: seq<Card>, c: Card)
    requires Pack(cards) && c in cards
    ensures (Rank(c) == 2 <==> c.face == 2) && (Rank(c) == 14 <==> c.face == 1)
  {
    assert ValidCard(c);
  }

  // ---------------------------------------------------------------- PK

  /** The loop over both hands from the last card down. */
  method CompareCards(a: seq<Card>, b: seq<Card>) returns (r: int)
    requires |a| == |b|
    ensures r == TopCompare(a, b)
  {
    var i := |a|;
    assert a[..i] == a && b[..i] == b;
    while i > 0
      invariant i <= |a| && TopCompare(a, b) == TopCompare(a[..i], b[..i])
    {
      i := i - 1;
      assert a[..i + 1][..i] == a[..i] && b[..i + 1][..i] == b[..i];
      var x, y := Rank(a[i]), Rank(b[i]);
      if x > y {
        return 1;
      } else if x < y {
        return -1;
      }
    }
    return 0;
  }

  lemma SortedHandsDecide(a: seq<Card>, b: seq<Card>, all: seq<Card>, other: seq<Card>)
    requires Pack(all) && Pack(other) && multiset(a) <= multiset(all) && multiset(b) <= multiset(other)
    requires |a| == |b| == 5 && RankOrdered(a) && RankOrdered(b)
    requires ScoreOf(a).category == ScoreOf(b).category && ScoreOf(a).category !in {8, 4} && Lead(a) == Lead(b)
    ensures TopCompare(a, b) == Compare(ScoreOf(a), ScoreOf(b))
  {
    hide ScoreOf, Lead, Decide, RankOrdered, Lex;
    SubPack(a, all);
    SubPack(b, other);
    forall c | c in a || c in b ensures 2 <= Rank(c) <= 14 {
      assert ValidCard(c);
    }
    TopCompareDecides(a, b, 14);
    LeadThenSingles(a, b);
  }

  /** The ranks compared before the cards: of the first group, then of the second. */
  method ComparePairs(kind: nat, first: seq<Card>, second: seq<Card>, first': seq<Card>, second': seq<Card>,
                      ghost key: seq<int>, ghost key': seq<int>) returns (r: int)
    requires 1 <= kind <= 9
    requires kind in {FOUR, THREE, PAIR, FULL_HOUSE, TWO_PAIR} ==>
      key != [] && key' != [] && IsRankOf(first, key[0]) && IsRankOf(first', key'[0])
    requires kind in {FULL_HOUSE, TWO_PAIR} ==>
      |key| >= 2 && |key'| >= 2 && IsRankOf(second, key[1]) && IsRankOf(second', key'[1])
    ensures r != 0 ==> r == Lex(key, key')
    ensures r == 0 && Leads(9 - kind) <= |key| && Leads(9 - kind) <= |key'| ==>
      key[..Leads(9 - kind)] == key'[..Leads(9 - kind)]
  {
    r := 0;
    if kind == PAIR || kind == FOUR || kind == THREE || kind == TWO_PAIR || kind == FULL_HOUSE {
      LeadDecides(key, key');
      if Rank(first[0]) > Rank(first'[0]) {
        return 1;
      } else if Rank(first[0]) < Rank(first'[0]) {
        return -1;
      }
    }
    if kind == TWO_PAIR || kind == FULL_HOUSE {
      if Rank(second[0]) > Rank(second'[0]) {
        return 1;
      } else if Rank(second[0]) < Rank(second'[0]) {
        return -1;
      }
    }
  }

  lemma LeadIsPrefix(hand: seq<Card>)
    requires Pack(hand) && |hand| == 5 && ScoreOf(hand).category !in {8, 4}
    ensures var s := ScoreOf(hand); Leads(s.category) <= |s.key| && s.key[..Leads(s.category)] == Lead(hand)
  {
    hide ScoreOf, Lead, Groups, Pack;
    Shape(hand);
  }

  /** Sorted hands of one category whose leading ranks agree. */
  lemma TiedPairs(a: seq<Card>, b: seq<Card>, h: seq<Card>, g: seq<Card>, all: seq<Card>, other: seq<Card>)
    requires Pack(all) && Pack(other) && Drawn(h, all) && Drawn(g, other)
    requires multiset(a) == multiset(h) && multiset(b) == multiset(g) && RankOrdered(a) && RankOrdered(b)
    requires ScoreOf(h).category == ScoreOf(g).category && ScoreOf(h).category !in {8, 4}
    requires var n := Leads(ScoreOf(h).category);
      n <= |ScoreOf(h).key| && n <= |ScoreOf(g).key| ==> ScoreOf(h).key[..n] == ScoreOf(g).key[..n]
    ensures |a| == |b| && TopCompare(a, b) == Compare(ScoreOf(h), ScoreOf(g))
  {
    hide ScoreOf, Lead, Leads, RankOrdered, Pack, Compare, TopCompare;
    SameScore(a, h);
    SameScore(b, g);
    assert |a| == |multiset(a)| == |multiset(h)| == 5 && |b| == |multiset(b)| == |multiset(g)| == 5;
    SubPack(a, all);
    SubPack(b, other);
    LeadIsPrefix(a);
    LeadIsPrefix(b);
    SortedHandsDecide(a, b, all, other);
  }

  lemma StraightScore(hand: seq<Card>)
    ensures var s := ScoreOf(hand);
      s.category in {8, 4} ==> StraightTop(hand, 14) > 0 && s.key == [StraightTop(hand, 14)]
  {
    hide Groups, StraightTop, IsFlush;
  }

  lemma StraightsByTop(a: seq<Card>, b: seq<Card>, h: seq<Card>, g: seq<Card>)
    requires StraightTop(h, 14) > 0 ==> Turned(a, StraightTop(h, 14))
    requires StraightTop(g, 14) > 0 ==> Turned(b, StraightTop(g, 14))
    requires ScoreOf(h).category == ScoreOf(g).category && ScoreOf(h).category in {8, 4}
    ensures |a| == |b| && TopCompare(a, b) == Compare(ScoreOf(h), ScoreOf(g))
  {
    hide ScoreOf, StraightTop;
    StraightScore(h);
    StraightScore(g);
    StraightsCompare(a, b, StraightTop(h, 14), StraightTop(g, 14));
  }

  /** Two hands of one type; they come back reordered, if they had to be sorted. */
  method CompareSameType(kind: nat, h: seq<Card>, first: seq<Card>, second: seq<Card>,
                         g: seq<Card>, first': seq<Card>, second': seq<Card>,
                         ghost all: seq<Card>, ghost other: seq<Card>)
    returns (r: int, a: seq<Card>, b: seq<Card>)
    requires Pack(all) && Pack(other)
    requires Chosen(all, h, first, second, kind) && Chosen(other, g, first', second', kind)
    ensures r == Compare(ScoreOf(h), ScoreOf(g))
    ensures multiset(a) == multiset(h) && multiset(b) == multiset(g)
  {
    assert Drawn(h, all) && Drawn(g, other);
    hide ScoreOf, Best, Pack, RankOrdered, Turned, Lex, StraightTop, Leads;
    CategoryRange(h);
    CategoryRange(g);
    a, b := h, g;
    r := ComparePairs(kind, first, second, first', second', ScoreOf(h).key, ScoreOf(g).key);
    if r != 0 {
      return;
    }
    a, b := ArrangeBoth(kind, h, g, all, other);
    ArrangedCompare(kind, a, b, h, g, all, other);
    r := CompareCards(a, b);
  }

  lemma CategoryRange(hand: seq<Card>)
    ensures 0 <= ScoreOf(hand).category <= 8
  {
    hide Groups, StraightTop, IsFlush, GroupKey;
  }

  /** How both hands lie when the cards are compared. */
  ghost predicate Arranged(kind: nat, a: seq<Card>, h: seq<Card>) {
    && multiset(a) == multiset(h) && |a| == 5
    && (kind !in {STRAIGHT, STRAIGHT_FLUSH} ==> RankOrdered(a))
    && (kind in {STRAIGHT, STRAIGHT_FLUSH} && StraightTop(h, 14) > 0 ==> Turned(a, StraightTop(h, 14)))
  }

  method ArrangeBoth(kind: nat, h: seq<Card>, g: seq<Card>, ghost all: seq<Card>, ghost other: seq<Card>)
    returns (a: seq<Card>, b: seq<Card>)
    requires Pack(all) && Pack(other) && Drawn(h, all) && Drawn(g, other)
    ensures Arranged(kind, a, h) && Arranged(kind, b, g)
  {
    hide Pack, StraightTop, RankOrdered, Turned;
    a := SortByRank(h);
    b := SortByRank(g);
    SubPack(a, all);
    SubPack(b, other);
    SameStraight(a, h);
    SameStraight(b, g);
    a := AdjustPos(a, kind);
    b := AdjustPos(b, kind);
  }

  lemma ArrangedCompare(kind: nat, a: seq<Card>, b: seq<Card>, h: seq<Card>, g: seq<Card>, all: seq<Card>,
                        other: seq<Card>)
    requires Pack(all) && Pack(other) && Drawn(h, all) && Drawn(g, other)
    requires Arranged(kind, a, h) && Arranged(kind, b, g) && 1 <= kind <= 9
    requires ScoreOf(h).category == ScoreOf(g).category == 9 - kind
    requires var n := Leads(9 - kind);
      n <= |ScoreOf(h).key| && n <= |ScoreOf(g).key| ==> ScoreOf(h).key[..n] == ScoreOf(g).key[..n]
    ensures |a| == |b| && TopCompare(a, b) == Compare(ScoreOf(h), ScoreOf(g))
  {
    hide ScoreOf, Pack, Drawn, RankOrdered, Turned, StraightTop, Leads, TopCompare, Compare;
    if kind in {STRAIGHT, STRAIGHT_FLUSH} {
      StraightsByTop(a, b, h, g);
    } else {
      TiedPairs(a, b, h, g, all, other);
    }
  }

  /** `PK` compares the best hands of the two players' cards, whatever the order
      the cards lie in, and leaves both players' cards as they were up to order. */
  method PK(mine: PeerCard, other: PeerCard) returns (r: int)
    requires mine.Valid() && other.Valid() && |mine.allCards| >= 5 && |other.allCards| >= 5
    modifies mine, other
    ensures mine.Valid() && other.Valid()
    ensures multiset(mine.allCards) == multiset(old(mine.allCards))
    ensures multiset(other.allCards) == multiset(old(other.allCards))
    ensures forall h, g | Best(h, mine.allCards) && Best(g, other.allCards) :: r == Compare(ScoreOf(h), ScoreOf(g))
  {
    hide Pack, Best, ScoreOf, Compare, Chosen;
    mine.CaculateFinalCard();
    SameLength(mine.allCards, old(mine.allCards));
    other.CaculateFinalCard();
    SameLength(other.allCards, old(other.allCards));
    ghost var h0, g0 := mine.finalCards, other.finalCards;
    if other.kind < mine.kind {
      r := -1;
    } else if other.kind > mine.kind {
      r := 1;
    } else {
      var a, b;
      r, a, b := CompareSameType(mine.kind, mine.finalCards, mine.pairs0, mine.pairs1,
                                 other.finalCards, other.pairs0, other.pairs1, mine.allCards, other.allCards);
      SameChosen(mine.allCards, mine.finalCards, a, mine.pairs0, mine.pairs1, mine.kind);
      SameChosen(other.allCards, other.finalCards, b, other.pairs0, other.pairs1, other.kind);
      mine.finalCards := a;
      other.finalCards := b;
    }
    BestCompare(h0, g0, mine.allCards, other.allCards, mine.pairs0, mine.pairs1, other.pairs0, other.pairs1, mine.kind,
                other.kind, r);
  }

  lemma SameLength(a: seq<Card>, b: seq<Card>)
    requires multiset(a) == multiset(b)
    ensures |a| == |b|
  {
    assert |multiset(a)| == |a| && |multiset(b)| == |b|;
  }

  lemma BestCompare(h: seq<Card>, g: seq<Card>, all: seq<Card>, other: seq<Card>, p: seq<Card>, q: seq<Card>,
                    p': seq<Card>, q': seq<Card>, kind: nat, kind': nat, r: int)
    requires Chosen(all, h, p, q, kind) && Chosen(other, g, p', q', kind')
    requires if kind' < kind then r == -1 else if kind' > kind then r == 1 else r == Compare(ScoreOf(h), ScoreOf(g))
    ensures forall x, y | Best(x, all) && Best(y, other) :: r == Compare(ScoreOf(x), ScoreOf(y))
  {
    hide Best, ScoreOf;
    forall x, y | Best(x, all) && Best(y, other) ensures r == Compare(ScoreOf(x), ScoreOf(y)) {
      BestIsUnique(x, h, all, all);
      BestIsUnique(y, g, other, other);
    }
  }
}
