/** The ranking of five-card hands in terms of ranks and suits alone: which sort beats which,
    and what decides between two hands of one sort. */
module PokerSorts {
  import opened PokerRanking
  import opened PokerBest
  import opened PokerCompare

  // ---------------------------------------------------------------- sorts of hands

  predicate Holds(hand: seq<Card>, r: int) {
    exists c :: c in hand && Rank(c) == r
  }

  /** Five ranks in a row up to `top`; the ace may also stand before the two. */
  predicate RowUpTo(hand: seq<Card>, top: int) {
    && 5 <= top <= 14 && Holds(hand, top) && Holds(hand, top - 1) && Holds(hand, top - 2) && Holds(hand, top - 3)
    && (if top == 5 then Holds(hand, 14) else Holds(hand, top - 4))
  }

  ghost predicate InARow(hand: seq<Card>) {
    exists top :: RowUpTo(hand, top)
  }

  predicate OneSuit(hand: seq<Card>) {
    forall c, d | c in hand && d in hand :: c.suit == d.suit
  }

  /** Just `n` cards of the hand have some one rank. */
  ghost predicate Together(hand: seq<Card>, n: nat) {
    exists r :: 2 <= r <= 14 && Count(hand, r) == n
  }

  ghost predicate TwoPairs(hand: seq<Card>) {
    exists r, q :: 2 <= r < q <= 14 && Count(hand, r) == 2 && Count(hand, q) == 2
  }

  // ---------------------------------------------------------------- the reference in these terms

  lemma {:induction false} CountHolds(hand: seq<Card>, r: int)
    ensures Count(hand, r) > 0 <==> Holds(hand, r)
  {
    if hand != [] {
      CountHolds(hand[1..], r);
      assert hand == [hand[0]] + hand[1..];
      if c :| c in hand && Rank(c) == r {
        assert c == hand[0] || c in hand[1..];
      }
      if c :| c in hand[1..] && Rank(c) == r {
        assert c in hand;
      }
      assert hand[0] in hand;
    }
  }

  lemma RunIs(hand: seq<Card>, top: int)
    requires 5 <= top <= 14
    ensures RunTo(hand, top) <==> RowUpTo(hand, top)
  {
    CountHolds(hand, top);
    CountHolds(hand, top - 1);
    CountHolds(hand, top - 2);
    CountHolds(hand, top - 3);
    CountHolds(hand, if top == 5 then 14 else top - 4);
    hide Count, Holds;
  }

  /** The top of a straight is its highest row's. */
  lemma StraightIs(hand: seq<Card>)
    ensures StraightTop(hand, 14) > 0 <==> InARow(hand)
    ensures StraightTop(hand, 14) > 0 ==>
      RowUpTo(hand, StraightTop(hand, 14)) && forall x | RowUpTo(hand, x) :: x <= StraightTop(hand, 14)
  {
    StraightTopIs(hand, 14);
    forall top | 5 <= top <= 14 ensures RunTo(hand, top) <==> RowUpTo(hand, top) {
      RunIs(hand, top);
    }
    hide RunTo, StraightTop, Holds;
  }

  lemma FlushIs(hand: seq<Card>)
    requires hand != []
    ensures IsFlush(hand) <==> OneSuit(hand)
  {
    assert hand[0] in hand;
  }

  lemma GroupsAre(hand: seq<Card>, n: nat)
    ensures Groups(hand, n, 14) != [] <==> Together(hand, n)
  {
    GroupsMembers(hand, n, 14);
    hide Groups, Count;
    SomeRank(hand, n, Groups(hand, n, 14));
  }

  lemma SomeRank(hand: seq<Card>, n: nat, ranks: seq<int>)
    requires forall r :: r in ranks <==> 2 <= r <= 14 && Count(hand, r) == n
    ensures ranks != [] <==> Together(hand, n)
  {
    hide Count;
    if ranks != [] {
      assert ranks[0] in ranks;
      assert Count(hand, ranks[0]) == n;
    }
    if r :| 2 <= r <= 14 && Count(hand, r) == n {
      assert r in ranks;
    }
  }

  lemma PairsAre(hand: seq<Card>)
    ensures |Groups(hand, 2, 14)| >= 2 <==> TwoPairs(hand)
  {
    GroupsMembers(hand, 2, 14);
    var ranks := Groups(hand, 2, 14);
    hide Groups, Count;
    if |ranks| >= 2 {
      assert ranks[0] in ranks && ranks[1] in ranks;
    }
    if r, q :| 2 <= r < q <= 14 && Count(hand, r) == 2 && Count(hand, q) == 2 {
      assert r in ranks && q in ranks;
      var i :| 0 <= i < |ranks| && ranks[i] == r;
      var j :| 0 <= j < |ranks| && ranks[j] == q;
      assert i != j;
    }
  }

  lemma CategoryIs(hand: seq<Card>)
    requires hand != []
    ensures ScoreOf(hand).category ==
      if OneSuit(hand) && InARow(hand) then 8
      else if Together(hand, 4) then 7
      else if Together(hand, 3) && Together(hand, 2) then 6
      else if OneSuit(hand) then 5
      else if InARow(hand) then 4
      else if Together(hand, 3) then 3
      else if TwoPairs(hand) then 2
      else if Together(hand, 2) then 1 else 0
  {
    StraightIs(hand);
    FlushIs(hand);
    GroupsAre(hand, 4);
    GroupsAre(hand, 3);
    GroupsAre(hand, 2);
    PairsAre(hand);
    hide StraightTop, IsFlush, Groups, InARow, OneSuit, Together, TwoPairs, RowUpTo;
  }

  // ---------------------------------------------------------------- which hand wins

  ghost predicate Wins(a: seq<Card>, b: seq<Card>) {
    Compare(ScoreOf(a), ScoreOf(b)) == 1 && Compare(ScoreOf(b), ScoreOf(a)) == -1
  }

  /** Five in a row of one suit beat everything else; then come four of a rank, three of a rank
      with a pair, one suit, five in a row, three of a rank, two pairs and one pair. Each beats all
      hands that are neither of its own sort nor of one before it. */
  lemma BetterSortWins(a: seq<Card>, b: seq<Card>)
    requires a != [] && b != [] && !(OneSuit(b) && InARow(b))
    ensures OneSuit(a) && InARow(a) ==> Wins(a, b)
    ensures !Together(b, 4) ==>
      && (Together(a, 4) ==> Wins(a, b))
      && (!(Together(b, 3) && Together(b, 2)) ==>
            && (Together(a, 3) && Together(a, 2) ==> Wins(a, b))
            && (!OneSuit(b) ==>
                  && (OneSuit(a) ==> Wins(a, b))
                  && (!InARow(b) ==>
                        && (InARow(a) ==> Wins(a, b))
                        && (!Together(b, 3) ==>
                              && (Together(a, 3) ==> Wins(a, b))
                              && (!TwoPairs(b) ==>
                                    && (TwoPairs(a) ==> Wins(a, b))
                                    && (!Together(b, 2) ==> (Together(a, 2) ==> Wins(a, b))))))))
  {
    CategoryIs(a);
    CategoryIs(b);
    hide ScoreOf, InARow, OneSuit, Together, TwoPairs, Lex;
    if TwoPairs(a) {
      TwoPairsArePair(a);
    }
  }

  lemma TwoPairsArePair(hand: seq<Card>)
    requires TwoPairs(hand)
    ensures Together(hand, 2)
  {
    var r, q :| 2 <= r < q <= 14 && Count(hand, r) == 2 && Count(hand, q) == 2;
  }

  lemma TopIs(hand: seq<Card>, x: int)
    requires RowUpTo(hand, x) && forall t | RowUpTo(hand, t) :: t <= x
    ensures StraightTop(hand, 14) == x
  {
    StraightIs(hand);
    hide StraightTop, RowUpTo;
    assert InARow(hand);
  }

  /** Of two straights of one sort the one that reaches higher wins. */
  lemma HigherRowWins(a: seq<Card>, b: seq<Card>, x: int, y: int)
    requires a != [] && b != [] && OneSuit(a) == OneSuit(b) && RowUpTo(a, x) && RowUpTo(b, y)
    requires (forall t | RowUpTo(a, t) :: t <= x) && forall t | RowUpTo(b, t) :: t <= y
    requires !OneSuit(a) ==> (!Together(a, 4) && !(Together(a, 3) && Together(a, 2))
                              && !Together(b, 4) && !(Together(b, 3) && Together(b, 2)))
    ensures Compare(ScoreOf(a), ScoreOf(b)) == if x > y then 1 else if x < y then -1 else 0
  {
    assert InARow(a) && InARow(b);
    TopIs(a, x);
    TopIs(b, y);
    hide StraightTop, RowUpTo, InARow;
    CategoryIs(a);
    CategoryIs(b);
    hide ScoreOf, OneSuit, Together, TwoPairs;
    StraightScore(a);
    StraightScore(b);
    LexOfTwo(x, y);
  }

  lemma LexOfTwo(x: int, y: int)
    ensures Lex([x], [y]) == if x > y then 1 else if x < y then -1 else 0
  {
    assert [x][1..] == [] && [y][1..] == [];
  }

  /** The first place where the keys differ decides. */
  lemma {:induction false} FirstDifference(a: seq<int>, b: seq<int>, k: nat)
    requires k < |a| && k < |b| && a[..k] == b[..k] && a[k] != b[k]
    ensures Lex(a, b) == if a[k] > b[k] then 1 else -1
  {
    if k > 0 {
      assert a[0] == a[..k][0] && b[0] == b[..k][0];
      assert a[1..][..k - 1] == a[..k][1..] && b[1..][..k - 1] == b[..k][1..];
      FirstDifference(a[1..], b[1..], k - 1);
    }
  }

  /** The ranks held at least `n` times, each once: those held more often first, and of those
      held equally often the higher first. */
  ghost predicate KeyDownTo(hand: seq<Card>, key: seq<int>, n: nat) {
    && (forall r :: r in key <==> 2 <= r <= 14 && Count(hand, r) >= n)
    && forall i, j | 0 <= i < j < |key| ::
         Count(hand, key[i]) > Count(hand, key[j])
         || (Count(hand, key[i]) == Count(hand, key[j]) && key[i] > key[j])
  }

  /** A key lists all ranks of the hand in that way. */
  ghost predicate IsKey(hand: seq<Card>, key: seq<int>) {
    KeyDownTo(hand, key, 1)
  }

  lemma KeyIs(hand: seq<Card>)
    requires Pack(hand)
    ensures IsKey(hand, GroupKey(hand))
  {
    AtMostFour(hand);
    var fours, threes, twos, ones :=
      Groups(hand, 4, 14), Groups(hand, 3, 14), Groups(hand, 2, 14), Groups(hand, 1, 14);
    GroupsMembers(hand, 4, 14);
    GroupsMembers(hand, 3, 14);
    GroupsMembers(hand, 2, 14);
    GroupsMembers(hand, 1, 14);
    hide Groups, Count, Pack;
    Joined(hand, fours, threes, 4, 3);
    Joined(hand, fours + threes, twos, 3, 2);
    Joined(hand, fours + threes + twos, ones, 2, 1);
  }

  lemma Joined(hand: seq<Card>, key: seq<int>, more: seq<int>, m: nat, n: nat)
    requires m == n + 1 && Descending(more)
    requires forall r :: r in more <==> 2 <= r <= 14 && Count(hand, r) == n
    requires KeyDownTo(hand, key, m)
      || (Descending(key) && forall r :: r in key <==> 2 <= r <= 14 && Count(hand, r) == m)
    requires KeyDownTo(hand, key, m) || forall r :: Count(hand, r) <= m
    ensures KeyDownTo(hand, key + more, n)
  {
    hide Count;
    var all := key + more;
    forall i | 0 <= i < |key| ensures Count(hand, key[i]) >= m {
      assert key[i] in key;
    }
    forall i | 0 <= i < |more| ensures Count(hand, more[i]) == n {
      assert more[i] in more;
    }
    if !KeyDownTo(hand, key, m) {
      forall i | 0 <= i < |key| ensures Count(hand, key[i]) == m {
        assert key[i] in key;
      }
    }
    forall r ensures r in all <==> r in key || r in more {
    }
  }

  /** Otherwise the keys decide: two hands of one sort compare by the ranks held most often,
      and then by the higher ones. */
  lemma KeysDecide(a: seq<Card>, b: seq<Card>)
    requires Pack(a) && Pack(b) && a != [] && b != []
    requires ScoreOf(a).category == ScoreOf(b).category && !InARow(a) && !InARow(b)
    ensures IsKey(a, GroupKey(a)) && IsKey(b, GroupKey(b))
    ensures Compare(ScoreOf(a), ScoreOf(b)) == Lex(GroupKey(a), GroupKey(b))
  {
    hide StraightTop, IsFlush, Groups, InARow, IsKey, Lex, GroupKey, Pack, ScoreOf;
    KeyIs(a);
    KeyIs(b);
    NoRowKey(a);
    NoRowKey(b);
  }

  lemma NoRowKey(hand: seq<Card>)
    requires !InARow(hand)
    ensures ScoreOf(hand).key == GroupKey(hand)
  {
    hide StraightTop, IsFlush, Groups, InARow, GroupKey;
    StraightIs(hand);
  }
}
