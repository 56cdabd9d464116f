/** The comparison of three-card hands in terms of ranks and suits alone. */
module ThreeKinds {
  import opened PokerRanking
  import opened PokerBest
  import opened PokerCompare
  import opened ThreeCards

  predicate ThreeCardsOf(h: seq<Card>) {
    |h| == 3 && ValidCard(h[0]) && ValidCard(h[1]) && ValidCard(h[2])
  }

  /** The hand has these ranks, in whatever order. */
  predicate HasRanks(h: seq<Card>, x: int, y: int, z: int)
    requires |h| == 3
  {
    var (p, q, r) := (Rank(h[0]), Rank(h[1]), Rank(h[2]));
    || (p == x && ((q == y && r == z) || (q == z && r == y)))
    || (p == y && ((q == x && r == z) || (q == z && r == x)))
    || (p == z && ((q == x && r == y) || (q == y && r == x)))
  }

  predicate ThreeAlike(h: seq<Card>)
    requires |h| == 3
  {
    Rank(h[0]) == Rank(h[1]) == Rank(h[2])
  }

  predicate OneSuit(h: seq<Card>)
    requires |h| == 3
  {
    h[0].suit == h[1].suit == h[2].suit
  }

  /** Three ranks in a row; the ace may also stand before the two. */
  ghost predicate InARow(h: seq<Card>)
    requires |h| == 3
  {
    HasRanks(h, 2, 3, 14) || exists t :: RowFrom(h, t)
  }

  predicate RowFrom(h: seq<Card>, t: int)
    requires |h| == 3
  {
    HasRanks(h, t, t + 1, t + 2)
  }

  predicate PairOf(h: seq<Card>, r: int)
    requires |h| == 3
  {
    (Rank(h[0]) == Rank(h[1]) == r) || (Rank(h[0]) == Rank(h[2]) == r) || (Rank(h[1]) == Rank(h[2]) == r)
  }

  ghost predicate HasPair(h: seq<Card>)
    requires |h| == 3
  {
    exists r :: PairOf(h, r)
  }

  // ---------------------------------------------------------------- the kinds

  lemma CountOfThree(h: seq<Card>, r: int)
    requires |h| == 3
    ensures Count(h, r) ==
      (if Rank(h[0]) == r then 1 else 0) + (if Rank(h[1]) == r then 1 else 0) + (if Rank(h[2]) == r then 1 else 0)
  {
    ThreeCount(h[0], h[1], h[2], r);
    assert h == [h[0], h[1], h[2]];
  }

  lemma AlikeIs(h: seq<Card>)
    requires ThreeCardsOf(h)
    ensures Groups(h, 3, 14) != [] <==> ThreeAlike(h)
    ensures Groups(h, 2, 14) != [] <==> HasPair(h) && !ThreeAlike(h)
  {
    GroupsMembers(h, 3, 14);
    GroupsMembers(h, 2, 14);
    RankRange(h[0]);
    RankRange(h[1]);
    RankRange(h[2]);
    hide Groups, Count, Rank;
    SomeHeld(h, Groups(h, 3, 14), 3);
    SomeHeld(h, Groups(h, 2, 14), 2);
    CountOfThree(h, Rank(h[0]));
    CountOfThree(h, Rank(h[1]));
    CountOfThree(h, Rank(h[2]));
    PairHeld(h);
    hide HasPair;
  }

  lemma PairHeld(h: seq<Card>)
    requires ThreeCardsOf(h)
    ensures HasPair(h) <==> Rank(h[0]) == Rank(h[1]) || Rank(h[0]) == Rank(h[2]) || Rank(h[1]) == Rank(h[2])
  {
    assert PairOf(h, Rank(h[0])) || PairOf(h, Rank(h[1])) || !HasPair(h);
  }

  lemma SomeHeld(h: seq<Card>, ranks: seq<int>, n: nat)
    requires ThreeCardsOf(h) && (forall r :: r in ranks <==> 2 <= r <= 14 && Count(h, r) == n) && n > 0
    ensures ranks != [] <==>
      Count(h, Rank(h[0])) == n || Count(h, Rank(h[1])) == n || Count(h, Rank(h[2])) == n
  {
    RankRange(h[0]);
    RankRange(h[1]);
    RankRange(h[2]);
    hide Count, Rank;
    if ranks != [] {
      assert ranks[0] in ranks;
      CountOfThree(h, ranks[0]);
    }
    if Count(h, Rank(h[0])) == n {
      assert Rank(h[0]) in ranks;
    } else if Count(h, Rank(h[1])) == n {
      assert Rank(h[1]) in ranks;
    } else if Count(h, Rank(h[2])) == n {
      assert Rank(h[2]) in ranks;
    }
  }

  lemma Holds(h: seq<Card>, r: int)
    requires ThreeCardsOf(h)
    ensures Count(h, r) > 0 <==> r == Rank(h[0]) || r == Rank(h[1]) || r == Rank(h[2])
  {
    CountOfThree(h, r);
  }

  /** Three different ranks are the ranks of the hand exactly when it holds each of them. */
  lemma HoldsRanks(h: seq<Card>, x: int, y: int, z: int)
    requires ThreeCardsOf(h) && x != y && y != z && x != z
    ensures HasRanks(h, x, y, z) <==> Count(h, x) > 0 && Count(h, y) > 0 && Count(h, z) > 0
  {
    Holds(h, x);
    Holds(h, y);
    Holds(h, z);
    hide Count, Rank;
  }

  lemma RowIs(h: seq<Card>)
    requires ThreeCardsOf(h)
    ensures InSequence(h) <==> InARow(h)
  {
    hide InSequence, InARow;
    if InSequence(h) {
      SequenceIsRow(h);
    }
    if InARow(h) {
      RowIsSequence(h);
    }
  }

  lemma SequenceIsRow(h: seq<Card>)
    requires ThreeCardsOf(h) && InSequence(h)
    ensures InARow(h)
  {
    HoldsRanks(h, 2, 3, 14);
    hide Count, Rank, HasRanks, RowFrom;
    if t :| 4 <= t <= 14 && Count(h, t) > 0 && Count(h, t - 1) > 0 && Count(h, t - 2) > 0 {
      hide InSequence;
      RowFromIs(h, t - 2);
    }
  }

  lemma RowIsSequence(h: seq<Card>)
    requires ThreeCardsOf(h) && InARow(h)
    ensures InSequence(h)
  {
    HoldsRanks(h, 2, 3, 14);
    hide Count, Rank, HasRanks, RowFrom;
    if t :| RowFrom(h, t) {
      RowFromIs(h, t);
      SequenceAt(h, t + 2);
    }
  }

  lemma SequenceAt(h: seq<Card>, t: int)
    requires 4 <= t <= 14 && Count(h, t) > 0 && Count(h, t - 1) > 0 && Count(h, t - 2) > 0
    ensures InSequence(h)
  {
    hide Count;
  }

  lemma RowFromIs(h: seq<Card>, t: int)
    requires ThreeCardsOf(h)
    ensures RowFrom(h, t) <==> 2 <= t <= 12 && Count(h, t) > 0 && Count(h, t + 1) > 0 && Count(h, t + 2) > 0
  {
    HoldsRanks(h, t, t + 1, t + 2);
    Holds(h, t);
    Holds(h, t + 2);
    RankRange(h[0]);
    RankRange(h[1]);
    RankRange(h[2]);
    hide Count, Rank, HasRanks;
  }

  lemma KindIs(h: seq<Card>)
    requires ThreeCardsOf(h)
    ensures KindOf(h) ==
      if ThreeAlike(h) then BOMB
      else if OneSuit(h) then (if InARow(h) then SAME_COLOR_SEQUENCE else SAME_COLOR)
      else if InARow(h) then SEQUENCE else if HasPair(h) then PAIR else NONE
  {
    AlikeIs(h);
    RowIs(h);
    assert h[0] in h && h[1] in h && h[2] in h;
    hide Groups, InARow, HasPair, InSequence;
  }

  // ---------------------------------------------------------------- which hand wins

  /** Three of a rank beat everything else; then come three in a row of one suit, one suit, three
      in a row, a pair. Each beats all hands that are none of those before it nor itself. */
  lemma BetterKindWins(a: seq<Card>, b: seq<Card>)
    requires ThreeCardsOf(a) && ThreeCardsOf(b) && !ThreeAlike(b)
    ensures ThreeAlike(a) ==> Ranking(a, b) == 1 && Ranking(b, a) == -1
    ensures OneSuit(a) && InARow(a) && !(OneSuit(b) && InARow(b)) ==> Ranking(a, b) == 1 && Ranking(b, a) == -1
    ensures OneSuit(a) && !OneSuit(b) ==> Ranking(a, b) == 1 && Ranking(b, a) == -1
    ensures InARow(a) && !OneSuit(b) && !InARow(b) ==> Ranking(a, b) == 1 && Ranking(b, a) == -1
    ensures HasPair(a) && !OneSuit(b) && !InARow(b) && !HasPair(b) ==> Ranking(a, b) == 1 && Ranking(b, a) == -1
  {
    KindIs(a);
    KindIs(b);
    hide KindOf, Decide, PairRank, InARow, HasPair;
  }

  /** Two hands of one kind. */
  ghost predicate SameKind(a: seq<Card>, b: seq<Card>)
    requires |a| == |b| == 3
  {
    && (ThreeAlike(a) <==> ThreeAlike(b)) && (OneSuit(a) <==> OneSuit(b)) && (InARow(a) <==> InARow(b))
    && (HasPair(a) <==> HasPair(b))
  }

  ghost predicate OnlyPair(h: seq<Card>)
    requires |h| == 3
  {
    HasPair(h) && !ThreeAlike(h) && !OneSuit(h) && !InARow(h)
  }

  lemma PairRankIs(h: seq<Card>, r: int)
    requires ThreeCardsOf(h) && PairOf(h, r) && !ThreeAlike(h)
    ensures PairRank(h) == r
  {
    GroupsMembers(h, 2, 14);
    var twos := Groups(h, 2, 14);
    forall q ensures Count(h, q) ==
      (if Rank(h[0]) == q then 1 else 0) + (if Rank(h[1]) == q then 1 else 0) + (if Rank(h[2]) == q then 1 else 0) {
      CountOfThree(h, q);
    }
    hide Groups, Count;
    assert r in twos;
    assert twos[0] in twos;
  }

  /** Of two mere pairs the higher wins. */
  lemma HigherPairWins(a: seq<Card>, b: seq<Card>, r: int, q: int)
    requires ThreeCardsOf(a) && ThreeCardsOf(b) && OnlyPair(a) && OnlyPair(b) && PairOf(a, r) && PairOf(b, q) && r > q
    ensures Ranking(a, b) == 1 && Ranking(b, a) == -1
  {
    KindIs(a);
    KindIs(b);
    PairRankIs(a, r);
    PairRankIs(b, q);
    hide KindOf, Decide, PairRank, InARow, HasPair;
  }

  /** The cards in order. */
  lemma Arranged(h: seq<Card>, x: int, y: int, z: int) returns (s: seq<Card>)
    requires ThreeCardsOf(h) && HasRanks(h, x, y, z) && x >= y >= z
    ensures ThreeCardsOf(s) && Rank(s[0]) == z && Rank(s[1]) == y && Rank(s[2]) == x
    ensures forall r :: Count(s, r) == Count(h, r)
  {
    hide Rank, ValidCard, Count;
    var (p, q, r) := (Rank(h[0]), Rank(h[1]), Rank(h[2]));
    s := if p == x && q == y && r == z then [h[2], h[1], h[0]]
         else if p == x && q == z && r == y then [h[1], h[2], h[0]]
         else if p == y && q == x && r == z then [h[2], h[0], h[1]]
         else if p == y && q == z && r == x then [h[1], h[0], h[2]]
         else if p == z && q == x && r == y then [h[0], h[2], h[1]] else [h[0], h[1], h[2]];
    forall r ensures Count(s, r) == Count(h, r) {
      CountOfThree(s, r);
      CountOfThree(h, r);
    }
  }

  /** Otherwise the highest rank that differs decides, and equal ranks tie. */
  lemma HighestRankWins(a: seq<Card>, b: seq<Card>, x: int, y: int, z: int, u: int, v: int, w: int)
    requires ThreeCardsOf(a) && ThreeCardsOf(b) && SameKind(a, b)
    requires OnlyPair(a) ==> exists r :: PairOf(a, r) && PairOf(b, r)
    requires HasRanks(a, x, y, z) && x >= y >= z && HasRanks(b, u, v, w) && u >= v >= w
    ensures Ranking(a, b) ==
      if x != u then (if x > u then 1 else -1) else if y != v then (if y > v then 1 else -1)
      else if z != w then (if z > w then 1 else -1) else 0
  {
    KindIs(a);
    KindIs(b);
    if OnlyPair(a) {
      var r :| PairOf(a, r) && PairOf(b, r);
      PairRankIs(a, r);
      PairRankIs(b, r);
    }
    hide KindOf, PairRank, InARow, HasPair, Decide, Count, HasRanks;
    assert Ranking(a, b) == Decide(a, b, 14);
    var s := Arranged(a, x, y, z);
    var t := Arranged(b, u, v, w);
    hide Ranking;
    DecideCancels(a, b, s, t, 14);
    CardsDecide(s, t);
    TopOfThree(s, t);
  }

  lemma TopOfThree(s: seq<Card>, t: seq<Card>)
    requires |s| == |t| == 3
    ensures TopCompare(s, t) ==
      if Rank(s[2]) != Rank(t[2]) then (if Rank(s[2]) > Rank(t[2]) then 1 else -1)
      else if Rank(s[1]) != Rank(t[1]) then (if Rank(s[1]) > Rank(t[1]) then 1 else -1)
      else if Rank(s[0]) != Rank(t[0]) then (if Rank(s[0]) > Rank(t[0]) then 1 else -1) else 0
  {
    assert s[..2][..1] == s[..1] && t[..2][..1] == t[..1] && s[..1][..0] == [];
    assert TopCompare(s[..1], t[..1]) ==
      if Rank(s[0]) != Rank(t[0]) then (if Rank(s[0]) > Rank(t[0]) then 1 else -1) else 0;
  }
}
