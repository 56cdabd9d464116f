/** `CPeerCard`: three-card hands, arranged in place and compared. */
module ThreeCards {
  import opened PokerRanking
  import opened PokerBest
  import opened PokerCompare
  import PokerEvaluator

  const NONE := 0
  const PAIR := 1
  const SEQUENCE := 2
  const SAME_COLOR := 3
  const SAME_COLOR_SEQUENCE := 4
  const BOMB := 5

  // ---------------------------------------------------------------- the order of hands

  /** Three ranks in a row, or ace, two and three. */
  predicate InSequence(hand: seq<Card>) {
    || (Count(hand, 2) > 0 && Count(hand, 3) > 0 && Count(hand, 14) > 0)
    || exists t | 4 <= t <= 14 :: Count(hand, t) > 0 && Count(hand, t - 1) > 0 && Count(hand, t - 2) > 0
  }

  /** The kind of a hand, told by how often its ranks occur and its suits. */
  function KindOf(hand: seq<Card>): nat {
    if Groups(hand, 3, 14) != [] then BOMB
    else if IsFlush(hand) then (if InSequence(hand) then SAME_COLOR_SEQUENCE else SAME_COLOR)
    else if InSequence(hand) then SEQUENCE
    else if Groups(hand, 2, 14) != [] then PAIR
    else NONE
  }

  function PairRank(hand: seq<Card>): int {
    var pairs := Groups(hand, 2, 14);
    if pairs == [] then 0 else pairs[0]
  }

  function Sign(x: int, y: int): int {
    if x > y then 1 else if x < y then -1 else 0
  }

  /** The better kind wins, then the better pair, then the highest rank held more often. */
  function Ranking(a: seq<Card>, b: seq<Card>): int {
    if KindOf(a) != KindOf(b) then Sign(KindOf(a), KindOf(b))
    else if KindOf(a) == PAIR && PairRank(a) != PairRank(b) then Sign(PairRank(a), PairRank(b))
    else Decide(a, b, 14)
  }

  lemma {:induction false} DecideAntisymmetric(a: seq<Card>, b: seq<Card>, top: nat)
    ensures Decide(a, b, top) == -Decide(b, a, top)
  {
    if top >= 2 {
      DecideAntisymmetric(a, b, top - 1);
    }
  }

  lemma {:induction false} DecideTransitive(a: seq<Card>, b: seq<Card>, c: seq<Card>, top: nat)
    requires Decide(a, b, top) >= 0 && Decide(b, c, top) >= 0
    ensures Decide(a, c, top) >= 0
    ensures Decide(a, b, top) > 0 || Decide(b, c, top) > 0 ==> Decide(a, c, top) > 0
  {
    if top >= 2 && Count(a, top) == Count(b, top) == Count(c, top) {
      DecideTransitive(a, b, c, top - 1);
    }
  }

  /** The comparison is a total preorder. */
  lemma RankingIsPreorder(a: seq<Card>, b: seq<Card>, c: seq<Card>)
    ensures Ranking(a, b) == -Ranking(b, a) && Ranking(a, a) == 0
    ensures Ranking(a, b) >= 0 && Ranking(b, c) >= 0 ==> Ranking(a, c) >= 0
    ensures Ranking(a, b) > 0 && Ranking(b, c) >= 0 ==> Ranking(a, c) > 0
  {
    hide KindOf, PairRank, Decide;
    DecideAntisymmetric(a, b, 14);
    DecideAntisymmetric(a, a, 14);
    if Decide(a, b, 14) >= 0 && Decide(b, c, 14) >= 0 {
      DecideTransitive(a, b, c, 14);
    }
  }

  // ---------------------------------------------------------------- sorted hands

  lemma ThreeCount(a: Card, b: Card, c: Card, r: int)
    ensures Count([a, b, c], r) ==
      (if Rank(a) == r then 1 else 0) + (if Rank(b) == r then 1 else 0) + (if Rank(c) == r then 1 else 0)
  {
    assert [a, b, c][1..] == [b, c] && [b, c][1..] == [c] && [c][1..] == [];
    assert Count([c], r) == (if Rank(c) == r then 1 else 0);
    assert Count([b, c], r) == (if Rank(b) == r then 1 else 0) + Count([c], r);
  }

  /** What the tests of `ArrangeCard` see in sorted cards. */
  lemma SortedSequence(a: Card, b: Card, c: Card)
    requires ValidCard(a) && ValidCard(b) && ValidCard(c) && Rank(a) <= Rank(b) <= Rank(c)
    ensures InSequence([a, b, c]) <==>
      (Rank(a) + 1 == Rank(b) && Rank(b) + 1 == Rank(c)) || (Rank(a) == 2 && Rank(b) == 3 && Rank(c) == 14)
  {
    var hand := [a, b, c];
    forall r ensures Count(hand, r) > 0 <==> r == Rank(a) || r == Rank(b) || r == Rank(c) {
      ThreeCount(a, b, c, r);
    }
    hide Count;
    assert Count(hand, Rank(c)) > 0 && Count(hand, Rank(b)) > 0 && Count(hand, Rank(a)) > 0;
    if Rank(a) + 1 == Rank(b) && Rank(b) + 1 == Rank(c) {
      assert Count(hand, Rank(c) - 1) > 0 && Count(hand, Rank(c) - 2) > 0;
    }
  }

  lemma RankRange(c: Card)
    requires ValidCard(c)
    ensures 2 <= Rank(c) <= 14
  {
  }

  lemma SortedGroups(a: Card, b: Card, c: Card)
    requires ValidCard(a) && ValidCard(b) && ValidCard(c) && Rank(a) <= Rank(b) <= Rank(c)
    ensures Groups([a, b, c], 3, 14) != [] <==> Rank(a) == Rank(b) == Rank(c)
    ensures Groups([a, b, c], 2, 14) == if (Rank(a) == Rank(b)) != (Rank(b) == Rank(c)) then [Rank(b)] else []
  {
    var hand := [a, b, c];
    forall r ensures Count(hand, r) ==
      (if Rank(a) == r then 1 else 0) + (if Rank(b) == r then 1 else 0) + (if Rank(c) == r then 1 else 0) {
      ThreeCount(a, b, c, r);
    }
    RankRange(a);
    RankRange(b);
    RankRange(c);
    hide Count, Groups, Rank;
    GroupIs(hand, 3, if Rank(a) == Rank(b) == Rank(c) then [Rank(b)] else []);
    GroupIs(hand, 2, if (Rank(a) == Rank(b)) != (Rank(b) == Rank(c)) then [Rank(b)] else []);
  }

  lemma SortedFlush(a: Card, b: Card, c: Card)
    ensures IsFlush([a, b, c]) <==> a.suit == b.suit && b.suit == c.suit
  {
    var hand := [a, b, c];
    assert hand[0] in hand && hand[1] in hand && hand[2] in hand;
  }

  // ---------------------------------------------------------------- the class

  class ThreeCardHand {
    const cards: array<Card>
    var kind: nat
    var pairRank: int

    ghost predicate Held()
      reads this, cards
    {
      cards.Length == 3 && ValidCard(cards[0]) && ValidCard(cards[1]) && ValidCard(cards[2])
    }

    ghost predicate Valid()
      reads this, cards
    {
      && Held() && Rank(cards[0]) <= Rank(cards[1]) <= Rank(cards[2])
      && kind == KindOf(cards[..]) && (kind == PAIR ==> pairRank == PairRank(cards[..]))
    }

    /** `SetPeerCardByNumber`. */
    constructor (a: Card, b: Card, c: Card)
      requires ValidCard(a) && ValidCard(b) && ValidCard(c)
      ensures Valid() && multiset(cards[..]) == multiset{a, b, c} && fresh(cards)
    {
      cards := new Card[3];
      kind, pairRank := NONE, 0;
      new;
      cards[0], cards[1], cards[2] := a, b, c;
      assert cards[..] == [a, b, c];
      Arrange();
    }

    /** `ArrangeCard`: the cards are sorted by exchanges, then the kind is decided. */
    method Arrange()
      requires Held()
      modifies this, cards
      ensures Valid() && multiset(cards[..]) == multiset(old(cards[..]))
    {
      SortCards();
      assert cards[..] == [cards[0], cards[1], cards[2]];
      DecideKind(cards[0], cards[1], cards[2]);
    }

    /** The kind of three cards in order. */
    method DecideKind(a: Card, b: Card, c: Card)
      requires ValidCard(a) && ValidCard(b) && ValidCard(c) && Rank(a) <= Rank(b) <= Rank(c)
      modifies this`kind, this`pairRank
      ensures kind == KindOf([a, b, c]) && (kind == PAIR ==> pairRank == PairRank([a, b, c]))
    {
      Decided(a, b, c);
      hide *;
      if a.face == b.face && b.face == c.face {
        kind := BOMB;
      } else if a.suit == b.suit && b.suit == c.suit {
        kind := SAME_COLOR;
        if Rank(a) + 1 == Rank(b) && Rank(b) + 1 == Rank(c) {
          kind := SAME_COLOR_SEQUENCE;
        }
        if Rank(a) == 2 && Rank(b) == 3 && 14 == Rank(c) {
          kind := SAME_COLOR_SEQUENCE;
        }
      } else if (Rank(a) + 1 == Rank(b) && Rank(b) + 1 == Rank(c)) || (Rank(a) == 2 && Rank(b) == 3 && 14 == Rank(c)) {
        kind := SEQUENCE;
      } else if Rank(a) == Rank(b) || Rank(c) == Rank(b) {
        kind := PAIR;
        pairRank := Rank(b);
      } else {
        kind := NONE;
      }
    }

    method SortCards()
      requires Held()
      modifies cards
      ensures Held() && Rank(cards[0]) <= Rank(cards[1]) <= Rank(cards[2])
      ensures multiset(cards[..]) == multiset(old(cards[..]))
    {
      var i := 0;
      while i < 2
        invariant i <= 2 && Held() && multiset(cards[..]) == multiset(old(cards[..]))
        invariant i >= 1 ==> Rank(cards[0]) <= Rank(cards[1]) && Rank(cards[0]) <= Rank(cards[2])
        invariant i == 2 ==> Rank(cards[1]) <= Rank(cards[2])
      {
        BringLowest(i);
        i := i + 1;
      }
    }

    method Exchange(i: nat, j: nat)
      requires i < j < 3 && Held()
      modifies cards
      ensures Held() && multiset(cards[..]) == multiset(old(cards[..]))
      ensures cards[i] == old(cards[j]) && cards[j] == old(cards[i])
      ensures forall k | 0 <= k < 3 && k != i && k != j :: cards[k] == old(cards[k])
    {
      cards[j], cards[i] := cards[i], cards[j];
      assert cards[..] == old(cards[..])[i := old(cards[j])][j := old(cards[i])];
    }

    /** The inner loop: any lower card after place `i` is exchanged with the one there. */
    method BringLowest(i: nat)
      requires i < 2 && Held()
      modifies cards
      ensures Held() && multiset(cards[..]) == multiset(old(cards[..]))
      ensures forall k | i < k < 3 :: Rank(cards[i]) <= Rank(cards[k])
      ensures i == 1 ==> cards[0] == old(cards[0])
      ensures i == 1 ==> forall k | 1 <= k < 3 :: cards[k] == old(cards[1]) || cards[k] == old(cards[2])
    {
      hide Rank, ValidCard;
      var low := Rank(cards[i]);
      var j := i + 1;
      while j < 3
        invariant i < j <= 3 && Held() && low == Rank(cards[i])
        invariant multiset(cards[..]) == multiset(old(cards[..]))
        invariant forall k | i < k < j :: low <= Rank(cards[k])
        invariant i == 1 ==> cards[0] == old(cards[0])
        invariant i == 1 ==> forall k | 1 <= k < 3 :: cards[k] == old(cards[1]) || cards[k] == old(cards[2])
      {
        var r := Rank(cards[j]);
        if r < low {
          low := r;
          Exchange(i, j);
        }
        j := j + 1;
      }
    }

    /** `ReplaceCardByNumber`: the first such card is replaced; without one nothing happens. */
    method Replace(before: Card, after: Card) returns (found: bool)
      requires Valid() && ValidCard(after)
      modifies this, cards
      ensures Valid() && found == (before in old(cards[..]))
      ensures if found then multiset(cards[..]) == multiset(old(cards[..])) - multiset{before} + multiset{after}
              else cards[..] == old(cards[..])
    {
      var i := 0;
      while i < 3
        invariant i <= 3 && Valid() && cards[..] == old(cards[..])
        invariant forall k | 0 <= k < i :: cards[k] != before
      {
        if cards[i] == before {
          assert multiset(cards[..]) == multiset(old(cards[..]));
          assert before == cards[..][i];
          cards[i] := after;
          assert cards[..] == old(cards[..])[i := after];
          Arrange();
          return true;
        }
        i := i + 1;
      }
      return false;
    }

    /** `PKPeerCard`: 1 to win, -1 to lose, 0 for a tie. */
    method PKPeerCard(other: ThreeCardHand) returns (r: int)
      requires Valid() && other.Valid()
      ensures r == Ranking(cards[..], other.cards[..])
    {
      hide KindOf, Decide, PairRank, TopCompare;
      if kind != other.kind {
        return if kind > other.kind then 1 else -1;
      }
      if kind == PAIR {
        if pairRank > other.pairRank {
          return 1;
        } else if pairRank < other.pairRank {
          return -1;
        }
      }
      CardsDecide(cards[..], other.cards[..]);
      r := CompareCards(cards[..], other.cards[..]);
    }
  }

  lemma CardsDecide(a: seq<Card>, b: seq<Card>)
    requires |a| == |b| == 3
    requires ValidCard(a[0]) && ValidCard(a[1]) && ValidCard(a[2]) && ValidCard(b[0]) && ValidCard(b[1])
    requires ValidCard(b[2])
    requires Rank(a[0]) <= Rank(a[1]) <= Rank(a[2]) && Rank(b[0]) <= Rank(b[1]) <= Rank(b[2])
    ensures TopCompare(a, b) == Decide(a, b, 14)
  {
    TopCompareDecides(a, b, 14);
  }

  /** The kind of sorted cards, by the tests made on them. */
  lemma Decided(a: Card, b: Card, c: Card)
    requires ValidCard(a) && ValidCard(b) && ValidCard(c) && Rank(a) <= Rank(b) <= Rank(c)
    ensures Rank(a) == Rank(b) == Rank(c) <==> a.face == b.face && b.face == c.face
    ensures
      var sequence :=
        (Rank(a) + 1 == Rank(b) && Rank(b) + 1 == Rank(c)) || (Rank(a) == 2 && Rank(b) == 3 && Rank(c) == 14);
      KindOf([a, b, c]) ==
        if Rank(a) == Rank(b) == Rank(c) then BOMB
        else if a.suit == b.suit && b.suit == c.suit then (if sequence then SAME_COLOR_SEQUENCE else SAME_COLOR)
        else if sequence then SEQUENCE
        else if Rank(a) == Rank(b) || Rank(b) == Rank(c) then PAIR else NONE
    ensures KindOf([a, b, c]) == PAIR ==> PairRank([a, b, c]) == Rank(b)
  {
    hide InSequence, Groups, IsFlush;
    SortedSequence(a, b, c);
    SortedGroups(a, b, c);
    SortedFlush(a, b, c);
  }

  /** Kind and comparison do not depend on the order of the cards. */
  lemma OrderDoesNotMatter(a: seq<Card>, a': seq<Card>, b: seq<Card>)
    requires multiset(a) == multiset(a')
    ensures KindOf(a) == KindOf(a') && PairRank(a) == PairRank(a') && Ranking(a, b) == Ranking(a', b)
  {
    forall r ensures Count(a, r) == Count(a', r) {
      CountPermutation(a, a', r);
    }
    hide Count, Groups, Decide, IsFlush;
    PokerEvaluator.SameGroups(a, a', 3, 14);
    PokerEvaluator.SameGroups(a, a', 2, 14);
    if IsFlush(a) { PokerEvaluator.SameFlush(a, a'); }
    if IsFlush(a') { PokerEvaluator.SameFlush(a', a); }
    DecideCancels(a, b, a', b, 14);
  }
}
