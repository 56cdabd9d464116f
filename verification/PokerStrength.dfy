/** Every five or more cards have a best hand, and so a strength by which players
    can be compared. */
module PokerStrength {
  import opened PokerRanking
  import opened PokerBest
  import opened PokerEvaluator
  import opened PokerCompare

  // ---------------------------------------------------------------- scores are bounded

  function Power(n: nat): (r: nat)
    ensures r > 0
  {
    if n == 0 then 1 else 15 * Power(n - 1)
  }

  /** A key read as a number of `n` digits to base fifteen. */
  function Digits(key: seq<int>, n: nat): int {
    if n == 0 || key == [] then 0 else key[0] * Power(n - 1) + Digits(key[1..], n - 1)
  }

  predicate RanksOnly(key: seq<int>) {
    forall i | 0 <= i < |key| :: 1 <= key[i] <= 14
  }

  lemma Scale(x: int, y: int, p: nat)
    requires x <= y
    ensures x * p <= y * p && (x + 1) * p == x * p + p && 14 * p + p == 15 * p
  {
  }

  lemma {:induction false} DigitsBounded(key: seq<int>, n: nat)
    requires RanksOnly(key)
    ensures 0 <= Digits(key, n) < Power(n)
  {
    if n > 0 && key != [] {
      DigitsBounded(key[1..], n - 1);
      Scale(key[0], 14, Power(n - 1));
      Scale(0, key[0], Power(n - 1));
    }
  }

  lemma {:induction false} DigitsFollowLex(a: seq<int>, b: seq<int>, n: nat)
    requires RanksOnly(a) && RanksOnly(b) && |a| <= n && |b| <= n && Lex(a, b) > 0
    ensures Digits(a, n) > Digits(b, n)
  {
    var p := Power(n - 1);
    DigitsBounded(a[1..], n - 1);
    Scale(1, a[0], p);
    if b != [] {
      DigitsBounded(b[1..], n - 1);
      if a[0] == b[0] {
        DigitsFollowLex(a[1..], b[1..], n - 1);
      } else {
        Scale(b[0] + 1, a[0], p);
        Scale(b[0], b[0], p);
      }
    }
  }

  function Weight(s: Score): int {
    s.category * Power(5) + Digits(s.key, 5)
  }

  ghost predicate Ordinary(s: Score) {
    0 <= s.category <= 8 && RanksOnly(s.key) && |s.key| <= 5
  }

  lemma ScoreIsOrdinary(hand: seq<Card>)
    requires Pack(hand) && |hand| == 5
    ensures Ordinary(ScoreOf(hand))
  {
    hide ScoreOf, Offered, StraightTop;
    CategoryRange(hand);
    HandOffers(hand);
    StraightScore(hand);
    StraightTopIs(hand, 14);
    var s := ScoreOf(hand);
    if s.category !in {8, 4} {
      OfferedRanks(hand, Pattern(s.category), s.key);
    }
  }

  lemma OfferedRanks(hand: seq<Card>, times: seq<nat>, key: seq<int>)
    requires Offered(hand, times, key)
    ensures |key| == |times| && RanksOnly(key)
  {
  }

  lemma WeightFollowsCompare(x: Score, y: Score)
    requires Ordinary(x) && Ordinary(y) && Compare(x, y) > 0
    ensures 0 <= Weight(y) < Weight(x) < 9 * Power(5)
  {
    DigitsBounded(x.key, 5);
    DigitsBounded(y.key, 5);
    var p := Power(5);
    Scale(x.category, 8, p);
    Scale(0, y.category, p);
    if x.category == y.category {
      DigitsFollowLex(x.key, y.key, 5);
    } else {
      Scale(y.category + 1, x.category, p);
      Scale(y.category, y.category, p);
    }
  }

  // ---------------------------------------------------------------- strength

  lemma DrawnScore(h: seq<Card>, cards: seq<Card>)
    requires Pack(cards) && Drawn(h, cards)
    ensures Ordinary(ScoreOf(h))
  {
    SubPack(h, cards);
    ScoreIsOrdinary(h);
  }

  /** Hands cannot get better for ever. */
  lemma {:induction false} BetterUntilBest(h: seq<Card>, cards: seq<Card>) returns (best: seq<Card>)
    requires Pack(cards) && Drawn(h, cards)
    ensures Best(best, cards)
    decreases 9 * Power(5) - Weight(ScoreOf(h))
  {
    hide ScoreOf, Weight, Ordinary, Compare;
    if Best(h, cards) {
      best := h;
    } else {
      var g :| Drawn(g, cards) && !(Compare(ScoreOf(h), ScoreOf(g)) >= 0);
      CompareIsOrder(ScoreOf(h), ScoreOf(g), ScoreOf(h));
      DrawnScore(h, cards);
      DrawnScore(g, cards);
      WeightFollowsCompare(ScoreOf(g), ScoreOf(h));
      best := BetterUntilBest(g, cards);
    }
  }

  lemma BestExists(cards: seq<Card>)
    requires Pack(cards) && |cards| >= 5
    ensures exists h :: Best(h, cards)
  {
    assert cards == cards[..5] + cards[5..];
    var h := BetterUntilBest(cards[..5], cards);
  }

  /** The score of the best hand that can be drawn. */
  ghost function Strength(cards: seq<Card>): Score
    requires Pack(cards) && |cards| >= 5
  {
    BestExists(cards);
    var h :| Best(h, cards);
    ScoreOf(h)
  }

  lemma StrengthIs(h: seq<Card>, cards: seq<Card>, all: seq<Card>)
    requires Pack(cards) && |cards| >= 5 && Best(h, all) && multiset(all) == multiset(cards)
    ensures Strength(cards) == ScoreOf(h)
  {
    BestExists(cards);
    var g :| Best(g, cards) && Strength(cards) == ScoreOf(g);
    BestIsUnique(h, g, all, cards);
  }

  /** No hand that can be drawn is better than the strength. */
  lemma StrengthIsMost(h: seq<Card>, cards: seq<Card>)
    requires Pack(cards) && |cards| >= 5 && Drawn(h, cards)
    ensures Compare(Strength(cards), ScoreOf(h)) >= 0
  {
    hide ScoreOf, Compare;
    BestExists(cards);
    var g :| Best(g, cards) && Strength(cards) == ScoreOf(g);
  }

  /** What comparing all best hands says about the strengths. */
  lemma ComparedStrengths(a: seq<Card>, b: seq<Card>, all: seq<Card>, other: seq<Card>, r: int)
    requires Pack(a) && |a| >= 5 && Pack(b) && |b| >= 5
    requires multiset(all) == multiset(a) && multiset(other) == multiset(b)
    requires forall h, g | Best(h, all) && Best(g, other) :: r == Compare(ScoreOf(h), ScoreOf(g))
    ensures r == Compare(Strength(a), Strength(b))
  {
    hide ScoreOf, Compare, Best;
    BestExists(a);
    BestExists(b);
    var h :| Best(h, a);
    var g :| Best(g, b);
    SameBest(h, h, a, all);
    SameBest(g, g, b, other);
    StrengthIs(h, a, all);
    StrengthIs(g, b, other);
  }
}
