/** `CheckShunZi`: the search for five cards in a row. */
module PokerStraight {
  import opened PokerRanking
  import opened PokerBest

  /** `GetCardFaceNum(aceHigh)`. */
  function FaceNum(c: Card, aceHigh: bool): nat {
    if aceHigh then Rank(c) else c.face
  }

  ghost predicate RankOrdered(cards: seq<Card>) {
    forall i, j | 0 <= i < j < |cards| :: Rank(cards[i]) <= Rank(cards[j])
  }

  /** The face numbers ascend up to position `m`; after it come only low aces. */
  ghost predicate Scannable(cards: seq<Card>, aceHigh: bool, m: nat) {
    && m <= |cards|
    && (forall i, j | 0 <= i < j < m :: FaceNum(cards[i], aceHigh) <= FaceNum(cards[j], aceHigh))
    && (forall i | m <= i < |cards| :: FaceNum(cards[i], aceHigh) == 1)
    && m >= 2 && FaceNum(cards[m - 1], aceHigh) >= 2
  }

  ghost predicate Present(cards: seq<Card>, aceHigh: bool, x: int) {
    exists i :: 0 <= i < |cards| && FaceNum(cards[i], aceHigh) == x
  }

  /** Five face numbers in a row, from `b` up. */
  ghost predicate RunFrom(cards: seq<Card>, aceHigh: bool, b: int) {
    forall x | b <= x < b + 5 :: Present(cards, aceHigh, x)
  }

  ghost predicate IsRun(run: seq<Card>, aceHigh: bool, b: int) {
    |run| == 5 && forall d | 0 <= d < 5 :: FaceNum(run[d], aceHigh) == b + d
  }

  ghost predicate FaceOrdered(cards: seq<Card>, aceHigh: bool) {
    forall i, j | 0 <= i < j < |cards| :: FaceNum(cards[i], aceHigh) <= FaceNum(cards[j], aceHigh)
  }

  /** At position `i`: the ranks from this one up are held `count` steps further,
      not one more, and no run starts above it. */
  ghost predicate ScanState(top: seq<Card>, aceHigh: bool, i: nat, count: nat) {
    && i < |top| && count < 4
    && (forall x | FaceNum(top[i], aceHigh) <= x <= FaceNum(top[i], aceHigh) + count :: Present(top, aceHigh, x))
    && !Present(top, aceHigh, FaceNum(top[i], aceHigh) + count + 1)
    && forall b | b > FaceNum(top[i], aceHigh) :: !RunFrom(top, aceHigh, b)
  }

  lemma ScanStart(top: seq<Card>, aceHigh: bool)
    requires top != [] && FaceOrdered(top, aceHigh)
    ensures ScanState(top, aceHigh, |top| - 1, 0)
  {
    forall b | b > FaceNum(top[|top| - 1], aceHigh) ensures !RunFrom(top, aceHigh, b) {
      assert !Present(top, aceHigh, b);
    }
  }

  /** No run starts at the current face number either: it lacks its end. */
  lemma NoneHere(top: seq<Card>, aceHigh: bool, i: nat, count: nat)
    requires ScanState(top, aceHigh, i, count)
    ensures forall b | b >= FaceNum(top[i], aceHigh) :: !RunFrom(top, aceHigh, b)
  {
    var b := FaceNum(top[i], aceHigh);
    assert !Present(top, aceHigh, b + count + 1);
    assert !RunFrom(top, aceHigh, b);
  }

  lemma ScanStep(top: seq<Card>, aceHigh: bool, i: nat, count: nat)
    requires 0 < i && FaceOrdered(top, aceHigh) && ScanState(top, aceHigh, i, count)
    ensures var v, w := FaceNum(top[i], aceHigh), FaceNum(top[i - 1], aceHigh);
      && (forall b | b > w :: !RunFrom(top, aceHigh, b))
      && (v == w + 1 ==>
           (forall x | w <= x <= w + count + 1 :: Present(top, aceHigh, x)) && !Present(top, aceHigh, w + count + 2))
      && (v == w ==> ScanState(top, aceHigh, i - 1, count))
      && (v > w + 1 ==> ScanState(top, aceHigh, i - 1, 0))
  {
    NoneHere(top, aceHigh, i, count);
    var v, w := FaceNum(top[i], aceHigh), FaceNum(top[i - 1], aceHigh);
    forall b | w < b < v ensures !Present(top, aceHigh, b) && !RunFrom(top, aceHigh, b) {
    }
    assert Present(top, aceHigh, w);
  }

  /** The scan from the top card down, counting steps of one and skipping pairs. */
  method ScanRun(cards: seq<Card>, aceHigh: bool, ghost m: nat) returns (run: seq<Card>)
    requires Scannable(cards, aceHigh, m)
    ensures run == [] ==> forall b :: !RunFrom(cards[..m], aceHigh, b)
    ensures run != [] ==> multiset(run) <= multiset(cards) && IsRun(run, aceHigh, FaceNum(run[0], aceHigh))
    ensures run != [] ==> forall b | b > FaceNum(run[0], aceHigh) :: !RunFrom(cards[..m], aceHigh, b)
  {
    hide ScanState;
    var i := |cards| - 1;
    var count := 0;
    ghost var top := cards[..m];
    if m == |cards| { ScanStart(top, aceHigh); }
    while i > 0
      invariant 0 <= i < |cards| && count < 4
      invariant if i >= m then count == 0 else ScanState(top, aceHigh, i, count)
    {
      if i < m { ScanStep(top, aceHigh, i, count); }
      if i == m { ScanStart(top, aceHigh); }
      var here, below := FaceNum(cards[i], aceHigh), FaceNum(cards[i - 1], aceHigh);
      if here == below + 1 {
        count := count + 1;
        if count == 4 {
          run := Collect(cards, aceHigh, m, i - 1);
          return;
        }
        ScanOneDown(top, aceHigh, i, count);
      } else if here != below {
        count := 0;
      }
      i := i - 1;
    }
    NothingFound(top, aceHigh, count);
    return [];
  }

  lemma ScanOneDown(top: seq<Card>, aceHigh: bool, i: nat, count: nat)
    requires 0 < i < |top| && count < 4
    requires forall x | FaceNum(top[i - 1], aceHigh) <= x <= FaceNum(top[i - 1], aceHigh) + count ::
      Present(top, aceHigh, x)
    requires !Present(top, aceHigh, FaceNum(top[i - 1], aceHigh) + count + 1)
    requires forall b | b > FaceNum(top[i - 1], aceHigh) :: !RunFrom(top, aceHigh, b)
    ensures ScanState(top, aceHigh, i - 1, count)
  {
  }

  lemma NothingFound(top: seq<Card>, aceHigh: bool, count: nat)
    requires FaceOrdered(top, aceHigh) && ScanState(top, aceHigh, 0, count)
    ensures forall b :: !RunFrom(top, aceHigh, b)
  {
    NoneHere(top, aceHigh, 0, count);
    forall b | b < FaceNum(top[0], aceHigh) ensures !RunFrom(top, aceHigh, b) {
      assert !Present(top, aceHigh, b);
    }
  }

  /** The inner loop stands at position `j`, with the first cards of the run that
      starts at face number `b` taken from before it. */
  ghost predicate Collecting(cards: seq<Card>, aceHigh: bool, m: nat, b: int, run: seq<Card>, j: nat) {
    && |run| < 5 && j < m <= |cards|
    && multiset(run) <= multiset(cards[..j])
    && (forall d | 0 <= d < |run| :: FaceNum(run[d], aceHigh) == b + d)
    && FaceNum(cards[j], aceHigh) == b + |run|
  }

  ghost predicate Collected(cards: seq<Card>, aceHigh: bool, b: int, run: seq<Card>) {
    multiset(run) <= multiset(cards) && IsRun(run, aceHigh, b)
  }

  /** The inner loop: one card of each of the five face numbers from position
      `start` up, the last of each group of equals. */
  method Collect(cards: seq<Card>, aceHigh: bool, ghost m: nat, start: nat) returns (run: seq<Card>)
    requires Scannable(cards, aceHigh, m) && start < m
    requires RunFrom(cards[..m], aceHigh, FaceNum(cards[start], aceHigh))
    ensures Collected(cards, aceHigh, FaceNum(cards[start], aceHigh), run)
  {
    ghost var b := FaceNum(cards[start], aceHigh);
    run := [];
    var j := start;
    assert Collecting(cards, aceHigh, m, b, run, j);
    assert m <= |cards|;
    hide *;
    while |run| < 5
      invariant |run| <= 5 && j <= m
      invariant if |run| < 5 then j < m && Collecting(cards, aceHigh, m, b, run, j)
                else Collected(cards, aceHigh, b, run)
      decreases m - j
    {
      if j + 1 < |cards| && FaceNum(cards[j], aceHigh) == FaceNum(cards[j + 1], aceHigh) {
        PassEqual(cards, aceHigh, m, b, run, j);
      } else {
        TakeNext(cards, aceHigh, m, b, run, j);
        run := run + [cards[j]];
      }
      j := j + 1;
    }
  }

  lemma PassEqual(cards: seq<Card>, aceHigh: bool, m: nat, b: int, run: seq<Card>, j: nat)
    requires Scannable(cards, aceHigh, m) && Collecting(cards, aceHigh, m, b, run, j)
    requires j + 1 < |cards| && FaceNum(cards[j], aceHigh) == FaceNum(cards[j + 1], aceHigh)
    ensures j + 1 < m && Collecting(cards, aceHigh, m, b, run, j + 1)
  {
    EqualsAreInFront(cards, aceHigh, m, j);
    TakenLater(cards, run, j);
  }

  lemma TakeNext(cards: seq<Card>, aceHigh: bool, m: nat, b: int, run: seq<Card>, j: nat)
    requires Scannable(cards, aceHigh, m) && Collecting(cards, aceHigh, m, b, run, j)
    requires RunFrom(cards[..m], aceHigh, b)
    requires j + 1 < |cards| ==> FaceNum(cards[j], aceHigh) != FaceNum(cards[j + 1], aceHigh)
    ensures j < m && |run| < 5
    ensures |run| < 4 ==> j + 1 < m && Collecting(cards, aceHigh, m, b, run + [cards[j]], j + 1)
    ensures |run| == 4 ==> Collected(cards, aceHigh, b, run + [cards[j]])
  {
    hide Scannable, RunFrom, FaceNum;
    TakenLater(cards, run, j);
    if |run| < 4 {
      NextIsPresent(cards, aceHigh, m, j, b, |run| + 1);
    }
  }

  lemma TakenLater(cards: seq<Card>, run: seq<Card>, j: nat)
    requires j < |cards| && multiset(run) <= multiset(cards[..j])
    ensures multiset(run) <= multiset(cards[..j + 1])
    ensures multiset(run + [cards[j]]) <= multiset(cards[..j + 1]) <= multiset(cards)
  {
    assert cards[..j + 1] == cards[..j] + [cards[j]];
    assert cards == cards[..j + 1] + cards[j + 1..];
  }

  lemma EqualsAreInFront(cards: seq<Card>, aceHigh: bool, m: nat, j: nat)
    requires Scannable(cards, aceHigh, m) && j < m && j + 1 < |cards|
    requires FaceNum(cards[j], aceHigh) == FaceNum(cards[j + 1], aceHigh)
    ensures j + 1 < m
  {
  }

  lemma NextIsPresent(cards: seq<Card>, aceHigh: bool, m: nat, j: nat, b: int, k: nat)
    requires Scannable(cards, aceHigh, m) && j < m && 0 < k < 5
    requires RunFrom(cards[..m], aceHigh, b) && FaceNum(cards[j], aceHigh) == b + k - 1
    requires j + 1 < |cards| ==> FaceNum(cards[j], aceHigh) != FaceNum(cards[j + 1], aceHigh)
    ensures j + 1 < m && FaceNum(cards[j + 1], aceHigh) == b + k
  {
    assert Present(cards[..m], aceHigh, b + k);
    var q :| 0 <= q < m && FaceNum(cards[..m][q], aceHigh) == b + k;
    assert cards[..m][q] == cards[q];
    assert q > j;
  }

  // ---------------------------------------------------------------- CheckShunZi

  lemma HighPresent(cards: seq<Card>, x: int)
    requires forall c | c in cards :: ValidCard(c)
    ensures Present(cards, true, x) <==> Count(cards, x) > 0
    ensures Present(cards, true, x) ==> 2 <= x <= 14
  {
    CountPositive(cards, x);
    if i :| 0 <= i < |cards| && FaceNum(cards[i], true) == x {
      assert ValidCard(cards[i]);
    }
  }

  lemma HighRun(cards: seq<Card>, b: int)
    requires forall c | c in cards :: ValidCard(c)
    ensures RunFrom(cards, true, b) <==> b >= 2 && RunTo(cards, b + 4)
  {
    HighPresent(cards, b);
    HighPresent(cards, b + 1);
    HighPresent(cards, b + 2);
    HighPresent(cards, b + 3);
    HighPresent(cards, b + 4);
  }

  lemma FiveCount(run: seq<Card>, r: int)
    requires |run| == 5
    ensures Count(run, r) == (if Rank(run[0]) == r then 1 else 0) + (if Rank(run[1]) == r then 1 else 0)
      + (if Rank(run[2]) == r then 1 else 0) + (if Rank(run[3]) == r then 1 else 0)
      + (if Rank(run[4]) == r then 1 else 0)
  {
    assert Count(run[5..], r) == 0;
    assert Count(run[4..], r) == (if Rank(run[4]) == r then 1 else 0) + Count(run[5..], r)
      by { assert run[4..][1..] == run[5..]; }
    assert Count(run[3..], r) == (if Rank(run[3]) == r then 1 else 0) + Count(run[4..], r)
      by { assert run[3..][1..] == run[4..]; }
    assert Count(run[2..], r) == (if Rank(run[2]) == r then 1 else 0) + Count(run[3..], r)
      by { assert run[2..][1..] == run[3..]; }
    assert Count(run[1..], r) == (if Rank(run[1]) == r then 1 else 0) + Count(run[2..], r)
      by { assert run[1..][1..] == run[2..]; }
  }

  /** A run of five cards, its ace high or low: no rank twice, and its top. */
  lemma RunTops(run: seq<Card>, aceHigh: bool, b: int)
    requires IsRun(run, aceHigh, b) && (forall c | c in run :: ValidCard(c))
    requires !aceHigh ==> b == 1
    ensures forall r :: Count(run, r) <= 1
    ensures RunTo(run, b + 4) && forall x | b + 4 < x <= 14 :: !RunTo(run, x)
    ensures StraightTop(run, 14) == b + 4 >= 5
  {
    forall d | 0 <= d < 5 ensures ValidCard(run[d]) && FaceNum(run[d], aceHigh) == b + d {
      assert run[d] in run;
    }
    assert ValidCard(run[0]) && ValidCard(run[4]);
    assert FaceNum(run[0], aceHigh) == b && FaceNum(run[4], aceHigh) == b + 4;
    forall r
      ensures Count(run, r) <= 1
      ensures Count(run, r) == 1 <==> (if aceHigh then b <= r <= b + 4 else r == 14 || 2 <= r <= 5) {
      FiveCount(run, r);
    }
    forall x | b + 4 < x <= 14 ensures !RunTo(run, x) {
      assert !Has(run, x) || !Has(run, x - 1);
    }
    StraightTopIs(run, 14);
    assert 1 <= b <= 10 && RunTo(run, b + 4);
  }

  lemma FirstAce(cards: seq<Card>) returns (k: nat)
    requires RankOrdered(cards) && forall c | c in cards :: ValidCard(c)
    ensures k <= |cards| && forall i | 0 <= i < |cards| :: Rank(cards[i]) == 14 <==> i >= k
  {
    k := |cards|;
    while k > 0 && Rank(cards[k - 1]) == 14
      invariant k <= |cards| && forall i | k <= i < |cards| :: Rank(cards[i]) == 14
    {
      k := k - 1;
    }
    assert k > 0 ==> ValidCard(cards[k - 1]);
  }

  lemma OrderedEnds(cards: seq<Card>)
    requires RankOrdered(cards) && cards != [] && (forall c | c in cards :: ValidCard(c))
    requires RunTo(cards, 5)
    ensures cards[|cards| - 1].face == 1 && cards[0].face == 2
  {
    CountPositive(cards, 14);
    CountPositive(cards, 2);
    assert ValidCard(cards[|cards| - 1]) && ValidCard(cards[0]);
  }

  /** The ace in front and the rest, aces last: what the low scan looks at. */
  lemma LowRuns(cards: seq<Card>, low: seq<Card>, k: nat, b: int)
    requires RankOrdered(cards) && (forall c | c in cards :: ValidCard(c)) && 1 <= k < |cards|
    requires forall i | 0 <= i < |cards| :: Rank(cards[i]) == 14 <==> i >= k
    requires low == [cards[|cards| - 1]] + cards[..k]
    ensures b >= 2 && RunFrom(low, false, b) ==> RunTo(cards, b + 4)
    ensures RunTo(cards, 5) ==> RunFrom(low, false, 1)
    ensures b <= 0 ==> !RunFrom(low, false, b)
  {
    forall x ensures Present(low, false, x) <==> x == 1 || (x != 14 && Count(cards, x) > 0) {
      LowPresent(cards, low, k, x);
    }
    if b <= 0 {
      NoFaceZero(cards, b);
      assert !Present(low, false, b);
    }
  }

  lemma NoFaceZero(cards: seq<Card>, x: int)
    requires x <= 0 && forall c | c in cards :: ValidCard(c)
    ensures Count(cards, x) == 0
  {
    NoOtherRanks(cards, x);
  }

  lemma LowPresent(cards: seq<Card>, low: seq<Card>, k: nat, x: int)
    requires (forall c | c in cards :: ValidCard(c)) && 1 <= k < |cards|
    requires forall i | 0 <= i < |cards| :: Rank(cards[i]) == 14 <==> i >= k
    requires low == [cards[|cards| - 1]] + cards[..k]
    ensures Present(low, false, x) <==> x == 1 || (x != 14 && Count(cards, x) > 0)
  {
    CountPositive(cards, x);
    assert low[0].face == 1 by { assert ValidCard(cards[|cards| - 1]); }
    if i :| 0 <= i < |low| && FaceNum(low[i], false) == x {
      if i > 0 {
        assert low[i] == cards[i - 1] && ValidCard(cards[i - 1]);
      }
    }
    if x != 14 && Count(cards, x) > 0 {
      var i :| 0 <= i < |cards| && Rank(cards[i]) == x;
      assert low[i + 1] == cards[i] && ValidCard(cards[i]);
    }
  }

  /** `CheckShunZi`: with the ace high, five cards of the highest run; with the ace
      low, which is tried when there is no such run, five cards from ace to five. */
  method CheckShunZi(cards: seq<Card>, aceHigh: bool) returns (run: seq<Card>)
    requires RankOrdered(cards) && Pack(cards) && |cards| >= 5
    requires !aceHigh ==> StraightTop(cards, 14) <= 5
    ensures run != [] ==> |run| == 5 && multiset(run) <= multiset(cards) && (forall r :: Count(run, r) <= 1)
    ensures run != [] ==> StraightTop(run, 14) == StraightTop(cards, 14) > 0
    ensures run == [] ==> StraightTop(cards, 14) <= (if aceHigh then 5 else 0)
  {
    StraightTopIs(cards, 14);
    if aceHigh {
      assert cards[|cards| - 1] in cards;
      run := ScanRun(cards, true, |cards|);
      assert cards[..|cards|] == cards;
      if run == [] {
        forall x | 6 <= x <= 14 ensures !RunTo(cards, x) {
          HighRun(cards, x - 4);
        }
      } else {
        SubPack(run, cards);
        RunTops(run, true, Rank(run[0]));
        HighRunIsTop(cards, run);
      }
    } else {
      if cards[|cards| - 1].face != 1 || cards[0].face != 2 {
        if RunTo(cards, 5) {
          OrderedEnds(cards);
        }
        return [];
      }
      run := LowRun(cards);
    }
  }

  lemma HighRunIsTop(cards: seq<Card>, run: seq<Card>)
    requires Pack(cards) && |run| == 5 && multiset(run) <= multiset(cards) && IsRun(run, true, Rank(run[0]))
    requires forall b | b > Rank(run[0]) :: !RunFrom(cards, true, b)
    requires StraightTop(run, 14) == Rank(run[0]) + 4
    ensures StraightTop(cards, 14) == StraightTop(run, 14)
  {
    StraightMono(run, cards);
    StraightTopIs(cards, 14);
    SubPack(run, cards);
    assert run[0] in run && ValidCard(run[0]);
    var t := StraightTop(cards, 14);
    if t > StraightTop(run, 14) {
      HighRun(cards, t - 4);
    }
  }

  /** The low scan, when the cards run from a two to an ace. */
  method LowRun(cards: seq<Card>) returns (run: seq<Card>)
    requires RankOrdered(cards) && Pack(cards) && |cards| >= 5
    requires StraightTop(cards, 14) <= 5 && cards[|cards| - 1].face == 1 && cards[0].face == 2
    ensures run != [] ==> |run| == 5 && multiset(run) <= multiset(cards) && (forall r :: Count(run, r) <= 1)
    ensures run != [] ==> StraightTop(run, 14) == StraightTop(cards, 14) > 0
    ensures run == [] ==> StraightTop(cards, 14) == 0
  {
    hide Scannable, RankOrdered, StraightTop, RunTo, RunFrom, Count;
    var rotated := [cards[|cards| - 1]] + cards[..|cards| - 1];
    ghost var k := FirstAce(cards);
    RotatedScannable(cards, rotated, k);
    run := ScanRun(rotated, false, k + 1);
    ghost var low := rotated[..k + 1];
    assert low == [cards[|cards| - 1]] + cards[..k];
    StraightTopIs(cards, 14);
    LowRuns(cards, low, k, 1);
    if run != [] {
      assert multiset(rotated) == multiset(cards) by { assert cards == cards[..|cards| - 1] + [cards[|cards| - 1]]; }
      SubPack(run, cards);
      LowRunStart(cards, run);
      RunTops(run, false, 1);
      StraightMono(run, cards);
    }
  }

  lemma RotatedScannable(cards: seq<Card>, rotated: seq<Card>, k: nat)
    requires RankOrdered(cards) && (forall c | c in cards :: ValidCard(c)) && |cards| >= 5
    requires cards[|cards| - 1].face == 1 && cards[0].face == 2
    requires k <= |cards| && forall i | 0 <= i < |cards| :: Rank(cards[i]) == 14 <==> i >= k
    requires rotated == [cards[|cards| - 1]] + cards[..|cards| - 1]
    ensures 1 <= k < |cards| && Scannable(rotated, false, k + 1)
  {
    assert Rank(cards[0]) == 2 && Rank(cards[|cards| - 1]) == 14;
    forall i | 0 <= i < |cards| ensures ValidCard(cards[i]) {
      assert cards[i] in cards;
    }
    forall i | 1 <= i < |cards| ensures rotated[i] == cards[i - 1] {
    }
  }

  lemma LowRunStart(cards: seq<Card>, run: seq<Card>)
    requires Pack(cards) && Pack(run) && |run| == 5 && multiset(run) <= multiset(cards)
    requires IsRun(run, false, FaceNum(run[0], false)) && StraightTop(cards, 14) <= 5
    ensures FaceNum(run[0], false) == 1
  {
    var b := FaceNum(run[0], false);
    assert ValidCard(run[0]) && ValidCard(run[4]) && run[4] in run;
    if b >= 2 {
      forall d | 0 <= d < 5 ensures Rank(run[d]) == b + d {
      }
      assert IsRun(run, true, b);
      RunTops(run, true, b);
      StraightMono(run, cards);
    }
  }
}
