/** Coins that nobody gets: a hand in which the strongest player folds after paying into a
    pool, and one in which no one is left to win the main pool. */
module TexasUnpaid {
  import opened Wrappers
  import opened StdVector
  import opened PokerRanking
  import opened PokerBest
  import opened PokerCompare
  import opened PokerStrength
  import opened TexasPools
  import opened TexasSeats
  import opened TexasTable
  import opened TexasRoom
  import opened TexasBetween
  import opened TexasPayout
  import opened TexasHand

  // ---------------------------------------------------------------- a folded winner

  const ROYAL_BOARD: seq<Card> := [Card(0, 1), Card(0, 13), Card(0, 12), Card(0, 11), Card(1, 2)]

  const FIRST: seq<Card> := [Card(0, 10), Card(1, 3)]
  const SECOND: seq<Card> := [Card(2, 2), Card(2, 3)]
  const THIRD: seq<Card> := [Card(3, 2), Card(3, 3)]

  /** Two players with 90 coins who have bet 10, the first one with cards for a royal flush,
      and one with 10 coins whose turn it is. */
  function RoyalTable(): Seats {
    [Some(Peer(1, CAN_ACT, 90, 10, 0, Pass, 0, FIRST)),
     Some(Peer(2, CAN_ACT, 90, 10, 0, Pass, 0, SECOND)),
     Some(Peer(3, CAN_ACT, 10, 0, 0, NoAct, 0, THIRD))]
  }

  ghost predicate Holds(o: Option<Peer>, cards: seq<Card>) {
    o.Some? && o.value.hold == cards && o.value.win == 0
  }

  /** These three players sit there, each with the cards. */
  ghost predicate RoyalHands(seats: Seats) {
    |seats| == 3 && Holds(seats[0], FIRST) && Holds(seats[1], SECOND) && Holds(seats[2], THIRD)
  }

  /** Nothing beats an ace-high straight flush. */
  lemma RoyalIsMost(royal: seq<Card>, hand: seq<Card>)
    requires StraightTop(royal, 14) == 14 && IsFlush(royal)
    ensures Compare(ScoreOf(royal), ScoreOf(hand)) >= 0
  {
    hide StraightTop, IsFlush, Groups;
    StraightScore(hand);
    StraightTopIs(hand, 14);
    assert [14][1..] == [];
  }

  lemma RoyalScore(cards: seq<Card>, others: seq<Card>, royal: seq<Card>)
    requires Pack(cards) && Pack(others) && |cards| >= 5 && |others| >= 5
    requires Drawn(royal, cards) && StraightTop(royal, 14) == 14 && IsFlush(royal)
    ensures Compare(Strength(cards), Strength(others)) >= 0
  {
    hide ScoreOf, Compare, StraightTop, IsFlush;
    StrengthIsMost(royal, cards);
    BestExists(others);
    var g :| Best(g, others) && Strength(others) == ScoreOf(g);
    RoyalIsMost(royal, g);
    CompareIsOrder(Strength(cards), ScoreOf(royal), Strength(others));
  }

  /** The five cards of the first player that make the royal flush. */
  const ROYAL: seq<Card> := [Card(0, 1), Card(0, 13), Card(0, 12), Card(0, 11), Card(0, 10)]

  lemma RoyalIsAceHigh()
    ensures StraightTop(ROYAL, 14) == 14 && IsFlush(ROYAL)
  {
    CountPositive(ROYAL, 14);
    CountPositive(ROYAL, 13);
    CountPositive(ROYAL, 12);
    CountPositive(ROYAL, 11);
    CountPositive(ROYAL, 10);
    hide Count;
    assert Rank(ROYAL[0]) == 14 && Rank(ROYAL[1]) == 13 && Rank(ROYAL[2]) == 12;
    assert Rank(ROYAL[3]) == 11 && Rank(ROYAL[4]) == 10;
    assert RunTo(ROYAL, 14);
  }

  lemma {:induction false} AtMostOnce(cards: seq<Card>, c: Card)
    requires NoTwice(cards)
    ensures multiset(cards)[c] <= 1
  {
    if cards != [] {
      assert cards == [cards[0]] + cards[1..];
      AtMostOnce(cards[1..], c);
      assert c == cards[0] ==> c !in multiset(cards[1..]);
    }
  }

  lemma DifferentCardsAreAPack(cards: seq<Card>)
    requires NoTwice(cards) && forall k | 0 <= k < |cards| :: ValidCard(cards[k])
    ensures Pack(cards)
  {
    forall c: Card ensures multiset(cards)[c] <= 1 {
      AtMostOnce(cards, c);
    }
  }

  lemma FirstIsDealt(o: Option<Peer>)
    requires Holds(o, FIRST)
    ensures Dealt(o, ROYAL_BOARD) && Drawn(ROYAL, CardsOf(o.value, ROYAL_BOARD))
  {
    hide Pack;
    var mine := CardsOf(o.value, ROYAL_BOARD);
    assert mine == [Card(0, 10), Card(1, 3), Card(0, 1), Card(0, 13), Card(0, 12), Card(0, 11), Card(1, 2)];
    DifferentCardsAreAPack(mine);
    RoyalIsDrawn(mine);
  }

  /** The others have a two and a three of one suit. */
  lemma OtherIsDealt(o: Option<Peer>, suit: nat)
    requires 2 <= suit < 4 && Holds(o, [Card(suit, 2), Card(suit, 3)])
    ensures Dealt(o, ROYAL_BOARD)
  {
    hide Pack;
    var theirs := CardsOf(o.value, ROYAL_BOARD);
    assert theirs ==
      [Card(suit, 2), Card(suit, 3), Card(0, 1), Card(0, 13), Card(0, 12), Card(0, 11), Card(1, 2)];
    DifferentCardsAreAPack(theirs);
  }

  lemma AllDealt(seats: Seats)
    requires RoyalHands(seats)
    ensures PeersDealt(seats, ROYAL_BOARD, [0, 1, 2])
  {
    hide Dealt;
    FirstIsDealt(seats[0]);
    OtherIsDealt(seats[1], 2);
    OtherIsDealt(seats[2], 3);
  }

  lemma RoyalIsDrawn(mine: seq<Card>)
    requires mine == [Card(0, 10), Card(1, 3), Card(0, 1), Card(0, 13), Card(0, 12), Card(0, 11), Card(1, 2)]
    ensures Drawn(ROYAL, mine)
  {
    assert mine == [Card(0, 10)] + [Card(1, 3)] + ROYAL[..4] + [Card(1, 2)];
    assert ROYAL == ROYAL[..4] + [Card(0, 10)];
  }

  lemma RoyalWins(o: Option<Peer>, other: Option<Peer>)
    requires Holds(o, FIRST) && other.Some? && Dealt(other, ROYAL_BOARD)
    ensures Dealt(o, ROYAL_BOARD)
    ensures Compare(Strength(CardsOf(o.value, ROYAL_BOARD)), Strength(CardsOf(other.value, ROYAL_BOARD))) >= 0
  {
    hide Strength, Compare, Pack, Drawn, StraightTop, IsFlush;
    FirstIsDealt(o);
    RoyalIsAceHigh();
    RoyalScore(CardsOf(o.value, ROYAL_BOARD), CardsOf(other.value, ROYAL_BOARD), ROYAL);
  }

  lemma FirstIsStrongest(seats: Seats)
    requires RoyalHands(seats)
    ensures Strongest(seats, ROYAL_BOARD, [0, 1, 2], 0)
  {
    hide Strength, Compare, Dealt, CardsOf;
    AllDealt(seats);
    assert Seated(seats, [0, 1, 2], 0);
    forall j: nat | Seated(seats, [0, 1, 2], j)
      ensures Compare(StrengthAt(seats, ROYAL_BOARD, 0), StrengthAt(seats, ROYAL_BOARD, j)) >= 0 {
      RoyalWins(seats[0], seats[j]);
    }
  }

  lemma {:induction false} AscendsBelow(s: seq<nat>, n: nat)
    requires Ascends(s) && forall i | 0 <= i < |s| :: s[i] < n
    ensures |s| <= n
  {
    if s != [] {
      AscendsBelow(s[..|s| - 1], s[|s| - 1]);
    }
  }

  lemma RestOfFolded(pool: Pool, seats: Seats)
    requires Ascends(pool.winners) && 0 in pool.winners && forall i | i in pool.winners :: i < 3
    requires pool.coins == 30 && |seats| == 3 && !InHand(seats[0])
    ensures Rest(pool, seats) >= 10
  {
    var winners := pool.winners;
    forall i | 0 <= i < |winners| ensures winners[i] < 3 {
      assert winners[i] in winners;
    }
    AscendsBelow(winners, 3);
    var q :| 0 <= q < |winners| && winners[q] == 0;
    assert winners[0] <= winners[q];
    hide InHand;
    assert Received(pool, seats, 0) == 0;
    assert Received(pool, seats, 1) == 0;
    if |winners| >= 2 {
      assert Received(pool, seats, 2) <= Share(pool);
    }
  }

  /** A winner who has folded is not paid: at least a third of the pool goes to nobody. */
  lemma FoldedWinnerIsNotPaid(seats: Seats, winners: seq<nat>)
    requires RoyalHands(seats) && !InHand(seats[0]) && AreWinners(seats, ROYAL_BOARD, [0, 1, 2], winners)
    ensures 0 in winners && !StrongestStayed(seats, ROYAL_BOARD, [0, 1, 2])
    ensures Rest(Pool(30, [0, 1, 2], winners), seats) >= 10
  {
    FirstIsStrongest(seats);
    WinnersAreSeated(seats, ROYAL_BOARD, [0, 1, 2], winners);
    hide Strongest, PeersDealt;
    assert 0 in winners;
    RestOfFolded(Pool(30, [0, 1, 2], winners), seats);
  }

  // ---------------------------------------------------------------- the hand itself

  lemma RoyalTableSum()
    ensures Sound(RoyalTable()) && WealthOf(RoyalTable(), 0, []) == 210 && RoyalHands(RoyalTable())
  {
    RoyalTableSound();
    SumOfThree(90, 90, 10);
    SumOfThree(10, 10, 0);
    assert PoolCoins([]) == [] && Sum([]) == 0;
    hide Sum, Sound;
    assert Coins(RoyalTable()) == [90, 90, 10] && Bets(RoyalTable()) == [10, 10, 0];
  }

  lemma RoyalTableSound()
    ensures Sound(RoyalTable())
  {
  }

  lemma StakesOfRoyal()
    ensures SecondLargest(RoyalTable(), 100)
  {
    var seats := RoyalTable();
    assert seats == [] + [seats[0]] + [seats[1]] + [seats[2]];
    forall x | x == 100 || x == 101 ensures CountAtLeast(seats, x) == if x == 100 then 2 else 0 {
      OneMoreSeat([], seats[0], x);
      OneMoreSeat([] + [seats[0]], seats[1], x);
      OneMoreSeat([] + [seats[0]] + [seats[1]], seats[2], x);
    }
  }

  /** After the third player's all-in everyone has bet 10. */
  ghost predicate AllBetTen(seats: Seats) {
    && RoyalHands(seats) && (forall i | 0 <= i < 3 :: InHand(seats[i]) && BetOf(seats[i]) == 10)
    && forall i | 0 <= i < 3 :: WentAllIn(seats[i]) <==> i == 2
  }

  lemma TenCounted(seats: Seats)
    requires AllBetTen(seats)
    ensures AllBetTen(CountedAll(seats))
  {
  }

  /** One layer of 10, which all three pay. */
  lemma OneLayer(seats: Seats, allIns: seq<nat>, steps: seq<nat>)
    requires AllBetTen(seats) && Positive(steps) && Levels(CountedAll(seats), allIns, steps)
    requires forall i :: i in allIns <==> 0 <= i < |seats| && WentAllIn(seats[i])
    ensures steps == [10]
  {
    TenCounted(seats);
    var start := CountedAll(seats);
    assert 2 in allIns;
    var q :| 0 <= q < |allIns| && allIns[q] == 2;
    assert IsLevel(BetOf(start[allIns[q]]), steps);
    var j :| 0 <= j <= |steps| && 10 == Sum(steps[..j]);
    forall n | 1 <= n <= |steps| ensures Sum(steps[..n]) == 10 {
      assert IsBetOfOne(start, allIns, Sum(steps[..n]));
      var p :| 0 <= p < |allIns| && allIns[p] < |start| && BetOf(start[allIns[p]]) == Sum(steps[..n]);
    }
    hide Levels, IsLevel, AllBetTen, CountedAll;
    assert Sum(steps[..0]) == 0;
    if |steps| > 1 {
      Rising(steps, 1, 2);
    }
    SumNext(steps, 0);
  }

  lemma ThreeListed(peers: seq<nat>)
    requires Ascends(peers) && forall i :: i in peers <==> 0 <= i < 3
    ensures peers == [0, 1, 2]
  {
    forall i | 0 <= i < |peers| ensures peers[i] < 3 {
      assert peers[i] in peers;
    }
    AscendsBelow(peers, 3);
    assert 0 in peers && 1 in peers && 2 in peers;
    var a :| 0 <= a < |peers| && peers[a] == 0;
    var b :| 0 <= b < |peers| && peers[b] == 1;
    var c :| 0 <= c < |peers| && peers[c] == 2;
    assert a < b < c;
  }

  lemma PoolOfThirty(produced: seq<Pool>, seats: Seats)
    requires AllBetTen(seats) && Built(produced, CountedAll(seats), 0, [10])
    ensures produced == [Pool(30, [0, 1, 2], [])]
    ensures RoyalHands(LayeredAll(CountedAll(seats), [10]))
  {
    TenCounted(seats);
    var start := CountedAll(seats);
    PayersAre(start, [10], 0);
    assert [10][..0] == [];
    assert forall i :: i in Payers(start, [10], 0) <==> 0 <= i < 3;
    ThreeListed(Payers(start, [10], 0));
  }

  /** Betting up to the end of the round: the third player goes all in. */
  method BetTen() returns (room: Room)
    ensures fresh(room) && room.Valid() && !room.calculated && RoyalHands(room.seats)
    ensures room.pools == [Pool(30, [0, 1, 2], [])]
  {
    hide Sum, Levels, Positive, Built, Listed, Sound, ListInHand, Follows, After, Table.Wealth, Table.Since;
    RoyalTableSum();
    StakesOfRoyal();
    room := new Room(RoyalTable(), 10, 2, 0);
    ghost var r, cap := room.OnPlayerAllIn(2);
    SecondLargestIsUnique(RoyalTable(), cap, 100);
    AfterTheAllIn(room.seats);
    ghost var before := room.seats;
    ghost var allIns, steps, produced := room.GotoCaculateRound();
    OneLayer(before, allIns, steps);
    PoolOfThirty(produced, before);
    ghost var layered := room.seats;
    ghost var lost := room.LeaveCaculateRound();
    HandsStay(layered, room.seats);
  }

  lemma AfterTheAllIn(seats: Seats)
    requires seats == RoyalTable()[2 := Some(AfterAllIn(RoyalTable()[2].value, 10))]
    ensures AllBetTen(seats)
  {
  }

  lemma HandsStay(before: Seats, after: Seats)
    requires RoyalHands(before)
    requires |after| == |before| && forall i | 0 <= i < |before| :: after[i] == RoundEnded(before[i])
    ensures RoyalHands(after)
  {
  }

  /** The player with the royal flush folds after paying into the pool, wins it, and is not
      paid: of 30 coins at least 10 are left to nobody. */
  method FoldedHand() returns (room: Room)
    ensures fresh(room) && |room.pools| >= 1 && |room.seats| == 3 && !InHand(room.seats[0])
    ensures room.pools[0].coins == 30 && 0 in room.pools[0].winners && Rest(room.pools[0], room.seats) >= 10
  {
    hide Sum, Sound, Follows, AreWinners, Dealt, Rest, Payments, StrongestStayed;
    room := BetTen();
    ghost var early := room.seats;
    var r := room.OnPlayerGiveUp(0);
    FirstFolds(early, room.seats);
    ghost var before := room.seats;
    DealtInPools(room.pools, before);
    OnCaculateGameResult(room, ROYAL_BOARD);
    FoldedWinnerIsNotPaid(before, room.pools[0].winners);
    PaymentFollows(room.seats, before, room.pools);
    SameRests(room.pools, room.seats, before);
    assert Rests(room.pools, room.seats)[0] == Rests(room.pools, before)[0];
  }

  lemma FirstFolds(before: Seats, after: Seats)
    requires RoyalHands(before) && after == before[0 := Some(Folded(before[0].value))]
    ensures RoyalHands(after) && !InHand(after[0])
  {
    assert 7 !in GIVE_UP && 7 in WAIT_CACULATE;
  }

  lemma DealtInPools(pools: seq<Pool>, seats: Seats)
    requires RoyalHands(seats) && pools == [Pool(30, [0, 1, 2], [])]
    ensures PoolsDealt(pools, seats, ROYAL_BOARD) && ActingDealt(seats, ROYAL_BOARD)
  {
    hide Dealt;
    AllDealt(seats);
    forall i | 0 <= i < |seats| ensures Dealt(seats[i], ROYAL_BOARD) {
      assert Seated(seats, [0, 1, 2], i);
    }
  }

  // ---------------------------------------------------------------- a main pool for nobody

  ghost predicate HasFolded(o: Option<Peer>) {
    o.Some? && o.value.state == GIVE_UP && o.value.coin == 90
  }

  lemma AllHaveFolded(seats: Seats)
    requires |seats| == 3 && forall i | 0 <= i < 3 :: HasFolded(seats[i])
    ensures forall i | 0 <= i < 3 :: !Acting(seats[i]) && !InHand(seats[i])
  {
    assert 7 !in GIVE_UP && 7 in WAIT_CACULATE && 7 in CAN_ACT;
  }

  lemma NobodyIsPaid(before: Seats, after: Seats, board: seq<Card>, pools: seq<Pool>)
    requires |before| == |after| == 3 && forall i | 0 <= i < 3 :: HasFolded(before[i])
    requires forall i | 0 <= i < 3 :: after[i] == CashedIn(Won(before[i], Payments(pools, i)))
    requires Decided(pools, [], 30, before, board)
    ensures |pools| == 1 && pools[0].coins == 30 && pools[0].winners == [] && Rest(pools[0], after) == 30
    ensures Sum(Coins(after)) == 270
  {
    hide Payments, AreWinners, Sum, Rest;
    AllHaveFolded(before);
    PaymentFollows(after, before, pools);
    CoinsStay(before, after, pools);
    hide HasFolded, CashedIn, Won, SameInHand, ListsActing;
    MainPoolPaid(before, board, pools[0]);
    NobodyListed(before, board, pools[0]);
    SameRests(pools, after, before);
    assert Rests(pools, after)[0] == Rests(pools, before)[0];
  }

  lemma CoinsStay(before: Seats, after: Seats, pools: seq<Pool>)
    requires |before| == |after| == 3 && forall i | 0 <= i < 3 :: HasFolded(before[i]) && !InHand(before[i])
    requires forall i | 0 <= i < 3 :: after[i] == CashedIn(Won(before[i], Payments(pools, i)))
    ensures Sum(Coins(after)) == 270
  {
    hide Payments, Sum;
    assert Coins(after) == [90, 90, 90];
    SumOfThree(90, 90, 90);
  }

  lemma NobodyListed(seats: Seats, board: seq<Card>, pool: Pool)
    requires AreWinners(seats, board, pool.peers, pool.winners) && ListsActing(pool.peers, seats)
    requires forall i | 0 <= i < |seats| :: !Acting(seats[i])
    ensures pool.winners == []
  {
    SomeoneWins(seats, board, pool.peers, pool.winners);
  }

  method EveryoneFolds() returns (room: Room)
    ensures fresh(room) && room.Valid() && room.pools == [] && room.main == 30
    ensures |room.seats| == 3 && forall i | 0 <= i < 3 :: HasFolded(room.seats[i])
  {
    hide Sum, After, Table.Valid, Table.Wealth, Table.Since, Follows, Bets, ZeroAt, NumberAt;
    room := CalculatedCalls();
    ghost var lost := room.LeaveCaculateRound();
    var r := room.OnPlayerGiveUp(0);
    r := room.OnPlayerGiveUp(1);
    r := room.OnPlayerGiveUp(2);
  }

  /** All three players give up after the round: 30 of 300 coins are nobody's. */
  method EveryoneGivesUp(board: seq<Card>) returns (room: Room)
    ensures fresh(room) && room.pools != [] && Sum(Coins(room.seats)) == 270
    ensures room.pools[0].coins == 30 && room.pools[0].winners == [] && Rest(room.pools[0], room.seats) == 30
  {
    hide Sum, Sound, Follows, AreWinners, Coins, Table.Valid;
    room := EveryoneFolds();
    ghost var before := room.seats;
    AllHaveFolded(before);
    OnCaculateGameResult(room, board);
    NobodyIsPaid(before, room.seats, board, room.pools);
  }
}
