/** Between the two steps that end a round: a table at which coins are made, and one at
    which they are lost. */
module TexasBetween {
  import opened Wrappers
  import opened TexasPools
  import opened TexasSeats
  import opened TexasRoom

  /** Three players with 90 coins each who have all bet 10. */
  function ThreeCalls(): Seats {
    [Some(Peer(1, CAN_ACT, 90, 10, 0, Pass, 0, [])),
     Some(Peer(2, CAN_ACT, 90, 10, 0, Pass, 0, [])),
     Some(Peer(3, CAN_ACT, 90, 10, 0, Pass, 0, []))]
  }

  lemma ThreeCallsSum()
    ensures Sound(ThreeCalls()) && WealthOf(ThreeCalls(), 0, []) == 300
  {
    ThreeCallsSound();
    SumOfThree(90, 90, 90);
    SumOfThree(10, 10, 10);
    assert PoolCoins([]) == [] && Sum([]) == 0;
    hide Sum, Sound;
    assert Coins(ThreeCalls()) == [90, 90, 90] && Bets(ThreeCalls()) == [10, 10, 10];
  }

  lemma ThreeCallsSound()
    ensures Sound(ThreeCalls())
  {
  }

  lemma SomeElement(s: seq<nat>)
    ensures s == [] || exists i :: i in s
  {
    if s != [] {
      assert s[0] in s;
    }
  }

  /** Without an all-in there is no layer, and the whole bets are left. */
  lemma NoLayers(allIns: seq<nat>, steps: seq<nat>)
    requires forall i :: i in allIns <==> 0 <= i < 3 && WentAllIn(ThreeCalls()[i])
    requires Levels(CountedAll(ThreeCalls()), allIns, steps)
    ensures steps == []
  {
    SomeElement(allIns);
    assert steps == [] || IsBetOfOne(CountedAll(ThreeCalls()), allIns, Sum(steps[..1]));
  }

  lemma CallsCounted()
    ensures LayeredAll(CountedAll(ThreeCalls()), []) == CountedAll(ThreeCalls())
    ensures Bets(CountedAll(ThreeCalls())) == [10, 10, 10] && Coins(CountedAll(ThreeCalls())) == [90, 90, 90]
    ensures forall i | 0 <= i < 3 ::
      var o := CountedAll(ThreeCalls())[i]; Acting(o) && BetOf(o) == 10 && CoinOf(o) == 90
  {
  }

  /** The table after the round is calculated. */
  method CalculatedCalls() returns (room: Room)
    ensures fresh(room) && room.Valid() && room.calculated && room.waiting == 2 && room.Wealth() == 300
    ensures room.seats == CountedAll(ThreeCalls()) && room.counted == [10, 10, 10] && room.Since() == 0
    ensures room.pools == [] && room.main == 30
  {
    hide Sum, Levels, Positive, Built, Listed, Sound, ListInHand, Follows;
    ThreeCallsSum();
    CallsCounted();
    room := new Room(ThreeCalls(), 10, 2, 0);
    ghost var allIns, steps, produced := room.GotoCaculateRound();
    NoLayers(allIns, steps);
    SumOfThree(90, 90, 90);
    BuiltLength(produced, CountedAll(ThreeCalls()), 0, steps);
    assert room.pools == [];
    NoCoins();
  }

  lemma NoCoins()
    ensures PoolCoins([]) == [] && Sum([]) == 0
  {
  }

  /** A give-up in between takes a bet of 10 a second time: of 300 coins 310 are made. */
  method MintingRound() returns (room: Room)
    ensures fresh(room) && WealthOf(room.seats, room.main, room.pools) == 310
  {
    hide Sum, Listed, Sound, ListInHand, Follows, Coins;
    room := CalculatedCalls();
    CallsCounted();
    assert NumberAt(room.counted, 0) == 10 && BetOf(room.PeerAt(0)) == 10;
    var r := room.OnPlayerGiveUp(0);
    ghost var lost := room.LeaveCaculateRound();
    NothingCounted(room);
  }

  lemma NothingCounted(room: Room)
    requires room.Valid() && !room.calculated
    ensures room.Wealth() == WealthOf(room.seats, room.main, room.pools)
  {
  }

  /** An all-in in between reaches no pool: of 300 coins 210 are left. */
  method LosingRound() returns (room: Room)
    ensures fresh(room) && WealthOf(room.seats, room.main, room.pools) == 210
  {
    hide Sum, Listed, Sound, ListInHand, Follows, Coins;
    room := CalculatedCalls();
    StakesOfCalls();
    CallsCounted();
    assert Acting(room.PeerAt(2)) && BetOf(room.PeerAt(2)) == 10 && CoinOf(room.PeerAt(2)) == 90;
    ghost var before := room.seats;
    ghost var r, cap := room.OnPlayerAllIn(2);
    SecondLargestIsUnique(before, cap, 100);
    assert CoinOf(room.PeerAt(2)) == 0;
    ghost var lost := room.LeaveCaculateRound();
    NothingCounted(room);
  }

  lemma StakesOfCalls()
    ensures SecondLargest(CountedAll(ThreeCalls()), 100)
  {
    var seats := CountedAll(ThreeCalls());
    assert seats == [] + [seats[0]] + [seats[1]] + [seats[2]];
    forall x | x == 100 || x == 101 ensures CountAtLeast(seats, x) == if x == 100 then 3 else 0 {
      OneMoreSeat([], seats[0], x);
      OneMoreSeat([] + [seats[0]], seats[1], x);
      OneMoreSeat([] + [seats[0]] + [seats[1]], seats[2], x);
    }
  }
}
