/** `CTaxasRoomData`: the players' actions and the end of a betting round, each method proved
    to do what a move does to the table as a value. */
module TexasRoom {
  import opened Wrappers
  import opened StdSort
  import opened TexasPools
  import opened TexasSeats
  import opened TexasTable

  // ---------------------------------------------------------------- layering

  ghost predicate IsLevel(bet: nat, steps: seq<nat>) {
    exists j :: 0 <= j <= |steps| && bet == Sum(steps[..j])
  }

  ghost predicate IsBetOfOne(seats: Seats, allIns: seq<nat>, bet: nat) {
    exists q :: 0 <= q < |allIns| && allIns[q] < |seats| && BetOf(seats[allIns[q]]) == bet
  }

  /** Every all-in bet is the top of a layer, or zero, and every layer's top is one. */
  ghost predicate Levels(seats: Seats, allIns: seq<nat>, steps: seq<nat>) {
    && (forall q | 0 <= q < |allIns| :: allIns[q] < |seats| && IsLevel(BetOf(seats[allIns[q]]), steps))
    && (forall j | 1 <= j <= |steps| :: IsBetOfOne(seats, allIns, Sum(steps[..j])))
  }

  /** After the first `k` all-ins, in the order of their bets. */
  ghost predicate Layering(start: Seats, sorted: seq<nat>, k: nat, steps: seq<nat>, seats: Seats, produced: seq<Pool>,
                           main: nat) {
    && k <= |sorted| && (forall q | 0 <= q < |sorted| :: sorted[q] < |start| && InHand(start[sorted[q]]))
    && (forall p, q | 0 <= p < q < |sorted| :: BetOf(start[sorted[p]]) <= BetOf(start[sorted[q]]))
    && seats == LayeredAll(start, steps) && Positive(steps) && Built(produced, start, main, steps)
    && Sum(steps) == (if k == 0 then 0 else BetOf(start[sorted[k - 1]]))
    && Levels(start, sorted[..k], steps)
  }

  /** What is left of the next all-in's bet is what it exceeds the last level by. */
  lemma NextStep(start: Seats, sorted: seq<nat>, k: nat, steps: seq<nat>, seats: Seats, produced: seq<Pool>, main: nat)
    requires Layering(start, sorted, k, steps, seats, produced, main) && k < |sorted|
    ensures |seats| == |start| && sorted[k] < |seats| && seats[sorted[k]].Some?
    ensures BetOf(start[sorted[k]]) == Sum(steps) + BetOf(seats[sorted[k]])
  {
    assert steps[..|steps|] == steps;
    if k > 0 {
      assert BetOf(start[sorted[k - 1]]) <= BetOf(start[sorted[k]]);
    }
    LeftCovers(BetOf(start[sorted[k]]), steps, |steps|);
  }

  lemma SameLevel(start: Seats, sorted: seq<nat>, k: nat, steps: seq<nat>, seats: Seats, produced: seq<Pool>, main: nat)
    requires Layering(start, sorted, k, steps, seats, produced, main) && k < |sorted|
    requires BetOf(start[sorted[k]]) == Sum(steps)
    ensures Layering(start, sorted, k + 1, steps, seats, produced, main)
  {
    hide Sum, LayeredAll, Built;
    assert steps[..|steps|] == steps;
    LevelsMore(start, sorted, k, steps);
  }

  lemma BetOfOneMore(seats: Seats, allIns: seq<nat>, k: nat, bet: nat)
    requires k < |allIns| && allIns[k] < |seats|
    ensures IsBetOfOne(seats, allIns[..k], bet) ==> IsBetOfOne(seats, allIns[..k + 1], bet)
    ensures IsBetOfOne(seats, allIns[..k + 1], BetOf(seats[allIns[k]]))
  {
    var less, more := allIns[..k], allIns[..k + 1];
    assert more[k] == allIns[k];
    if q :| 0 <= q < |less| && less[q] < |seats| && BetOf(seats[less[q]]) == bet {
      assert more[q] == less[q];
    }
  }

  lemma LevelsMore(start: Seats, sorted: seq<nat>, k: nat, steps: seq<nat>)
    requires k < |sorted| && sorted[k] < |start| && Levels(start, sorted[..k], steps)
    requires BetOf(start[sorted[k]]) == Sum(steps[..|steps|])
    ensures Levels(start, sorted[..k + 1], steps)
  {
    hide Sum, IsBetOfOne, BetOf;
    forall j | 1 <= j <= |steps| ensures IsBetOfOne(start, sorted[..k + 1], Sum(steps[..j])) {
      BetOfOneMore(start, sorted, k, Sum(steps[..j]));
    }
    assert IsLevel(BetOf(start[sorted[k]]), steps);
    hide IsLevel;
    forall q | 0 <= q < k ensures sorted[..k + 1][q] == sorted[..k][q] {
    }
  }

  lemma LevelStays(bet: nat, steps: seq<nat>, step: nat)
    requires IsLevel(bet, steps)
    ensures IsLevel(bet, steps + [step])
  {
    var j :| 0 <= j <= |steps| && bet == Sum(steps[..j]);
    assert (steps + [step])[..j] == steps[..j];
  }

  lemma TopIsLevel(steps: seq<nat>, step: nat)
    ensures IsLevel(Sum(steps) + step, steps + [step])
  {
    SumAppend(steps, step);
    assert (steps + [step])[..|steps| + 1] == steps + [step];
  }

  lemma LevelsOnTop(start: Seats, sorted: seq<nat>, k: nat, steps: seq<nat>, step: nat)
    requires k < |sorted| && sorted[k] < |start| && Levels(start, sorted[..k], steps)
    requires BetOf(start[sorted[k]]) == Sum(steps) + step
    ensures Levels(start, sorted[..k + 1], steps + [step])
  {
    hide Sum, IsBetOfOne, BetOf, IsLevel;
    var more, taller := sorted[..k + 1], steps + [step];
    TopIsLevel(steps, step);
    forall j | 1 <= j <= |taller| ensures IsBetOfOne(start, more, Sum(taller[..j])) {
      if j <= |steps| {
        assert taller[..j] == steps[..j];
        BetOfOneMore(start, sorted, k, Sum(steps[..j]));
      } else {
        assert taller[..j] == taller;
        SumAppend(steps, step);
        BetOfOneMore(start, sorted, k, 0);
      }
    }
    forall q | 0 <= q < |more| ensures more[q] < |start| && IsLevel(BetOf(start[more[q]]), taller) {
      if q < k {
        assert more[q] == sorted[..k][q];
        LevelStays(BetOf(start[more[q]]), steps, step);
      } else {
        assert more[q] == sorted[k];
      }
    }
  }

  lemma NewLayer(start: Seats, sorted: seq<nat>, k: nat, steps: seq<nat>, seats: Seats, produced: seq<Pool>, main: nat,
                 step: nat, after: Seats, coins: nat, peers: seq<nat>)
    requires Layering(start, sorted, k, steps, seats, produced, main) && k < |sorted|
    requires step > 0 && BetOf(start[sorted[k]]) == Sum(steps) + step
    requires |after| == |seats| && forall i | 0 <= i < |seats| :: after[i] == Peel(seats[i], step)
    requires peers == Paying(seats, step, |seats|) && coins == (if steps == [] then main else 0) + step * |peers|
    ensures Layering(start, sorted, k + 1, steps + [step], after, produced + [Pool(coins, peers, [])], main)
  {
    hide Sum, LayeredAll, Built, Levels, Peel, Paying;
    LayerOnTop(start, steps, step);
    assert after == LayeredAll(start, steps + [step]);
    BuiltNext(produced, start, main, steps, step, coins);
    LevelsOnTop(start, sorted, k, steps, step);
    SumAppend(steps, step);
  }

  lemma LayeringStart(start: Seats, sorted: seq<nat>, main: nat)
    requires forall q | 0 <= q < |sorted| :: sorted[q] < |start| && InHand(start[sorted[q]])
    requires forall p, q | 0 <= p < q < |sorted| :: BetOf(start[sorted[p]]) <= BetOf(start[sorted[q]])
    ensures Layering(start, sorted, 0, [], start, [], main)
  {
    assert LayeredAll(start, []) == start;
  }

  predicate HasFlags(o: Option<Peer>, flags: State) {
    o.Some? && o.value.Has(flags)
  }

  /** Going around from `begin`, place `k` is the first of a player who can act. */
  ghost predicate IsFirstActing(seats: Seats, begin: nat, k: nat) {
    begin <= k < 2 * |seats| && Acting(seats[k % |seats|]) && forall q | begin <= q < k :: !Acting(seats[q % |seats|])
  }

  ghost predicate IsNextActing(seats: Seats, begin: nat, idx: int) {
    if exists k: nat :: IsFirstActing(seats, begin, k)
    then exists k: nat :: IsFirstActing(seats, begin, k) && idx == k % |seats|
    else idx == 0 && forall q | begin <= q < 2 * |seats| :: !Acting(seats[q % |seats|])
  }

  class Room {
    var seats: Seats
    var main: nat
    var pools: seq<Pool>
    var most: nat
    var waiting: int
    const bigBlind: nat
    var calculated: bool           // the round is calculated, and not ended yet
    ghost var counted: seq<nat>    // the parts of the bets that lie in the main pool already

    ghost function State(): Table
      reads this
    {
      Table(seats, main, pools, most, waiting, bigBlind, calculated, counted)
    }

    ghost predicate Valid()
      reads this
    {
      State().Valid()
    }

    /** Coins, bets and pools, each coin once. */
    ghost function Wealth(): int
      reads this
    {
      State().Wealth()
    }

    /** What was bet since the round was calculated. */
    ghost function Since(): int
      reads this
    {
      State().Since()
    }

    /** Nothing was bet since the round was calculated, nor was it taken up by leaving. */
    ghost predicate NothingSince()
      reads this
    {
      State().NothingSince()
    }

    constructor (seats: Seats, most: nat, waiting: int, bigBlind: nat)
      requires Sound(seats) && most < UINT64_END && 2 * WealthOf(seats, 0, []) < UINT64_END
      ensures Valid() && Wealth() == WealthOf(seats, 0, [])
      ensures State() == Table(seats, 0, [], most, waiting, bigBlind, false, Zeros(|seats|))
    {
      this.bigBlind := bigBlind;
      this.seats, this.main, this.pools, this.most, this.waiting := seats, 0, [], most, waiting;
      calculated := false;
      counted := Zeros(|seats|);
    }

    function PeerAt(idx: nat): Option<Peer>
      reads this
    {
      if idx < |seats| then seats[idx] else None
    }

    // -------------------------------------------------------------- actions

    /** The largest bet two acting players could both make. */
    method GetCanMaxBetCoinThisRound() returns (second: nat)
      ensures SecondLargest(seats, second)
    {
      var biggest := 0;
      second := 0;
      var idx := 0;
      while idx < |seats|
        invariant idx <= |seats| && TwoLargest(seats[..idx], second, biggest)
      {
        TwoLargestStep(seats[..idx], seats[idx], second, biggest);
        assert seats[..idx + 1] == seats[..idx] + [seats[idx]];
        var o := seats[idx];
        idx := idx + 1;
        if !Acting(o) {
          continue;
        }
        var all := o.value.bet + o.value.coin;
        if second >= all {
          continue;
        }
        if all > biggest {
          second, biggest := biggest, all;
        } else {
          second := all;
        }
      }
      assert seats[..idx] == seats;
    }

    /** The player bets all coins, but no more than brings the bet up to what another
        acting player could match. */
    method OnPlayerAllIn(idx: nat) returns (r: nat, ghost cap: nat)
      requires Valid()
      modifies this`seats
      ensures Valid() && Wealth() == old(Wealth()) && State() == After(old(State()), MoveAllIn(idx))
      ensures idx == waiting && Acting(old(PeerAt(idx))) ==> SecondLargest(old(seats), cap)
      ensures r == if idx != waiting then 1 else if !Acting(old(PeerAt(idx))) then 2
                   else if AddedBy(old(PeerAt(idx)), cap) + BetOf(old(PeerAt(idx))) == 0 then 3 else 0
      ensures seats ==
        if r == 0 then old(seats)[idx := Some(AfterAllIn(old(seats)[idx].value, AddedBy(old(seats)[idx], cap)))]
                       else old(seats)
      ensures var bet, all := old(BetOf(PeerAt(idx))), old(CoinOf(PeerAt(idx)) + BetOf(PeerAt(idx)));
        r == 0 ==> CoinOf(PeerAt(idx)) + BetOf(PeerAt(idx)) == all && InHand(PeerAt(idx)) && !Acting(PeerAt(idx))
                   && BetOf(PeerAt(idx)) == if cap <= bet then bet else if cap <= all then cap else all
      ensures Since() == old(Since()) + CoinOf(old(PeerAt(idx))) - CoinOf(PeerAt(idx))
      ensures CoinOf(PeerAt(idx)) <= CoinOf(old(PeerAt(idx)))
      ensures Follows(seats, old(seats))
    {
      hide Table.Valid, Table.Wealth, Table.Since, Follows, Bets, Peer.Has, After, SecondLargest, CanAllIn, AddedBy;
      PlayerSums(State(), MoveAllIn(idx));
      cap := 0;
      NotInTurn(State(), idx);
      if idx != waiting {
        return 1, cap;
      }
      if !Acting(PeerAt(idx)) {
        return 2, cap;
      }
      var p := seats[idx].value;
      FlagsOfAllIn();
      var most := GetCanMaxBetCoinThisRound();
      AllInIs(State(), idx, most);
      cap := most;
      var add := if most <= p.bet then 0 else most - p.bet;
      add := if p.coin < add then p.coin else add;
      if add + p.bet == 0 {
        return 3, cap;
      }
      seats := seats[idx := Some(p.(coin := p.coin - add, bet := p.bet + add, act := AllIn, state := ALL_IN))];
      return 0, cap;
    }

    /** The bet goes to the main pool at once, also the part of it that lies there already:
        just that much is made. */
    method OnPlayerGiveUp(idx: nat) returns (r: nat)
      requires Valid()
      modifies this`seats, this`main, this`counted
      ensures Valid() && State() == After(old(State()), MoveGiveUp(idx))
      ensures Wealth() == old(Wealth()) + NumberAt(old(counted), idx)
      ensures counted == ZeroAt(old(counted), idx)
      ensures r == (if old(PeerAt(idx)).Some? then 0 else 1)
      ensures r == 1 ==> seats == old(seats) && main == old(main)
      ensures r == 0 ==> var p := old(PeerAt(idx)).value;
        main == old(main) + p.bet
        && seats == old(seats)[idx := Some(p.(bet := 0, allBet := (p.allBet + p.bet) % 0x1_0000_0000_0000_0000,
                                              act := GiveUp, state := GIVE_UP))]
      ensures Since() == old(Since()) - BetOf(old(PeerAt(idx))) + NumberAt(old(counted), idx)
      ensures Follows(seats, old(seats))
    {
      hide Table.Valid, Table.Wealth, Table.Since, Follows, Bets, Peer.Has, RoundCalculated, RoundEndedAll, Zeros,
           FirstActing, CanAllIn;
      PlayerSums(State(), MoveGiveUp(idx));
      LeaverCounted(State(), idx);
      if PeerAt(idx).None? {
        return 1;
      }
      var p := seats[idx].value;
      main := main + p.bet;
      seats := seats[idx :=
        Some(p.(bet := 0, allBet := (p.allBet + p.bet) % UINT64_END, act := GiveUp, state := GIVE_UP))];
      counted := counted[idx := 0];
      return 0;
    }

    method OnPlayerPass(idx: nat) returns (r: nat)
      requires Valid()
      modifies this`seats
      ensures Valid() && Wealth() == old(Wealth()) && State() == After(old(State()), MovePass(idx))
      ensures r == if idx != waiting then 1 else if !Acting(old(PeerAt(idx))) then 2
                   else if most != BetOf(old(PeerAt(idx))) then 3 else 0
      ensures seats == if r == 0 then old(seats)[idx := Some(old(seats)[idx].value.(act := Pass))] else old(seats)
      ensures Follows(seats, old(seats)) && Bets(seats) == old(Bets(seats))
    {
      hide Table.Valid, Table.Wealth, Table.Since, Follows, Bets, Peer.Has, RoundCalculated, RoundEndedAll, Zeros,
           FirstActing, CanAllIn;
      PlayerSums(State(), MovePass(idx));
      if idx != waiting {
        return 1;
      }
      if !Acting(PeerAt(idx)) {
        return 2;
      }
      var p := seats[idx].value;
      if most != p.bet {
        return 3;
      }
      seats := seats[idx := Some(p.(act := Pass))];
      return 0;
    }

    /** With 64-bit wrap-around a follow succeeds only when there is nothing to add. */
    method OnPlayerFollow(idx: nat) returns (r: nat)
      requires Valid()
      modifies this`seats
      ensures Valid() && Wealth() == old(Wealth()) && State() == After(old(State()), MoveFollow(idx))
      ensures r == if idx != waiting then 1 else if !Acting(old(PeerAt(idx))) then 2
                   else if most < BetOf(old(PeerAt(idx))) then 3
                   else if CoinOf(old(PeerAt(idx))) <= most - BetOf(old(PeerAt(idx))) then 3
                   else if most > BetOf(old(PeerAt(idx))) then 4 else 0
      ensures seats == if r == 0 then old(seats)[idx := Some(old(seats)[idx].value.(act := Follow))] else old(seats)
      ensures Follows(seats, old(seats)) && Bets(seats) == old(Bets(seats))
    {
      hide Table.Valid, Table.Wealth, Table.Since, Follows, Bets, Peer.Has, RoundCalculated, RoundEndedAll, Zeros,
           FirstActing, CanAllIn;
      PlayerSums(State(), MoveFollow(idx));
      FitsIn64(State(), idx);
      if idx != waiting {
        return 1;
      }
      if !Acting(PeerAt(idx)) {
        return 2;
      }
      var p := seats[idx].value;
      var add := (most - p.bet) % UINT64_END;
      if p.coin <= add {
        return 3;
      }
      if most > p.bet {
        return 4;
      }
      seats := seats[idx := Some(p.(bet := p.bet + add, coin := p.coin - add, act := Follow))];
      return 0;
    }

    /** A bet in the hand goes to the main pool, as when giving up; the leaver's own coins
        go with the leaver. */
    method OnPlayerStandUp(idx: nat) returns (r: nat)
      requires Valid()
      modifies this`seats, this`main, this`counted
      ensures Valid() && State() == After(old(State()), MoveStandUp(idx))
      ensures r == (if old(PeerAt(idx)).Some? then 0 else 1)
      ensures Wealth() == old(Wealth()) - CoinOf(old(PeerAt(idx))) + NumberAt(old(counted), idx)
      ensures counted == ZeroAt(old(counted), idx)
      ensures seats == if r == 0 then old(seats)[idx := None] else old(seats)
      ensures main == old(main) + BetOf(old(PeerAt(idx)))
      ensures Since() == old(Since()) - BetOf(old(PeerAt(idx))) + NumberAt(old(counted), idx)
      ensures Follows(seats, old(seats))
    {
      hide Table.Valid, Table.Wealth, Table.Since, Follows, Bets, Peer.Has, RoundCalculated, RoundEndedAll, Zeros,
           FirstActing, CanAllIn;
      PlayerSums(State(), MoveStandUp(idx));
      LeaverCounted(State(), idx);
      if PeerAt(idx).None? {
        return 1;
      }
      var p := seats[idx].value;
      if p.Has(WAIT_CACULATE) {
        main := main + p.bet;
      }
      RemovePeer(p.session, idx);
      counted := counted[idx := 0];
      return 0;
    }

    /** Whose turn it is: the next player who can act, after the one before or, in a new
        round, after the big blind. */
    method OnWaitNextPlayerAct()
      requires !calculated
      modifies this`waiting
      ensures State() == After(old(State()), MoveNextPlayer)
      ensures IsNextActing(seats, if old(waiting) < 0 then bigBlind + 1 else old(waiting) + 1, waiting)
    {
      waiting := GetFirstPlayerIdxWithState(if waiting < 0 then bigBlind + 1 else waiting + 1, CAN_ACT);
    }

    /** Twice around the table at most; zero if no one is found. */
    method GetFirstPlayerIdxWithState(begin: nat, flags: State) returns (idx: nat)
      ensures flags == CAN_ACT ==> IsNextActing(seats, begin, idx) && idx == FirstActing(seats, begin)
    {
      var k := begin;
      while k < 2 * |seats|
        invariant begin <= k && forall q | begin <= q < k && q < 2 * |seats| :: !HasFlags(seats[q % |seats|], flags)
        invariant flags == CAN_ACT ==> FirstActing(seats, begin) == FirstActing(seats, k)
        decreases 2 * |seats| - k
      {
        var o := seats[k % |seats|];
        if HasFlags(o, flags) {
          assert flags == CAN_ACT ==> IsFirstActing(seats, begin, k);
          return k % |seats|;
        }
        k := k + 1;
      }
      return 0;
    }

    /** The first seat with the session is emptied; sessions are different. */
    method RemovePeer(session: nat, ghost idx: nat)
      requires Sound(seats) && idx < |seats| && seats[idx].Some? && seats[idx].value.session == session
      modifies this`seats
      ensures seats == old(seats)[idx := None]
    {
      var i := 0;
      while i < |seats|
        invariant i <= idx && seats == old(seats)
      {
        if seats[i].Some? && seats[i].value.session == session {
          seats := seats[i := None];
          return;
        }
        i := i + 1;
      }
    }

    // -------------------------------------------------------------- the end of a round

    method OnEndThisRound()
      modifies this`seats, this`most, this`waiting
      ensures |seats| == |old(seats)| && forall i | 0 <= i < |seats| :: seats[i] == RoundEnded(old(seats)[i])
      ensures forall i | 0 <= i < |seats| && seats[i].Some? ::
        old(seats)[i].Some? && seats[i].value == old(seats)[i].value.(act := NoAct, bet := 0)
      ensures forall i | 0 <= i < |seats| && old(seats)[i].Some? :: seats[i].Some?
      ensures most == 0 && waiting == -1
    {
      waiting := -1;
      most := 0;
      var i := 0;
      while i < |seats|
        invariant i <= |seats| == |old(seats)| && most == 0 && waiting == -1
        invariant forall k | 0 <= k < i :: seats[k] == RoundEnded(old(seats)[k])
        invariant forall k | i <= k < |seats| :: seats[k] == old(seats)[k]
      {
        if seats[i].Some? {
          seats := seats[i := Some(seats[i].value.(act := NoAct, bet := 0))];
        }
        i := i + 1;
      }
    }

    method AddToAllBets()
      modifies this`seats
      ensures seats == CountedAll(old(seats))
      ensures forall i | 0 <= i < |seats| :: (seats[i] == if InHand(old(seats)[i]) then
        var p := old(seats)[i].value; Some(p.(allBet := (p.allBet + p.bet) % 0x1_0000_0000_0000_0000))
        else old(seats)[i])
    {
      var i := 0;
      while i < |seats|
        invariant i <= |seats| == |old(seats)|
        invariant forall k | 0 <= k < i :: seats[k] == Counted(old(seats)[k])
        invariant forall k | i <= k < |seats| :: seats[k] == old(seats)[k]
      {
        if InHand(seats[i]) {
          var p := seats[i].value;
          seats := seats[i := Some(p.(allBet := (p.allBet + p.bet) % UINT64_END))];
        }
        i := i + 1;
      }
    }

    /** The players who went all in this round. */
    method FindAllIns() returns (allIns: seq<nat>)
      ensures forall i :: i in allIns <==> 0 <= i < |seats| && WentAllIn(seats[i])
    {
      allIns := [];
      for i := 0 to |seats|
        invariant forall k :: k in allIns <==> 0 <= k < i && WentAllIn(seats[k])
      {
        if seats[i].Some? && seats[i].value.act == AllIn {
          allIns := allIns + [i];
        }
      }
    }

    /** One layer: each player in the hand whose bet reaches it pays the same step. */
    method PeelLayer(step: nat, base: nat) returns (coins: nat, peers: seq<nat>)
      modifies this`seats
      ensures |seats| == |old(seats)| && forall i | 0 <= i < |seats| :: seats[i] == Peel(old(seats)[i], step)
      ensures forall i: nat :: i in peers <==> i < |seats| && InHand(old(seats)[i]) && old(seats)[i].value.bet >= step
      ensures forall i | 0 <= i < |seats| :: (seats[i] ==
        if i in peers && old(seats)[i].Some? then Some(old(seats)[i].value.(bet := old(seats)[i].value.bet - step))
        else old(seats)[i])
      ensures peers == Paying(old(seats), step, |old(seats)|) && coins == base + step * |peers|
      ensures Sum(Bets(seats)) + step * |peers| == Sum(Bets(old(seats))) && Sum(Coins(seats)) == Sum(Coins(old(seats)))
    {
      hide Sum;
      coins, peers := base, [];
      var i := 0;
      while i < |seats|
        invariant i <= |seats| == |old(seats)|
        invariant forall k | 0 <= k < i :: seats[k] == Peel(old(seats)[k], step)
        invariant forall k | i <= k < |seats| :: seats[k] == old(seats)[k]
        invariant peers == Paying(old(seats), step, i) && coins == base + step * |peers|
      {
        if InHand(seats[i]) && seats[i].value.bet >= step {
          OneMoreStep(step, |peers|);
          coins := coins + step;
          peers := peers + [i];
          seats := seats[i := Some(seats[i].value.(bet := seats[i].value.bet - step))];
        }
        i := i + 1;
      }
      PeeledSums(old(seats), seats, step, i);
      PayingAre(old(seats), step, i);
      assert seats[..i] == seats && old(seats)[..i] == old(seats);
    }

    /** The side pools: one layer for each new level of the all-in bets. */
    method BuildPools(sorted: seq<nat>) returns (ghost steps: seq<nat>, ghost produced: seq<Pool>)
      requires Layering(seats, sorted, 0, [], seats, [], main)
      modifies this`seats, this`main, this`pools
      ensures Layering(old(seats), sorted, |sorted|, steps, seats, produced, old(main))
      ensures pools == old(pools) + produced && Wealth() == old(Wealth())
      ensures main == if steps == [] then old(main) else 0
    {
      hide Layering, Sum, Paying;
      steps, produced := [], [];
      var k := 0;
      while k < |sorted|
        invariant k <= |sorted| && Layering(old(seats), sorted, k, steps, seats, produced, old(main))
        invariant pools == old(pools) + produced && Wealth() == old(Wealth())
        invariant main == if steps == [] then old(main) else 0
      {
        NextStep(old(seats), sorted, k, steps, seats, produced, old(main));
        var step := seats[sorted[k]].value.bet;
        if step == 0 {
          SameLevel(old(seats), sorted, k, steps, seats, produced, old(main));
        } else {
          ghost var before := seats;
          var pool := AddPool(step);
          NewLayer(old(seats), sorted, k, steps, before, produced, old(main), step, seats, pool.coins, pool.peers);
          steps, produced := steps + [step], produced + [pool];
        }
        k := k + 1;
      }
    }

    /** A new side pool takes the main pool and one layer of the bets. */
    method AddPool(step: nat) returns (pool: Pool)
      modifies this`seats, this`main, this`pools
      ensures |seats| == |old(seats)| && forall i | 0 <= i < |seats| :: seats[i] == Peel(old(seats)[i], step)
      ensures pool.peers == Paying(old(seats), step, |old(seats)|) && pool.winners == []
      ensures pool.coins == old(main) + step * |pool.peers|
      ensures pools == old(pools) + [pool] && main == 0 && Wealth() == old(Wealth())
    {
      hide Sum, Paying, Peel;
      var coins, peers := PeelLayer(step, main);
      pool := Pool(coins, peers, []);
      main := 0;
      PoolAdded(pools, pool);
      pools := pools + [pool];
    }

    /** What is left of the bets goes to the main pool; it stays written as a bet
        until the round is ended. */
    method AddLeftovers()
      requires Sound(seats)
      modifies this`main
      ensures main == old(main) + Sum(Bets(seats))
    {
      var idx := 0;
      assert Bets(seats[..0]) == [];
      while idx < |seats|
        invariant idx <= |seats| && main == old(main) + Sum(Bets(seats[..idx]))
      {
        LastSeat(seats, idx + 1);
        if InHand(seats[idx]) {
          main := main + seats[idx].value.bet;
        }
        idx := idx + 1;
      }
      assert seats[..idx] == seats;
    }

    /** `OnCaculateRound`. The layers' steps are returned for the reader: `allIns` are
        the players who went all in, and the bets become what the layers leave of them. */
    method OnCaculateRound() returns (ghost allIns: seq<nat>, ghost steps: seq<nat>, ghost produced: seq<Pool>)
      requires Valid() && !calculated
      modifies this`seats, this`main, this`pools
      ensures forall i :: i in allIns <==> 0 <= i < |old(seats)| && WentAllIn(old(seats)[i])
      ensures Positive(steps) && Levels(CountedAll(old(seats)), allIns, steps)
      ensures steps == StepsOf(CountedAll(old(seats))) && seats == LayeredAll(CountedAll(old(seats)), steps)
      ensures pools == old(pools) + produced && Built(produced, CountedAll(old(seats)), old(main), steps)
      ensures main == (if steps == [] then old(main) else 0) + Sum(Bets(seats))
      ensures Sound(seats) && Sum(Coins(seats)) + main + Sum(PoolCoins(pools)) == old(Wealth())
    {
      hide Sum, Layering, Levels, Built, Positive, StepsOf;
      AddToAllBets();
      CountedSame(old(seats));
      ghost var start := seats;
      var idxs := FindAllIns();
      var sorted := SortByBet(idxs);
      LayeringStart(seats, sorted, main);
      steps, produced := BuildPools(sorted);
      allIns := sorted;
      LayeringEnd(start, sorted, steps, seats, produced, old(main));
      LevelsAreSteps(old(seats), allIns, steps);
      AddLeftovers();
    }

    /** The table comes to the state in which the round is calculated. All bets go to the
        pools, and what is left of them after the layers stays written as a bet too. */
    method GotoCaculateRound() returns (ghost allIns: seq<nat>, ghost steps: seq<nat>, ghost produced: seq<Pool>)
      requires Valid() && !calculated
      modifies this`seats, this`main, this`pools, this`calculated, this`counted
      ensures Valid() && calculated && counted == Bets(seats) && State() == After(old(State()), MoveCaculateRound)
      ensures Wealth() == old(Wealth()) == Sum(Coins(seats)) + main + Sum(PoolCoins(pools))
      ensures Follows(seats, old(seats)) && old(pools) <= pools && ListInHand(pools, |old(pools)|, old(seats))
      ensures forall i :: i in allIns <==> 0 <= i < |old(seats)| && WentAllIn(old(seats)[i])
      ensures Positive(steps) && Levels(CountedAll(old(seats)), allIns, steps)
      ensures seats == LayeredAll(CountedAll(old(seats)), steps)
      ensures pools == old(pools) + produced && Built(produced, CountedAll(old(seats)), old(main), steps)
    {
      hide Sum, Listed, ListInHand, Follows, Levels, Positive, Sound, PartOf, StepsOf, PoolsOf;
      AfterKeeps(State(), MoveCaculateRound);
      NoneCounted(counted, 0);
      allIns, steps, produced := OnCaculateRound();
      calculated := true;
      counted := Bets(seats);
    }

    /** The time of that state is over. What was bet since is lost. */
    method LeaveCaculateRound() returns (ghost lost: nat)
      requires Valid() && calculated
      modifies this`seats, this`most, this`waiting, this`calculated, this`counted
      ensures Valid() && !calculated && State() == After(old(State()), MoveEndThisRound)
      ensures Wealth() + lost == old(Wealth())
      ensures lost == Sum(old(Bets(seats))) - Sum(old(counted))
      ensures Follows(seats, old(seats)) && Sum(Bets(seats)) == 0 && most == 0 && waiting == -1
      ensures |seats| == |old(seats)| && forall i | 0 <= i < |seats| :: seats[i] == RoundEnded(old(seats)[i])
    {
      hide Sum, Table.Valid, Table.Wealth, Follows;
      AfterKeeps(State(), MoveEndThisRound);
      RoundEndedKeeps(State());
      lost := Since();
      OnEndThisRound();
      calculated := false;
      counted := Zeros(|seats|);
      assert seats == RoundEndedAll(old(seats));
    }

    /** Any run of the table does what the moves do to it one after the other: what is not on
        it any more went with those who stood up or was bet too late, what is there in excess
        was taken twice. Pools made on the way list players who were in the hand, in seat
        order. */
    method Play(moves: seq<Move>) returns (gone: nat)
      requires Valid()
      modifies this
      ensures State() == Run(old(State()), moves) && gone == LeftWith(old(State()), moves)
      ensures Accounted(old(State()), State(), gone, TakenAgain(old(State()), moves), BetTooLate(old(State()), moves))
      ensures Wealth() + gone == old(Wealth()) <==> TakenAgain(old(State()), moves) == BetTooLate(old(State()), moves)
      ensures calculated == InWindow(moves, |moves|, old(calculated))
      ensures Quiet(moves, old(calculated)) && old(NothingSince()) ==>
        TakenAgain(old(State()), moves) == BetTooLate(old(State()), moves) == 0 && NothingSince()
    {
      hide Sum, Table.Wealth, Table.NothingSince, ListInHand, Follows, Run, After, GoneBy, Quiet;
      RunKeeps(State(), moves);
      InWindowIs(State(), moves, |moves|);
      assert moves[..|moves|] == moves;
      if Quiet(moves, calculated) && NothingSince() {
        QuietKeeps(State(), moves, |moves|);
      }
      gone := 0;
      RunStarts(State(), moves);
      var k := 0;
      while k < |moves|
        invariant k <= |moves| && Valid() && State() == Run(old(State()), moves[..k])
        invariant gone == LeftWith(old(State()), moves[..k])
      {
        OneMore(old(State()), moves, k, GoneBy);
        var left := Step(moves[k]);
        gone := gone + left;
        k := k + 1;
      }
    }

    /** One move. Whoever stands up takes coins along. */
    method Step(move: Move) returns (gone: nat)
      requires Valid()
      modifies this
      ensures Valid() && State() == After(old(State()), move) && gone == GoneBy(old(State()), move)
    {
      hide Table.Valid, Table.Wealth, Table.Since, Follows, ListInHand, IsNextActing, PoolsOf, LayeredAll;
      gone := if move.MoveStandUp? then CoinOf(PeerAt(move.idx)) else 0;
      AfterKeeps(State(), move);
      match move {
        case MoveAllIn(idx) => var r, cap := OnPlayerAllIn(idx);
        case MoveGiveUp(idx) => var r := OnPlayerGiveUp(idx);
        case MovePass(idx) => var r := OnPlayerPass(idx);
        case MoveFollow(idx) => var r := OnPlayerFollow(idx);
        case MoveStandUp(idx) => var r := OnPlayerStandUp(idx);
        case MoveNextPlayer =>
          if !calculated {
            OnWaitNextPlayerAct();
          }
        case MoveCaculateRound =>
          if !calculated {
            ghost var allIns, steps, produced := GotoCaculateRound();
          }
        case MoveEndThisRound =>
          if calculated {
            ghost var lost := LeaveCaculateRound();
          }
      }
    }

    /** What happens between the two steps: the bets of those who leave are taken twice as
        far as they lie in the main pool already; what is bet and not taken along by leaving
        is not in any pool. */
    method PlayBetween(moves: seq<Move>) returns (gone: nat)
      requires Valid() && calculated && NoEnd(moves)
      modifies this
      ensures Valid() && calculated && State() == Run(old(State()), moves) && gone == LeftWith(old(State()), moves)
      ensures Wealth() + gone == old(Wealth()) + TakenTwice(old(counted), moves)
      ensures Since() + LeaversBets(old(State()), moves) ==
        old(Since()) + BetBetween(old(State()), moves) + TakenTwice(old(counted), moves)
      ensures Follows(seats, old(seats))
    {
      hide Table.Wealth, Table.Since, Follows, ListInHand, Run;
      TakenBetween(State(), moves);
      LateBets(State(), moves);
      gone := Play(moves);
    }

    /** A whole round's end with what happens in between: coins and pools grow by just the
        bets taken twice, and shrink by just what is bet and not taken along. They stay what
        they were exactly when those who leave in between have bets of just what is bet there. */
    method EndRound(between: seq<Move>) returns (gone: nat)
      requires Valid() && !calculated && NoEnd(between)
      modifies this
      ensures State() == Run(old(State()), WholeRound(between)) && gone == LeftWith(old(State()), WholeRound(between))
      ensures Valid() && !calculated && Sum(Bets(seats)) == 0 && Follows(seats, old(seats))
      ensures Sum(Coins(seats)) + main + Sum(PoolCoins(pools)) + gone
        + BetBetween(old(State()), WholeRound(between)) ==
        old(Wealth()) + LeaversBets(old(State()), WholeRound(between))
      ensures Sum(Coins(seats)) + main + Sum(PoolCoins(pools)) + gone == old(Wealth()) <==>
        BetBetween(old(State()), WholeRound(between)) == LeaversBets(old(State()), WholeRound(between))
      ensures TakenAgain(old(State()), WholeRound(between)) ==
        TakenTwice(Bets(LayeredAll(CountedAll(old(seats)), StepsOf(CountedAll(old(seats))))), between)
      ensures NoBets(between) ==> Sum(Coins(seats)) + main + Sum(PoolCoins(pools)) + gone == old(Wealth())
    {
      hide Sum, Sound, Listed, ListInHand, Follows, LayeredAll, StepsOf, TakenTwice, Run, After, NoBets;
      if NoBets(between) {
        QuietRound(State(), between);
      }
      RoundAmounts(State(), between);
      RunKeeps(State(), WholeRound(between));
      LateBets(State(), WholeRound(between));
      gone := Play(WholeRound(between));
      NoneCounted(counted, 0);
    }

    method SortByBet(idxs: seq<nat>) returns (sorted: seq<nat>)
      requires Sound(seats) && forall i :: i in idxs <==> 0 <= i < |seats| && WentAllIn(seats[i])
      ensures forall i :: i in sorted <==> 0 <= i < |seats| && WentAllIn(seats[i])
      ensures forall q | 0 <= q < |sorted| :: sorted[q] < |seats| && InHand(seats[sorted[q]])
      ensures forall p, q | 0 <= p < q < |sorted| :: BetOf(seats[sorted[p]]) <= BetOf(seats[sorted[q]])
    {
      var bets := Bets(seats);
      var key := (i: nat) => if i < |bets| then bets[i] else 0;
      sorted := Sort(idxs, key);
      forall i ensures i in sorted <==> i in idxs {
        assert i in sorted <==> i in multiset(sorted);
        assert i in idxs <==> i in multiset(idxs);
      }
      forall q | 0 <= q < |sorted| ensures sorted[q] < |seats| && InHand(seats[sorted[q]]) {
        assert sorted[q] in sorted;
      }
      forall p, q | 0 <= p < q < |sorted| ensures BetOf(seats[sorted[p]]) <= BetOf(seats[sorted[q]]) {
        assert key(sorted[p]) <= key(sorted[q]);
      }
    }
  }

  lemma LayeringEnd(start: Seats, sorted: seq<nat>, steps: seq<nat>, seats: Seats, produced: seq<Pool>, main: nat)
    requires Layering(start, sorted, |sorted|, steps, seats, produced, main) && Sound(start)
    ensures Positive(steps) && Levels(start, sorted, steps) && Built(produced, start, main, steps)
    ensures seats == LayeredAll(start, steps) && Sound(seats)
  {
    assert sorted[..|sorted|] == sorted;
  }

  lemma NotInTurn(t: Table, idx: nat)
    ensures idx != t.waiting || !Acting(t.At(idx)) ==> After(t, MoveAllIn(idx)) == t
  {
  }

  lemma FlagsOfAllIn()
    ensures forall p: Peer | p.state == ALL_IN :: InHand(Some(p)) && !Acting(Some(p))
  {
    assert 5 !in ALL_IN && 5 in CAN_ACT;
  }

  lemma AllInIs(t: Table, idx: nat, most: nat)
    requires idx == t.waiting && Acting(t.At(idx)) && SecondLargest(t.seats, most)
    ensures var p := t.seats[idx].value;
      var room := if most <= p.bet then 0 else most - p.bet;
      var add := if p.coin < room then p.coin else room;
      && AddedBy(t.seats[idx], most) == add
      && After(t, MoveAllIn(idx)) ==
           if add + p.bet == 0 then t
           else t.(seats := t.seats[idx := Some(p.(coin := p.coin - add, bet := p.bet + add, act := AllIn,
                                                   state := ALL_IN))])
  {
    SecondLargestIsUnique(t.seats, most, Cap(t.seats));
    hide SecondLargest;
  }

  lemma RunStarts(t: Table, moves: seq<Move>)
    ensures moves[..0] == [] && Run(t, moves[..0]) == t && LeftWith(t, moves[..0]) == 0
  {
  }

  lemma LeaverCounted(t: Table, idx: nat)
    requires t.Valid()
    ensures ZeroAt(t.counted, idx) == if t.At(idx).Some? then t.counted[idx := 0] else t.counted
    ensures Sound(t.seats) && (t.At(idx).Some? ==> (InHand(t.At(idx)) || BetOf(t.At(idx)) == 0))
    ensures |t.counted| == |t.seats| && t.At(idx) == (if idx < |t.seats| then t.seats[idx] else None)
  {
    if t.At(idx).None? {
      NobodyCounted(t, idx);
      assert ZeroAt(t.counted, idx) == t.counted;
    }
  }

  /** No bet and no coins of a player wrap. */
  lemma FitsIn64(t: Table, idx: nat)
    requires t.Valid()
    ensures CoinOf(t.At(idx)) + BetOf(t.At(idx)) < UINT64_END && t.most < UINT64_END
  {
    if idx < |t.seats| {
      SeatWithin(t.seats, idx);
    }
    PartsWithin(t.counted, t.seats);
  }

  /** The layers a round's all-ins call for. */
  lemma LevelsAreSteps(seats: Seats, allIns: seq<nat>, steps: seq<nat>)
    requires forall i :: i in allIns <==> 0 <= i < |seats| && WentAllIn(seats[i])
    requires Positive(steps) && Levels(CountedAll(seats), allIns, steps)
    ensures steps == StepsOf(CountedAll(seats))
  {
    var start := CountedAll(seats);
    forall x: nat ensures x in AllInBets(start) <==> IsTop(steps, x) {
      LevelIsTop(seats, allIns, steps, x);
    }
    hide IsTop, AllInBets;
    StepsAre(steps, AllInBets(start));
  }

  lemma LevelIsTop(seats: Seats, allIns: seq<nat>, steps: seq<nat>, x: nat)
    requires forall i :: i in allIns <==> 0 <= i < |seats| && WentAllIn(seats[i])
    requires Positive(steps) && Levels(CountedAll(seats), allIns, steps)
    ensures x in AllInBets(CountedAll(seats)) <==> IsTop(steps, x)
  {
    var start := CountedAll(seats);
    assert forall i | 0 <= i < |seats| :: WentAllIn(start[i]) == WentAllIn(seats[i]);
    assert Sum(steps[..0]) == 0;
    if x in AllInBets(start) {
      var i :| 0 <= i < |start| && WentAllIn(start[i]) && BetOf(start[i]) == x && x > 0;
      var q :| 0 <= q < |allIns| && allIns[q] == i;
      assert IsLevel(BetOf(start[allIns[q]]), steps);
    }
    if IsTop(steps, x) {
      var j :| 1 <= j <= |steps| && x == Sum(steps[..j]);
      Rising(steps, 0, j);
      assert IsBetOfOne(start, allIns, Sum(steps[..j]));
      var q :| 0 <= q < |allIns| && allIns[q] < |start| && BetOf(start[allIns[q]]) == x;
      assert allIns[q] in allIns;
    }
  }

  // ---------------------------------------------------------------- what the pools are

  /** Whoever went all in this round has nothing left outside the pools. */
  lemma AllInIsUsedUp(seats: Seats, allIns: seq<nat>, steps: seq<nat>, i: nat)
    requires Sound(seats) && Positive(steps) && Levels(CountedAll(seats), allIns, steps)
    requires i < |seats| && i in allIns && WentAllIn(seats[i])
    ensures BetOf(LayeredAll(CountedAll(seats), steps)[i]) == 0
  {
    var start := CountedAll(seats);
    var q :| 0 <= q < |allIns| && allIns[q] == i;
    assert IsLevel(BetOf(start[allIns[q]]), steps);
    var j :| 0 <= j <= |steps| && BetOf(start[i]) == Sum(steps[..j]);
    assert InHand(start[i]);
    LevelIsUsedUp(BetOf(start[i]), steps, j, |steps|);
    assert steps[..|steps|] == steps;
  }

  /** Whoever is in a later pool of the round is in the earlier ones. */
  ghost predicate Nested(produced: seq<Pool>) {
    forall j, k, i: nat | 0 <= j < k < |produced| && i in produced[k].peers :: i in produced[j].peers
  }

  ghost predicate ListsPayers(peers: seq<nat>, seats: Seats, steps: seq<nat>, j: nat)
    requires j < |steps|
  {
    forall i: nat :: i in peers <==> i < |seats| && InHand(seats[i]) && Takes(BetOf(seats[i]), steps, j)
  }

  /** The pools of a round are nested exactly when no bet in the hand leaves, above
      its level, enough for a later step. */
  lemma NestedExactlyWhenRestsAreSmall(produced: seq<Pool>, seats: Seats, main: nat, steps: seq<nat>)
    requires Built(produced, seats, main, steps)
    ensures Nested(produced) <==> forall i | 0 <= i < |seats| && InHand(seats[i]) ::
      RestTooSmall(BetOf(seats[i]), steps)
  {
    hide Payers, RestTooSmall, Takes;
    forall j | 0 <= j < |steps| ensures ListsPayers(produced[j].peers, seats, steps, j) {
      PayersAre(seats, steps, j);
    }
    forall i | 0 <= i < |seats| && InHand(seats[i])
      ensures RestTooSmall(BetOf(seats[i]), steps) <==> PaysNested(BetOf(seats[i]), steps) {
      NestedExactlyWhen(BetOf(seats[i]), steps);
    }
    NestedIsPerSeat(produced, seats, steps);
  }

  lemma NestedIsPerSeat(produced: seq<Pool>, seats: Seats, steps: seq<nat>)
    requires |produced| == |steps| && forall j | 0 <= j < |steps| :: ListsPayers(produced[j].peers, seats, steps, j)
    ensures Nested(produced) <==> forall i | 0 <= i < |seats| && InHand(seats[i]) :: PaysNested(BetOf(seats[i]), steps)
  {
    hide Takes;
    if Nested(produced) {
      forall i | 0 <= i < |seats| && InHand(seats[i]) ensures PaysNested(BetOf(seats[i]), steps) {
        forall j, k | 0 <= j < k < |steps| && Takes(BetOf(seats[i]), steps, k)
          ensures Takes(BetOf(seats[i]), steps, j) {
          assert ListsPayers(produced[k].peers, seats, steps, k) && ListsPayers(produced[j].peers, seats, steps, j);
          assert i in produced[k].peers;
        }
      }
    }
    if forall i | 0 <= i < |seats| && InHand(seats[i]) :: PaysNested(BetOf(seats[i]), steps) {
      forall j, k, i: nat | 0 <= j < k < |produced| && i in produced[k].peers ensures i in produced[j].peers {
        assert ListsPayers(produced[k].peers, seats, steps, k) && ListsPayers(produced[j].peers, seats, steps, j);
        assert PaysNested(BetOf(seats[i]), steps);
      }
    }
  }

  /** In particular when every live bet is zero, an all-in's, or at least the largest. */
  lemma NestedWhenOthersCallOrFold(produced: seq<Pool>, seats: Seats, allIns: seq<nat>, main: nat, steps: seq<nat>)
    requires Built(produced, seats, main, steps) && Positive(steps) && Levels(seats, allIns, steps)
    requires forall i | 0 <= i < |seats| && InHand(seats[i]) && i !in allIns ::
      BetOf(seats[i]) == 0 || forall q | 0 <= q < |allIns| :: BetOf(seats[allIns[q]]) <= BetOf(seats[i])
    ensures Nested(produced)
  {
    hide Built, Sum;
    forall i | 0 <= i < |seats| && InHand(seats[i]) ensures RestTooSmall(BetOf(seats[i]), steps) {
      NestedExactlyWhen(BetOf(seats[i]), steps);
      if i in allIns {
        var q :| 0 <= q < |allIns| && allIns[q] == i;
        assert IsLevel(BetOf(seats[allIns[q]]), steps);
      } else if BetOf(seats[i]) > 0 {
        CoversLevels(seats, allIns, steps, i);
      }
      SafeBets(BetOf(seats[i]), steps);
    }
    NestedExactlyWhenRestsAreSmall(produced, seats, main, steps);
  }

  lemma CoversLevels(seats: Seats, allIns: seq<nat>, steps: seq<nat>, i: nat)
    requires i < |seats| && Levels(seats, allIns, steps)
    requires forall q | 0 <= q < |allIns| :: BetOf(seats[allIns[q]]) <= BetOf(seats[i])
    ensures BetOf(seats[i]) >= Sum(steps)
  {
    if steps != [] {
      assert steps[..|steps|] == steps;
      assert IsBetOfOne(seats, allIns, Sum(steps[..|steps|]));
    }
  }

  /** All-ins of 10 and 12, and a player who passed with a bet of 5, the highest that
      counts: an all-in does not raise it. */
  function ThreeBets(): Seats {
    [Some(Peer(1, ALL_IN, 0, 10, 0, AllIn, 0, [])),
     Some(Peer(2, ALL_IN, 0, 12, 0, AllIn, 0, [])),
     Some(Peer(3, CAN_ACT, 100, 5, 0, Pass, 0, []))]
  }

  lemma BetOfThree(allIns: seq<nat>, x: nat)
    requires forall i :: i in allIns <==> 0 <= i < 3 && WentAllIn(ThreeBets()[i])
    ensures IsBetOfOne(CountedAll(ThreeBets()), allIns, x) ==> x == 10 || x == 12
  {
    var start := CountedAll(ThreeBets());
    if q :| 0 <= q < |allIns| && allIns[q] < |start| && BetOf(start[allIns[q]]) == x {
      assert allIns[q] in allIns;
    }
  }

  lemma LevelOfThree(allIns: seq<nat>, steps: seq<nat>, i: nat)
    requires i < 3 && i in allIns && Levels(CountedAll(ThreeBets()), allIns, steps)
    ensures IsLevel(BetOf(ThreeBets()[i]), steps)
  {
    var start := CountedAll(ThreeBets());
    var q :| 0 <= q < |allIns| && allIns[q] == i;
    assert IsLevel(BetOf(start[allIns[q]]), steps);
  }

  /** The layers of this round are 10 and 2. */
  lemma StepsOfThree(allIns: seq<nat>, steps: seq<nat>)
    requires forall i :: i in allIns <==> 0 <= i < 3 && WentAllIn(ThreeBets()[i])
    requires Positive(steps) && Levels(CountedAll(ThreeBets()), allIns, steps)
    ensures steps == [10, 2]
  {
    assert WentAllIn(ThreeBets()[0]) && WentAllIn(ThreeBets()[1]);
    LevelOfThree(allIns, steps, 0);
    LevelOfThree(allIns, steps, 1);
    var j :| 0 <= j <= |steps| && 10 == Sum(steps[..j]);
    var k :| 0 <= k <= |steps| && 12 == Sum(steps[..k]);
    forall n | 1 <= n <= |steps| ensures Sum(steps[..n]) == 10 || Sum(steps[..n]) == 12 {
      BetOfThree(allIns, Sum(steps[..n]));
    }
    hide Levels, IsLevel, ThreeBets, CountedAll;
    assert Sum(steps[..0]) == 0;
    assert |steps| >= 2 by {
      assert j != k && j != 0 && k != 0;
    }
    Rising(steps, 1, 2);
    if |steps| > 2 {
      Rising(steps, 2, 3);
    }
    SumNext(steps, 0);
    SumNext(steps, 1);
  }

  /** The live bet is left out of the first pool and pays into the second. */
  lemma NotAlwaysNested(produced: seq<Pool>, allIns: seq<nat>, main: nat, steps: seq<nat>)
    requires forall i :: i in allIns <==> 0 <= i < 3 && WentAllIn(ThreeBets()[i])
    requires Positive(steps) && Levels(CountedAll(ThreeBets()), allIns, steps)
    requires Built(produced, CountedAll(ThreeBets()), main, steps)
    ensures !Nested(produced)
  {
    var start := CountedAll(ThreeBets());
    StepsOfThree(allIns, steps);
    MissesTheFirst();
    NestedExactlyWhen(5, steps);
    NestedExactlyWhenRestsAreSmall(produced, start, main, steps);
    hide RestTooSmall, Nested;
    assert InHand(start[2]) && BetOf(start[2]) == 5;
  }

  /** The round of these three bets, and the pools it makes. */
  method RoundOfThree() returns (room: Room)
    ensures fresh(room) && |room.pools| == 2 && !Nested(room.pools)
  {
    hide Built, Levels, Positive, Nested;
    ThreeBetsSum();
    room := new Room(ThreeBets(), 5, 2, 0);
    ghost var allIns, steps, produced := room.OnCaculateRound();
    NotAlwaysNested(produced, allIns, 0, steps);
    StepsOfThree(allIns, steps);
    assert |produced| == |steps| by { BuiltLength(produced, CountedAll(ThreeBets()), 0, steps); }
    assert room.pools == produced;
  }

  lemma BuiltLength(produced: seq<Pool>, seats: Seats, main: nat, steps: seq<nat>)
    requires Built(produced, seats, main, steps)
    ensures |produced| == |steps|
  {
  }

  lemma ThreeBetsSum()
    ensures Sound(ThreeBets()) && WealthOf(ThreeBets(), 0, []) == 127
  {
    ThreeBetsSound();
    SumOfThree(0, 0, 100);
    SumOfThree(10, 12, 5);
    assert PoolCoins([]) == [] && Sum([]) == 0;
    hide Sum, Sound;
    assert Coins(ThreeBets()) == [0, 0, 100] && Bets(ThreeBets()) == [10, 12, 5];
  }

  lemma ThreeBetsSound()
    ensures Sound(ThreeBets())
  {
  }

  lemma SumOfThree(a: nat, b: nat, c: nat)
    ensures Sum([a, b, c]) == a + b + c
  {
    SumAppend([], a);
    SumAppend([a], b);
    SumAppend([a, b], c);
    assert Sum([]) == 0;
    hide Sum;
    assert [] + [a] == [a] && [a] + [b] == [a, b] && [a, b] + [c] == [a, b, c];
  }
}
