/** A whole hand of hold'em: where every coin is after any run of betting and the payment. */
module TexasHand {
  import opened PokerRanking
  import opened TexasPools
  import opened TexasSeats
  import opened TexasTable
  import opened TexasRoom
  import opened TexasPayout

  // ---------------------------------------------------------------- what is left of the pools

  function Rests(pools: seq<Pool>, seats: Seats): (r: seq<nat>)
    ensures |r| == |pools|
  {
    seq(|pools|, k requires 0 <= k < |pools| => Rest(pools[k], seats))
  }

  lemma {:induction false} RestsAdd(pools: seq<Pool>, seats: Seats)
    ensures Sum(PoolCoins(pools)) == AllReceived(pools, seats) + Sum(Rests(pools, seats))
  {
    if pools != [] {
      hide Sum, PoolCoins, Received, Rest;
      var less, last := pools[..|pools| - 1], pools[|pools| - 1];
      RestsAdd(less, seats);
      assert pools == less + [last];
      PoolAdded(less, last);
      assert Rests(pools, seats) == Rests(less, seats) + [Rest(last, seats)];
      SumAppend(Rests(less, seats), Rest(last, seats));
      RestIs(last, seats);
    } else {
      assert Rests(pools, seats) == [] && PoolCoins(pools) == [];
    }
  }

  lemma RestIs(pool: Pool, seats: Seats)
    ensures pool.coins == Received(pool, seats, |pool.winners|) + Rest(pool, seats)
  {
  }

  /** The same players are in the hand. */
  ghost predicate SameInHand(a: Seats, b: Seats) {
    |a| == |b| && forall i | 0 <= i < |a| :: InHand(a[i]) == InHand(b[i])
  }

  lemma {:induction false} SameReceived(pool: Pool, a: Seats, b: Seats, n: nat)
    requires SameInHand(a, b) && n <= |pool.winners|
    ensures Received(pool, a, n) == Received(pool, b, n)
  {
    if n > 0 {
      SameReceived(pool, a, b, n - 1);
    }
  }

  lemma SameRests(pools: seq<Pool>, a: Seats, b: Seats)
    requires SameInHand(a, b)
    ensures Rests(pools, a) == Rests(pools, b)
  {
    forall k | 0 <= k < |pools| ensures Rest(pools[k], a) == Rest(pools[k], b) {
      SameReceived(pools[k], a, b, |pools[k].winners|);
    }
  }

  // ---------------------------------------------------------------- a whole hand

  /** How a hand starts: players in it have cards, and nobody has won anything. */
  ghost predicate Started(seats: Seats, board: seq<Card>) {
    forall i | 0 <= i < |seats| && seats[i].Some? ::
      seats[i].value.win == 0 && (InHand(seats[i]) ==> Dealt(seats[i], board))
  }

  lemma StillDealt(now: Seats, start: Seats, pools: seq<Pool>, board: seq<Card>)
    requires Started(start, board) && Follows(now, start) && ListInHand(pools, 0, start)
    ensures PoolsDealt(pools, now, board) && ActingDealt(now, board)
    ensures forall i | 0 <= i < |now| && now[i].Some? :: now[i].value.win == 0
  {
    hide Pack;
    forall i | 0 <= i < |now| && now[i].Some?
      ensures now[i].value.win == 0 && (InHand(start[i]) ==> Dealt(now[i], board)) {
      assert FollowsAt(now[i], start[i]);
    }
    forall i | 0 <= i < |now| && Acting(now[i]) ensures Dealt(now[i], board) {
      assert FollowsAt(now[i], start[i]);
    }
    forall k | 0 <= k < |pools| ensures PeersDealt(now, board, pools[k].peers) {
      assert AreInHand(pools[k].peers, start);
    }
  }

  lemma PoolsWithMain(pools: seq<Pool>, before: seq<Pool>, main: nat, seats: Seats, board: seq<Card>)
    requires Decided(pools, before, main, seats, board)
    ensures Sum(PoolCoins(pools)) == Sum(PoolCoins(before)) + main
    ensures forall k | 0 <= k < |pools| :: AreWinners(seats, board, pools[k].peers, pools[k].winners)
  {
    hide AreWinners, ListsActing;
    if main > 0 {
      assert PoolCoins(pools) == PoolCoins(before) + [main];
      SumAppend(PoolCoins(before), main);
    } else {
      assert PoolCoins(pools) == PoolCoins(before);
    }
  }

  /** The payment leaves cards and states. */
  lemma PaymentFollows(after: Seats, before: Seats, pools: seq<Pool>)
    requires |after| == |before|
    requires forall i | 0 <= i < |before| :: after[i] == CashedIn(Won(before[i], Payments(pools, i)))
    ensures SameCards(after, before) && SameInHand(after, before)
    ensures Bets(after) == Bets(before)
  {
    hide Payments;
  }

  /** A pool whose strongest players have all stayed leaves less than a coin for each winner. */
  ghost predicate RestsAreSmall(pools: seq<Pool>, seats: Seats, board: seq<Card>) {
    forall k | 0 <= k < |pools| && pools[k].winners != [] && StrongestStayed(seats, board, pools[k].peers) ::
      Rest(pools[k], seats) < |pools[k].winners|
  }

  lemma RestsSmall(pools: seq<Pool>, seats: Seats, board: seq<Card>)
    requires forall k | 0 <= k < |pools| :: AreWinners(seats, board, pools[k].peers, pools[k].winners)
    ensures RestsAreSmall(pools, seats, board)
  {
    hide AreWinners, StrongestStayed, Rest, Seated, Received, Share;
    forall k | 0 <= k < |pools| && pools[k].winners != [] && StrongestStayed(seats, board, pools[k].peers)
      ensures Rest(pools[k], seats) < |pools[k].winners| {
      PaidExceptRemainder(seats, board, pools[k]);
    }
  }

  /** Betting up to the end of the last round. */
  method Bet(room: Room, moves: seq<Move>) returns (gone: nat)
    requires room.Valid() && !room.calculated
    modifies room
    ensures var t, all := old(room.State()), ToTheEnd(moves, false);
      && room.State() == Run(t, all) && gone == LeftWith(t, all)
      && Accounted(t, room.State(), gone, TakenAgain(t, all), BetTooLate(t, all))
      && room.Valid() && !room.calculated && Sum(Bets(room.seats)) == 0
  {
    hide Sum, Run, After, ToTheEnd, Table.Valid, Total, Follows, ListInHand;
    TheEnd(room.State(), moves);
    gone := room.Play(ToTheEnd(moves, false));
  }

  /** The seats and pools after the payment: `last` is the table before it. */
  ghost predicate PaidHand(last: Table, seats: Seats, pools: seq<Pool>, board: seq<Card>) {
    && Decided(pools, last.pools, last.main, last.seats, board) && |seats| == |last.seats|
    && (forall i | 0 <= i < |seats| :: seats[i] == CashedIn(Won(last.seats[i], Payments(pools, i))))
    && (forall k | 0 <= k < |pools| :: AreWinners(seats, board, pools[k].peers, pools[k].winners))
    && RestsAreSmall(pools, seats, board)
  }

  /** A whole hand: the table is what any run of moves makes of it up to the end of the last
      round, and then each pool goes to its strongest listed players. The coins at the seats,
      those taken away by players who stood up, those bet too late for any pool and what is
      left of the pools are the coins the hand started with and those taken twice. They are the
      coins it started with exactly when those who leave between the two steps that end a round
      take along just as much as is bet there, so always when nobody does either. */
  method PlayHand(room: Room, moves: seq<Move>, board: seq<Card>) returns (gone: nat)
    requires room.Valid() && room.pools == [] && !room.calculated && Started(room.seats, board)
    modifies room
    ensures var t, all := old(room.State()), ToTheEnd(moves, false);
      && gone == LeftWith(t, all) && PaidHand(Run(t, all), room.seats, room.pools, board)
      && Sum(Coins(room.seats)) + gone + BetTooLate(t, all) + Sum(Rests(room.pools, room.seats)) ==
           old(room.Wealth()) + TakenAgain(t, all)
      && (Sum(Coins(room.seats)) + gone + Sum(Rests(room.pools, room.seats)) == old(room.Wealth()) <==>
            LeaversBets(t, all) == BetBetween(t, all))
      && (Quiet(moves, false) ==> TakenAgain(t, all) == BetTooLate(t, all) == 0)
  {
    hide Sum, AreWinners, Started, PoolsDealt, ActingDealt, RestsAreSmall, Rests, Quiet, Decided, Run, After, ToTheEnd,
         Table.Wealth, Total, Accounted;
    HandAmounts(room.State(), moves);
    TableOfHand(room.State(), moves, board);
    gone := Bet(room, moves);
    ghost var last := room.State();
    OnCaculateGameResult(room, board);
    Settled(last.seats, room.seats, last.pools, room.pools, last.main, board);
  }

  /** At the end of the last round the pools can be paid. */
  lemma TableOfHand(t: Table, moves: seq<Move>, board: seq<Card>)
    requires t.Valid() && !t.calculated && t.pools == [] && Started(t.seats, board)
    ensures var all := ToTheEnd(moves, false); var last := Run(t, all);
      && Listed(last.pools, |last.seats|) && PoolsDealt(last.pools, last.seats, board)
      && ActingDealt(last.seats, board)
      && (forall i | 0 <= i < |last.seats| && last.seats[i].Some? :: last.seats[i].value.win == 0)
      && Sum(Coins(last.seats)) + last.main + Sum(PoolCoins(last.pools)) + LeftWith(t, all) + BetTooLate(t, all) ==
           t.Wealth() + TakenAgain(t, all)
  {
    hide Sum, Sound, ListInHand, Follows, Started, PoolsDealt, ActingDealt, Run, After, ToTheEnd, Total;
    var all := ToTheEnd(moves, false);
    TheEnd(t, moves);
    RunKeeps(t, all);
    StillDealt(Run(t, all).seats, t.seats, Run(t, all).pools, board);
  }

  /** Of what is bet too late, all that leavers do not take along is lost. */
  lemma HandAmounts(t: Table, moves: seq<Move>)
    requires t.Valid() && !t.calculated
    ensures var all := ToTheEnd(moves, false);
      && BetTooLate(t, all) + LeaversBets(t, all) == BetBetween(t, all) + TakenAgain(t, all)
      && (Quiet(moves, false) ==> TakenAgain(t, all) == BetTooLate(t, all) == 0)
  {
    var all := ToTheEnd(moves, false);
    hide Sum, Run, After, ToTheEnd, Table.Valid, Quiet, Total;
    TheEnd(t, moves);
    LateBets(t, all);
    if Quiet(moves, false) {
      QuietToTheEnd(moves, false);
      assert all[..|all|] == all;
      QuietKeeps(t, all, |all|);
    }
  }

  /** The payment as a whole. */
  lemma Settled(before: Seats, after: Seats, pools: seq<Pool>, decided: seq<Pool>, main: nat, board: seq<Card>)
    requires Decided(decided, pools, main, before, board)
    requires |after| == |before|
    requires forall i | 0 <= i < |before| :: after[i] == CashedIn(Won(before[i], Payments(decided, i)))
    requires forall i | 0 <= i < |before| && before[i].Some? :: before[i].value.win == 0
    ensures Sum(Coins(after)) + Sum(Rests(decided, after)) == Sum(Coins(before)) + Sum(PoolCoins(pools)) + main
    ensures forall k | 0 <= k < |decided| :: AreWinners(after, board, decided[k].peers, decided[k].winners)
    ensures RestsAreSmall(decided, after, board)
  {
    hide Sum, AreWinners, RestsAreSmall, Rests, AllReceived, Payments, Ascends;
    PoolsWithMain(decided, pools, main, before, board);
    forall k | 0 <= k < |decided| ensures Ascends(decided[k].winners) {
      WinnersAreSeated(before, board, decided[k].peers, decided[k].winners);
    }
    PayoutAdds(before, after, decided);
    RestsAdd(decided, before);
    PaymentFollows(after, before, decided);
    SameRests(decided, after, before);
    forall k | 0 <= k < |decided| ensures AreWinners(after, board, decided[k].peers, decided[k].winners) {
      DealtIfWon(before, board, decided[k].peers, decided[k].winners);
      SameWinners(after, before, board, decided[k].peers, decided[k].winners);
    }
    RestsSmall(decided, after, board);
  }

  lemma DealtIfWon(seats: Seats, board: seq<Card>, peers: seq<nat>, winners: seq<nat>)
    requires AreWinners(seats, board, peers, winners)
    ensures PeersDealt(seats, board, peers)
  {
  }
}
