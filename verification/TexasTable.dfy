/** The table as a value: what each move makes of it, and where every coin is after any run
    of moves. A round is calculated in one step and ended in another; every coin that is made
    or lost is made or lost by what players do in between. */
module TexasTable {
  import opened Wrappers
  import opened TexasPools
  import opened TexasSeats

  /** What may happen at the table. */
  datatype Move = MoveAllIn(idx: nat) | MoveGiveUp(idx: nat) | MovePass(idx: nat) | MoveFollow(idx: nat)
                | MoveStandUp(idx: nat) | MoveNextPlayer | MoveCaculateRound | MoveEndThisRound

  predicate OfPlayer(move: Move) {
    !move.MoveNextPlayer? && !move.MoveCaculateRound? && !move.MoveEndThisRound?
  }

  /** A player leaves the hand, and takes the bet along to the main pool. */
  predicate Leaves(move: Move) {
    move.MoveGiveUp? || move.MoveStandUp?
  }

  /** Moves that change a bet; between the two steps that end a round they are the ones
      that make or lose coins. */
  predicate ChangesBet(move: Move) {
    move.MoveAllIn? || Leaves(move)
  }

  datatype Table = Table(seats: Seats, main: nat, pools: seq<Pool>, most: nat, waiting: int, bigBlind: nat,
                         calculated: bool,    // the round is calculated, and not ended yet
                         counted: seq<nat>)   // the parts of the bets that lie in the main pool already
  {
    function At(idx: nat): Option<Peer> {
      if idx < |seats| then seats[idx] else None
    }

    /** The table's coins fit in 64 bits twice over, so no sum of them wraps, not even one
        in which bets are taken twice. */
    ghost predicate Valid() {
      && Sound(seats) && Listed(pools, |seats|) && most < UINT64_END
      && PartOf(counted, seats) && (!calculated ==> Sum(counted) == 0)
      && Wealth() + Sum(Coins(seats)) + Sum(Bets(seats)) < UINT64_END
    }

    /** Coins, bets and pools, each coin once. */
    ghost function Wealth(): int {
      WealthOf(seats, main, pools) - Sum(counted)
    }

    /** What was bet since the round was calculated. */
    ghost function Since(): int {
      Sum(Bets(seats)) - Sum(counted)
    }

    /** The same while the round is calculated and not ended. */
    ghost function Late(): int {
      if calculated then Since() else 0
    }

    /** Nothing was bet since the round was calculated, nor was it taken up by leaving. */
    ghost predicate NothingSince() {
      calculated ==> counted == Bets(seats)
    }
  }

  // ---------------------------------------------------------------- one move

  /** What an all-in adds to the bet: all coins, but not beyond the cap. */
  function AddedBy(o: Option<Peer>, cap: nat): (r: nat)
    ensures r <= CoinOf(o)
  {
    var room := if cap <= BetOf(o) then 0 else cap - BetOf(o);
    if CoinOf(o) < room then CoinOf(o) else room
  }

  function AfterAllIn(p: Peer, add: nat): Peer
    requires add <= p.coin
  {
    p.(coin := p.coin - add, bet := p.bet + add, act := AllIn, state := ALL_IN)
  }

  function Folded(p: Peer): Peer {
    p.(bet := 0, allBet := (p.allBet + p.bet) % UINT64_END, act := GiveUp, state := GIVE_UP)
  }

  function RoundEnded(o: Option<Peer>): Option<Peer> {
    if o.Some? then Some(o.value.(act := NoAct, bet := 0)) else o
  }

  function RoundEndedAll(seats: Seats): (r: Seats)
    ensures |r| == |seats|
  {
    seq(|seats|, i requires 0 <= i < |seats| => RoundEnded(seats[i]))
  }

  function Zeros(n: nat): (r: seq<nat>)
    ensures |r| == n && Sum(r) == 0
  {
    var r := seq(n, i => 0);
    ZeroSum(r);
    r
  }

  /** An all-in succeeds in turn, for a player who can act and has anything to bet. */
  ghost predicate CanAllIn(t: Table, idx: nat) {
    && idx == t.waiting && Acting(t.At(idx))
    && AddedBy(t.At(idx), Cap(t.seats)) + BetOf(t.At(idx)) > 0
  }

  predicate CanPass(t: Table, idx: nat) {
    idx == t.waiting && Acting(t.At(idx)) && BetOf(t.At(idx)) == t.most
  }

  predicate CanFollow(t: Table, idx: nat) {
    CanPass(t, idx) && CoinOf(t.At(idx)) > 0
  }

  /** A seat's bet goes to the main pool, `o` is what the seat becomes. */
  function LeftBy(t: Table, idx: nat, o: Option<Peer>): Table
    requires idx < |t.seats|
  {
    t.(seats := t.seats[idx := o], main := t.main + BetOf(t.seats[idx]), counted := ZeroAt(t.counted, idx))
  }

  ghost function RoundCalculated(t: Table): Table {
    var start := CountedAll(t.seats);
    var steps := StepsOf(start);
    var after := LayeredAll(start, steps);
    t.(seats := after, pools := t.pools + PoolsOf(start, t.main, steps),
       main := (if steps == [] then t.main else 0) + Sum(Bets(after)), calculated := true, counted := Bets(after))
  }

  /** What a move makes of the table. */
  ghost function After(t: Table, move: Move): Table {
    match move
    case MoveAllIn(idx) =>
      if CanAllIn(t, idx) then
        t.(seats := t.seats[idx := Some(AfterAllIn(t.seats[idx].value, AddedBy(t.seats[idx], Cap(t.seats))))])
      else t
    case MoveGiveUp(idx) => if t.At(idx).Some? then LeftBy(t, idx, Some(Folded(t.seats[idx].value))) else t
    case MovePass(idx) =>
      if CanPass(t, idx) then t.(seats := t.seats[idx := Some(t.seats[idx].value.(act := Pass))]) else t
    case MoveFollow(idx) =>
      if CanFollow(t, idx) then t.(seats := t.seats[idx := Some(t.seats[idx].value.(act := Follow))]) else t
    case MoveStandUp(idx) => if t.At(idx).Some? then LeftBy(t, idx, None) else t
    case MoveNextPlayer =>
      if t.calculated then t
      else t.(waiting := FirstActing(t.seats, if t.waiting < 0 then t.bigBlind + 1 else t.waiting + 1))
    case MoveCaculateRound => if t.calculated then t else RoundCalculated(t)
    case MoveEndThisRound =>
      if !t.calculated then t
      else t.(seats := RoundEndedAll(t.seats), most := 0, waiting := -1, calculated := false,
              counted := Zeros(|t.seats|))
  }

  ghost function Run(t: Table, moves: seq<Move>): Table
    decreases |moves|
  {
    if moves == [] then t else Run(After(t, moves[0]), moves[1..])
  }

  // ---------------------------------------------------------------- the amounts

  /** The coins a leaver takes away. */
  ghost function GoneBy(t: Table, move: Move): int {
    if move.MoveStandUp? then CoinOf(t.At(move.idx)) else 0
  }

  /** The part of a leaver's bet that the main pool takes a second time. */
  ghost function MadeBy(t: Table, move: Move): int {
    if Leaves(move) then NumberAt(t.counted, move.idx) else 0
  }

  /** What the end of a round clears though no pool has it. */
  ghost function LostBy(t: Table, move: Move): int {
    if move.MoveEndThisRound? then t.Late() else 0
  }

  /** What is bet after the round was calculated. */
  ghost function BetLateBy(t: Table, move: Move): int {
    if t.calculated && move.MoveAllIn? then CoinOf(t.At(move.idx)) - CoinOf(After(t, move).At(move.idx)) else 0
  }

  /** The bet of one who leaves after the round was calculated. */
  ghost function LeaverBetBy(t: Table, move: Move): int {
    if t.calculated && Leaves(move) then BetOf(t.At(move.idx)) else 0
  }

  ghost function Total(t: Table, moves: seq<Move>, each: (Table, Move) -> int): int
    decreases |moves|
  {
    if moves == [] then 0 else each(t, moves[0]) + Total(After(t, moves[0]), moves[1..], each)
  }

  /** The coins of those who stand up in the run. */
  ghost function LeftWith(t: Table, moves: seq<Move>): int {
    Total(t, moves, GoneBy)
  }

  /** What the main pool takes a second time. */
  ghost function TakenAgain(t: Table, moves: seq<Move>): int {
    Total(t, moves, MadeBy)
  }

  /** What is cleared though no pool has it. */
  ghost function BetTooLate(t: Table, moves: seq<Move>): int {
    Total(t, moves, LostBy)
  }

  /** What is bet between the two steps that end a round. */
  ghost function BetBetween(t: Table, moves: seq<Move>): int {
    Total(t, moves, BetLateBy)
  }

  /** The bets of those who leave between the two steps. */
  ghost function LeaversBets(t: Table, moves: seq<Move>): int {
    Total(t, moves, LeaverBetBy)
  }

  lemma {:induction false} TwoRuns(t: Table, a: seq<Move>, b: seq<Move>)
    ensures Run(t, a + b) == Run(Run(t, a), b)
    decreases |a|
  {
    if a == [] {
      assert a + b == b;
    } else {
      assert (a + b)[0] == a[0] && (a + b)[1..] == a[1..] + b;
      TwoRuns(After(t, a[0]), a[1..], b);
    }
  }

  lemma {:induction false} TwoTotals(t: Table, a: seq<Move>, b: seq<Move>, each: (Table, Move) -> int)
    ensures Total(t, a + b, each) == Total(t, a, each) + Total(Run(t, a), b, each)
    decreases |a|
  {
    if a == [] {
      assert a + b == b;
    } else {
      assert (a + b)[0] == a[0] && (a + b)[1..] == a[1..] + b;
      TwoTotals(After(t, a[0]), a[1..], b, each);
    }
  }

  /** One more move at the end. */
  lemma OneMore(t: Table, moves: seq<Move>, k: nat, each: (Table, Move) -> int)
    requires k < |moves|
    ensures Run(t, moves[..k + 1]) == After(Run(t, moves[..k]), moves[k])
    ensures Total(t, moves[..k + 1], each) == Total(t, moves[..k], each) + each(Run(t, moves[..k]), moves[k])
  {
    assert moves[..k + 1] == moves[..k] + [moves[k]];
    TwoRuns(t, moves[..k], [moves[k]]);
    TwoTotals(t, moves[..k], [moves[k]], each);
    var u := Run(t, moves[..k]);
    assert Total(After(u, moves[k]), [], each) == 0;
    assert [moves[k]][1..] == [];
  }

  // ---------------------------------------------------------------- what every move keeps

  /** From `t` to `u` coins are accounted for; nobody gets back into the hand, cards stay, and
      new pools list players who were in the hand, in seat order. */
  ghost predicate Accounted(t: Table, u: Table, gone: int, made: int, lost: int) {
    && u.Valid() && u.Wealth() + gone + lost == t.Wealth() + made && Follows(u.seats, t.seats)
    && t.pools <= u.pools && ListInHand(u.pools, |t.pools|, t.seats)
  }

  lemma Nothing(t: Table)
    requires t.Valid()
    ensures Accounted(t, t, 0, 0, 0)
  {
  }

  lemma StaysSound(seats: Seats, idx: nat, after: Peer)
    requires Sound(seats) && idx < |seats| && seats[idx].Some? && after.session == seats[idx].value.session
    requires after.bet > 0 || after.act == AllIn ==> after.Has(WAIT_CACULATE)
    ensures Sound(seats[idx := Some(after)])
  {
  }

  /** Betting at one seat keeps cards and winnings, and lets no one back into the hand. */
  lemma OneSeatFollows(after: Seats, before: Seats, idx: nat)
    requires after == before ||
      (idx < |before| == |after| && after == before[idx := after[idx]] && FollowsAt(after[idx], before[idx]))
    ensures Follows(after, before)
  {
  }

  /** A player at the table bets or changes the action. */
  lemma SeatKeeps(t: Table, idx: nat, p: Peer)
    requires t.Valid() && t.At(idx).Some?
    requires var o := t.seats[idx].value;
      && p.session == o.session && p.hold == o.hold && p.win == o.win && InHand(Some(p)) && InHand(Some(o))
      && p.bet >= o.bet && p.coin + p.bet == o.coin + o.bet
    ensures Accounted(t, t.(seats := t.seats[idx := Some(p)]), 0, 0, 0)
  {
    Nothing(t);
    hide Listed, Sum, Follows, ListInHand;
    SeatChanges(t.seats, idx, Some(p));
    StaysSound(t.seats, idx, p);
    OneSeatFollows(t.seats[idx := Some(p)], t.seats, idx);
  }

  /** The bet of an all-in, told from the old seat and the second largest stake alone: all the
      player has, but not more than that stake unless as much was bet before. */
  lemma BetOfAllIn(t: Table, idx: nat, second: nat)
    requires CanAllIn(t, idx) && SecondLargest(t.seats, second)
    ensures var before, after := t.At(idx), After(t, MoveAllIn(idx)).At(idx);
      var all := CoinOf(before) + BetOf(before);
      && BetOf(after) == (if second <= BetOf(before) then BetOf(before) else if second <= all then second else all)
      && BetOf(after) > 0 && (BetOf(after) > second ==> BetOf(after) == BetOf(before))
      && CoinOf(after) + BetOf(after) == all && InHand(after) && !Acting(after)
  {
    SecondLargestIsUnique(t.seats, second, Cap(t.seats));
    assert 5 !in ALL_IN && 5 in CAN_ACT;
    hide SecondLargest;
  }

  /** A player leaves the hand. */
  lemma LeaverKeeps(t: Table, idx: nat, o: Option<Peer>)
    requires t.Valid() && t.At(idx).Some? && (o.None? || o == Some(Folded(t.seats[idx].value)))
    ensures Accounted(t, LeftBy(t, idx, o), CoinOf(t.At(idx)) - CoinOf(o), NumberAt(t.counted, idx), 0)
  {
    Nothing(t);
    SeatChanges(t.seats, idx, o);
    SumUpdate(t.counted, idx, 0);
    LeaverSound(t.seats, idx, o, t.counted);
    hide Listed, Sum, Follows, ListInHand, Sound, PartOf, Acting, InHand, Folded;
  }

  lemma LeaverSound(seats: Seats, idx: nat, o: Option<Peer>, parts: seq<nat>)
    requires Sound(seats) && idx < |seats| && seats[idx].Some? && PartOf(parts, seats)
    requires o.None? || o == Some(Folded(seats[idx].value))
    ensures Sound(seats[idx := o]) && Follows(seats[idx := o], seats) && PartOf(parts[idx := 0], seats[idx := o])
    ensures CoinOf(o) <= CoinOf(seats[idx]) && BetOf(o) == 0 && parts[idx] <= BetOf(seats[idx])
  {
    assert 7 !in GIVE_UP && 7 in WAIT_CACULATE;
    if o.Some? {
      StaysSound(seats, idx, o.value);
    }
    OneSeatFollows(seats[idx := o], seats, idx);
  }

  lemma {:induction false} LeftIsLess(bet: nat, steps: seq<nat>)
    ensures Left(bet, steps) <= bet
  {
    if steps != [] {
      LeftIsLess(bet, steps[..|steps| - 1]);
    }
  }

  lemma LayersTakeBets(seats: Seats, steps: seq<nat>)
    ensures Sum(Bets(LayeredAll(CountedAll(seats), steps))) <= Sum(Bets(seats))
    ensures Coins(LayeredAll(CountedAll(seats), steps)) == Coins(seats)
  {
    var after := LayeredAll(CountedAll(seats), steps);
    forall i | 0 <= i < |seats| ensures Bets(after)[i] <= Bets(seats)[i] {
      LeftIsLess(BetOf(seats[i]), steps);
    }
    SumAtMost(Bets(after), Bets(seats));
  }

  lemma PoolsOfRound(produced: seq<Pool>, seats: Seats, main: nat, steps: seq<nat>)
    requires Built(produced, CountedAll(seats), main, steps)
    ensures Listed(produced, |seats|) && ListInHand(produced, 0, seats)
  {
    BuiltPoolsAreListed(produced, CountedAll(seats), main, steps);
    assert forall i | 0 <= i < |seats| :: InHand(CountedAll(seats)[i]) == InHand(seats[i]);
  }

  lemma RoundFollows(seats: Seats, steps: seq<nat>)
    ensures Follows(LayeredAll(CountedAll(seats), steps), seats)
    ensures Sound(seats) ==> Sound(LayeredAll(CountedAll(seats), steps))
  {
    hide Left;
    forall i | 0 <= i < |seats| ensures Sound(seats) ==>
      (BetOf(LayeredAll(CountedAll(seats), steps)[i]) > 0 ==> InHand(seats[i])) {
      LeftIsLess(BetOf(seats[i]), steps);
    }
  }

  /** The layers take from the bets what they put into the pools. */
  lemma {:induction false} LayersKeep(seats: Seats, main: nat, steps: seq<nat>)
    ensures Sum(PoolCoins(PoolsOf(seats, main, steps))) + (if steps == [] then main else 0)
      + Sum(Bets(LayeredAll(seats, steps))) == main + Sum(Bets(seats))
  {
    if steps == [] {
      assert LayeredAll(seats, steps) == seats;
      assert PoolCoins(PoolsOf(seats, main, steps)) == [];
    } else {
      var less, step := steps[..|steps| - 1], steps[|steps| - 1];
      assert steps == less + [step];
      hide *;
      LayersKeep(seats, main, less);
      LayerKeeps(seats, main, less, step);
    }
  }

  lemma LayerKeeps(seats: Seats, main: nat, steps: seq<nat>, step: nat)
    ensures Sum(PoolCoins(PoolsOf(seats, main, steps + [step]))) + Sum(Bets(LayeredAll(seats, steps + [step]))) ==
      Sum(PoolCoins(PoolsOf(seats, main, steps))) + (if steps == [] then main else 0)
      + Sum(Bets(LayeredAll(seats, steps)))
  {
    var before, after := LayeredAll(seats, steps), LayeredAll(seats, steps + [step]);
    var peers := Paying(before, step, |seats|);
    var coins := (if steps == [] then main else 0) + step * |peers|;
    LayerOnTop(seats, steps, step);
    hide Sum, LayeredAll, Paying, Peel, PoolsOf, Bets, Coins, PoolCoins;
    BuiltNext(PoolsOf(seats, main, steps), seats, main, steps, step, coins);
    PoolAdded(PoolsOf(seats, main, steps), Pool(coins, peers, []));
    PeeledSums(before, after, step, |seats|);
    assert before[..|seats|] == before && after[..|seats|] == after;
  }

  lemma RoundCalculatedKeeps(t: Table)
    requires t.Valid() && !t.calculated
    ensures Accounted(t, RoundCalculated(t), 0, 0, 0)
  {
    var start := CountedAll(t.seats);
    var steps := StepsOf(start);
    var produced := PoolsOf(start, t.main, steps);
    hide Sum, Listed, ListInHand, Follows, StepsOf, PoolsOf, LayeredAll, Sound;
    CountedSame(t.seats);
    LayersKeep(start, t.main, steps);
    RoundFollows(t.seats, steps);
    LayersTakeBets(t.seats, steps);
    PoolsOfRound(produced, t.seats, t.main, steps);
    ListedMore(t.pools, produced, t.seats);
    PoolsAdded(t.pools, produced);
  }

  lemma RoundEndedKeeps(t: Table)
    requires t.Valid() && t.calculated
    ensures t.Since() >= 0 && Accounted(t, After(t, MoveEndThisRound), 0, 0, t.Since())
    ensures var u := After(t, MoveEndThisRound); Sum(Bets(u.seats)) == 0 && u.Since() == 0
  {
    Nothing(t);
    RoundOver(t.seats, RoundEndedAll(t.seats), Zeros(|t.seats|));
    PartsWithin(t.counted, t.seats);
    hide Sum, Listed, Follows, ListInHand, Sound, PartOf;
  }

  lemma RoundOver(before: Seats, after: Seats, parts: seq<nat>)
    requires |after| == |before| == |parts| && forall i | 0 <= i < |before| :: after[i] == RoundEnded(before[i])
    requires Sound(before) && forall i | 0 <= i < |parts| :: parts[i] == 0
    ensures Follows(after, before) && Sound(after) && PartOf(parts, after)
    ensures Sum(Bets(after)) == 0 && Sum(parts) == 0 && Coins(after) == Coins(before)
  {
    ZeroSum(parts);
    ZeroSum(Bets(after));
  }

  lemma AfterKeeps(t: Table, move: Move)
    requires t.Valid()
    ensures Accounted(t, After(t, move), GoneBy(t, move), MadeBy(t, move), LostBy(t, move))
  {
    Nothing(t);
    if OfPlayer(move) {
      NoneCounted(t.counted, move.idx);
      hide Accounted, Table.Valid;
      PlayerKeeps(t, move);
    } else if move.MoveCaculateRound? && !t.calculated {
      RoundCalculatedKeeps(t);
    } else if move.MoveEndThisRound? && t.calculated {
      RoundEndedKeeps(t);
    } else {
      hide Sum, Sound, Listed, ListInHand, Follows, PartOf, Bets, Coins;
    }
  }

  lemma PlayerKeeps(t: Table, move: Move)
    requires t.Valid() && OfPlayer(move)
    ensures Accounted(t, After(t, move), GoneBy(t, move), MadeBy(t, move), 0)
  {
    Nothing(t);
    hide Accounted, Table.Valid;
    var idx := move.idx;
    if Leaves(move) {
      if t.At(idx).Some? {
        LeaverKeeps(t, idx, if move.MoveStandUp? then None else Some(Folded(t.seats[idx].value)));
      } else {
        NobodyCounted(t, idx);
      }
    } else if move.MoveAllIn? && CanAllIn(t, idx) {
      SeatKeeps(t, idx, AfterAllIn(t.seats[idx].value, AddedBy(t.seats[idx], Cap(t.seats))));
    } else if move.MovePass? && CanPass(t, idx) {
      SeatKeeps(t, idx, t.seats[idx].value.(act := Pass));
    } else if move.MoveFollow? && CanFollow(t, idx) {
      SeatKeeps(t, idx, t.seats[idx].value.(act := Follow));
    }
  }

  lemma NobodyCounted(t: Table, idx: nat)
    requires t.Valid() && t.At(idx).None?
    ensures NumberAt(t.counted, idx) == 0
  {
  }

  lemma AccountedTwice(t: Table, u: Table, v: Table, gone: int, made: int, lost: int, gone': int, made': int,
                       lost': int)
    requires Accounted(t, u, gone, made, lost) && Accounted(u, v, gone', made', lost')
    ensures Accounted(t, v, gone + gone', made + made', lost + lost')
  {
    hide Sum, Sound, Listed, ListInHand, Follows, WealthOf, Table.Valid, Table.Wealth;
    FollowsTwice(v.seats, u.seats, t.seats);
    assert v.pools[..|u.pools|] == u.pools;
    ListedBefore(v.pools, |u.pools|, |t.pools|, u.seats, t.seats);
  }

  /** Any run of the table: what is not on it any more went with those who stood up or was
      bet too late; what is there in excess was taken twice. */
  lemma {:induction false} RunKeeps(t: Table, moves: seq<Move>)
    requires t.Valid()
    ensures Accounted(t, Run(t, moves), LeftWith(t, moves), TakenAgain(t, moves), BetTooLate(t, moves))
    decreases |moves|
  {
    if moves == [] {
      Nothing(t);
    } else {
      var u := After(t, moves[0]);
      AfterKeeps(t, moves[0]);
      RunKeeps(u, moves[1..]);
      hide Accounted, After, GoneBy, MadeBy, LostBy;
      AccountedTwice(t, u, Run(u, moves[1..]), GoneBy(t, moves[0]), MadeBy(t, moves[0]), LostBy(t, moves[0]),
                     LeftWith(u, moves[1..]), TakenAgain(u, moves[1..]), BetTooLate(u, moves[1..]));
    }
  }

  // ---------------------------------------------------------------- when coins are kept

  lemma RoundCalculatedLate(t: Table)
    ensures RoundCalculated(t).Late() == 0
  {
  }

  /** Late bets: what a move adds to them, takes along to the main pool, and clears. */
  lemma AfterLate(t: Table, move: Move)
    requires t.Valid()
    ensures After(t, move).Late() + LostBy(t, move) + LeaverBetBy(t, move) ==
      t.Late() + BetLateBy(t, move) + MadeBy(t, move)
    ensures t.Late() >= 0 && BetLateBy(t, move) >= 0 && 0 <= MadeBy(t, move) <= LeaverBetBy(t, move)
  {
    PartsWithin(t.counted, t.seats);
    if OfPlayer(move) {
      NoneCounted(t.counted, move.idx);
      AfterAtSeat(t, move);
      PlayerLate(t, move);
      hide Table.Valid, Table.Since, After;
    } else if move.MoveEndThisRound? && t.calculated {
      RoundEndedKeeps(t);
    } else {
      RoundCalculatedLate(t);
      hide RoundCalculated, Sum, Bets;
    }
  }

  /** What a player's move does to the player's seat. */
  lemma AfterAtSeat(t: Table, move: Move)
    requires OfPlayer(move)
    ensures var u, idx := After(t, move), move.idx;
      && (u.seats == t.seats || (idx < |t.seats| && u.seats == t.seats[idx := u.At(idx)]))
      && u.counted == (if Leaves(move) && t.At(idx).Some? then ZeroAt(t.counted, idx) else t.counted)
      && u.calculated == t.calculated
      && (Leaves(move) ==> BetOf(u.At(idx)) == 0)
      && (!Leaves(move) ==> CoinOf(u.At(idx)) + BetOf(u.At(idx)) == CoinOf(t.At(idx)) + BetOf(t.At(idx)))
      && CoinOf(u.At(idx)) <= CoinOf(t.At(idx))
      && (!ChangesBet(move) ==> BetOf(u.At(idx)) == BetOf(t.At(idx)))
  {
    hide Cap, Peer.Has, RoundCalculated, RoundEndedAll, Zeros, FirstActing, ZeroAt;
  }

  lemma PlayerLate(t: Table, move: Move)
    requires t.Valid() && OfPlayer(move)
    ensures After(t, move).Since() == t.Since()
      + (if move.MoveAllIn? then CoinOf(t.At(move.idx)) - CoinOf(After(t, move).At(move.idx)) else 0)
      + (if Leaves(move) then NumberAt(t.counted, move.idx) - BetOf(t.At(move.idx)) else 0)
    ensures CoinOf(After(t, move).At(move.idx)) <= CoinOf(t.At(move.idx))
    ensures NumberAt(t.counted, move.idx) <= BetOf(t.At(move.idx))
  {
    assert |t.counted| == |t.seats|;
    assert NumberAt(t.counted, move.idx) <= BetOf(t.At(move.idx));
    hide Table.Valid;
    AfterAtSeat(t, move);
    var idx, u := move.idx, After(t, move);
    if idx < |t.seats| {
      SeatChanges(t.seats, idx, u.seats[idx]);
      SumUpdate(t.counted, idx, 0);
    }
    hide Sum, Bets, Coins, After;
  }

  /** What a player's move does to the sums. */
  lemma PlayerSums(t: Table, move: Move)
    requires t.Valid() && OfPlayer(move)
    ensures var u := After(t, move);
      && u.Valid() && u.Wealth() + GoneBy(t, move) == t.Wealth() + MadeBy(t, move) && Follows(u.seats, t.seats)
      && u.Since() == t.Since()
           + (if move.MoveAllIn? then CoinOf(t.At(move.idx)) - CoinOf(u.At(move.idx)) else 0)
           + (if Leaves(move) then NumberAt(t.counted, move.idx) - BetOf(t.At(move.idx)) else 0)
      && CoinOf(u.At(move.idx)) <= CoinOf(t.At(move.idx)) && (!ChangesBet(move) ==> Bets(u.seats) == Bets(t.seats))
  {
    PlayerKeeps(t, move);
    PlayerLate(t, move);
    AfterAtSeat(t, move);
    hide Table.Valid, Table.Wealth, Table.Since, After, Follows, ListInHand;
  }

  /** What is bet between the two steps that end a round is taken along by leavers, cleared,
      or not cleared yet. */
  lemma {:induction false} LateBets(t: Table, moves: seq<Move>)
    requires t.Valid()
    ensures Run(t, moves).Late() + BetTooLate(t, moves) + LeaversBets(t, moves) ==
      t.Late() + BetBetween(t, moves) + TakenAgain(t, moves)
    ensures Run(t, moves).Late() >= 0 && BetTooLate(t, moves) >= 0 && BetBetween(t, moves) >= 0
    ensures 0 <= TakenAgain(t, moves) <= LeaversBets(t, moves)
    decreases |moves|
  {
    if moves == [] {
      PartsWithin(t.counted, t.seats);
    } else {
      AfterLate(t, moves[0]);
      AfterKeeps(t, moves[0]);
      LateBets(After(t, moves[0]), moves[1..]);
    }
  }

  /** Over whole rounds coins are kept exactly when those who leave between the two steps that
      end a round take along just as much as was bet there. */
  lemma KeptExactlyWhen(t: Table, moves: seq<Move>)
    requires t.Valid() && !t.calculated && !Run(t, moves).calculated
    ensures Run(t, moves).Wealth() + LeftWith(t, moves) == t.Wealth() <==>
      LeaversBets(t, moves) == BetBetween(t, moves)
  {
    RunKeeps(t, moves);
    LateBets(t, moves);
  }

  /** A sum of amounts is zero exactly when each is. */
  lemma {:induction false} TotalIsZero(t: Table, moves: seq<Move>, each: (Table, Move) -> int, n: nat)
    requires n <= |moves| && forall k | 0 <= k < n :: each(Run(t, moves[..k]), moves[k]) >= 0
    ensures Total(t, moves[..n], each) >= 0
    ensures Total(t, moves[..n], each) == 0 <==> forall k | 0 <= k < n :: each(Run(t, moves[..k]), moves[k]) == 0
  {
    if n > 0 {
      TotalIsZero(t, moves, each, n - 1);
      OneMore(t, moves, n - 1, each);
    }
  }

  /** Nobody takes coins away exactly when no one stands up with coins; nothing is taken twice
      exactly when no leaver's bet lies in the main pool already; nothing is bet too late
      exactly when no round ends with late bets. */
  lemma NothingExactlyWhen(t: Table, moves: seq<Move>)
    requires t.Valid()
    ensures LeftWith(t, moves) == 0 <==>
      forall k | 0 <= k < |moves| && moves[k].MoveStandUp? :: CoinOf(Run(t, moves[..k]).At(moves[k].idx)) == 0
    ensures TakenAgain(t, moves) == 0 <==>
      forall k | 0 <= k < |moves| && Leaves(moves[k]) :: NumberAt(Run(t, moves[..k]).counted, moves[k].idx) == 0
    ensures BetTooLate(t, moves) == 0 <==>
      forall k | 0 <= k < |moves| && moves[k].MoveEndThisRound? :: Run(t, moves[..k]).Late() == 0
  {
    forall k | 0 <= k < |moves| ensures Run(t, moves[..k]).Late() >= 0 {
      RunKeeps(t, moves[..k]);
      LateBets(t, moves[..k]);
    }
    assert moves[..|moves|] == moves;
    hide Run, Table.Late, Table.Valid;
    TotalIsZero(t, moves, GoneBy, |moves|);
    TotalIsZero(t, moves, MadeBy, |moves|);
    TotalIsZero(t, moves, LostBy, |moves|);
  }

  /** Whether the round is calculated and not ended yet after the first `k` moves. */
  function InWindow(moves: seq<Move>, k: nat, calculated: bool): bool
    requires k <= |moves|
  {
    if k == 0 then calculated
    else if moves[k - 1].MoveCaculateRound? then true
    else if moves[k - 1].MoveEndThisRound? then false
    else InWindow(moves, k - 1, calculated)
  }

  lemma {:induction false} InWindowIs(t: Table, moves: seq<Move>, k: nat)
    requires k <= |moves|
    ensures Run(t, moves[..k]).calculated == InWindow(moves, k, t.calculated)
  {
    if k > 0 {
      InWindowIs(t, moves, k - 1);
      OneMore(t, moves, k - 1, GoneBy);
    }
  }

  /** Nobody goes all in, gives up or stands up while a round is calculated and not ended. */
  ghost predicate Quiet(moves: seq<Move>, calculated: bool) {
    forall k | 0 <= k < |moves| && InWindow(moves, k, calculated) :: !ChangesBet(moves[k])
  }

  lemma AfterQuiet(t: Table, move: Move)
    requires t.Valid() && t.NothingSince() && !(t.calculated && ChangesBet(move))
    ensures After(t, move).NothingSince() && MadeBy(t, move) == LostBy(t, move) == 0
  {
    if OfPlayer(move) {
      NoneCounted(t.counted, move.idx);
      AfterAtSeat(t, move);
      assert !ChangesBet(move) ==> Bets(After(t, move).seats) == Bets(t.seats);
      hide After, Sum, Bets, Table.Valid;
    } else {
      hide Table.Valid, WealthOf, StepsOf, LayeredAll;
    }
  }

  /** A quiet run makes and loses no coin. */
  lemma {:induction false} QuietKeeps(t: Table, moves: seq<Move>, n: nat)
    requires t.Valid() && t.NothingSince() && Quiet(moves, t.calculated) && n <= |moves|
    ensures Run(t, moves[..n]).NothingSince() && TakenAgain(t, moves[..n]) == BetTooLate(t, moves[..n]) == 0
  {
    if n > 0 {
      QuietKeeps(t, moves, n - 1);
      RunKeeps(t, moves[..n - 1]);
      InWindowIs(t, moves, n - 1);
      OneMore(t, moves, n - 1, MadeBy);
      OneMore(t, moves, n - 1, LostBy);
      hide Run, Table.Valid, Table.NothingSince, After, Total;
      AfterQuiet(Run(t, moves[..n - 1]), moves[n - 1]);
    }
  }

  // ---------------------------------------------------------------- whole rounds and hands

  ghost predicate NoEnd(moves: seq<Move>) {
    forall k | 0 <= k < |moves| :: !moves[k].MoveEndThisRound?
  }

  /** What those who leave take a second time, of the bets `left` that lie in the main
      pool already. */
  function TakenTwice(left: seq<nat>, moves: seq<Move>): nat
    decreases |moves|
  {
    if moves == [] then 0
    else if Leaves(moves[0]) then
      NumberAt(left, moves[0].idx) + TakenTwice(ZeroAt(left, moves[0].idx), moves[1..])
    else TakenTwice(left, moves[1..])
  }

  /** Nothing is taken twice exactly when no one leaves who has something left in the main pool. */
  lemma {:induction false} NothingTakenExactlyWhen(left: seq<nat>, moves: seq<Move>)
    ensures TakenTwice(left, moves) == 0 <==>
      forall k | 0 <= k < |moves| && Leaves(moves[k]) :: NumberAt(left, moves[k].idx) == 0
    decreases |moves|
  {
    if moves != [] {
      var rest := moves[1..];
      var less := if Leaves(moves[0]) then ZeroAt(left, moves[0].idx) else left;
      NothingTakenExactlyWhen(less, rest);
      assert forall k | 0 <= k < |rest| :: rest[k] == moves[k + 1];
      assert forall k | 1 <= k < |moves| :: moves[k] == rest[k - 1];
    }
  }

  ghost predicate NoBets(moves: seq<Move>) {
    forall k | 0 <= k < |moves| :: !ChangesBet(moves[k])
  }

  lemma CountedAfter(t: Table, move: Move)
    requires t.Valid() && t.calculated && !move.MoveEndThisRound?
    ensures After(t, move).calculated
    ensures After(t, move).counted == if Leaves(move) then ZeroAt(t.counted, move.idx) else t.counted
  {
    if Leaves(move) && t.At(move.idx).None? {
      NobodyCounted(t, move.idx);
      assert ZeroAt(t.counted, move.idx) == t.counted;
    }
  }

  /** Before the moves in between one can say what they will take twice. */
  lemma {:induction false} TakenBetween(t: Table, moves: seq<Move>)
    requires t.Valid() && t.calculated && NoEnd(moves)
    ensures TakenAgain(t, moves) == TakenTwice(t.counted, moves) && BetTooLate(t, moves) == 0
    ensures Run(t, moves).calculated
    decreases |moves|
  {
    if moves != [] {
      CountedAfter(t, moves[0]);
      AfterKeeps(t, moves[0]);
      TakenBetween(After(t, moves[0]), moves[1..]);
    }
  }

  /** The moves up to the calculation of the last round, and up to its end. */
  function ToTheLast(moves: seq<Move>, calculated: bool): seq<Move> {
    moves + if InWindow(moves, |moves|, calculated) then [] else [MoveCaculateRound]
  }

  function ToTheEnd(moves: seq<Move>, calculated: bool): seq<Move> {
    ToTheLast(moves, calculated) + [MoveEndThisRound]
  }

  lemma {:induction false} WindowOfPrefix(moves: seq<Move>, more: seq<Move>, k: nat, calculated: bool)
    requires k <= |moves|
    ensures InWindow(moves + more, k, calculated) == InWindow(moves, k, calculated)
  {
    if k > 0 {
      WindowOfPrefix(moves, more, k - 1, calculated);
    }
  }

  lemma QuietToTheEnd(moves: seq<Move>, calculated: bool)
    requires Quiet(moves, calculated)
    ensures Quiet(ToTheEnd(moves, calculated), calculated)
  {
    var all := ToTheEnd(moves, calculated);
    forall k | 0 <= k < |all| && InWindow(all, k, calculated) ensures !ChangesBet(all[k]) {
      if k < |moves| {
        WindowOfPrefix(moves, all[|moves|..], k, calculated);
        assert all == moves + all[|moves|..];
      }
    }
  }

  lemma QuietRound(t: Table, between: seq<Move>)
    requires t.Valid() && !t.calculated && NoBets(between)
    ensures TakenAgain(t, WholeRound(between)) == BetTooLate(t, WholeRound(between)) == 0
  {
    var all := WholeRound(between);
    assert forall k | 0 <= k < |all| :: !ChangesBet(all[k]);
    assert all[..|all|] == all;
    hide WholeRound, Table.Valid;
    QuietKeeps(t, all, |all|);
  }

  lemma EndOfRound(t: Table, moves: seq<Move>)
    requires t.Valid() && Run(t, moves).calculated
    ensures var u := Run(t, moves + [MoveEndThisRound]); !u.calculated && Sum(Bets(u.seats)) == 0
  {
    RunKeeps(t, moves);
    TwoRuns(t, moves, [MoveEndThisRound]);
    RoundEndedKeeps(Run(t, moves));
  }

  lemma TheLast(t: Table, moves: seq<Move>)
    ensures Run(t, ToTheLast(moves, t.calculated)).calculated
  {
    InWindowIs(t, moves, |moves|);
    assert moves[..|moves|] == moves && moves + [] == moves;
    TwoRuns(t, moves, [MoveCaculateRound]);
    CalculatedAtLast(Run(t, moves));
  }

  lemma CalculatedAtLast(t: Table)
    ensures Run(t, [MoveCaculateRound]).calculated
  {
    assert [MoveCaculateRound][1..] == [];
    hide PoolsOf, LayeredAll, StepsOf;
  }

  /** Then no bet is left. */
  lemma TheEnd(t: Table, moves: seq<Move>)
    requires t.Valid()
    ensures var u := Run(t, ToTheEnd(moves, t.calculated)); !u.calculated && Sum(Bets(u.seats)) == 0
  {
    TheLast(t, moves);
    hide Sum, Bets, Run, Table.Valid, ToTheLast;
    EndOfRound(t, ToTheLast(moves, t.calculated));
  }

  function WholeRound(between: seq<Move>): seq<Move> {
    [MoveCaculateRound] + between + [MoveEndThisRound]
  }

  /** A whole round's end: what is taken twice is what the layers left of the leavers' bets. */
  lemma RoundAmounts(t: Table, between: seq<Move>)
    requires t.Valid() && !t.calculated && NoEnd(between)
    ensures TakenAgain(t, WholeRound(between)) == TakenTwice(Bets(RoundCalculated(t).seats), between)
    ensures var u := Run(t, WholeRound(between)); !u.calculated && Sum(Bets(u.seats)) == 0
  {
    var all := [MoveCaculateRound] + between;
    AfterKeeps(t, MoveCaculateRound);
    CalculatedFirst(t, between);
    hide RoundCalculated, Run, Table.Valid, Sum, Total, After;
    TakenBetween(RoundCalculated(t), between);
    EndOfRound(t, all);
    TwoTotals(t, all, [MoveEndThisRound], MadeBy);
    NothingMade(Run(t, all));
  }

  lemma NothingMade(t: Table)
    ensures Total(t, [MoveEndThisRound], MadeBy) == 0
  {
    assert [MoveEndThisRound][1..] == [];
  }

  lemma CalculatedFirst(t: Table, between: seq<Move>)
    requires !t.calculated
    ensures After(t, MoveCaculateRound) == RoundCalculated(t) && RoundCalculated(t).calculated
    ensures RoundCalculated(t).counted == Bets(RoundCalculated(t).seats)
    ensures Run(t, [MoveCaculateRound] + between) == Run(RoundCalculated(t), between)
    ensures TakenAgain(t, [MoveCaculateRound] + between) == TakenAgain(RoundCalculated(t), between)
  {
    var all := [MoveCaculateRound] + between;
    assert all[0] == MoveCaculateRound && all[1..] == between;
    hide RoundCalculated;
  }
}
