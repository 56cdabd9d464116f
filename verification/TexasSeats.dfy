/** The seats of a table: coins, bets and stakes, and the layers of a betting round. */
module TexasSeats {
  import opened Wrappers
  import opened TexasPools
  import opened PokerRanking

  const UINT64_END := 0x1_0000_0000_0000_0000

  // ---------------------------------------------------------------- data

  /** A state is the set of its flag bits. */
  type State = set<nat>

  const WAIT_CACULATE: State := {0, 2, 7}
  const ALL_IN: State := {0, 2, 3, 7}
  const GIVE_UP: State := {0, 2, 4}
  const CAN_ACT: State := {0, 2, 5, 7}

  datatype Act = NoAct | AllIn | GiveUp | Pass | Follow

  datatype Peer = Peer(session: nat, state: State, coin: nat, bet: nat, allBet: nat, act: Act, win: nat,
                       hold: seq<Card>) {
    predicate Has(flags: State) {
      flags <= state
    }
  }

  type Seats = seq<Option<Peer>>

  datatype Pool = Pool(coins: nat, peers: seq<nat>, winners: seq<nat>)

  predicate InHand(o: Option<Peer>) {
    o.Some? && o.value.Has(WAIT_CACULATE)
  }

  predicate Acting(o: Option<Peer>) {
    o.Some? && o.value.Has(CAN_ACT)
  }

  function BetOf(o: Option<Peer>): nat {
    if o.Some? then o.value.bet else 0
  }

  function CoinOf(o: Option<Peer>): nat {
    if o.Some? then o.value.coin else 0
  }

  function Bets(seats: Seats): (r: seq<nat>)
    ensures |r| == |seats|
  {
    seq(|seats|, i requires 0 <= i < |seats| => BetOf(seats[i]))
  }

  function Coins(seats: Seats): (r: seq<nat>)
    ensures |r| == |seats|
  {
    seq(|seats|, i requires 0 <= i < |seats| => CoinOf(seats[i]))
  }

  function PoolCoins(pools: seq<Pool>): (r: seq<nat>)
    ensures |r| == |pools|
  {
    seq(|pools|, i requires 0 <= i < |pools| => pools[i].coins)
  }

  // ---------------------------------------------------------------- sums

  lemma {:induction false} SumUpdate(s: seq<nat>, i: nat, v: nat)
    requires i < |s|
    ensures Sum(s[i := v]) == Sum(s) - s[i] + v
  {
    var n := |s| - 1;
    if i == n {
      assert s[i := v][..n] == s[..n];
    } else {
      assert s[i := v][..n] == s[..n][i := v];
      SumUpdate(s[..n], i, v);
    }
  }

  lemma {:induction false} SumAtLeast(s: seq<nat>, i: nat)
    requires i < |s|
    ensures s[i] <= Sum(s)
  {
    if i < |s| - 1 {
      SumAtLeast(s[..|s| - 1], i);
    }
  }

  lemma {:induction false} ZeroSum(s: seq<nat>)
    requires forall i | 0 <= i < |s| :: s[i] == 0
    ensures Sum(s) == 0
  {
    if s != [] {
      ZeroSum(s[..|s| - 1]);
    }
  }

  lemma {:induction false} SumAtMost(a: seq<nat>, b: seq<nat>)
    requires |a| == |b| && forall i | 0 <= i < |a| :: a[i] <= b[i]
    ensures Sum(a) <= Sum(b)
  {
    if a != [] {
      SumAtMost(a[..|a| - 1], b[..|b| - 1]);
    }
  }

  function NumberAt(s: seq<nat>, i: nat): nat {
    if i < |s| then s[i] else 0
  }

  function ZeroAt(s: seq<nat>, i: nat): seq<nat> {
    if i < |s| then s[i := 0] else s
  }

  /** Of each bet a part. */
  ghost predicate PartOf(parts: seq<nat>, seats: Seats) {
    |parts| == |seats| && forall i | 0 <= i < |seats| :: parts[i] <= BetOf(seats[i])
  }

  lemma PartsWithin(parts: seq<nat>, seats: Seats)
    requires PartOf(parts, seats)
    ensures Sum(parts) <= Sum(Bets(seats))
  {
    SumAtMost(parts, Bets(seats));
  }

  lemma NoneCounted(parts: seq<nat>, i: nat)
    ensures Sum(parts) == 0 ==> NumberAt(parts, i) == 0
  {
    if i < |parts| {
      SumAtLeast(parts, i);
    }
  }

  /** One seat's coin and bet change. */
  lemma SeatChanges(seats: Seats, i: nat, o: Option<Peer>)
    requires i < |seats|
    ensures Sum(Bets(seats[i := o])) == Sum(Bets(seats)) - BetOf(seats[i]) + BetOf(o)
    ensures Sum(Coins(seats[i := o])) == Sum(Coins(seats)) - CoinOf(seats[i]) + CoinOf(o)
  {
    assert Bets(seats[i := o]) == Bets(seats)[i := BetOf(o)];
    assert Coins(seats[i := o]) == Coins(seats)[i := CoinOf(o)];
    SumUpdate(Bets(seats), i, BetOf(o));
    SumUpdate(Coins(seats), i, CoinOf(o));
  }

  lemma SeatWithin(seats: Seats, i: nat)
    requires i < |seats|
    ensures BetOf(seats[i]) <= Sum(Bets(seats)) && CoinOf(seats[i]) <= Sum(Coins(seats))
  {
    SumAtLeast(Bets(seats), i);
    SumAtLeast(Coins(seats), i);
  }

  lemma PoolAdded(pools: seq<Pool>, pool: Pool)
    ensures Sum(PoolCoins(pools + [pool])) == Sum(PoolCoins(pools)) + pool.coins
  {
    assert PoolCoins(pools + [pool]) == PoolCoins(pools) + [pool.coins];
    SumAppend(PoolCoins(pools), pool.coins);
  }

  lemma {:induction false} SumTwo(a: seq<nat>, b: seq<nat>)
    ensures Sum(a + b) == Sum(a) + Sum(b)
  {
    if b == [] {
      assert a + b == a;
    } else {
      assert (a + b)[..|a + b| - 1] == a + b[..|b| - 1];
      SumTwo(a, b[..|b| - 1]);
    }
  }

  lemma PoolsAdded(pools: seq<Pool>, more: seq<Pool>)
    ensures Sum(PoolCoins(pools + more)) == Sum(PoolCoins(pools)) + Sum(PoolCoins(more))
  {
    assert PoolCoins(pools + more) == PoolCoins(pools) + PoolCoins(more);
    SumTwo(PoolCoins(pools), PoolCoins(more));
  }

  // ---------------------------------------------------------------- the second largest stake

  /** How many acting players have at least `x` in coins and bet. */
  function CountAtLeast(seats: Seats, x: nat): nat {
    if seats == [] then 0
    else
      var last := seats[|seats| - 1];
      CountAtLeast(seats[..|seats| - 1], x) + (if Acting(last) && CoinOf(last) + BetOf(last) >= x then 1 else 0)
  }

  /** The second largest stake of an acting player, equal stakes counted apart; 0 if
      there is none. */
  ghost predicate SecondLargest(seats: Seats, x: nat) {
    (x > 0 ==> CountAtLeast(seats, x) >= 2) && CountAtLeast(seats, x + 1) <= 1
  }

  lemma {:induction false} CountAntitone(seats: Seats, x: nat, y: nat)
    requires x <= y
    ensures CountAtLeast(seats, y) <= CountAtLeast(seats, x)
  {
    if seats != [] {
      CountAntitone(seats[..|seats| - 1], x, y);
    }
  }

  lemma SecondLargestIsUnique(seats: Seats, x: nat, y: nat)
    requires SecondLargest(seats, x) && SecondLargest(seats, y)
    ensures x == y
  {
    if x < y {
      CountAntitone(seats, x + 1, y);
    } else if y < x {
      CountAntitone(seats, y + 1, x);
    }
  }

  predicate Stakes(seats: Seats, i: nat, x: nat) {
    i < |seats| && Acting(seats[i]) && CoinOf(seats[i]) + BetOf(seats[i]) >= x
  }

  ghost predicate TwoStake(seats: Seats, x: nat) {
    exists i, j :: i < j && Stakes(seats, i, x) && Stakes(seats, j, x)
  }

  lemma {:induction false} CountIsAtLeast(seats: Seats, x: nat)
    ensures CountAtLeast(seats, x) >= 1 <==> exists i :: Stakes(seats, i, x)
    ensures CountAtLeast(seats, x) >= 2 <==> TwoStake(seats, x)
  {
    if seats != [] {
      var n := |seats| - 1;
      var less := seats[..n];
      CountIsAtLeast(less, x);
      hide Acting, CountAtLeast;
      assert CountAtLeast(seats, x) == CountAtLeast(less, x) + (if Stakes(seats, n, x) then 1 else 0) by {
        OneMoreSeat(less, seats[n], x);
        assert seats == less + [seats[n]];
      }
      forall i: nat ensures Stakes(seats, i, x) <==> Stakes(less, i, x) || (i == n && Stakes(seats, n, x)) {
      }
    }
  }

  /** Two different acting players can stake that much, if it is not zero, and no two can stake
      more. */
  lemma SecondLargestExactlyWhen(seats: Seats, x: nat)
    ensures SecondLargest(seats, x) <==>
      (x == 0 || TwoStake(seats, x)) && !TwoStake(seats, x + 1)
  {
    CountIsAtLeast(seats, x);
    CountIsAtLeast(seats, x + 1);
    hide CountAtLeast, TwoStake;
  }

  /** What the loop knows of the seats it has seen. */
  ghost predicate TwoLargest(seats: Seats, second: nat, biggest: nat) {
    && second <= biggest && SecondLargest(seats, second)
    && CountAtLeast(seats, biggest + 1) == 0 && (biggest > 0 ==> CountAtLeast(seats, biggest) >= 1)
  }

  lemma OneMoreSeat(seats: Seats, o: Option<Peer>, x: nat)
    ensures CountAtLeast(seats + [o], x) ==
      CountAtLeast(seats, x) + (if Acting(o) && CoinOf(o) + BetOf(o) >= x then 1 else 0)
  {
    assert (seats + [o])[..|seats|] == seats;
  }

  lemma TwoLargestStep(seats: Seats, o: Option<Peer>, second: nat, biggest: nat)
    requires TwoLargest(seats, second, biggest)
    ensures var all := CoinOf(o) + BetOf(o);
      if !Acting(o) || second >= all then TwoLargest(seats + [o], second, biggest)
      else if all > biggest then TwoLargest(seats + [o], biggest, all)
      else TwoLargest(seats + [o], all, biggest)
  {
    hide CountAtLeast;
    var all := CoinOf(o) + BetOf(o);
    OneMoreSeat(seats, o, second);
    OneMoreSeat(seats, o, second + 1);
    OneMoreSeat(seats, o, biggest);
    OneMoreSeat(seats, o, biggest + 1);
    OneMoreSeat(seats, o, all);
    OneMoreSeat(seats, o, all + 1);
    if second < all <= biggest {
      CountAntitone(seats, second + 1, all + 1);
      CountAntitone(seats, all, biggest);
    } else if all > biggest {
      CountAntitone(seats, biggest + 1, all);
      CountAntitone(seats, biggest + 1, all + 1);
    }
  }

  /** There is one. */
  lemma {:induction false} TwoLargestExist(seats: Seats) returns (second: nat, biggest: nat)
    ensures TwoLargest(seats, second, biggest)
  {
    if seats == [] {
      second, biggest := 0, 0;
    } else {
      var last := seats[|seats| - 1];
      assert seats == seats[..|seats| - 1] + [last];
      second, biggest := TwoLargestExist(seats[..|seats| - 1]);
      TwoLargestStep(seats[..|seats| - 1], last, second, biggest);
      var all := CoinOf(last) + BetOf(last);
      if Acting(last) && all > second {
        second, biggest := if all > biggest then biggest else all, if all > biggest then all else biggest;
      }
    }
  }

  /** The largest bet two acting players could both make. */
  ghost function Cap(seats: Seats): (x: nat)
    ensures SecondLargest(seats, x)
  {
    assert exists x: nat :: SecondLargest(seats, x) by {
      var second, biggest := TwoLargestExist(seats);
    }
    var x: nat :| SecondLargest(seats, x);
    x
  }

  /** Going around from `k`, twice around the table at most, the first player who can act; the
      first seat if there is none. */
  function FirstActing(seats: Seats, k: nat): nat
    decreases 2 * |seats| - k
  {
    if k >= 2 * |seats| then 0
    else if Acting(seats[k % |seats|]) then k % |seats|
    else FirstActing(seats, k + 1)
  }

  // ---------------------------------------------------------------- layers over seats

  /** One layer takes its step from a player in the hand who still has it. */
  function Peel(o: Option<Peer>, step: nat): Option<Peer> {
    if InHand(o) && o.value.bet >= step then Some(o.value.(bet := o.value.bet - step)) else o
  }

  /** The first `n` seats that pay the step. */
  function Paying(seats: Seats, step: nat, n: nat): seq<nat>
    requires n <= |seats|
  {
    if n == 0 then []
    else Paying(seats, step, n - 1) + (if InHand(seats[n - 1]) && BetOf(seats[n - 1]) >= step then [n - 1] else [])
  }

  lemma {:induction false} PayingAre(seats: Seats, step: nat, n: nat)
    requires n <= |seats|
    ensures forall i :: i in Paying(seats, step, n) <==> 0 <= i < n && InHand(seats[i]) && BetOf(seats[i]) >= step
    ensures forall i, j | 0 <= i < j < |Paying(seats, step, n)| :: Paying(seats, step, n)[i] < Paying(seats, step, n)[j]
  {
    if n > 0 {
      PayingAre(seats, step, n - 1);
      var p := Paying(seats, step, n - 1);
      forall i | 0 <= i < |p| ensures p[i] < n - 1 {
        assert p[i] in p;
      }
    }
  }

  /** The sums over the first seats a layer was taken from. */
  lemma {:induction false} PeeledSums(before: Seats, after: Seats, step: nat, n: nat)
    requires n <= |before| == |after| && forall i | 0 <= i < n :: after[i] == Peel(before[i], step)
    ensures Sum(Bets(before[..n])) == Sum(Bets(after[..n])) + step * |Paying(before, step, n)|
    ensures Sum(Coins(before[..n])) == Sum(Coins(after[..n]))
  {
    if n > 0 {
      hide Sum, Bets, Coins, InHand;
      PeeledSums(before, after, step, n - 1);
      LastSeat(before, n);
      LastSeat(after, n);
      if InHand(before[n - 1]) && BetOf(before[n - 1]) >= step {
        OneMoreStep(step, |Paying(before, step, n - 1)|);
        assert |Paying(before, step, n)| == |Paying(before, step, n - 1)| + 1;
      }
    }
  }

  lemma OneMoreStep(step: nat, n: nat)
    ensures step * (n + 1) == step * n + step
  {
  }

  lemma LastSeat(seats: Seats, n: nat)
    requires 0 < n <= |seats|
    ensures Sum(Bets(seats[..n])) == Sum(Bets(seats[..n - 1])) + BetOf(seats[n - 1])
    ensures Sum(Coins(seats[..n])) == Sum(Coins(seats[..n - 1])) + CoinOf(seats[n - 1])
  {
    assert Bets(seats[..n]) == Bets(seats[..n - 1]) + [BetOf(seats[n - 1])];
    assert Coins(seats[..n]) == Coins(seats[..n - 1]) + [CoinOf(seats[n - 1])];
    SumAppend(Bets(seats[..n - 1]), BetOf(seats[n - 1]));
    SumAppend(Coins(seats[..n - 1]), CoinOf(seats[n - 1]));
  }

  function Layered(o: Option<Peer>, steps: seq<nat>): Option<Peer> {
    if InHand(o) then Some(o.value.(bet := Left(o.value.bet, steps))) else o
  }

  function LayeredAll(seats: Seats, steps: seq<nat>): (r: Seats)
    ensures |r| == |seats|
  {
    seq(|seats|, i requires 0 <= i < |seats| => Layered(seats[i], steps))
  }

  lemma LayerOnTop(seats: Seats, steps: seq<nat>, step: nat)
    ensures forall i | 0 <= i < |seats| ::
      Peel(LayeredAll(seats, steps)[i], step) == LayeredAll(seats, steps + [step])[i]
  {
    forall i | 0 <= i < |seats|
      ensures Peel(LayeredAll(seats, steps)[i], step) == LayeredAll(seats, steps + [step])[i] {
      if InHand(seats[i]) {
        LeftAppend(seats[i].value.bet, steps, step);
      }
    }
  }

  function Counted(o: Option<Peer>): Option<Peer> {
    if InHand(o) then Some(o.value.(allBet := (o.value.allBet + o.value.bet) % UINT64_END)) else o
  }

  function CountedAll(seats: Seats): (r: Seats)
    ensures |r| == |seats|
  {
    seq(|seats|, i requires 0 <= i < |seats| => Counted(seats[i]))
  }

  lemma CountedSame(seats: Seats)
    ensures Coins(CountedAll(seats)) == Coins(seats) && Bets(CountedAll(seats)) == Bets(seats)
    ensures Sound(seats) ==> Sound(CountedAll(seats))
  {
  }

  predicate WentAllIn(o: Option<Peer>) {
    o.Some? && o.value.act == AllIn
  }

  /** The different bets of those who went all in, but for zero. */
  function AllInBets(seats: Seats): set<nat> {
    set i | 0 <= i < |seats| && WentAllIn(seats[i]) && BetOf(seats[i]) > 0 :: BetOf(seats[i])
  }

  /** The layers of a round: each of these bets is the top of one. */
  ghost function StepsOf(seats: Seats): seq<nat> {
    StepsTo(AllInBets(seats))
  }

  /** The seats that pay into layer `j`. */
  function Payers(seats: Seats, steps: seq<nat>, j: nat): seq<nat>
    requires j < |steps|
  {
    Paying(LayeredAll(seats, steps[..j]), steps[j], |seats|)
  }

  lemma PayersAre(seats: Seats, steps: seq<nat>, j: nat)
    requires j < |steps|
    ensures forall i ::
      i in Payers(seats, steps, j) <==> 0 <= i < |seats| && InHand(seats[i]) && Takes(BetOf(seats[i]), steps, j)
    ensures forall a, b | 0 <= a < b < |Payers(seats, steps, j)| ::
      Payers(seats, steps, j)[a] < Payers(seats, steps, j)[b]
  {
    PayingAre(LayeredAll(seats, steps[..j]), steps[j], |seats|);
  }

  /** The pools of the layers: each listed player pays the same step, and the first
      pool also takes what was in the main pool. */
  function PoolsOf(seats: Seats, main: nat, steps: seq<nat>): (r: seq<Pool>)
    ensures |r| == |steps|
  {
    seq(|steps|, j requires 0 <= j < |steps| =>
      Pool((if j == 0 then main else 0) + steps[j] * |Payers(seats, steps, j)|, Payers(seats, steps, j), []))
  }

  ghost predicate Built(pools: seq<Pool>, seats: Seats, main: nat, steps: seq<nat>) {
    pools == PoolsOf(seats, main, steps)
  }

  lemma PayersPrefix(seats: Seats, steps: seq<nat>, step: nat, j: nat)
    requires j < |steps|
    ensures Payers(seats, steps + [step], j) == Payers(seats, steps, j)
  {
    assert (steps + [step])[..j] == steps[..j];
  }

  lemma BuiltNext(pools: seq<Pool>, seats: Seats, main: nat, steps: seq<nat>, step: nat, coins: nat)
    requires Built(pools, seats, main, steps)
    requires coins == (if steps == [] then main else 0) + step * |Paying(LayeredAll(seats, steps), step, |seats|)|
    ensures Built(pools + [Pool(coins, Paying(LayeredAll(seats, steps), step, |seats|), [])], seats, main,
                  steps + [step])
  {
    var more := steps + [step];
    assert more[..|steps|] == steps;
    forall j | 0 <= j < |steps| ensures Payers(seats, more, j) == Payers(seats, steps, j) {
      PayersPrefix(seats, steps, step, j);
    }
  }

  ghost predicate Ascends(s: seq<nat>) {
    forall i, j | 0 <= i < j < |s| :: s[i] < s[j]
  }

  /** Pools list seats in order, and nobody has won them yet. */
  ghost predicate Listed(pools: seq<Pool>, n: nat) {
    forall k | 0 <= k < |pools| ::
      pools[k].winners == [] && Ascends(pools[k].peers) && forall i | i in pools[k].peers :: i < n
  }

  /** Pools from the `n`th on list players in the hand. */
  ghost predicate ListInHand(pools: seq<Pool>, n: nat, seats: Seats) {
    forall k | n <= k < |pools| :: AreInHand(pools[k].peers, seats)
  }

  ghost predicate AreInHand(peers: seq<nat>, seats: Seats) {
    forall i | i in peers :: i < |seats| && InHand(seats[i])
  }

  /** So do the pools that the end of a betting round makes. */
  lemma BuiltPoolsAreListed(pools: seq<Pool>, seats: Seats, main: nat, steps: seq<nat>)
    requires Built(pools, seats, main, steps)
    ensures Listed(pools, |seats|) && ListInHand(pools, 0, seats)
  {
    forall k | 0 <= k < |pools| ensures Ascends(pools[k].peers) && AreInHand(pools[k].peers, seats) {
      PayersAre(seats, steps, k);
    }
  }

  lemma ListedMore(pools: seq<Pool>, more: seq<Pool>, seats: Seats)
    requires Listed(pools, |seats|) && Listed(more, |seats|) && ListInHand(more, 0, seats)
    ensures Listed(pools + more, |seats|) && ListInHand(pools + more, |pools|, seats)
  {
    var all := pools + more;
    forall k | 0 <= k < |all| ensures all[k] == if k < |pools| then pools[k] else more[k - |pools|] {
    }
  }

  // ---------------------------------------------------------------- what betting leaves as it is

  ghost predicate FollowsAt(after: Option<Peer>, before: Option<Peer>) {
    after.Some? ==>
      && before.Some? && after.value.hold == before.value.hold && after.value.win == before.value.win
      && (InHand(after) ==> InHand(before))
  }

  /** Nobody sits down, nobody gets back into the hand, cards and winnings stay. */
  ghost predicate Follows(after: Seats, before: Seats) {
    |after| == |before| && forall i | 0 <= i < |before| :: FollowsAt(after[i], before[i])
  }

  lemma FollowsTwice(a: Seats, b: Seats, c: Seats)
    requires Follows(a, b) && Follows(b, c)
    ensures Follows(a, c)
  {
    forall i | 0 <= i < |c| ensures FollowsAt(a[i], c[i]) {
      assert FollowsAt(a[i], b[i]) && FollowsAt(b[i], c[i]);
    }
  }

  /** Pools of players in the hand now are pools of players in the hand before. */
  lemma ListedBefore(pools: seq<Pool>, n: nat, m: nat, now: Seats, before: Seats)
    requires m <= n <= |pools| && ListInHand(pools, n, now) && ListInHand(pools[..n], m, before) && Follows(now, before)
    ensures ListInHand(pools, m, before)
  {
    forall k | m <= k < |pools| ensures AreInHand(pools[k].peers, before) {
      if k < n {
        assert pools[..n][k] == pools[k];
      } else {
        assert AreInHand(pools[k].peers, now);
        forall i | i in pools[k].peers ensures i < |before| && InHand(before[i]) {
          assert FollowsAt(now[i], before[i]);
        }
      }
    }
  }

  // ---------------------------------------------------------------- where the coins are

  /** A bet that is not in the hand would be lost, and all-in players are in the hand. */
  ghost predicate Sound(seats: Seats) {
    && (forall i | 0 <= i < |seats| :: BetOf(seats[i]) > 0 ==> InHand(seats[i]))
    && (forall i | 0 <= i < |seats| && seats[i].Some? && seats[i].value.act == AllIn :: InHand(seats[i]))
    && (forall i, j | 0 <= i < j < |seats| && seats[i].Some? && seats[j].Some? ::
         seats[i].value.session != seats[j].value.session)
  }

  /** Coins, bets and pools together. */
  ghost function WealthOf(seats: Seats, main: nat, pools: seq<Pool>): nat {
    Sum(Coins(seats)) + Sum(Bets(seats)) + main + Sum(PoolCoins(pools))
  }
}
