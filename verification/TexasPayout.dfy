/** The winners of each pool and what they are paid. */
module TexasPayout {
  import opened Wrappers
  import opened PokerRanking
  import opened PokerEvaluator
  import opened PokerCompare
  import opened PokerStrength
  import opened TexasPools
  import opened TexasSeats
  import opened TexasRoom

  // ---------------------------------------------------------------- winners

  function CardsOf(p: Peer, board: seq<Card>): seq<Card> {
    p.hold + board
  }

  /** Two cards in the player's hand and five on the board, all different. */
  ghost predicate Dealt(o: Option<Peer>, board: seq<Card>) {
    o.Some? ==> |o.value.hold| == 2 && |board| == 5 && Pack(CardsOf(o.value, board))
  }

  /** A listed player who still sits there. */
  predicate Seated(seats: Seats, peers: seq<nat>, i: nat) {
    i in peers && i < |seats| && seats[i].Some?
  }

  /** The listed players who still sit there have cards; others at the table, who wait for
      the next game, need none. */
  ghost predicate PeersDealt(seats: Seats, board: seq<Card>, peers: seq<nat>) {
    forall i: nat | Seated(seats, peers, i) :: Dealt(seats[i], board)
  }

  ghost function StrengthAt(seats: Seats, board: seq<Card>, i: nat): Score
    requires i < |seats| && seats[i].Some? && Dealt(seats[i], board)
  {
    Strength(CardsOf(seats[i].value, board))
  }

  /** No listed player has a stronger hand. */
  ghost predicate Strongest(seats: Seats, board: seq<Card>, peers: seq<nat>, i: nat) {
    && PeersDealt(seats, board, peers) && Seated(seats, peers, i)
    && forall j: nat | Seated(seats, peers, j) :: Compare(StrengthAt(seats, board, i), StrengthAt(seats, board, j)) >= 0
  }

  /** The winners are exactly the listed players with a strongest hand, each once. */
  ghost predicate AreWinners(seats: Seats, board: seq<Card>, peers: seq<nat>, winners: seq<nat>) {
    && PeersDealt(seats, board, peers) && Ascends(winners)
    && forall i: nat :: i in winners <==> Strongest(seats, board, peers, i)
  }

  /** `w` is a winner among those looked at, if anyone was. */
  ghost predicate Leading(seats: Seats, board: seq<Card>, peers: seq<nat>, winners: seq<nat>, w: Option<nat>) {
    && AreWinners(seats, board, peers, winners)
    && if w.None? then winners == [] && forall i: nat :: !Seated(seats, peers, i) else w.value in winners
  }

  /** Nobody sits at the next place. */
  lemma NextIsGone(seats: Seats, board: seq<Card>, peers: seq<nat>, winners: seq<nat>, w: Option<nat>, i: nat)
    requires Leading(seats, board, peers, winners, w)
    requires i >= |seats| || seats[i].None?
    ensures Leading(seats, board, peers + [i], winners, w)
  {
    SameSeated(seats, peers, i);
    forall k: nat ensures Strongest(seats, board, peers + [i], k) <==> Strongest(seats, board, peers, k) {
    }
  }

  lemma SameSeated(seats: Seats, peers: seq<nat>, i: nat)
    ensures forall k: nat ::
      Seated(seats, peers + [i], k) <==> Seated(seats, peers, k) || (k == i && i < |seats| && seats[i].Some?)
  {
  }

  lemma FirstLeads(seats: Seats, board: seq<Card>, peers: seq<nat>, winners: seq<nat>, i: nat)
    requires Leading(seats, board, peers, winners, None)
    requires i < |seats| && seats[i].Some? && Dealt(seats[i], board)
    ensures Leading(seats, board, peers + [i], [i], Some(i))
  {
    hide Compare;
    SameSeated(seats, peers, i);
    var s := StrengthAt(seats, board, i);
    CompareIsOrder(s, s, s);
    forall k: nat ensures k in [i] <==> Strongest(seats, board, peers + [i], k) {
    }
  }

  /** The next player compared with a winner: weaker, as strong, or stronger. */
  lemma NextCompared(seats: Seats, board: seq<Card>, peers: seq<nat>, winners: seq<nat>, w: nat, i: nat)
    requires Leading(seats, board, peers, winners, Some(w)) && forall k | k in peers :: k < i
    requires i < |seats| && seats[i].Some? && Dealt(seats[i], board)
    requires w < |seats| && seats[w].Some? && Dealt(seats[w], board)
    ensures var r := Compare(StrengthAt(seats, board, w), StrengthAt(seats, board, i));
      && (r > 0 ==> Leading(seats, board, peers + [i], winners, Some(w)))
      && (r == 0 ==> Leading(seats, board, peers + [i], winners + [i], Some(w)))
      && (r < 0 ==> Leading(seats, board, peers + [i], [i], Some(i)))
  {
    hide Compare, Strength;
    SameSeated(seats, peers, i);
    var r := Compare(StrengthAt(seats, board, w), StrengthAt(seats, board, i));
    assert Strongest(seats, board, peers, w);
    forall k: nat ensures Strongest(seats, board, peers + [i], k) <==>
      if k == i then r <= 0 else r >= 0 && Strongest(seats, board, peers, k) {
      if k == i {
        NewcomerStrongest(seats, board, peers, w, i);
      } else {
        OthersStrongest(seats, board, peers, w, i, k);
      }
    }
    forall x | 0 <= x < |winners| ensures winners[x] < i {
      assert winners[x] in winners;
      assert Strongest(seats, board, peers, winners[x]);
    }
    hide Strongest, StrengthAt;
    assert [i][0] in [i];
    assert r == 0 ==> forall k: nat :: k in winners + [i] <==> k in winners || k == i;
    assert r < 0 ==> forall k: nat :: k in [i] <==> Strongest(seats, board, peers + [i], k);
  }

  lemma NewcomerStrongest(seats: Seats, board: seq<Card>, peers: seq<nat>, w: nat, i: nat)
    requires Strongest(seats, board, peers, w) && i < |seats| && seats[i].Some? && Dealt(seats[i], board)
    ensures Strongest(seats, board, peers + [i], i) <==>
      Compare(StrengthAt(seats, board, w), StrengthAt(seats, board, i)) <= 0
  {
    hide Compare, Strength;
    SameSeated(seats, peers, i);
    var s, t := StrengthAt(seats, board, i), StrengthAt(seats, board, w);
    CompareIsOrder(s, t, s);
    CompareIsOrder(s, s, s);
    if Compare(t, s) <= 0 {
      forall j: nat | Seated(seats, peers, j) ensures Compare(s, StrengthAt(seats, board, j)) >= 0 {
        CompareIsOrder(s, t, StrengthAt(seats, board, j));
      }
    }
  }

  lemma OthersStrongest(seats: Seats, board: seq<Card>, peers: seq<nat>, w: nat, i: nat, k: nat)
    requires Strongest(seats, board, peers, w) && i < |seats| && seats[i].Some? && Dealt(seats[i], board) && k != i
    ensures Strongest(seats, board, peers + [i], k) <==>
      Compare(StrengthAt(seats, board, w), StrengthAt(seats, board, i)) >= 0 && Strongest(seats, board, peers, k)
  {
    hide Compare, Strength;
    SameSeated(seats, peers, i);
    var s, t := StrengthAt(seats, board, i), StrengthAt(seats, board, w);
    if Seated(seats, peers, k) {
      var u := StrengthAt(seats, board, k);
      if Compare(t, s) >= 0 && Strongest(seats, board, peers, k) {
        CompareIsOrder(u, t, s);
      }
      if Strongest(seats, board, peers + [i], k) {
        assert Compare(u, s) >= 0;
        CompareIsOrder(t, u, s);
      }
    }
  }

  method AddCards(hand: PeerCard, cards: seq<Card>)
    requires hand.Valid() && |hand.allCards| + |cards| <= 7 && Pack(hand.allCards + cards)
    modifies hand
    ensures hand.Valid() && hand.allCards == old(hand.allCards) + cards
  {
    var i := 0;
    assert hand.allCards + cards[..0] == hand.allCards;
    while i < |cards|
      invariant i <= |cards| && hand.Valid() && hand.allCards == old(hand.allCards) + cards[..i]
    {
      assert cards == cards[..i] + [cards[i]] + cards[i + 1..];
      NotYetThere(old(hand.allCards) + cards[..i], cards[i], cards[i + 1..], old(hand.allCards) + cards);
      hand.AddCard(cards[i]);
      i := i + 1;
      assert cards[..i] == cards[..i - 1] + [cards[i - 1]];
    }
    assert cards[..i] == cards;
  }

  lemma NotYetThere(before: seq<Card>, c: Card, after: seq<Card>, all: seq<Card>)
    requires Pack(all) && all == before + [c] + after
    ensures ValidCard(c) && c !in before
  {
    assert c in all;
    assert multiset(all)[c] == multiset(before)[c] + 1 + multiset(after)[c];
    assert c in before <==> multiset(before)[c] > 0;
  }

  /** `GetTaxasCardForPlayer`. */
  method GetTaxasCardForPlayer(hand: PeerCard, p: Peer, board: seq<Card>)
    requires Dealt(Some(p), board)
    modifies hand
    ensures hand.Valid() && hand.allCards == CardsOf(p, board)
  {
    hand.Reset();
    assert [] + CardsOf(p, board) == CardsOf(p, board);
    AddCards(hand, CardsOf(p, board));
  }

  /** `CaculateVicePoolWinnerIdxs`: one pass, comparing with a winner so far. */
  method CaculateVicePoolWinnerIdxs(seats: Seats, board: seq<Card>, peers: seq<nat>) returns (winners: seq<nat>)
    requires PeersDealt(seats, board, peers) && Ascends(peers) && forall i | i in peers :: i < |seats|
    ensures AreWinners(seats, board, peers, winners)
  {
    hide Leading;
    var winnerCards := new PeerCard();
    var targetCards := new PeerCard();
    var winner: Option<nat> := None;
    winners := [];
    NobodyLeads(seats, board);
    var k := 0;
    while k < |peers|
      invariant k <= |peers| && Leading(seats, board, peers[..k], winners, winner)
      invariant winnerCards.Valid() && targetCards.Valid() && fresh(winnerCards) && fresh(targetCards)
      invariant winnerCards != targetCards
      invariant winner.Some? ==> HoldsCards(winnerCards, seats, winner.value, board)
    {
      var i := peers[k];
      assert i in peers;
      assert Dealt(seats[i], board) by { assert seats[i].Some? ==> Seated(seats, peers, i); }
      assert peers[..k + 1] == peers[..k] + [i];
      forall x | x in peers[..k] ensures x < i {
        var q :| 0 <= q < k && peers[..k][q] == x;
        assert peers[q] < peers[k];
      }
      winners, winner := LookAt(seats, board, peers[..k], winners, winner, i, winnerCards, targetCards);
      k := k + 1;
    }
    assert peers[..k] == peers;
    LeadersWin(seats, board, peers, winners, winner);
  }

  lemma NobodyLeads(seats: Seats, board: seq<Card>)
    ensures Leading(seats, board, [], [], None)
  {
  }

  lemma LeadersWin(seats: Seats, board: seq<Card>, peers: seq<nat>, winners: seq<nat>, w: Option<nat>)
    requires Leading(seats, board, peers, winners, w)
    ensures AreWinners(seats, board, peers, winners)
  {
  }

  /** The cards of the player at seat `i`, in whatever order they lie. */
  ghost predicate HoldsCards(hand: PeerCard, seats: Seats, i: nat, board: seq<Card>)
    reads hand
  {
    i < |seats| && seats[i].Some? && multiset(hand.allCards) == multiset(CardsOf(seats[i].value, board))
  }

  method LookAt(seats: Seats, board: seq<Card>, ghost seen: seq<nat>, winners: seq<nat>, winner: Option<nat>, i: nat,
                winnerCards: PeerCard, targetCards: PeerCard) returns (winners': seq<nat>, winner': Option<nat>)
    requires Leading(seats, board, seen, winners, winner) && forall k | k in seen :: k < i
    requires i < |seats| && Dealt(seats[i], board)
    requires winnerCards.Valid() && targetCards.Valid() && winnerCards != targetCards
    requires winner.Some? ==> HoldsCards(winnerCards, seats, winner.value, board)
    modifies winnerCards, targetCards
    ensures Leading(seats, board, seen + [i], winners', winner')
    ensures winnerCards.Valid() && targetCards.Valid()
    ensures winner'.Some? ==> HoldsCards(winnerCards, seats, winner'.value, board)
  {
    hide Leading, Pack, Strength, Compare;
    winners', winner' := winners, winner;
    if seats[i].None? {
      NextIsGone(seats, board, seen, winners, winner, i);
    } else if winner.None? {
      winner' := Some(i);
      GetTaxasCardForPlayer(winnerCards, seats[i].value, board);
      winners' := winners + [i];
      NoneYet(seats, board, seen, winners);
      assert winners + [i] == [i];
      FirstLeads(seats, board, seen, winners, i);
    } else {
      WinnerIsDealt(seats, board, seen, winners, winner.value);
      var r := PlayOff(seats, board, winner.value, i, winnerCards, targetCards);
      NextCompared(seats, board, seen, winners, winner.value, i);
      if r == 0 {
        winners' := winners + [i];
      } else if r != 1 {
        winner' := Some(i);
        winners' := [i];
        GetTaxasCardForPlayer(winnerCards, seats[i].value, board);
      }
    }
  }

  lemma WinnerIsDealt(seats: Seats, board: seq<Card>, peers: seq<nat>, winners: seq<nat>, w: nat)
    requires Leading(seats, board, peers, winners, Some(w))
    ensures w < |seats| && seats[w].Some? && Dealt(seats[w], board)
  {
    assert Strongest(seats, board, peers, w);
  }

  lemma NoneYet(seats: Seats, board: seq<Card>, peers: seq<nat>, winners: seq<nat>)
    requires Leading(seats, board, peers, winners, None)
    ensures winners == []
  {
  }

  method PlayOff(seats: Seats, board: seq<Card>, w: nat, i: nat, winnerCards: PeerCard, targetCards: PeerCard)
    returns (r: int)
    requires i < |seats| && seats[i].Some? && Dealt(seats[i], board)
    requires w < |seats| && seats[w].Some? && Dealt(seats[w], board)
    requires winnerCards.Valid() && targetCards.Valid() && winnerCards != targetCards
    requires HoldsCards(winnerCards, seats, w, board)
    modifies winnerCards, targetCards
    ensures winnerCards.Valid() && targetCards.Valid() && HoldsCards(winnerCards, seats, w, board)
    ensures r == Compare(StrengthAt(seats, board, w), StrengthAt(seats, board, i)) && -1 <= r <= 1
  {
    hide Pack, Strength, Compare, Best, ScoreOf;
    ghost var mine, theirs := CardsOf(seats[w].value, board), CardsOf(seats[i].value, board);
    SameLength(winnerCards.allCards, mine);
    GetTaxasCardForPlayer(targetCards, seats[i].value, board);
    r := PK(winnerCards, targetCards);
    ComparedStrengths(mine, theirs, winnerCards.allCards, targetCards.allCards, r);
    CompareRange(Strength(mine), Strength(theirs));
  }

  lemma CompareRange(x: Score, y: Score)
    ensures -1 <= Compare(x, y) <= 1
  {
    LexAntisymmetric(x.key, y.key);
  }

  // ---------------------------------------------------------------- payment

  /** The floored share of each winner. */
  function Share(pool: Pool): nat {
    if pool.winners == [] then 0 else pool.coins / |pool.winners|
  }

  /** What seat `i` wins from the pools. */
  function Payments(pools: seq<Pool>, i: nat): nat {
    if pools == [] then 0
    else
      var last := pools[|pools| - 1];
      Payments(pools[..|pools| - 1], i) + (if i in last.winners then Share(last) else 0)
  }

  lemma PaymentsNext(pools: seq<Pool>, k: nat, i: nat)
    requires k < |pools|
    ensures Payments(pools[..k + 1], i) ==
      Payments(pools[..k], i) + (if i in pools[k].winners then Share(pools[k]) else 0)
  {
    assert pools[..k + 1][..k] == pools[..k];
  }

  function Won(o: Option<Peer>, x: nat): Option<Peer> {
    if o.Some? then Some(o.value.(win := o.value.win + x)) else o
  }

  /** Only players still in the hand get what they won. */
  function CashedIn(o: Option<Peer>): Option<Peer> {
    if InHand(o) then Some(o.value.(coin := o.value.coin + o.value.win)) else o
  }

  /** The pools as they were, the main pool added for the players who can act if it
      is not empty, and each with its winners. */
  ghost predicate Decided(pools: seq<Pool>, before: seq<Pool>, main: nat, seats: Seats, board: seq<Card>) {
    && |pools| == |before| + (if main > 0 then 1 else 0)
    && (forall k | 0 <= k < |before| :: pools[k].coins == before[k].coins && pools[k].peers == before[k].peers)
    && (main > 0 ==> pools[|before|].coins == main && ListsActing(pools[|before|].peers, seats))
    && forall k | 0 <= k < |pools| :: AreWinners(seats, board, pools[k].peers, pools[k].winners)
  }

  ghost predicate ListsActing(peers: seq<nat>, seats: Seats) {
    Ascends(peers) && forall i: nat :: i in peers <==> i < |seats| && Acting(seats[i])
  }

  ghost predicate PoolsDealt(pools: seq<Pool>, seats: Seats, board: seq<Card>) {
    forall k | 0 <= k < |pools| :: PeersDealt(seats, board, pools[k].peers)
  }

  ghost predicate ActingDealt(seats: Seats, board: seq<Card>) {
    forall i | 0 <= i < |seats| && Acting(seats[i]) :: Dealt(seats[i], board)
  }

  lemma ActingAreDealt(seats: Seats, board: seq<Card>, peers: seq<nat>)
    requires ActingDealt(seats, board) && ListsActing(peers, seats)
    ensures PeersDealt(seats, board, peers)
  {
  }

  /** Coins won do not change who sits where with which cards. */
  ghost predicate SameCards(seats: Seats, before: Seats) {
    |seats| == |before| && forall i | 0 <= i < |seats| ::
      seats[i].Some? == before[i].Some? && (seats[i].Some? ==> seats[i].value.hold == before[i].value.hold)
  }

  lemma SameWinners(seats: Seats, before: Seats, board: seq<Card>, peers: seq<nat>, winners: seq<nat>)
    requires PeersDealt(before, board, peers) && SameCards(seats, before)
    ensures PeersDealt(seats, board, peers)
    ensures AreWinners(seats, board, peers, winners) <==> AreWinners(before, board, peers, winners)
  {
    hide Strength, Compare, Pack;
    forall i: nat | Seated(seats, peers, i) ensures Dealt(seats[i], board) {
      assert Seated(before, peers, i) && Dealt(before[i], board);
    }
    forall i: nat ensures Strongest(seats, board, peers, i) <==> Strongest(before, board, peers, i) {
      forall j: nat ensures Seated(seats, peers, j) <==> Seated(before, peers, j) {
      }
    }
  }

  method FindActing(seats: Seats) returns (idxs: seq<nat>)
    ensures ListsActing(idxs, seats)
  {
    idxs := [];
    for k := 0 to |seats|
      invariant forall i: nat :: i in idxs <==> i < k && Acting(seats[i])
      invariant Ascends(idxs) && forall x | 0 <= x < |idxs| :: idxs[x] < k
    {
      if Acting(seats[k]) {
        idxs := idxs + [k];
      }
    }
  }

  /** Each winner's winnings grow by the share. */
  method PayWinners(room: Room, winners: seq<nat>, share: nat)
    requires Ascends(winners) && forall i | i in winners :: i < |room.seats|
    modifies room`seats
    ensures |room.seats| == |old(room.seats)|
    ensures forall i | 0 <= i < |room.seats| ::
      room.seats[i] == Won(old(room.seats)[i], if i in winners then share else 0)
    ensures forall i | i in winners && old(room.seats)[i].Some? ::
      var p := old(room.seats)[i].value; room.seats[i] == Some(p.(win := p.win + share))
  {
    var k := 0;
    while k < |winners|
      invariant k <= |winners| && |room.seats| == |old(room.seats)|
      invariant forall i | 0 <= i < |room.seats| ::
        room.seats[i] == Won(old(room.seats)[i], if i in winners[..k] then share else 0)
    {
      var w := winners[k];
      assert w in winners;
      assert winners[..k + 1] == winners[..k] + [w];
      assert w !in winners[..k];
      if room.seats[w].Some? {
        room.seats := room.seats[w := Some(room.seats[w].value.(win := room.seats[w].value.win + share))];
      }
      k := k + 1;
    }
    assert winners[..k] == winners;
  }

  /** What has happened when the first `k` pools are paid. */
  ghost predicate PaidUpTo(room: Room, before: Seats, start: seq<Pool>, k: nat, board: seq<Card>)
    reads room
  {
    && k <= |room.pools| == |start| && |room.seats| == |before|
    && (forall q | 0 <= q < |start| :: room.pools[q].coins == start[q].coins && room.pools[q].peers == start[q].peers)
    && (forall q | 0 <= q < k :: AreWinners(before, board, room.pools[q].peers, room.pools[q].winners))
    && forall i | 0 <= i < |before| :: room.seats[i] == Won(before[i], Payments(room.pools[..k], i))
  }

  method PayPool(room: Room, k: nat, board: seq<Card>, ghost before: Seats, ghost start: seq<Pool>)
    requires PoolsDealt(start, before, board) && Listed(start, |before|)
    requires k < |room.pools| && PaidUpTo(room, before, start, k, board)
    modifies room`seats, room`pools
    ensures PaidUpTo(room, before, start, k + 1, board)
  {
    hide AreWinners, Payments, Pack;
    SameWinners(room.seats, before, board, room.pools[k].peers, []);
    var winners := CaculateVicePoolWinnerIdxs(room.seats, board, room.pools[k].peers);
    SameWinners(room.seats, before, board, room.pools[k].peers, winners);
    WinnersAreSeated(before, board, room.pools[k].peers, winners);
    ghost var earlier := room.pools;
    room.pools := room.pools[k := room.pools[k].(winners := winners)];
    if winners != [] {
      PayWinners(room, winners, room.pools[k].coins / |winners|);
    }
    assert room.pools[..k] == earlier[..k];
    forall i: nat ensures Payments(room.pools[..k + 1], i) ==
      Payments(room.pools[..k], i) + (if i in room.pools[k].winners then Share(room.pools[k]) else 0) {
      PaymentsNext(room.pools, k, i);
    }
  }

  lemma WinnersAreSeated(seats: Seats, board: seq<Card>, peers: seq<nat>, winners: seq<nat>)
    requires AreWinners(seats, board, peers, winners)
    ensures Ascends(winners) && forall i | i in winners :: i < |seats| && seats[i].Some? && i in peers
  {
    forall i | i in winners ensures i < |seats| && seats[i].Some? && i in peers {
      assert Strongest(seats, board, peers, i);
    }
  }

  /** `OnCaculateGameResult`. Cards are needed by those listed in a pool, and by those who
      can act, if the main pool is for them. */
  method OnCaculateGameResult(room: Room, board: seq<Card>)
    requires PoolsDealt(room.pools, room.seats, board) && Listed(room.pools, |room.seats|)
    requires room.main > 0 ==> ActingDealt(room.seats, board)
    modifies room`seats, room`pools
    ensures Decided(room.pools, old(room.pools), room.main, old(room.seats), board)
    ensures |room.seats| == |old(room.seats)| && forall i | 0 <= i < |room.seats| ::
      room.seats[i] == CashedIn(Won(old(room.seats)[i], Payments(room.pools, i)))
  {
    hide AreWinners, Payments, Pack;
    ghost var before := room.seats;
    if room.main > 0 {
      var acting := FindActing(room.seats);
      ActingAreDealt(room.seats, board, acting);
      room.pools := room.pools + [Pool(room.main, acting, [])];
    }
    ghost var start := room.pools;
    assert PaidUpTo(room, before, start, 0, board) by { NothingPaid(room, before, board); }
    var k := 0;
    while k < |room.pools|
      invariant k <= |room.pools| && PaidUpTo(room, before, start, k, board)
    {
      PayPool(room, k, board, before, start);
      k := k + 1;
    }
    assert room.pools[..k] == room.pools;
    CashIn(room);
  }

  lemma NothingPaid(room: Room, before: Seats, board: seq<Card>)
    requires room.seats == before
    ensures PaidUpTo(room, before, room.pools, 0, board)
  {
    assert room.pools[..0] == [];
  }

  method CashIn(room: Room)
    modifies room`seats
    ensures |room.seats| == |old(room.seats)|
    ensures forall i | 0 <= i < |room.seats| :: room.seats[i] == CashedIn(old(room.seats)[i])
  {
    var i := 0;
    while i < |room.seats|
      invariant i <= |room.seats| == |old(room.seats)|
      invariant forall k | 0 <= k < i :: room.seats[k] == CashedIn(old(room.seats)[k])
      invariant forall k | i <= k < |room.seats| :: room.seats[k] == old(room.seats)[k]
    {
      if InHand(room.seats[i]) {
        var p := room.seats[i].value;
        room.seats := room.seats[i := Some(p.(coin := p.coin + p.win))];
      }
      i := i + 1;
    }
  }

  // ---------------------------------------------------------------- what is paid

  lemma Division(x: nat, n: nat)
    requires n > 0
    ensures 0 <= x - (x / n) * n < n
  {
  }

  /** What the first `n` winners who are still in the hand receive. */
  function Received(pool: Pool, seats: Seats, n: nat): nat
    requires n <= |pool.winners|
  {
    if n == 0 then 0
    else
      var w := pool.winners[n - 1];
      Received(pool, seats, n - 1) + (if w < |seats| && InHand(seats[w]) then Share(pool) else 0)
  }

  lemma {:induction false} ReceivedIs(pool: Pool, seats: Seats, n: nat)
    requires n <= |pool.winners|
    ensures Received(pool, seats, n) <= Share(pool) * n
    ensures Received(pool, seats, n) == Share(pool) * n <==>
      Share(pool) == 0 || forall k | 0 <= k < n :: pool.winners[k] < |seats| && InHand(seats[pool.winners[k]])
  {
    if n > 0 {
      ReceivedIs(pool, seats, n - 1);
      OneMoreStep(Share(pool), n - 1);
    }
  }

  lemma ReceivedWithin(pool: Pool, seats: Seats)
    ensures Received(pool, seats, |pool.winners|) <= pool.coins
  {
    if pool.winners != [] {
      Division(pool.coins, |pool.winners|);
      ReceivedIs(pool, seats, |pool.winners|);
    }
  }

  /** What is left of a pool. */
  function Rest(pool: Pool, seats: Seats): nat {
    ReceivedWithin(pool, seats);
    pool.coins - Received(pool, seats, |pool.winners|)
  }

  /** Among listed players of whom someone is seated, someone has a strongest hand. */
  lemma {:induction false} SomeStrongest(seats: Seats, board: seq<Card>, peers: seq<nat>, j: nat) returns (i: nat)
    requires PeersDealt(seats, board, peers) && Seated(seats, peers, j)
    ensures Strongest(seats, board, peers, i)
    decreases |peers|
  {
    hide Compare, Strength, Dealt;
    var n := |peers| - 1;
    var less, last := peers[..n], peers[n];
    assert peers == less + [last];
    SameSeated(seats, less, last);
    if last in less || last >= |seats| || seats[last].None? {
      i := SomeStrongest(seats, board, less, j);
    } else if k: nat :| Seated(seats, less, k) {
      i := SomeStrongest(seats, board, less, k);
      if Compare(StrengthAt(seats, board, i), StrengthAt(seats, board, last)) >= 0 {
        OthersStrongest(seats, board, less, i, last, i);
      } else {
        NewcomerStrongest(seats, board, less, i, last);
        i := last;
      }
    } else {
      i := last;
      CompareIsOrder(StrengthAt(seats, board, i), StrengthAt(seats, board, i), StrengthAt(seats, board, i));
    }
  }

  lemma SomeoneWins(seats: Seats, board: seq<Card>, peers: seq<nat>, winners: seq<nat>)
    requires AreWinners(seats, board, peers, winners)
    ensures winners == [] <==> forall i: nat :: !Seated(seats, peers, i)
  {
    if j: nat :| Seated(seats, peers, j) {
      var i := SomeStrongest(seats, board, peers, j);
      assert i in winners;
    }
    if winners != [] {
      assert winners[0] in winners;
      assert Strongest(seats, board, peers, winners[0]);
    }
  }

  /** Every strongest listed player is still in the hand. */
  ghost predicate StrongestStayed(seats: Seats, board: seq<Card>, peers: seq<nat>) {
    forall i: nat | Strongest(seats, board, peers, i) :: InHand(seats[i])
  }

  lemma WinnersStayed(seats: Seats, board: seq<Card>, pool: Pool)
    requires AreWinners(seats, board, pool.peers, pool.winners)
    ensures StrongestStayed(seats, board, pool.peers) <==>
      forall k | 0 <= k < |pool.winners| :: pool.winners[k] < |seats| && InHand(seats[pool.winners[k]])
  {
    hide Strongest, PeersDealt;
    forall k | 0 <= k < |pool.winners|
      ensures Strongest(seats, board, pool.peers, pool.winners[k]) && pool.winners[k] < |seats| {
      assert pool.winners[k] in pool.winners;
      StrongestIsSeated(seats, board, pool.peers, pool.winners[k]);
    }
    if forall k | 0 <= k < |pool.winners| :: pool.winners[k] < |seats| && InHand(seats[pool.winners[k]]) {
      forall i: nat | Strongest(seats, board, pool.peers, i) ensures InHand(seats[i]) {
        assert i in pool.winners;
      }
    }
  }

  lemma StrongestIsSeated(seats: Seats, board: seq<Card>, peers: seq<nat>, i: nat)
    requires Strongest(seats, board, peers, i)
    ensures i < |seats| && seats[i].Some?
  {
  }

  /** What is paid of a pool, said of the table before the payment. Nobody wins it exactly
      when nobody it lists is seated any more. If a coin is there for each winner, every
      share is paid exactly when every strongest listed player is still in the hand, for a
      strongest one who has folded since is a winner and not paid; the rest is then less
      than the number of winners. */
  lemma PaidExceptRemainder(seats: Seats, board: seq<Card>, pool: Pool)
    requires AreWinners(seats, board, pool.peers, pool.winners)
    ensures pool.winners == [] <==> forall i: nat :: !Seated(seats, pool.peers, i)
    ensures pool.coins < |pool.winners| || pool.winners == [] ==> Rest(pool, seats) == pool.coins
    ensures pool.coins >= |pool.winners| > 0 ==>
      (Received(pool, seats, |pool.winners|) == Share(pool) * |pool.winners| <==>
         StrongestStayed(seats, board, pool.peers))
    ensures pool.winners != [] && StrongestStayed(seats, board, pool.peers) ==> Rest(pool, seats) < |pool.winners|
  {
    SomeoneWins(seats, board, pool.peers, pool.winners);
    WinnersStayed(seats, board, pool);
    hide AreWinners, StrongestStayed, Seated;
    ReceivedWithin(pool, seats);
    ReceivedIs(pool, seats, |pool.winners|);
    if pool.winners != [] {
      Division(pool.coins, |pool.winners|);
      ShareIsPositive(pool);
    }
  }

  lemma ShareIsPositive(pool: Pool)
    requires pool.winners != []
    ensures Share(pool) > 0 <==> pool.coins >= |pool.winners|
    ensures Share(pool) == 0 ==> Share(pool) * |pool.winners| == 0
  {
  }

  /** The main pool is for those who can act, so all of it but a small rest is paid; but
      when no one can act any more, nobody gets it. */
  lemma MainPoolPaid(seats: Seats, board: seq<Card>, pool: Pool)
    requires AreWinners(seats, board, pool.peers, pool.winners) && ListsActing(pool.peers, seats)
    ensures if forall i | 0 <= i < |seats| :: !Acting(seats[i]) then Rest(pool, seats) == pool.coins
            else Rest(pool, seats) < |pool.winners|
  {
    PaidExceptRemainder(seats, board, pool);
    if i :| 0 <= i < |seats| && Acting(seats[i]) {
      assert Seated(seats, pool.peers, i);
    }
    forall i: nat | Strongest(seats, board, pool.peers, i) ensures InHand(seats[i]) {
      assert Acting(seats[i]);
    }
    hide Rest, Received, Strongest, AreWinners;
  }

  /** What each seat still in the hand gains. */
  function Gains(seats: Seats, pools: seq<Pool>): (r: seq<nat>)
    ensures |r| == |seats|
  {
    seq(|seats|, i requires 0 <= i < |seats| => if InHand(seats[i]) then Payments(pools, i) else 0)
  }

  function WithShares(gains: seq<nat>, pool: Pool, seats: Seats, n: nat): (r: seq<nat>)
    requires |gains| == |seats| && n <= |pool.winners|
    ensures |r| == |gains|
  {
    seq(|gains|, i requires 0 <= i < |gains| =>
      gains[i] + (if i in pool.winners[..n] && InHand(seats[i]) then Share(pool) else 0))
  }

  lemma ShareStep(gains: seq<nat>, pool: Pool, seats: Seats, n: nat)
    requires |gains| == |seats| && 0 < n <= |pool.winners| && Ascends(pool.winners)
    ensures var w, less := pool.winners[n - 1], WithShares(gains, pool, seats, n - 1);
      WithShares(gains, pool, seats, n) ==
        if w < |seats| && InHand(seats[w]) then less[w := less[w] + Share(pool)] else less
  {
    hide Share, InHand;
    var w := pool.winners[n - 1];
    assert pool.winners[..n] == pool.winners[..n - 1] + [w];
    assert w !in pool.winners[..n - 1];
    var less, more := WithShares(gains, pool, seats, n - 1), WithShares(gains, pool, seats, n);
    forall i | 0 <= i < |gains| && i != w ensures more[i] == less[i] {
    }
  }

  lemma NoShares(gains: seq<nat>, pool: Pool, seats: Seats)
    requires |gains| == |seats|
    ensures WithShares(gains, pool, seats, 0) == gains
  {
  }

  lemma {:induction false} SharesAdd(gains: seq<nat>, pool: Pool, seats: Seats, n: nat)
    requires |gains| == |seats| && n <= |pool.winners| && Ascends(pool.winners)
    ensures Sum(WithShares(gains, pool, seats, n)) == Sum(gains) + Received(pool, seats, n)
  {
    hide Sum, Ascends, InHand, Share, WithShares;
    if n == 0 {
      NoShares(gains, pool, seats);
    } else {
      SharesAdd(gains, pool, seats, n - 1);
      ShareStep(gains, pool, seats, n);
      var w, less := pool.winners[n - 1], WithShares(gains, pool, seats, n - 1);
      if w < |seats| && InHand(seats[w]) {
        SumUpdate(less, w, less[w] + Share(pool));
      }
    }
  }

  function AllReceived(pools: seq<Pool>, seats: Seats): nat {
    if pools == [] then 0
    else
      var last := pools[|pools| - 1];
      AllReceived(pools[..|pools| - 1], seats) + Received(last, seats, |last.winners|)
  }

  /** What the seats gain is what the winners receive, and not more than the pools hold. */
  lemma {:induction false} GainsAreReceived(pools: seq<Pool>, seats: Seats)
    requires forall k | 0 <= k < |pools| :: Ascends(pools[k].winners)
    ensures Sum(Gains(seats, pools)) == AllReceived(pools, seats) <= Sum(PoolCoins(pools))
  {
    if pools == [] {
      ZeroSum(Gains(seats, pools));
    } else {
      hide Sum, Gains, Received, PoolCoins, WithShares, Ascends;
      var less, last := pools[..|pools| - 1], pools[|pools| - 1];
      GainsAreReceived(less, seats);
      SharesAdd(Gains(seats, less), last, seats, |last.winners|);
      GainsNext(seats, pools);
      assert pools == less + [last];
      PoolAdded(less, last);
      ReceivedWithin(last, seats);
    }
  }

  lemma GainsNext(seats: Seats, pools: seq<Pool>)
    requires pools != []
    ensures var last := pools[|pools| - 1];
      Gains(seats, pools) == WithShares(Gains(seats, pools[..|pools| - 1]), last, seats, |last.winners|)
  {
    var last := pools[|pools| - 1];
    assert last.winners[..|last.winners|] == last.winners;
  }

  /** Paying out adds to the seats' coins just what the winners receive. */
  lemma {:induction false} PayoutAdds(before: Seats, after: Seats, pools: seq<Pool>)
    requires |after| == |before|
    requires forall i | 0 <= i < |before| :: after[i] == CashedIn(Won(before[i], Payments(pools, i)))
    requires forall i | 0 <= i < |before| && before[i].Some? :: before[i].value.win == 0
    requires forall k | 0 <= k < |pools| :: Ascends(pools[k].winners)
    ensures Sum(Coins(after)) == Sum(Coins(before)) + AllReceived(pools, before)
  {
    hide Payments;
    GainsAreReceived(pools, before);
    SumOfSums(Coins(before), Gains(before, pools), Coins(after));
  }

  lemma {:induction false} SumOfSums(a: seq<nat>, b: seq<nat>, c: seq<nat>)
    requires |a| == |b| == |c| && forall i | 0 <= i < |a| :: c[i] == a[i] + b[i]
    ensures Sum(c) == Sum(a) + Sum(b)
  {
    if a != [] {
      SumOfSums(a[..|a| - 1], b[..|b| - 1], c[..|c| - 1]);
    }
  }
}
