/** `ISitableRoom::doProcessNewPlayerHalo`: players sorted by their hands, then
    better hands exchanged to those whose halo takes effect. */
module HaloDeal {
  import opened StdVector
  import opened PokerRanking
  import opened ThreeCards

  // ---------------------------------------------------------------- the roll

  const IN_EFFECT := 1
  const NO_EFFECT := 2

  /** A player's standing and one-time halo weights, and what became of the roll. */
  datatype Halo = Halo(weight: nat, temporary: nat, state: nat) {
    /** A 16-bit sum. */
    function Total(): nat {
      (weight + temporary) % 0x1_0000
    }

    /** `isHaveHalo`, when the random number would be `roll`. */
    predicate Answer(roll: nat) {
      Total() > 0 && (state == IN_EFFECT || (state != NO_EFFECT && roll <= Total()))
    }

    /** The halo after it was asked: rolled once, the one-time weight used up. */
    function After(roll: nat): Halo {
      if Total() > 0 && state != IN_EFFECT && state != NO_EFFECT
      then Halo(weight, 0, if roll <= Total() then IN_EFFECT else NO_EFFECT)
      else this
    }
  }

  /** The answer is remembered, except that a halo made of one-time weight alone
      says yes once and no afterwards. */
  lemma SecondAnswer(h: Halo, roll: nat, again: nat)
    requires h.weight < 0x100 && h.temporary < 0x1_0000
    ensures h.After(roll).Answer(again) == h.Answer(roll)
      <==> !(h.Answer(roll) && h.state != IN_EFFECT && h.weight == 0)
  {
  }

  /** How many of the rolls below `n` are answered with yes. */
  function LuckyRolls(h: Halo, n: nat): nat {
    if n == 0 then 0 else LuckyRolls(h, n - 1) + (if h.Answer(n - 1) then 1 else 0)
  }

  /** A halo that was not rolled says yes for just the rolls up to its weight, so of `n` rolls
      for one more than its weight; one without weight says no. */
  lemma {:induction false} YesUpToWeight(h: Halo, n: nat)
    requires h.state != IN_EFFECT && h.state != NO_EFFECT && h.weight + h.temporary < 0x1_0000
    ensures LuckyRolls(h, n) ==
      if h.weight + h.temporary == 0 then 0 else if n <= h.weight + h.temporary then n else h.weight + h.temporary + 1
    ensures h.Answer(n) <==> 0 < h.weight + h.temporary && n <= h.weight + h.temporary
  {
    if n > 0 {
      YesUpToWeight(h, n - 1);
    }
  }

  /** A heavier halo never says no where a lighter one says yes. */
  lemma HeavierNeverLoses(g: Halo, h: Halo, roll: nat)
    requires g.state == h.state && h.weight + h.temporary <= g.weight + g.temporary < 0x1_0000 && h.Answer(roll)
    ensures g.Answer(roll)
  {
  }

  // ---------------------------------------------------------------- players

  class Player {
    var canAct: bool
    var halo: Halo
    var hand: seq<Card>
    const roll: nat

    constructor (canAct: bool, halo: Halo, hand: seq<Card>, roll: nat)
      ensures this.canAct == canAct && this.halo == halo && this.hand == hand && this.roll == roll
    {
      this.canAct, this.halo, this.hand, this.roll := canAct, halo, hand, roll;
    }

    predicate Answer()
      reads this
    {
      halo.Answer(roll)
    }

    method IsHaveHalo() returns (r: bool)
      modifies this`halo
      ensures r == old(Answer()) && halo == old(halo).After(roll)
    {
      if halo.Total() <= 0 {
        return false;
      }
      if halo.state == NO_EFFECT {
        return false;
      }
      if halo.state == IN_EFFECT {
        return true;
      }
      halo := Halo(halo.weight, 0, if roll <= halo.Total() then IN_EFFECT else NO_EFFECT);
      return halo.state == IN_EFFECT;
    }

    method SwitchPeerCard(other: Player)
      modifies this`hand, other`hand
      ensures hand == old(other.hand) && other.hand == old(hand)
    {
      hand, other.hand := other.hand, hand;
    }
  }

  /** The same players, in whatever order. */
  ghost predicate SamePlayers(a: seq<Player>, b: seq<Player>) {
    multiset(a) == multiset(b)
  }

  lemma SamePlayersReflexive(a: seq<Player>)
    ensures SamePlayers(a, a)
  {
  }

  lemma SamePlayersTransitive(a: seq<Player>, b: seq<Player>, c: seq<Player>)
    requires SamePlayers(a, b) && SamePlayers(b, c)
    ensures SamePlayers(a, c)
  {
  }

  /** Each position of the list has its hand. */
  ghost predicate HandsAt(list: seq<Player>, hands: seq<seq<Card>>)
    reads list
  {
    |list| == |hands| && forall k | 0 <= k < |list| :: list[k].hand == hands[k]
  }

  ghost predicate HandsOrdered(hands: seq<seq<Card>>) {
    forall i, j | 0 <= i < j < |hands| :: Ranking(hands[j], hands[i]) >= 0
  }

  ghost function HandsOf(list: seq<Player>): (r: seq<seq<Card>>)
    reads list
    ensures HandsAt(list, r)
  {
    seq(|list|, i requires 0 <= i < |list| reads list => list[i].hand)
  }

  // ---------------------------------------------------------------- sorting

  /** Players in the order of their hands. */
  ghost predicate Ordered(list: seq<Player>)
    reads list
  {
    forall i, j | 0 <= i < j < |list| :: Ranking(list[j].hand, list[i].hand) >= 0
  }

  lemma OrderedHands(list: seq<Player>, hands: seq<seq<Card>>)
    requires Ordered(list) && HandsAt(list, hands)
    ensures HandsOrdered(hands)
  {
  }

  lemma Inserted(sorted: seq<Player>, i: nat, p: Player)
    requires i <= |sorted| && Ordered(sorted)
    requires forall k | 0 <= k < i :: Ranking(p.hand, sorted[k].hand) >= 0
    requires i < |sorted| ==> Ranking(sorted[i].hand, p.hand) >= 0
    ensures Ordered(sorted[..i] + [p] + sorted[i..])
    ensures multiset(sorted[..i] + [p] + sorted[i..]) == multiset(sorted) + multiset{p}
  {
    hide Ranking;
    assert sorted == sorted[..i] + sorted[i..];
    forall k | i <= k < |sorted| ensures Ranking(sorted[k].hand, p.hand) >= 0 {
      if k > i {
        RankingIsPreorder(sorted[k].hand, sorted[i].hand, p.hand);
      }
    }
  }

  /** The contract of `std::sort` under `sortPlayerByCard`: an ordered permutation. */
  method SortPlayers(players: seq<Player>) returns (list: seq<Player>)
    ensures SamePlayers(list, players) && Ordered(list)
  {
    hide Ranking;
    list := [];
    var n := 0;
    while n < |players|
      invariant n <= |players| && multiset(list) == multiset(players[..n]) && Ordered(list)
    {
      assert players[..n + 1] == players[..n] + [players[n]];
      list := InsertPlayer(list, players[n]);
      n := n + 1;
    }
    assert players[..n] == players;
  }

  method InsertPlayer(sorted: seq<Player>, p: Player) returns (list: seq<Player>)
    requires Ordered(sorted)
    ensures multiset(list) == multiset(sorted) + multiset{p} && Ordered(list)
  {
    hide Ranking;
    var i := 0;
    while i < |sorted| && Ranking(p.hand, sorted[i].hand) >= 0
      invariant i <= |sorted| && forall k | 0 <= k < i :: Ranking(p.hand, sorted[k].hand) >= 0
    {
      i := i + 1;
    }
    list := sorted[..i] + [p] + sorted[i..];
    if i < |sorted| {
      RankingIsPreorder(p.hand, sorted[i].hand, p.hand);
    }
    Inserted(sorted, i, p);
  }

  // ---------------------------------------------------------------- the exchange

  /** Those before place `i` have no halo, those after `t` have one. */
  ghost predicate Halves(list: seq<Player>, i: nat, t: nat, first: map<Player, bool>) {
    && t < |list| && (forall k | 0 <= k < |list| :: list[k] in first)
    && (forall k | t < k < |list| :: first[list[k]])
    && (forall k | 0 <= k < i && k < t :: !first[list[k]])
  }

  /** The players from place `i` to before `t` were not asked yet. */
  ghost predicate Unasked(list: seq<Player>, i: nat, t: nat, first: map<Player, bool>)
    reads list
  {
    forall k | i <= k < t && k < |list| :: list[k] in first && list[k].Answer() == first[list[k]]
  }

  /** Before place `i` is looked at, with `t` the next place to exchange with. */
  ghost predicate Asked(list: seq<Player>, i: nat, t: nat, first: map<Player, bool>)
    reads list
  {
    t < |list| && Halves(list, i, t, first) && Unasked(list, i, t + 1, first)
  }

  /** Whoever has a halo stands after whoever has none. */
  ghost predicate Partitioned(list: seq<Player>, first: map<Player, bool>) {
    && (forall k | 0 <= k < |list| :: list[k] in first)
    && (forall i, j | 0 <= i < j < |list| && first[list[i]] :: first[list[j]])
  }

  /** What the exchange is for: no one whose halo failed has a better hand than someone
      whose halo took effect. */
  ghost predicate HaloHoldsBetter(list: seq<Player>, first: map<Player, bool>)
    reads list
  {
    forall i, j | 0 <= i < |list| && 0 <= j < |list| && HasHalo(list[i], first) && !HasHalo(list[j], first) ::
      Ranking(list[i].hand, list[j].hand) >= 0
  }

  predicate HasHalo(p: Player, first: map<Player, bool>) {
    p in first && first[p]
  }

  /** Players parted by halo, with ordered hands at their places. */
  lemma PartedAndOrdered(list: seq<Player>, hands: seq<seq<Card>>, first: map<Player, bool>)
    requires HandsAt(list, hands) && HandsOrdered(hands) && Partitioned(list, first)
    ensures Ordered(list) && HaloHoldsBetter(list, first)
  {
    hide Ranking;
    forall i, j | 0 <= i < |list| && 0 <= j < |list| && HasHalo(list[i], first) && !HasHalo(list[j], first)
      ensures Ranking(list[i].hand, list[j].hand) >= 0 {
      assert j < i;
    }
  }

  ghost predicate AnswersOf(list: seq<Player>, first: map<Player, bool>)
    reads list
  {
    forall k | 0 <= k < |list| :: list[k] in first && first[list[k]] == list[k].Answer()
  }

  /** Place `i` has a halo, none before it has, all after `t` have one; those between
      were not asked, nor was the one at `t` unless `asked`. */
  ghost predicate Scanning(list: seq<Player>, i: nat, t: nat, asked: bool, first: map<Player, bool>)
    reads list
  {
    && i <= t < |list| && (forall k | 0 <= k < |list| :: list[k] in first)
    && first[list[i]] && (forall k | 0 <= k < i :: !first[list[k]]) && (forall k | t < k < |list| :: first[list[k]])
    && Unasked(list, i + 1, if asked then t else t + 1, first)
  }

  lemma AskedStart(list: seq<Player>, first: map<Player, bool>)
    requires list != [] && AnswersOf(list, first)
    ensures Asked(list, 0, |list| - 1, first)
  {
  }

  lemma AskedEnd(list: seq<Player>, t: nat, first: map<Player, bool>)
    requires Asked(list, |list|, t, first)
    ensures Partitioned(list, first)
  {
  }

  lemma SwappedHalves(list: seq<Player>, i: nat, t: nat, first: map<Player, bool>)
    requires i < t < |list| && NoTwice(list) && (forall k | 0 <= k < |list| :: list[k] in first)
    requires first[list[i]] && !first[list[t]]
    requires (forall k | 0 <= k < i :: !first[list[k]]) && (forall k | t < k < |list| :: first[list[k]])
    ensures var swapped := list[i := list[t]][t := list[i]];
      Halves(swapped, i + 1, t - 1, first) && NoTwice(swapped) && SamePlayers(swapped, list)
  {
  }

  class Room {
    const seats: seq<Player?>
    var sorted: seq<Player>

    constructor (seats: seq<Player?>)
      ensures this.seats == seats && sorted == []
    {
      this.seats, this.sorted := seats, [];
    }

    /** Seats hold different players. */
    ghost predicate Valid() {
      forall i, j | 0 <= i < j < |seats| && seats[i] != null :: seats[i] != seats[j]
    }

    /** The inner loop: places with a halo are passed over. */
    method FindTarget(i: nat, start: nat, ghost first: map<Player, bool>, ghost hands: seq<seq<Card>>) returns (t: nat)
      requires NoTwice(sorted) && Scanning(sorted, i, start, false, first) && HandsAt(sorted, hands)
      modifies sorted
      ensures sorted == old(sorted) && HandsAt(sorted, hands)
      ensures Scanning(sorted, i, t, true, first) && (t > i ==> !first[sorted[t]])
    {
      hide NoTwice, HandsAt;
      t := start;
      while t > i
        invariant i <= t <= start && HandsAt(sorted, hands) && Scanning(sorted, i, t, false, first)
      {
        var r := AskAt(i, t, first, hands);
        if !r {
          return;
        }
        t := t - 1;
      }
    }

    method AskAt(i: nat, t: nat, ghost first: map<Player, bool>, ghost hands: seq<seq<Card>>) returns (r: bool)
      requires i < t && NoTwice(sorted) && Scanning(sorted, i, t, false, first) && HandsAt(sorted, hands)
      modifies sorted
      ensures sorted == old(sorted) && HandsAt(sorted, hands)
      ensures Scanning(sorted, i, t, true, first) && r == first[sorted[t]]
      ensures r ==> Scanning(sorted, i, t - 1, false, first)
    {
      assert sorted[t].Answer() == first[sorted[t]];
      r := sorted[t].IsHaveHalo();
      assert Unasked(sorted, i + 1, t, first);
    }

    /** Place `i` of the outer loop. */
    method Place(i: nat, start: nat, ghost first: map<Player, bool>, ghost hands: seq<seq<Card>>) returns (t: nat)
      requires i < |sorted| && NoTwice(sorted) && Asked(sorted, i, start, first) && HandsAt(sorted, hands)
      modifies this`sorted, sorted
      ensures SamePlayers(sorted, old(sorted)) && NoTwice(sorted)
      ensures Asked(sorted, i + 1, t, first) && HandsAt(sorted, hands)
    {
      t := start;
      var has := sorted[i].IsHaveHalo();
      if !has || t <= i {
        return;
      }
      t := GiveBetterHand(i, t, first, hands);
    }

    /** The player at place `i`, whose halo takes effect, changes with the last player
        whose halo does not, if that one stands further on. */
    method GiveBetterHand(i: nat, start: nat, ghost first: map<Player, bool>, ghost hands: seq<seq<Card>>)
      returns (t: nat)
      requires NoTwice(sorted) && Scanning(sorted, i, start, false, first) && HandsAt(sorted, hands)
      modifies this`sorted, sorted
      ensures SamePlayers(sorted, old(sorted)) && NoTwice(sorted)
      ensures Asked(sorted, i + 1, t, first) && HandsAt(sorted, hands)
    {
      t := FindTarget(i, start, first, hands);
      if t > i {
        Exchange(i, t, first, hands);
        t := t - 1;
      } else {
        SamePlayersReflexive(sorted);
      }
    }

    /** Hands and places are exchanged together. */
    method Exchange(i: nat, t: nat, ghost first: map<Player, bool>, ghost hands: seq<seq<Card>>)
      requires i < t && NoTwice(sorted) && Scanning(sorted, i, t, true, first) && !first[sorted[t]]
      requires HandsAt(sorted, hands)
      modifies this`sorted, sorted
      ensures SamePlayers(sorted, old(sorted)) && NoTwice(sorted) && HandsAt(sorted, hands)
      ensures Asked(sorted, i + 1, t - 1, first)
    {
      sorted[i].SwitchPeerCard(sorted[t]);
      SwappedHalves(sorted, i, t, first);
      var player := sorted[i];
      sorted := sorted[i := sorted[t]];
      sorted := sorted[t := player];
      assert Unasked(sorted, i + 1, t, first);
    }

    /** The players who can act, in seat order. */
    method AddActing() returns (acting: seq<Player>)
      requires Valid()
      ensures NoTwice(acting) && forall p: Player :: p in acting <==> p in seats && p.canAct
      ensures forall k | 0 <= k < |acting| :: acting[k] in seats
    {
      acting := [];
      for n := 0 to |seats|
        invariant NoTwice(acting) && forall p: Player :: p in acting <==> p in seats[..n] && p.canAct
      {
        assert seats[..n + 1] == seats[..n] + [seats[n]];
        var p := seats[n];
        if p != null && p.canAct {
          assert p !in seats[..n];
          acting := acting + [p];
        }
      }
      assert seats[..|seats|] == seats;
    }

    /** The outer loop, over players in the order of their hands. */
    method ExchangeHands(ghost first: map<Player, bool>, ghost hands: seq<seq<Card>>)
      requires |sorted| >= 2 && NoTwice(sorted) && HandsAt(sorted, hands)
      requires AnswersOf(sorted, first)
      modifies this`sorted, sorted
      ensures SamePlayers(sorted, old(sorted)) && NoTwice(sorted) && HandsAt(sorted, hands)
      ensures Partitioned(sorted, first)
    {
      hide SamePlayers, Player.Answer, NoTwice, HandsAt, Halves, Unasked, Partitioned;
      SamePlayersReflexive(sorted);
      AskedStart(sorted, first);
      var n := |sorted|;
      var i: nat, t: nat := 0, n - 1;
      while i < n
        invariant i <= n == |sorted| && t < n && SamePlayers(sorted, old(sorted)) && NoTwice(sorted)
        invariant HandsAt(sorted, hands) && Asked(sorted, i, t, first)
      {
        SameMembers(sorted, old(sorted));
        assert forall k | 0 <= k < n :: sorted[k] in old(sorted);
        ghost var now := sorted;
        t := Place(i, t, first, hands);
        SamePlayersTransitive(sorted, now, old(sorted));
        i := i + 1;
      }
      AskedEnd(sorted, t, first);
    }

    /** The list sorted, and then better hands given to those with a halo. */
    method SortAndExchange(acting: seq<Player>, ghost first: map<Player, bool>) returns (ghost before: seq<Player>)
      requires |acting| >= 2 && NoTwice(acting) && AnswersOf(acting, first)
      modifies this`sorted, acting
      ensures old(allocated(before)) && NoTwice(before) && SamePlayers(before, acting) && SamePlayers(sorted, before)
      ensures forall k | 0 <= k < |before| :: before[k] in acting
      ensures old(Ordered(before)) && HandsOf(sorted) == old(HandsOf(before)) && Partitioned(sorted, first)
      ensures Ordered(sorted) && HaloHoldsBetter(sorted, first)
    {
      hide Player.Answer, SamePlayers, Ordered, Partitioned;
      sorted := SortPlayers(acting);
      SameMembers(sorted, acting);
      Permuted(sorted, acting);
      before := sorted;
      assert forall k | 0 <= k < |before| :: before[k] in acting;
      ghost var hands := HandsOf(sorted);
      OrderedHands(sorted, hands);
      ExchangeHands(first, hands);
      PartedAndOrdered(sorted, hands, first);
    }

    /** `first` is what each player's halo answers when first asked. Afterwards the
        list is ordered by hand: each place has the hand of the player who stood there
        after sorting, and whoever's halo took effect stands after whoever's did not. */
    method DoProcessNewPlayerHalo(ghost first: map<Player, bool>) returns (ghost before: seq<Player>)
      requires Valid() && sorted == []
      requires forall p: Player | p in seats :: p in first && first[p] == p.Answer()
      modifies this`sorted, set p: Player | p in seats
      ensures old(allocated(before)) && NoTwice(before)
      ensures forall p: Player | p in seats :: old(p.canAct) <==> p in before
      ensures SamePlayers(sorted, before) && HandsOf(sorted) == old(HandsOf(before))
      ensures |before| >= 2 ==> old(Ordered(before)) && Partitioned(sorted, first)
      ensures Ordered(sorted) && HaloHoldsBetter(sorted, first)
    {
      hide Player.Answer, SamePlayers, Ordered, Partitioned;
      var acting := AddActing();
      if |acting| < 2 {
        before, sorted := acting, acting;
        SamePlayersReflexive(acting);
        TooFew(acting, first);
        return;
      }
      before := SortAndExchange(acting, first);
      SameMembers(before, acting);
    }
  }

  lemma TooFew(list: seq<Player>, first: map<Player, bool>)
    requires |list| < 2
    ensures Ordered(list) && HaloHoldsBetter(list, first)
  {
  }

  lemma SameMembers(a: seq<Player>, b: seq<Player>)
    requires SamePlayers(a, b)
    ensures |a| == |b| && forall p :: p in a <==> p in b
  {
    assert |multiset(a)| == |a| && |multiset(b)| == |b|;
    forall p ensures p in a <==> p in b {
      assert p in a <==> p in multiset(a);
      assert p in b <==> p in multiset(b);
    }
  }

  lemma {:induction false} OnceEach(a: seq<Player>, p: Player)
    requires NoTwice(a)
    ensures multiset(a)[p] <= 1
  {
    if a != [] {
      assert a == [a[0]] + a[1..];
      OnceEach(a[1..], p);
    }
  }

  lemma Permuted(a: seq<Player>, b: seq<Player>)
    requires SamePlayers(a, b) && NoTwice(b)
    ensures NoTwice(a)
  {
    forall i, j | 0 <= i < j < |a| ensures a[i] != a[j] {
      OnceEach(b, a[i]);
      assert a == a[..i] + [a[i]] + a[i + 1..j] + [a[j]] + a[j + 1..];
    }
  }
}
