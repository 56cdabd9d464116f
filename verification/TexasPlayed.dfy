/** A betting round is played before it is calculated: who can act has acted, and matched the
    highest bet. */
module TexasPlayed {
  import opened Wrappers
  import opened TexasSeats
  import opened TexasTable
  import opened TexasGame

  /** The move is made, and not refused. */
  ghost predicate Succeeds(t: Table, move: Move) {
    match move
    case MoveAllIn(idx) => CanAllIn(t, idx)
    case MovePass(idx) => CanPass(t, idx)
    case MoveFollow(idx) => CanFollow(t, idx)
    case MoveGiveUp(idx) => t.At(idx).Some?
    case MoveStandUp(idx) => t.At(idx).Some?
    case _ => false
  }

  /** The player at the seat made a move after the bets and actions were last cleared. */
  ghost predicate HasMoved(t: Table, moves: seq<Move>, i: nat) {
    exists j :: 0 <= j < |moves| && MovedAt(t, moves, i, j)
  }

  ghost predicate MovedAt(t: Table, moves: seq<Move>, i: nat, j: nat)
    requires j < |moves|
  {
    && OfPlayer(moves[j]) && moves[j].idx == i && Succeeds(Run(t, moves[..j]), moves[j])
    && forall k | j < k < |moves| :: !moves[k].MoveEndThisRound?
  }

  function ActOf(o: Option<Peer>): Act {
    if o.Some? then o.value.act else NoAct
  }

  /** An action comes from a successful move of the same player, and goes at the round's end. */
  lemma AfterActs(t: Table, move: Move, i: nat)
    ensures ActOf(After(t, move).At(i)) != NoAct ==>
      (OfPlayer(move) && move.idx == i && Succeeds(t, move)) ||
      (ActOf(t.At(i)) != NoAct && (move.MoveEndThisRound? ==> !t.calculated))
  {
    hide Cap, Peer.Has, StepsOf, PoolsOf, Zeros, FirstActing, ZeroAt, AddedBy;
  }

  /** While the round is not calculated there is nothing to end. */
  ghost predicate EndsAreReal(t: Table, moves: seq<Move>) {
    forall k | 0 <= k < |moves| && moves[k].MoveEndThisRound? :: Run(t, moves[..k]).calculated
  }

  lemma {:induction false} ActedHasMoved(t: Table, moves: seq<Move>, i: nat)
    requires (forall k: nat :: ActOf(t.At(k)) == NoAct) && EndsAreReal(t, moves)
    requires ActOf(Run(t, moves).At(i)) != NoAct
    ensures HasMoved(t, moves, i)
    decreases |moves|
  {
    if moves != [] {
      var n := |moves| - 1;
      var less, last := moves[..n], moves[n];
      OneMore(t, moves, n, GoneBy);
      assert moves[..n + 1] == moves;
      hide Run, After;
      AfterActs(Run(t, less), last, i);
      if OfPlayer(last) && last.idx == i && Succeeds(Run(t, less), last) {
        assert MovedAt(t, moves, i, n);
      } else {
        assert EndsAreReal(t, less) by {
          assert forall k | 0 <= k < n :: less[..k] == moves[..k] && less[k] == moves[k];
        }
        ActedHasMoved(t, less, i);
        var j :| 0 <= j < |less| && MovedAt(t, less, i, j);
        assert less[..j] == moves[..j];
        assert MovedAt(t, moves, i, j);
      }
    }
  }

  /** What is known where rounds are calculated and ended. */
  ghost predicate InOrder(t: Table, moves: seq<Move>) {
    && EndsAreReal(t, moves)
    && forall k | 0 <= k < |moves| && moves[k].MoveCaculateRound? :: RoundIsOver(Run(t, moves[..k]))
  }

  lemma InOrderTwice(t: Table, a: seq<Move>, b: seq<Move>)
    requires InOrder(t, a) && InOrder(Run(t, a), b)
    ensures InOrder(t, a + b)
  {
    var all := a + b;
    hide Run, RoundIsOver;
    forall k | 0 <= k < |all|
      ensures all[k].MoveEndThisRound? ==> Run(t, all[..k]).calculated
      ensures all[k].MoveCaculateRound? ==> RoundIsOver(Run(t, all[..k])) {
      if k < |a| {
        assert all[..k] == a[..k];
      } else {
        assert all[..k] == a + b[..k - |a|];
        TwoRuns(t, a, b[..k - |a|]);
        assert all[k] == b[k - |a|];
      }
    }
  }

  lemma HeardInOrder(g: Game, msg: Message, idx: nat)
    ensures InOrder(g.table, HeardMoves(g, msg, idx))
  {
    hide After, RoundIsOver;
    var moves := HeardMoves(g, msg, idx);
    assert moves[..0] == [] && moves[..1] == [moves[0]];
    RunOfTwo(g.table, moves[0], moves[0]);
  }

  lemma EventInOrder(g: Game, e: Event)
    requires g.Valid()
    ensures InOrder(g.table, MovesOf(g, e))
  {
    hide After, RoundIsOver, Table.Valid;
    if e.Heard? {
      HeardInOrder(g, e.msg, e.idx);
    } else if g.stage == WaitBet && Awaited(g.table).Some? {
      HeardInOrder(g, AutoMessage(g.table, Awaited(g.table).value), g.table.waiting);
    } else {
      assert MovesOf(g, e)[..0] == [];
    }
  }

  /** In any run of messages and of the clock rounds are calculated only when they are over,
      and ended only when they are calculated. */
  lemma {:induction false} EventsInOrder(g: Game, events: seq<Event>)
    requires g.Valid()
    ensures InOrder(g.table, MovesIn(g, events))
    decreases |events|
  {
    if events != [] {
      var e := events[0];
      EventInOrder(g, e);
      NextKeeps(g, e);
      EventsInOrder(Next(g, e), events[1..]);
      hide MovesOf, InOrder, Game.Valid, StageAfter;
      InOrderTwice(g.table, MovesOf(g, e), MovesIn(Next(g, e), events[1..]));
    }
  }

  /** Whenever a round is calculated with at least three players in the hand and at least two who
      can act, each of those has made a successful move of its own since the bets and actions were
      last cleared, and they have all bet the same. */
  lemma RoundIsPlayed(g: Game, events: seq<Event>, k: nat)
    requires g.Valid() && forall i: nat :: ActOf(g.table.At(i)) == NoAct
    requires k < |MovesIn(g, events)| && MovesIn(g, events)[k].MoveCaculateRound?
    ensures var moves := MovesIn(g, events)[..k];
      var t := Run(g.table, moves);
      |InHandAt(t.seats)| >= 3 && |ActingAt(t.seats)| >= 2 ==>
        forall i | i in ActingAt(t.seats) :: BetOf(t.seats[i]) == t.most && HasMoved(g.table, moves, i)
  {
    EventsInOrder(g, events);
    var all := MovesIn(g, events);
    var moves := all[..k];
    var t := Run(g.table, moves);
    OverWhen(t);
    hide Run, MovesIn, RoundIsOver, Game.Valid, HasMoved;
    assert EndsAreReal(g.table, moves) by {
      assert forall j | 0 <= j < k :: moves[..j] == all[..j] && moves[j] == all[j];
    }
    if |InHandAt(t.seats)| >= 3 && |ActingAt(t.seats)| >= 2 {
      forall i | i in ActingAt(t.seats) ensures BetOf(t.seats[i]) == t.most && HasMoved(g.table, moves, i) {
        ActedHasMoved(g.table, moves, i);
      }
    }
  }
}
