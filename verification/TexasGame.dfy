/** `CRoomTaxasNew`: the stages of a hand. Messages and the clock are proved to be runs of the
    table, so where every coin is follows; and no run ever comes to the payment. */
module TexasGame {
  import opened Wrappers
  import opened TexasSeats
  import opened TexasTable
  import opened TexasRoom

  /** The stages after the start of a hand. */
  datatype Stage = PlayerDistr | WaitBet | CaculateRound | CaculateGameResult

  datatype Message = StandUpMsg | FollowMsg | PassMsg | AllInMsg | GiveUpMsg

  /** A message of the player at a seat, or the clock when the stage's time is over. A player
      without a seat has a number beyond the table. */
  datatype Event = Heard(msg: Message, idx: nat) | TimeIsOver

  datatype Game = Game(table: Table, stage: Stage, betRound: nat) {
    /** The stage tells whether the round is calculated and not ended. */
    ghost predicate Valid() {
      table.Valid() && stage != CaculateGameResult && (table.calculated <==> stage == CaculateRound)
    }
  }

  function MoveOf(msg: Message, idx: nat): Move {
    match msg
    case StandUpMsg => MoveStandUp(idx)
    case FollowMsg => MoveFollow(idx)
    case PassMsg => MovePass(idx)
    case AllInMsg => MoveAllIn(idx)
    case GiveUpMsg => MoveGiveUp(idx)
  }

  function CountWithState(seats: Seats, flags: State): nat {
    if seats == [] then 0
    else CountWithState(seats[..|seats| - 1], flags) + (if HasFlags(seats[|seats| - 1], flags) then 1 else 0)
  }

  /** A player who can act has matched the highest bet and, unless alone, has acted. */
  predicate HasActed(o: Option<Peer>, most: nat, alone: bool) {
    Acting(o) ==> o.value.bet == most && (alone || o.value.act != NoAct)
  }

  predicate RoundIsOver(t: Table) {
    CountWithState(t.seats, WAIT_CACULATE) <= 2 ||
    forall i | 0 <= i < |t.seats| :: HasActed(t.seats[i], t.most, CountWithState(t.seats, CAN_ACT) <= 1)
  }

  /** `CheckGameOver`, which asks `CheckThisRoundEnd`, which is false while no bet is awaited. */
  predicate GameIsOver(g: Game) {
    g.stage == WaitBet && RoundIsOver(g.table)
    && (g.betRound == 4 || CountWithState(g.table.seats, WAIT_CACULATE) < 2)
  }

  function InHandAt(seats: Seats): set<nat> {
    set i: nat | i < |seats| && InHand(seats[i])
  }

  function ActingAt(seats: Seats): set<nat> {
    set i: nat | i < |seats| && Acting(seats[i])
  }

  /** Counting round the table counts seats. */
  lemma {:induction false} CountIsSize(seats: Seats, flags: State)
    ensures CountWithState(seats, flags) == |set i: nat | i < |seats| && HasFlags(seats[i], flags)|
  {
    var all := set i: nat | i < |seats| && HasFlags(seats[i], flags);
    if seats == [] {
      assert all == {};
    } else {
      var n := |seats| - 1;
      var less := set i: nat | i < n && HasFlags(seats[..n][i], flags);
      CountIsSize(seats[..n], flags);
      assert n !in less;
      assert all == if HasFlags(seats[n], flags) then less + {n} else less;
    }
  }

  /** When a round is over: at most two players are in the hand, or everyone who can act has
      matched the highest bet and, unless there is but one of them, has acted. */
  lemma OverWhen(t: Table)
    ensures RoundIsOver(t) <==> (|InHandAt(t.seats)| <= 2 ||
      forall i | i in ActingAt(t.seats) ::
        t.seats[i].value.bet == t.most && (|ActingAt(t.seats)| <= 1 || t.seats[i].value.act != NoAct))
  {
    CountIsSize(t.seats, WAIT_CACULATE);
    CountIsSize(t.seats, CAN_ACT);
    hide CountWithState, Peer.Has;
    assert InHandAt(t.seats) == set i: nat | i < |t.seats| && HasFlags(t.seats[i], WAIT_CACULATE);
    assert ActingAt(t.seats) == set i: nat | i < |t.seats| && HasFlags(t.seats[i], CAN_ACT);
    assert forall i: nat | i < |t.seats| :: Acting(t.seats[i]) <==> i in ActingAt(t.seats);
  }

  // ---------------------------------------------------------------- one event

  /** The next player acts, or the round is calculated. */
  function NextMove(t: Table): Move {
    if RoundIsOver(t) then MoveCaculateRound else MoveNextPlayer
  }

  function NextStage(t: Table): Stage {
    if RoundIsOver(t) then CaculateRound else WaitBet
  }

  /** A message while a bet is awaited ends the round or, if it was that player's turn,
      passes the turn on. */
  ghost predicate GoesOn(g: Game, msg: Message, idx: nat) {
    var t := After(g.table, MoveOf(msg, idx));
    g.stage == WaitBet && (RoundIsOver(t) || idx == t.waiting)
  }

  ghost function HeardMoves(g: Game, msg: Message, idx: nat): seq<Move> {
    var move := MoveOf(msg, idx);
    if GoesOn(g, msg, idx) then [move, NextMove(After(g.table, move))] else [move]
  }

  ghost function HeardStage(g: Game, msg: Message, idx: nat): Stage {
    if GoesOn(g, msg, idx) then NextStage(After(g.table, MoveOf(msg, idx))) else g.stage
  }

  /** What is done for a player whose time is over. */
  function AutoMessage(t: Table, p: Peer): Message {
    if t.most == p.bet then PassMsg else GiveUpMsg
  }

  /** The player whose turn it is. */
  function Awaited(t: Table): Option<Peer> {
    if t.waiting >= 0 then t.At(t.waiting) else None
  }

  /** What the table does at an event. */
  ghost function MovesOf(g: Game, e: Event): seq<Move> {
    if e.Heard? then HeardMoves(g, e.msg, e.idx)
    else match g.stage
      case PlayerDistr => [NextMove(g.table)]
      case WaitBet =>
        var o := Awaited(g.table);
        if o.Some? then HeardMoves(g, AutoMessage(g.table, o.value), g.table.waiting) else [NextMove(g.table)]
      case CaculateRound => [MoveEndThisRound]
      case CaculateGameResult => []
  }

  ghost function StageAfter(g: Game, e: Event): Stage {
    if e.Heard? then HeardStage(g, e.msg, e.idx)
    else match g.stage
      case PlayerDistr => NextStage(g.table)
      case WaitBet =>
        var o := Awaited(g.table);
        if o.Some? then HeardStage(g, AutoMessage(g.table, o.value), g.table.waiting) else NextStage(g.table)
      case CaculateRound =>
        if GameIsOver(g.(table := After(g.table, MoveEndThisRound))) then CaculateGameResult else PlayerDistr
      case CaculateGameResult => CaculateGameResult
  }

  ghost function Next(g: Game, e: Event): Game {
    var stage := StageAfter(g, e);
    Game(Run(g.table, MovesOf(g, e)), stage,
         if stage == PlayerDistr && g.stage != PlayerDistr then g.betRound + 1 else g.betRound)
  }

  // ---------------------------------------------------------------- any run

  ghost function RunGame(g: Game, events: seq<Event>): Game
    decreases |events|
  {
    if events == [] then g else RunGame(Next(g, events[0]), events[1..])
  }

  ghost function MovesIn(g: Game, events: seq<Event>): seq<Move>
    decreases |events|
  {
    if events == [] then [] else MovesOf(g, events[0]) + MovesIn(Next(g, events[0]), events[1..])
  }

  lemma RunOfTwo(t: Table, a: Move, b: Move)
    ensures Run(t, [a]) == After(t, a) && Run(t, [a, b]) == After(After(t, a), b)
  {
    hide After;
    assert [a, b][1..] == [b] && [a][1..] == [] && [b][1..] == [];
    assert Run(After(t, a), [b]) == After(After(t, a), b);
  }

  lemma CalculatedBy(t: Table, move: Move)
    ensures After(t, move).calculated ==
      (move.MoveCaculateRound? || (t.calculated && !move.MoveEndThisRound?))
  {
    hide Cap, FirstActing, StepsOf, LayeredAll, PoolsOf, Acting;
  }

  lemma HeardKeeps(g: Game, msg: Message, idx: nat)
    requires g.Valid()
    ensures Run(g.table, HeardMoves(g, msg, idx)).calculated <==> HeardStage(g, msg, idx) == CaculateRound
    ensures HeardStage(g, msg, idx) != CaculateGameResult
  {
    hide RoundIsOver, After, Table.Valid;
    var move := MoveOf(msg, idx);
    var t := After(g.table, move);
    CalculatedBy(g.table, move);
    CalculatedBy(t, NextMove(t));
    RunOfTwo(g.table, move, NextMove(t));
  }

  lemma NextKeeps(g: Game, e: Event)
    requires g.Valid()
    ensures Next(g, e).Valid()
  {
    hide RoundIsOver, After, Table.Valid;
    RunKeeps(g.table, MovesOf(g, e));
    if e.Heard? {
      HeardKeeps(g, e.msg, e.idx);
    } else if g.stage == WaitBet && Awaited(g.table).Some? {
      HeardKeeps(g, AutoMessage(g.table, Awaited(g.table).value), g.table.waiting);
    } else {
      var move := if g.stage == CaculateRound then MoveEndThisRound else NextMove(g.table);
      RunOfTwo(g.table, move, move);
      CalculatedBy(g.table, move);
    }
  }

  /** Whatever is said and however long it takes, a hand that has begun is never paid, and its
      coins are where the table's moves have put them. */
  lemma {:induction false} NeverPaid(g: Game, events: seq<Event>)
    requires g.Valid()
    ensures RunGame(g, events).Valid() && RunGame(g, events).stage != CaculateGameResult
    ensures RunGame(g, events).table == Run(g.table, MovesIn(g, events))
    decreases |events|
  {
    if events != [] {
      var e := events[0];
      NextKeeps(g, e);
      hide MovesOf, StageAfter, Game.Valid;
      NeverPaid(Next(g, e), events[1..]);
      TwoRuns(g.table, MovesOf(g, e), MovesIn(Next(g, e), events[1..]));
    }
  }

  /** So over any run of messages and of the clock coins are accounted for, and over whole
      rounds they are kept exactly when leavers take along what is bet after a calculation. */
  lemma GameKeepsCoins(g: Game, events: seq<Event>)
    requires g.Valid()
    ensures var u, moves := RunGame(g, events), MovesIn(g, events);
      && u.table.Wealth() + LeftWith(g.table, moves) + BetTooLate(g.table, moves) ==
           g.table.Wealth() + TakenAgain(g.table, moves)
      && (g.stage != CaculateRound && u.stage != CaculateRound ==>
            (u.table.Wealth() + LeftWith(g.table, moves) == g.table.Wealth() <==>
               LeaversBets(g.table, moves) == BetBetween(g.table, moves)))
  {
    NeverPaid(g, events);
    RunKeeps(g.table, MovesIn(g, events));
    hide Run, MovesIn, RunGame, Table.Valid, Table.Wealth, Total;
    if g.stage != CaculateRound && RunGame(g, events).stage != CaculateRound {
      KeptExactlyWhen(g.table, MovesIn(g, events));
    }
  }

  // ---------------------------------------------------------------- the room

  class GameRoom {
    const room: Room
    var stage: Stage
    var betRound: nat

    constructor (room: Room)
      requires room.Valid() && !room.calculated
      ensures this.room == room && Valid() && Now() == Game(room.State(), PlayerDistr, 1)
    {
      this.room := room;
      stage, betRound := PlayerDistr, 1;
    }

    ghost function Now(): Game
      reads this, room
    {
      Game(room.State(), stage, betRound)
    }

    ghost predicate Valid()
      reads this, room
    {
      Now().Valid()
    }

    method GetPlayerCntWithState(flags: State) returns (count: nat)
      ensures count == CountWithState(room.seats, flags)
    {
      count := 0;
      var i := 0;
      while i < |room.seats|
        invariant i <= |room.seats| && count == CountWithState(room.seats[..i], flags)
      {
        assert room.seats[..i + 1][..i] == room.seats[..i];
        if HasFlags(room.seats[i], flags) {
          count := count + 1;
        }
        i := i + 1;
      }
      assert room.seats[..i] == room.seats;
    }

    method CheckThisRoundEnd() returns (over: bool)
      ensures over <==> stage == WaitBet && RoundIsOver(room.State())
      ensures over <==> (stage == WaitBet &&
        (|InHandAt(room.seats)| <= 2 || forall i | i in ActingAt(room.seats) ::
           room.seats[i].value.bet == room.most
           && (|ActingAt(room.seats)| <= 1 || room.seats[i].value.act != NoAct)))
    {
      OverWhen(room.State());
      if stage != WaitBet {
        return false;
      }
      var inHand := GetPlayerCntWithState(WAIT_CACULATE);
      if inHand <= 2 {
        return true;
      }
      var acting := GetPlayerCntWithState(CAN_ACT);
      for i := 0 to |room.seats|
        invariant forall k | 0 <= k < i :: HasActed(room.seats[k], room.most, acting <= 1)
      {
        var o := room.seats[i];
        if !Acting(o) {
          continue;
        }
        if o.value.bet != room.most {
          return false;
        }
        if acting > 1 && o.value.act == NoAct {
          return false;
        }
      }
      return true;
    }

    method CheckGameOver() returns (over: bool)
      ensures over <==> GameIsOver(Now())
      ensures over <==> (stage == WaitBet && RoundIsOver(room.State()) && (betRound == 4 || |InHandAt(room.seats)| < 2))
    {
      CountIsSize(room.seats, WAIT_CACULATE);
      assert InHandAt(room.seats) == set i: nat | i < |room.seats| && HasFlags(room.seats[i], WAIT_CACULATE);
      var ended := CheckThisRoundEnd();
      if !ended {
        return false;
      }
      if betRound == 4 {
        return true;
      }
      var inHand := GetPlayerCntWithState(WAIT_CACULATE);
      return inHand < 2;
    }

    /** What happens on entering a stage. The payment is that of `TexasPayout`. */
    method GotoState(target: Stage)
      requires room.Valid()
      requires target == WaitBet || target == CaculateRound ==> !room.calculated
      modifies this, room
      ensures room.Valid()
      ensures Now() == match target
        case PlayerDistr => Game(old(room.State()), PlayerDistr, old(betRound) + 1)
        case WaitBet =>
          Game(After(old(room.State()), NextMove(old(room.State()))), NextStage(old(room.State())), old(betRound))
        case CaculateRound => Game(After(old(room.State()), MoveCaculateRound), CaculateRound, old(betRound))
        case CaculateGameResult => Game(old(room.State()), CaculateGameResult, old(betRound))
      decreases if target == WaitBet then 2 else 0
    {
      hide After, Table.Valid, RoundIsOver, Table.Wealth, Follows, ListInHand, IsNextActing;
      stage := target;
      match target {
        case PlayerDistr => betRound := betRound + 1;
        case WaitBet => NextPlayerAct();
        case CaculateRound => var gone := room.Step(MoveCaculateRound);
        case CaculateGameResult =>
      }
    }

    method NextPlayerAct()
      requires room.Valid() && (stage == WaitBet ==> !room.calculated)
      modifies this, room
      ensures room.Valid()
      ensures Now() == if old(stage) != WaitBet then old(Now()) else
        Game(After(old(room.State()), NextMove(old(room.State()))), NextStage(old(room.State())), old(betRound))
      decreases 1
    {
      hide After, Table.Valid, RoundIsOver, Table.Wealth, Follows, ListInHand, IsNextActing;
      if stage != WaitBet {
        return;
      }
      var over := CheckThisRoundEnd();
      if over {
        GotoState(CaculateRound);
      } else {
        var gone := room.Step(MoveNextPlayer);
      }
    }

    method OnMessage(msg: Message, idx: nat)
      requires Valid()
      modifies this, room
      ensures Valid() && Now() == Next(old(Now()), Heard(msg, idx))
      ensures var t := After(old(room.State()), MoveOf(msg, idx));
        if old(stage) != WaitBet then room.State() == t && stage == old(stage)
        else if RoundIsOver(t) then room.State() == After(t, MoveCaculateRound) && stage == CaculateRound
        else if idx == t.waiting then room.State() == After(t, MoveNextPlayer) && stage == WaitBet
        else room.State() == t && stage == WaitBet
    {
      hide After, Table.Valid, RoundIsOver, Table.Wealth, Follows, ListInHand, Run;
      ghost var g := Now();
      NextKeeps(g, Heard(msg, idx));
      HeardIs(g, msg, idx);
      CalculatedBy(g.table, MoveOf(msg, idx));
      var gone := room.Step(MoveOf(msg, idx));
      var over := CheckThisRoundEnd();
      if over {
        GotoState(CaculateRound);
        return;
      }
      if idx == room.waiting {
        NextPlayerAct();
      }
    }

    /** The clock. */
    method Update(timeIsOver: bool)
      requires Valid()
      modifies this, room
      ensures Valid() && Now() == if timeIsOver then Next(old(Now()), TimeIsOver) else old(Now())
      ensures timeIsOver && old(stage) == WaitBet && old(room.waiting) >= 0 && old(room.PeerAt(room.waiting)).Some? ==>
        Now() == Next(old(Now()), Heard(if old(room.most) == old(room.PeerAt(room.waiting)).value.bet then PassMsg
                                        else GiveUpMsg, old(room.waiting)))
    {
      hide After, Table.Valid, RoundIsOver, Table.Wealth, Follows, ListInHand, Run;
      if !timeIsOver {
        return;
      }
      ghost var g := Now();
      NextKeeps(g, TimeIsOver);
      TickIs(g);
      match stage {
        case PlayerDistr =>
          var over := CheckThisRoundEnd();
          GotoState(if over then CaculateRound else WaitBet);
        case WaitBet =>
          var o := if room.waiting >= 0 then room.PeerAt(room.waiting) else None;
          if o.None? {
            NextPlayerAct();
          } else if room.most == o.value.bet {
            OnMessage(PassMsg, room.waiting);
          } else {
            OnMessage(GiveUpMsg, room.waiting);
          }
        case CaculateRound =>
          var gone := room.Step(MoveEndThisRound);
          var over := CheckGameOver();
          GotoState(if over then CaculateGameResult else PlayerDistr);
      }
    }

    /** Any run of messages and of the clock. */
    method Play(events: seq<Event>)
      requires Valid()
      modifies this, room
      ensures Valid() && Now() == RunGame(old(Now()), events)
    {
      hide Next, Game.Valid;
      assert events[0..] == events;
      var k := 0;
      while k < |events|
        invariant k <= |events| && Valid() && RunGame(Now(), events[k..]) == RunGame(old(Now()), events)
      {
        assert events[k..][0] == events[k] && events[k..][1..] == events[k + 1..];
        if events[k].Heard? {
          OnMessage(events[k].msg, events[k].idx);
        } else {
          Update(true);
        }
        k := k + 1;
      }
    }
  }

  lemma HeardIs(g: Game, msg: Message, idx: nat)
    requires g.stage != CaculateGameResult
    ensures var t := After(g.table, MoveOf(msg, idx));
      Next(g, Heard(msg, idx)) ==
        if GoesOn(g, msg, idx) then Game(After(t, NextMove(t)), NextStage(t), g.betRound) else g.(table := t)
  {
    hide After, RoundIsOver;
    var move := MoveOf(msg, idx);
    RunOfTwo(g.table, move, NextMove(After(g.table, move)));
  }

  lemma TickIs(g: Game)
    requires g.Valid()
    ensures g.stage == PlayerDistr ==>
      Next(g, TimeIsOver) == Game(After(g.table, NextMove(g.table)), NextStage(g.table), g.betRound)
    ensures g.stage == WaitBet ==> (Next(g, TimeIsOver) ==
      var o := Awaited(g.table);
      if o.Some? then Next(g, Heard(AutoMessage(g.table, o.value), g.table.waiting))
      else Game(After(g.table, NextMove(g.table)), NextStage(g.table), g.betRound))
    ensures g.stage == CaculateRound ==>
      Next(g, TimeIsOver) == Game(After(g.table, MoveEndThisRound), PlayerDistr, g.betRound + 1)
  {
    hide After, RoundIsOver, Run;
    RunOfTwo(g.table, NextMove(g.table), MoveEndThisRound);
    RunOfTwo(g.table, MoveEndThisRound, MoveEndThisRound);
  }
}
