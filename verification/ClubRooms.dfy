/** A club's empty rooms: created one at a time through the request queue, and never
    more than two of them. */
module ClubRooms {
  import opened Wrappers
  import opened StdVector
  import opened AsyncQueue

  const MAX_EMPTY_ROOM_CNT := 2
  const DELAY_AFTER_ERROR := 480.0

  /** What the room server answers to a request for a room. */
  datatype Answer = Answer(ret: nat, roomID: nat, diamondFee: int)

  /** A creation pushed by the club whose callback was not called yet. */
  ghost predicate Outstanding(issued: seq<Callback>, fired: seq<nat>, club: nat, t: nat) {
    t < |issued| && issued[t] == ClubCreate(club) && t !in fired
  }

  /** While a room is being created one creation at most is outstanding, else none. */
  ghost predicate OneAtATime(issued: seq<Callback>, fired: seq<nat>, club: nat, isCreating: bool, pending: nat) {
    forall t: nat | Outstanding(issued, fired, club, t) :: isCreating && t == pending
  }

  /** All creations of the club that are outstanding. */
  ghost function Creations(issued: seq<Callback>, fired: seq<nat>, club: nat): set<nat> {
    set t: nat | t < |issued| && Outstanding(issued, fired, club, t)
  }

  lemma CreationsAreFew(issued: seq<Callback>, fired: seq<nat>, club: nat, isCreating: bool, pending: nat)
    requires OneAtATime(issued, fired, club, isCreating, pending)
    ensures |Creations(issued, fired, club)| <= if isCreating then 1 else 0
  {
    var all: set<nat> := if isCreating then {pending} else {};
    var some := Creations(issued, fired, club);
    assert some <= all;
    assert all == some + (all - some);
  }

  lemma PushedByClub(issued: seq<Callback>, fired: seq<nat>, club: nat, pending: nat)
    requires OneAtATime(issued, fired, club, false, pending)
    ensures OneAtATime(issued + [ClubCreate(club)], fired, club, true, |issued|)
  {
    forall t: nat | Outstanding(issued + [ClubCreate(club)], fired, club, t) ensures t == |issued| {
      assert t < |issued| ==> Outstanding(issued, fired, club, t);
    }
  }

  /** Tickets were only added, and none of them is for a room of the club. */
  ghost predicate NoneAddedFor(before: seq<Callback>, after: seq<Callback>, club: nat) {
    before <= after && forall t | |before| <= t < |after| :: after[t] != ClubCreate(club)
  }

  lemma OthersDoNotMatter(issued: seq<Callback>, issued': seq<Callback>, fired: seq<nat>, club: nat, isCreating: bool,
                          pending: nat)
    requires OneAtATime(issued, fired, club, isCreating, pending) && NoneAddedFor(issued, issued', club)
    ensures OneAtATime(issued', fired, club, isCreating, pending)
  {
    forall t: nat | Outstanding(issued', fired, club, t) ensures Outstanding(issued, fired, club, t) {
    }
  }

  /** A callback of the club's that is called is that of the pending creation. */
  lemma CalledIsPending(issued: seq<Callback>, fired: seq<nat>, club: nat, isCreating: bool, pending: nat, t: nat)
    requires OneAtATime(issued, fired, club, isCreating, pending) && t < |issued| && t !in fired
    ensures issued[t] == ClubCreate(club) ==> isCreating && OneAtATime(issued, fired + [t], club, false, pending)
    ensures issued[t] != ClubCreate(club) ==> OneAtATime(issued, fired + [t], club, isCreating, pending)
  {
    assert issued[t] == ClubCreate(club) ==> Outstanding(issued, fired, club, t);
    forall u: nat | Outstanding(issued, fired + [t], club, u) ensures Outstanding(issued, fired, club, u) && u != t {
      assert (fired + [t])[|fired|] == t;
      assert forall x | x in fired :: x in fired + [t];
    }
  }

  class Club {
    const id: nat
    const queue: Queue
    var emptyRooms: seq<nat>
    var fullRooms: seq<nat>
    var isCreating: bool
    var isLackDiamond: bool
    var paused: bool
    var delay: real
    var diamond: nat
    var gameIsKnown: bool        // whether a port serves the club's game
    ghost var pending: nat       // the ticket of the last creation

    constructor (id: nat, queue: Queue, diamond: nat, paused: bool, gameIsKnown: bool)
      ensures this.id == id && this.queue == queue && emptyRooms == [] && fullRooms == [] && !isCreating
    {
      this.id, this.queue, this.diamond, this.paused, this.gameIsKnown := id, queue, diamond, paused, gameIsKnown;
      emptyRooms, fullRooms, isCreating, isLackDiamond, delay, pending := [], [], false, false, 0.0, 0;
    }

    /** Empty rooms and the pending creation together are never more than two. */
    ghost predicate Holds(issued: seq<Callback>, fired: seq<nat>)
      reads this
    {
      && |emptyRooms| + (if isCreating then 1 else 0) <= MAX_EMPTY_ROOM_CNT
      && OneAtATime(issued, fired, id, isCreating, pending)
    }

    /** `updateCreateRoom`. */
    method UpdateCreateRoom(kind: nat, now: int)
      requires queue.Valid({}) && Holds(queue.issued, queue.fired)
      modifies this`isCreating, this`paused, this`pending, queue
      ensures queue.Valid({}) && Holds(queue.issued, queue.fired) && emptyRooms == old(emptyRooms)
      ensures queue.fired == old(queue.fired)
      ensures queue.issued ==
        if isCreating && !old(isCreating) then old(queue.issued) + [ClubCreate(id)] else old(queue.issued)
      ensures isCreating && !old(isCreating) <==>
        && !isLackDiamond && !old(isCreating) && !old(paused)
        && |emptyRooms| < MAX_EMPTY_ROOM_CNT && delay < 0.1 && gameIsKnown
      ensures old(isCreating) ==> isCreating
      ensures paused == (old(paused) || (!isLackDiamond && !old(isCreating) && |emptyRooms| < MAX_EMPTY_ROOM_CNT
                                         && delay < 0.1 && !gameIsKnown))
      ensures isCreating && !old(isCreating) ==>
        queue.IsNew(old(queue.running), old(queue.lastSerial), old(queue.issued), old(queue.sent),
                    Order(kind, 0, ClubCreate(id)), now, queue.lastSerial)
    {
      hide RunningOk, ReserveOk, FiredOk, SentOk, OneAtATime;
      if !isLackDiamond && !isCreating && !paused && |emptyRooms| < MAX_EMPTY_ROOM_CNT && delay < 0.1 {
        isCreating := true;
        if !gameIsKnown {
          isCreating := false;
          paused := true;
          return;
        }
        PushedByClub(queue.issued, queue.fired, id, pending);
        pending := |queue.issued|;
        var serial := queue.PushNew(Order(kind, 0, ClubCreate(id)), now, {});
      }
    }

    method Update(delta: real, kind: nat, now: int)
      requires queue.Valid({}) && Holds(queue.issued, queue.fired)
      modifies this`isCreating, this`paused, this`pending, this`delay, queue
      ensures queue.Valid({}) && Holds(queue.issued, queue.fired) && emptyRooms == old(emptyRooms)
      ensures queue.fired == old(queue.fired)
      ensures queue.issued == old(queue.issued) || queue.issued == old(queue.issued) + [ClubCreate(id)]
      ensures delay == if old(delay) - delta < 0.1 then 0.0 else old(delay) - delta
    {
      delay := delay - delta;
      if delay < 0.1 {
        delay := 0.0;
      }
      UpdateCreateRoom(kind, now);
    }

    /** The callback of a creation: nothing on a timeout, a room on success. */
    method OnCreateResult(isTimeOut: bool, answer: Answer)
      requires |emptyRooms| + 1 <= MAX_EMPTY_ROOM_CNT
      modifies this`isCreating, this`emptyRooms, this`isLackDiamond, this`delay, this`diamond
      ensures !isCreating && |emptyRooms| <= MAX_EMPTY_ROOM_CNT
      ensures emptyRooms ==
        if !isTimeOut && answer.ret % 0x100 == 0 then old(emptyRooms) + [answer.roomID] else old(emptyRooms)
      ensures var ret, fee := answer.ret % 0x100, answer.diamondFee;
        && (isTimeOut ==> unchanged(`isLackDiamond, `delay, `diamond))
        && (!isTimeOut ==>
              && diamond == (if ret != 0 then old(diamond) else if old(diamond) < fee then 0 else old(diamond) - fee)
              && isLackDiamond == (if ret == 1 then true else if ret == 0 && fee < 0 then false else old(isLackDiamond))
              && delay == (if ret > 1 then DELAY_AFTER_ERROR else old(delay)))
    {
      isCreating := false;
      if isTimeOut {
        return;
      }
      var ret := answer.ret % 0x100;
      if ret == 0 {
        emptyRooms := emptyRooms + [answer.roomID];
        UpdateDiamond(-answer.diamondFee);
        isCreating := false;
        return;
      }
      if ret == 1 {
        isLackDiamond := true;
        return;
      }
      delay := DELAY_AFTER_ERROR;
    }

    method UpdateDiamond(change: int)
      modifies this`diamond, this`isLackDiamond
      ensures diamond == if old(diamond) + change < 0 then 0 else old(diamond) + change
      ensures isLackDiamond == (if change > 0 then false else old(isLackDiamond))
    {
      if change < 0 && -change > diamond {
        diamond := 0;
        return;
      }
      diamond := diamond + change;
      if change > 0 {
        isLackDiamond := false;
      }
    }

    /** A full room is found first, then an empty one. */
    method OnRoomOver(roomID: nat)
      modifies this`emptyRooms, this`fullRooms
      ensures |emptyRooms| <= |old(emptyRooms)|
      ensures if roomID in old(fullRooms)
              then multiset(fullRooms) == multiset(old(fullRooms)) - multiset{roomID} && emptyRooms == old(emptyRooms)
              else multiset(emptyRooms) == multiset(old(emptyRooms)) - multiset{roomID} && fullRooms == old(fullRooms)
    {
      if roomID in fullRooms {
        fullRooms := Erase(fullRooms, roomID);
      } else if roomID in emptyRooms {
        emptyRooms := Erase(emptyRooms, roomID);
      }
    }

    /** A room that starts is no longer empty. */
    method OnRoomStart(roomID: nat)
      modifies this`emptyRooms, this`fullRooms
      ensures |emptyRooms| <= |old(emptyRooms)|
      ensures multiset(emptyRooms) + multiset(fullRooms) == multiset(old(emptyRooms)) + multiset(old(fullRooms))
      ensures roomID in old(emptyRooms) ==> fullRooms == old(fullRooms) + [roomID]
    {
      if roomID in emptyRooms {
        fullRooms := fullRooms + [roomID];
        emptyRooms := Erase(emptyRooms, roomID);
      }
    }
  }

  // ---------------------------------------------------------------- all clubs and the queue they share

  /** What may happen: a club's own update, a reply or the timer of the queue, requests
      pushed by other modules, a club read from the database or founded, and news of a room. */
  datatype Event = Updated(club: nat, delta: real, kind: nat, now: int)
                 | Replied(serial: nat, ret: nat, answer: Answer, now: int, more: seq<Order>)
                 | Ticked(now: int, posts: map<nat, seq<Order>>)
                 | Pushed(orders: seq<Order>, now: int)
                 | Added(club: nat, diamond: nat, paused: bool, gameIsKnown: bool)
                 | RoomOver(club: nat, roomID: nat)
                 | RoomStarted(club: nat, roomID: nat)

  /** Only a club's own update pushes creations. */
  ghost predicate OwnPushesOnly(e: Event) {
    match e
    case Replied(_, _, _, _, more) => NoneForClub(more)
    case Ticked(_, posts) => forall s | s in posts :: NoneForClub(posts[s])
    case Pushed(orders, _) => NoneForClub(orders)
    case _ => true
  }

  class ClubManager {
    const queue: Queue
    var clubs: map<nat, Club>

    /** Other modules may have used the queue before. */
    constructor (queue: Queue)
      requires queue.Valid({}) && forall t | 0 <= t < |queue.issued| :: !queue.issued[t].ClubCreate?
      ensures Valid() && this.queue == queue && clubs == map[]
    {
      this.queue, clubs := queue, map[];
    }

    /** Clubs stand under their own numbers and use the one queue. */
    ghost predicate Known()
      reads this
    {
      forall c | c in clubs :: clubs[c].id == c && clubs[c].queue == queue
    }

    ghost predicate Valid()
      reads this, queue, clubs.Values
    {
      && queue.Valid({}) && Known() && KnownOnly(queue.issued, clubs.Keys)
      && forall c | c in clubs :: clubs[c].Holds(queue.issued, queue.fired)
    }

    /** The bound itself: in every state, the empty rooms of a club and the creations of
        rooms it still waits for are at most two together. */
    lemma EmptyAndPendingAreFew(c: nat)
      requires Valid() && c in clubs
      ensures |clubs[c].emptyRooms| + |Creations(queue.issued, queue.fired, c)| <= MAX_EMPTY_ROOM_CNT
    {
      CreationsAreFew(queue.issued, queue.fired, c, clubs[c].isCreating, clubs[c].pending);
    }

    method Update(c: nat, delta: real, kind: nat, now: int)
      requires Valid() && c in clubs
      modifies clubs[c], queue
      ensures Valid() && clubs == old(clubs) && clubs[c].emptyRooms == old(clubs[c].emptyRooms)
    {
      hide RunningOk, ReserveOk, FiredOk, SentOk, OneAtATime;
      ghost var issued := queue.issued;
      clubs[c].Update(delta, kind, now);
      forall d | d in clubs && d != c ensures clubs[d].Holds(queue.issued, queue.fired) {
        OthersDoNotMatter(issued, queue.issued, queue.fired, d, clubs[d].isCreating, clubs[d].pending);
      }
    }

    /** A reply comes in. `more` is what callbacks push, a club's own update of the
        database among it. A late reply, to a creation already answered or timed out,
        finds no running request and adds no room; any other goes to its own club. */
    method OnReply(serial: nat, ret: nat, answer: Answer, now: int, more: seq<Order>) returns (called: Option<Called>)
      requires Valid() && NoneForClub(more)
      modifies queue, clubs.Values
      ensures Valid() && clubs == old(clubs)
      ensures serial !in old(queue.running) ==> called.None?
      ensures forall c | c in clubs :: (clubs[c].emptyRooms ==
        if called.Some? && called.value.callback == ClubCreate(c) && ret != 2 && answer.ret % 0x100 == 0
        then old(clubs[c].emptyRooms) + [answer.roomID] else old(clubs[c].emptyRooms))
    {
      hide RunningOk, ReserveOk, FiredOk, SentOk, OneAtATime, OthersAdded;
      ghost var issued, fired := queue.issued, queue.fired;
      called := queue.OnMsg(serial, ret, now, more);
      ExtendsByOthers(issued, queue.issued, more);
      StillKnown(issued, queue.issued, clubs.Keys);
      forall c | c in clubs ensures clubs[c].Holds(queue.issued, fired) {
        MoreFromOthers(issued, queue.issued, fired, clubs[c]);
      }
      if called.Some? {
        Deliver(called.value, fired, ret == 2, answer);
      }
    }

    /** A callback is called: if it is a creation's, its club has the result. */
    method Deliver(called: Called, ghost fired: seq<nat>, isTimeOut: bool, answer: Answer)
      requires Known() && KnownOnly(queue.issued, clubs.Keys)
      requires forall c | c in clubs :: clubs[c].Holds(queue.issued, fired)
      requires called.ticket < |queue.issued| && queue.issued[called.ticket] == called.callback
      requires called.ticket !in fired
      modifies clubs.Values
      ensures Known() && forall c | c in clubs :: clubs[c].Holds(queue.issued, fired + [called.ticket])
      ensures forall c | c in clubs :: (clubs[c].emptyRooms ==
        if called.callback == ClubCreate(c) && !isTimeOut && answer.ret % 0x100 == 0
        then old(clubs[c].emptyRooms) + [answer.roomID] else old(clubs[c].emptyRooms))
    {
      forall c | c in clubs ensures called.callback == ClubCreate(c) ==> clubs[c].isCreating {
        CalledIsPending(queue.issued, fired, c, clubs[c].isCreating, clubs[c].pending, called.ticket);
      }
      forall c | c in clubs
        ensures OneAtATime(queue.issued, fired + [called.ticket], c,
                           clubs[c].isCreating && called.callback != ClubCreate(c), clubs[c].pending) {
        CalledIsPending(queue.issued, fired, c, clubs[c].isCreating, clubs[c].pending, called.ticket);
      }
      hide OneAtATime;
      if called.callback.ClubCreate? {
        var c := called.callback.club;
        clubs[c].OnCreateResult(isTimeOut, answer);
      }
    }

    /** The queue's timer: creations given up count as timed out and bring no room. */
    method OnTimer(now: int, posts: map<nat, seq<Order>>)
      requires Valid() && forall s | s in posts :: NoneForClub(posts[s])
      modifies queue, clubs.Values
      ensures Valid() && clubs == old(clubs) && forall c | c in clubs :: clubs[c].emptyRooms == old(clubs[c].emptyRooms)
    {
      hide RunningOk, ReserveOk, SentOk, OneAtATime, OthersAdded;
      ghost var issued, fired := queue.issued, queue.fired;
      var called := queue.OnTimer(now, posts);
      StillKnown(issued, queue.issued, clubs.Keys);
      forall c | c in clubs ensures clubs[c].Holds(queue.issued, fired) {
        MoreFromOthers(issued, queue.issued, fired, clubs[c]);
      }
      DeliverAll(called, fired);
    }

    method DeliverAll(called: seq<Called>, ghost fired: seq<nat>)
      requires Known() && KnownOnly(queue.issued, clubs.Keys)
      requires forall c | c in clubs :: clubs[c].Holds(queue.issued, fired)
      requires CallbacksOf(called, queue.issued) && NoTwice(fired + Tickets(called))
      modifies clubs.Values
      ensures Known() && forall c | c in clubs :: clubs[c].Holds(queue.issued, fired + Tickets(called))
      ensures forall c | c in clubs :: clubs[c].emptyRooms == old(clubs[c].emptyRooms)
    {
      hide NoTwice, OneAtATime, KnownOnly, Club.Holds;
      var k := 0;
      assert Tickets(called)[..0] == [] && fired + [] == fired;
      while k < |called|
        invariant k <= |called| && Known()
        invariant forall c | c in clubs :: clubs[c].Holds(queue.issued, fired + Tickets(called)[..k])
        invariant forall c | c in clubs :: clubs[c].emptyRooms == old(clubs[c].emptyRooms)
      {
        NextTicket(fired, Tickets(called), k);
        Deliver(called[k], fired + Tickets(called)[..k], true, Answer(0, 0, 0));
        k := k + 1;
      }
      assert Tickets(called)[..k] == Tickets(called);
    }

    /** Other modules push requests of their own. */
    method PushOthers(orders: seq<Order>, now: int)
      requires Valid() && NoneForClub(orders)
      modifies queue
      ensures Valid() && clubs == old(clubs) && Extends(old(queue.issued), queue.issued, orders)
    {
      hide RunningOk, ReserveOk, FiredOk, SentOk, OneAtATime, OthersAdded, Extends;
      ghost var issued := queue.issued;
      queue.PushAll(orders, now, {});
      ExtendsByOthers(issued, queue.issued, orders);
      StillKnown(issued, queue.issued, clubs.Keys);
      forall c | c in clubs ensures clubs[c].Holds(queue.issued, queue.fired) {
        MoreFromOthers(issued, queue.issued, queue.fired, clubs[c]);
      }
    }

    /** A club is read from the database or founded; a number already there is refused. */
    method AddClub(c: nat, diamond: nat, paused: bool, gameIsKnown: bool)
      requires Valid()
      modifies this`clubs
      ensures Valid() && clubs.Keys == old(clubs).Keys + {c} && forall d | d in old(clubs) :: clubs[d] == old(clubs)[d]
      ensures c !in old(clubs) ==> fresh(clubs[c]) && clubs[c].emptyRooms == []
    {
      hide OneAtATime;
      if c in clubs {
        return;
      }
      var club := new Club(c, queue, diamond, paused, gameIsKnown);
      NoneOutstanding(queue.issued, queue.fired, clubs.Keys, c, club.pending);
      clubs := clubs[c := club];
    }

    method Step(e: Event)
      requires Valid() && OwnPushesOnly(e)
      modifies this`clubs, queue, clubs.Values
      ensures Valid() && forall c | c in old(clubs) :: c in clubs && clubs[c] == old(clubs)[c]
      ensures fresh(clubs.Values - old(clubs.Values))
    {
      hide OneAtATime, RunningOk, ReserveOk, FiredOk, SentOk, NoneForClub, KnownOnly;
      match e
      case Updated(c, delta, kind, now) => if c in clubs { Update(c, delta, kind, now); }
      case Replied(serial, ret, answer, now, more) => var called := OnReply(serial, ret, answer, now, more);
      case Ticked(now, posts) => OnTimer(now, posts);
      case Pushed(orders, now) => PushOthers(orders, now);
      case Added(c, diamond, paused, gameIsKnown) => AddClub(c, diamond, paused, gameIsKnown);
      case RoomOver(c, roomID) => if c in clubs { clubs[c].OnRoomOver(roomID); }
      case RoomStarted(c, roomID) => if c in clubs { clubs[c].OnRoomStart(roomID); }
    }

    /** Any run: after every one of its events no club has more than two empty rooms and
        outstanding creations together. */
    method Run(events: seq<Event>)
      requires Valid() && forall k | 0 <= k < |events| :: OwnPushesOnly(events[k])
      modifies this`clubs, queue, clubs.Values
      ensures Valid()
      ensures forall c | c in clubs ::
        |clubs[c].emptyRooms| + |Creations(queue.issued, queue.fired, c)| <= MAX_EMPTY_ROOM_CNT
    {
      hide OwnPushesOnly, Creations;
      for k := 0 to |events|
        invariant Valid() && fresh(clubs.Values - old(clubs.Values))
      {
        Step(events[k]);
      }
      forall c | c in clubs
        ensures |clubs[c].emptyRooms| + |Creations(queue.issued, queue.fired, c)| <= MAX_EMPTY_ROOM_CNT {
        EmptyAndPendingAreFew(c);
      }
    }
  }

  /** Creations are pushed by clubs of the manager only. */
  ghost predicate KnownOnly(issued: seq<Callback>, clubs: set<nat>) {
    forall t | 0 <= t < |issued| && issued[t].ClubCreate? :: issued[t].club in clubs
  }

  lemma StillKnown(issued: seq<Callback>, issued': seq<Callback>, clubs: set<nat>)
    requires KnownOnly(issued, clubs) && OthersAdded(issued, issued')
    ensures KnownOnly(issued', clubs)
  {
  }

  lemma MoreFromOthers(issued: seq<Callback>, issued': seq<Callback>, fired: seq<nat>, club: Club)
    requires club.Holds(issued, fired) && OthersAdded(issued, issued')
    ensures club.Holds(issued', fired)
  {
    OthersDoNotMatter(issued, issued', fired, club.id, club.isCreating, club.pending);
  }

  /** A new club has no creation outstanding, since none was pushed by a club not there. */
  lemma NoneOutstanding(issued: seq<Callback>, fired: seq<nat>, clubs: set<nat>, c: nat, pending: nat)
    requires KnownOnly(issued, clubs) && c !in clubs
    ensures OneAtATime(issued, fired, c, false, pending)
  {
  }

  lemma NextTicket(fired: seq<nat>, tickets: seq<nat>, k: nat)
    requires k < |tickets| && NoTwice(fired + tickets)
    ensures tickets[k] !in fired + tickets[..k] && fired + tickets[..k + 1] == (fired + tickets[..k]) + [tickets[k]]
  {
    var all := fired + tickets;
    assert all[|fired| + k] == tickets[k];
    assert all[..|fired| + k] == fired + tickets[..k];
    assert forall x | 0 <= x < |fired| + k :: all[..|fired| + k][x] == all[x];
  }
}
