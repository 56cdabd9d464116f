/** `CAsyncRequestQuene`: requests with serial numbers, sent again until they are
    answered or given up, and request objects used again. */
module AsyncQueue {
  import opened Wrappers
  import opened StdSort
  import opened StdVector

  const UINT32_END := 0x1_0000_0000
  const TIME_CHECK_REQ_STATE := 30

  /** Whose callback it is: a club's creation of a room, or another; a request may have none. */
  datatype Callback = NoCallback | ClubCreate(club: nat) | Other

  /** A running request and the object it lives in. `ticket` numbers the pushes, which
      serial numbers, being 32-bit, do not for ever. */
  datatype Request = Request(home: nat, serial: nat, kind: nat, uid: nat, callback: Callback,
                             sendTimes: nat, lastSend: int, ticket: nat)

  /** A callback that was called, and the push it belongs to. */
  datatype Called = Called(ticket: nat, callback: Callback)

  /** The parameters of a push. */
  datatype Order = Order(kind: nat, uid: nat, callback: Callback)

  type Running = map<nat, Request>

  function In(s: seq<nat>, t: nat): nat {
    multiset(s)[t]
  }

  lemma InMore(s: seq<nat>, x: nat, t: nat)
    ensures In(s + [x], t) == In(s, t) + (if x == t then 1 else 0)
  {
  }

  // ---------------------------------------------------------------- what holds

  ghost predicate RequestOk(s: nat, r: Request, next: nat, issued: seq<Callback>, sent: seq<nat>) {
    && r.serial == s && 1 <= r.sendTimes <= 6 && r.home < next
    && r.ticket < |issued| && r.callback == issued[r.ticket] && In(sent, r.ticket) == r.sendTimes
  }

  /** Running requests: their objects and tickets differ. */
  ghost predicate RunningOk(running: Running, next: nat, issued: seq<Callback>, sent: seq<nat>) {
    && (forall s | s in running :: RequestOk(s, running[s], next, issued, sent))
    && (forall s, t | s in running && t in running && s != t ::
         running[s].home != running[t].home && running[s].ticket != running[t].ticket)
  }

  /** Objects in reserve are different and none of them is in use. */
  ghost predicate ReserveOk(running: Running, reserve: seq<nat>, next: nat) {
    && NoTwice(reserve) && (forall o | o in reserve :: o < next)
    && (forall s | s in running :: running[s].home !in reserve)
  }

  /** No callback was called twice, none of a running request but those excepted. */
  ghost predicate FiredOk(running: Running, issued: seq<Callback>, fired: seq<nat>, except: set<nat>) {
    && NoTwice(fired) && (forall t | t in fired :: t < |issued| && issued[t] != NoCallback)
    && (forall s | s in running && s !in except :: running[s].ticket !in fired)
  }

  /** Nothing was sent more than six times. */
  ghost predicate SentOk(issued: seq<Callback>, sent: seq<nat>) {
    forall t: nat :: In(sent, t) <= if t < |issued| then 6 else 0
  }

  /** A request is sent again this long after it was last sent. */
  predicate IsDue(r: Request, now: int) {
    r.lastSend + TIME_CHECK_REQ_STATE <= now
  }

  /** What a notice of delay does to a request. */
  function Delayed(r: Request): Request {
    r.(lastSend := r.lastSend - TIME_CHECK_REQ_STATE * 3)
  }

  /** A notice of delay never postpones a sending, and hastens it exactly when the last one
      was less than thirty seconds ago or at most sixty ahead. */
  lemma NoticeHastens(r: Request, now: int)
    ensures IsDue(r, now) ==> IsDue(Delayed(r), now)
    ensures IsDue(Delayed(r), now) && !IsDue(r, now) <==>
      now - TIME_CHECK_REQ_STATE < r.lastSend <= now + 2 * TIME_CHECK_REQ_STATE
  {
  }

  /** The running request with this id that has the lowest serial number. */
  ghost predicate IsFirstOf(running: Running, s: nat, uid: nat) {
    s in running && running[s].uid == uid && forall t | t in running && t < s :: running[t].uid != uid
  }

  function Sending(r: Request, now: int): Request {
    r.(sendTimes := r.sendTimes + 1, lastSend := now)
  }

  // ---------------------------------------------------------------- changes

  lemma PushKeepsRunning(running: Running, next: nat, issued: seq<Callback>, sent: seq<nat>, s: nat, r: Request,
                         next': nat)
    requires RunningOk(running, next, issued, sent) && SentOk(issued, sent) && next <= next'
    requires r.serial == s && r.sendTimes == 1 && r.home < next' && r.ticket == |issued|
    requires forall t | t in running :: running[t].home != r.home
    ensures RunningOk(running[s := r], next', issued + [r.callback], sent + [r.ticket])
    ensures SentOk(issued + [r.callback], sent + [r.ticket])
  {
    var more := running[s := r];
    assert In(sent, r.ticket) <= 0;
    forall t: nat ensures In(sent + [r.ticket], t) == In(sent, t) + (if r.ticket == t then 1 else 0) {
      InMore(sent, r.ticket, t);
    }
    hide In;
    forall t | t in more ensures RequestOk(t, more[t], next', issued + [r.callback], sent + [r.ticket]) {
      if t != s {
        assert RequestOk(t, running[t], next, issued, sent);
      }
    }
    forall t, u | t in more && u in more && t != u
      ensures more[t].home != more[u].home && more[t].ticket != more[u].ticket {
      assert t != s ==> RequestOk(t, running[t], next, issued, sent);
      assert u != s ==> RequestOk(u, running[u], next, issued, sent);
    }
  }

  /** Some running request has the ticket. */
  ghost predicate Runs(running: Running, ticket: nat) {
    exists s :: s in running && running[s].ticket == ticket
  }

  /** A push drops a running request exactly when that one has the serial number taken. */
  lemma DropsExactlyWhen(running: Running, next: nat, issued: seq<Callback>, sent: seq<nat>, s: nat, r: Request)
    requires RunningOk(running, next, issued, sent) && r.ticket == |issued|
    ensures (exists t :: t in running && !Runs(running[s := r], running[t].ticket)) <==> s in running
  {
    var more := running[s := r];
    forall t | t in running && t != s ensures Runs(more, running[t].ticket) {
      assert more[t].ticket == running[t].ticket;
    }
    if s in running {
      assert RequestOk(s, running[s], next, issued, sent);
      forall u | u in more ensures more[u].ticket != running[s].ticket {
      }
    }
  }

  lemma PushKeepsFired(running: Running, issued: seq<Callback>, fired: seq<nat>, except: set<nat>, s: nat, r: Request)
    requires FiredOk(running, issued, fired, except) && r.ticket == |issued|
    ensures FiredOk(running[s := r], issued + [r.callback], fired, except)
  {
  }

  lemma ResendKeeps(running: Running, next: nat, issued: seq<Callback>, sent: seq<nat>, s: nat, now: int)
    requires RunningOk(running, next, issued, sent) && SentOk(issued, sent) && s in running && running[s].sendTimes <= 5
    ensures var r := running[s];
      RunningOk(running[s := Sending(r, now)], next, issued, sent + [r.ticket]) && SentOk(issued, sent + [r.ticket])
  {
    var r := running[s];
    var more := running[s := Sending(r, now)];
    assert RequestOk(s, r, next, issued, sent);
    forall t: nat ensures In(sent + [r.ticket], t) == In(sent, t) + (if r.ticket == t then 1 else 0) {
      InMore(sent, r.ticket, t);
    }
    hide In;
    forall t | t in more ensures RequestOk(t, more[t], next, issued, sent + [r.ticket]) {
      assert RequestOk(t, running[t], next, issued, sent);
    }
  }

  /** A request pushed at `now`; its ticket is none of the first `n`. */
  predicate IsFresh(r: Request, n: nat, now: int) {
    r.ticket >= n && r.sendTimes == 1 && r.lastSend == now
  }

  /** What pushes do to the running requests: one may take the place of a request whose
      serial number comes round; the others stay as they are. */
  ghost predicate Pushed(was: Running, running: Running, n: nat, now: int) {
    && was.Keys <= running.Keys
    && forall s | s in running :: IsFresh(running[s], n, now) || (s in was && running[s] == was[s])
  }

  lemma PushedTwice(a: Running, b: Running, c: Running, n: nat, m: nat, now: int)
    requires Pushed(a, b, n, now) && Pushed(b, c, m, now) && n <= m
    ensures Pushed(a, c, n, now)
  {
  }

  lemma PushedWithout(a: Running, b: Running, n: nat, now: int, s: nat)
    requires Pushed(a, b, n, now)
    ensures Pushed(a - {s}, b - {s}, n, now)
  {
  }

  /** The tickets from `a` to `b`; each new request is sent once, in the order of the pushes. */
  function NewTickets(a: nat, b: nat): seq<nat>
    requires a <= b
  {
    seq(b - a, i requires 0 <= i < b - a => a + i)
  }

  lemma OneTicketMore(a: nat, b: nat)
    requires a <= b
    ensures NewTickets(a, a) == [] && NewTickets(a, b + 1) == NewTickets(a, b) + [b]
  {
  }

  // ---------------------------------------------------------------- the queue

  class Queue {
    var running: Running
    var reserve: seq<nat>
    var lastSerial: nat
    var objects: nat                 // request objects made so far
    var pushes: nat
    ghost var issued: seq<Callback>  // by ticket
    ghost var fired: seq<nat>        // tickets, in the order of their callbacks
    ghost var sent: seq<nat>         // tickets, in the order of the messages sent

    ghost predicate Valid(except: set<nat>)
      reads this
    {
      && RunningOk(running, objects, issued, sent) && ReserveOk(running, reserve, objects)
      && FiredOk(running, issued, fired, except) && SentOk(issued, sent)
      && lastSerial < UINT32_END && pushes == |issued|
    }

    constructor ()
      ensures Valid({}) && running == map[] && fired == [] && issued == [] && sent == [] && lastSerial == 0
    {
      running, reserve, lastSerial, objects, pushes := map[], [], 0, 0, 0;
      issued, fired, sent := [], [], [];
    }

    /** The first running request, by serial number, with this request id. */
    method FindByUid(uid: nat) returns (r: Option<Request>)
      requires RunningOk(running, objects, issued, sent)
      ensures r.Some? ==>
        uid != 0 && r.value.uid == uid && r.value.serial in running && running[r.value.serial] == r.value
      ensures r.Some? ==> forall s | s in running && s < r.value.serial :: running[s].uid != uid
      ensures r.None? ==> forall s | s in running :: running[s].uid == 0 || running[s].uid != uid
    {
      var keys := SortedKeys(running.Keys);
      var k := 0;
      while k < |keys|
        invariant k <= |keys| && forall q | 0 <= q < k :: running[keys[q]].uid == 0 || running[keys[q]].uid != uid
      {
        assert keys[k] in keys;
        var it := running[keys[k]];
        assert RequestOk(keys[k], it, objects, issued, sent);
        if it.uid != 0 && it.uid == uid {
          return Some(it);
        }
        k := k + 1;
      }
      return None;
    }

    /** `pushAsyncRequest`: a request with the same id and type already running is not
        pushed again. */
    method Push(order: Order, now: int, ghost except: set<nat>) returns (serial: nat, ghost pushed: bool)
      requires Valid(except)
      modifies this
      ensures Valid(except) && fired == old(fired)
      ensures pushed ==> IsNew(old(running), old(lastSerial), old(issued), old(sent), order, now, serial)
      ensures pushed ==> (serial == (old(lastSerial) + 1) % 0x1_0000_0000 && serial in running
        && running == old(running)[serial :=
             Request(running[serial].home, serial, order.kind, order.uid, order.callback, 1, now, |old(issued)|)]
        && issued == old(issued) + [order.callback] && sent == old(sent) + [|old(issued)|])
      ensures !pushed <==> order.uid > 0 && exists s :: IsFirstOf(old(running), s, order.uid)
                                                    && old(running)[s].kind == order.kind
      ensures !pushed ==> running == old(running) && issued == old(issued) && sent == old(sent)
      ensures !pushed ==>
        serial in running && order.uid > 0 && running[serial].uid == order.uid && running[serial].kind == order.kind
    {
      if order.uid > 0 {
        var same := FindByUid(order.uid);
        assert same.Some? ==> IsFirstOf(running, same.value.serial, order.uid);
        if same.Some? && same.value.kind == order.kind {
          return same.value.serial, false;
        }
      }
      serial := PushNew(order, now, except);
      pushed := true;
    }

    /** The request pushed is the only change to the running ones: it takes the next
        serial number, which wraps, and is sent for the first time. */
    ghost predicate IsNew(was: Running, last: nat, callbacks: seq<Callback>, messages: seq<nat>, order: Order, now: int,
                          serial: nat)
      reads this
    {
      && serial == (last + 1) % UINT32_END && serial == lastSerial
      && issued == callbacks + [order.callback] && sent == messages + [|callbacks|]
      && serial in running && running == was[serial := running[serial]]
      && running[serial] == Request(running[serial].home, serial, order.kind, order.uid, order.callback, 1, now,
                                    |callbacks|)
    }

    method PushNew(order: Order, now: int, ghost except: set<nat>) returns (serial: nat)
      requires Valid(except)
      modifies this
      ensures Valid(except) && fired == old(fired)
      ensures IsNew(old(running), old(lastSerial), old(issued), old(sent), order, now, serial)
    {
      HomesBelow(running, objects, issued, sent);
      hide RunningOk, FiredOk, SentOk;
      ghost var next := objects;
      var home := TakeObject();
      hide ReserveOk;
      serial := (lastSerial + 1) % UINT32_END;
      lastSerial := serial;
      var r := Sending(Request(home, serial, order.kind, order.uid, order.callback, 0, 0, pushes), now);
      PushKeepsRunning(running, next, issued, sent, serial, r, objects);
      PushKeepsFired(running, issued, fired, except, serial, r);
      PushKeepsReserve(running, reserve, objects, serial, r);
      running := running[serial := r];
      pushes := pushes + 1;
      issued := issued + [order.callback];
      sent := sent + [r.ticket];
    }

    /** `getReuseAsyncReqObject`: the first object in reserve, or a new one. */
    method TakeObject() returns (home: nat)
      requires ReserveOk(running, reserve, objects) && forall s | s in running :: running[s].home < objects
      modifies this`reserve, this`objects
      ensures ReserveOk(running, reserve, objects) && home < objects && old(objects) <= objects
      ensures home !in reserve && forall s | s in running :: running[s].home != home
    {
      if reserve == [] {
        home := objects;
        objects := objects + 1;
      } else {
        FirstTaken(reserve);
        home := reserve[0];
        assert home in reserve;
        reserve := reserve[1..];
      }
    }

    /** `canncelAsyncRequest`: the object goes into reserve. */
    method Cancel(serial: nat, ghost except: set<nat>)
      requires Valid(except) && serial in running
      modifies this`running, this`reserve
      ensures Valid(except) && running == old(running) - {serial}
      ensures reserve == old(reserve) + [old(running)[serial].home]
    {
      CancelKeeps(running, reserve, objects, issued, fired, sent, except, serial);
      hide RunningOk, FiredOk, SentOk, ReserveOk;
      reserve := reserve + [running[serial].home];
      running := running - {serial};
    }

    /** The pushes a callback makes. */
    method PushAll(more: seq<Order>, now: int, ghost except: set<nat>)
      requires Valid(except)
      modifies this
      ensures Valid(except) && fired == old(fired) && Extends(old(issued), issued, more)
      ensures Pushed(old(running), running, |old(issued)|, now)
      ensures sent == old(sent) + NewTickets(|old(issued)|, |issued|)
    {
      hide RunningOk, FiredOk, SentOk, ReserveOk, NewTickets;
      OneTicketMore(|issued|, |issued|);
      var k := 0;
      while k < |more|
        invariant k <= |more| && Valid(except) && fired == old(fired)
        invariant Extends(old(issued), issued, more) && Pushed(old(running), running, |old(issued)|, now)
        invariant sent == old(sent) + NewTickets(|old(issued)|, |issued|)
      {
        ghost var before, was := issued, running;
        ghost var serial, pushed := Push(more[k], now, except);
        assert Pushed(was, running, |before|, now);
        PushedTwice(old(running), was, running, |old(issued)|, |before|, now);
        OneTicketMore(|old(issued)|, |before|);
        assert more[k] in more;
        k := k + 1;
      }
    }

    /** A callback is called, and what it pushes is pushed. */
    method Call(serial: nat, more: seq<Order>, now: int, ghost except: set<nat>) returns (called: Called)
      requires Valid(except) && serial in running && serial !in except && running[serial].callback != NoCallback
      modifies this
      ensures Valid(except + {serial}) && called == Called(old(running)[serial].ticket, old(running)[serial].callback)
      ensures fired == old(fired) + [called.ticket] && Extends(old(issued), issued, more)
      ensures called.ticket < |old(issued)| && issued[called.ticket] == called.callback
      ensures Pushed(old(running), running, |old(issued)|, now)
      ensures sent == old(sent) + NewTickets(|old(issued)|, |issued|)
    {
      called := Called(running[serial].ticket, running[serial].callback);
      assert RequestOk(serial, running[serial], objects, issued, sent);
      FireKeeps(running, objects, issued, sent, fired, except, serial);
      hide RunningOk, FiredOk, SentOk, ReserveOk;
      fired := fired + [called.ticket];
      PushAll(more, now, except + {serial});
    }

    /** `onMsg`. A reply to a request not running is ignored; a notice of delay puts the
        last sending ninety seconds back; any other reply ends the request, whose callback is
        called. */
    method OnMsg(serial: nat, ret: nat, now: int, more: seq<Order>) returns (called: Option<Called>)
      requires Valid({})
      modifies this
      ensures Valid({}) && Extends(old(issued), issued, more)
      ensures called.Some? <==> serial in old(running) && ret != 1 && old(running)[serial].callback != NoCallback
      ensures fired == if called.Some? then old(fired) + [called.value.ticket] else old(fired)
      ensures called.Some? ==>
        Answers(called.value, old(issued), old(fired)) && called.value.ticket == old(running)[serial].ticket
      ensures serial !in old(running) ==> running == old(running)
      ensures serial in old(running) && ret == 1 ==>
        running == old(running)[serial := Delayed(old(running)[serial])] && called.None?
      ensures serial in old(running) && ret != 1 ==>
        serial !in running && Pushed(old(running) - {serial}, running, |old(issued)|, now)
      ensures serial !in old(running) || ret == 1 ==> sent == old(sent) && issued == old(issued)
      ensures sent == old(sent) + NewTickets(|old(issued)|, |issued|)
    {
      NothingExtends(issued, more);
      OneTicketMore(|issued|, |issued|);
      hide *;
      called := None;
      if serial !in running {
        return;
      }
      if ret == 1 {
        Delay(serial);
        return;
      }
      called := EndRequest(serial, now, more);
    }

    method Delay(serial: nat)
      requires Valid({}) && serial in running
      modifies this`running
      ensures Valid({}) && running == old(running)[serial := Delayed(old(running)[serial])]
    {
      DelayKeeps(running, reserve, objects, issued, fired, sent, serial);
      hide RunningOk, ReserveOk, FiredOk, SentOk;
      var r := running[serial];
      var late := r.(lastSend := r.lastSend - TIME_CHECK_REQ_STATE * 3);
      assert late == Delayed(r);
      hide *;
      running := running[serial := late];
    }

    /** The callback is called, if there is one, and the request ends. */
    method EndRequest(serial: nat, now: int, more: seq<Order>) returns (called: Option<Called>)
      requires Valid({}) && serial in running
      modifies this
      ensures Valid({}) && Extends(old(issued), issued, more) && serial !in running
      ensures called.Some? <==> old(running)[serial].callback != NoCallback
      ensures fired == if called.Some? then old(fired) + [called.value.ticket] else old(fired)
      ensures called.Some? ==> Answers(called.value, old(issued), old(fired))
      ensures called.Some? ==> called.value.ticket == old(running)[serial].ticket
      ensures Pushed(old(running) - {serial}, running, |old(issued)|, now)
      ensures sent == old(sent) + NewTickets(|old(issued)|, |issued|)
    {
      NothingExtends(issued, more);
      OneTicketMore(|issued|, |issued|);
      called := None;
      if running[serial].callback != NoCallback {
        AnswersItsPush(running, objects, issued, sent, fired, serial);
        hide RunningOk, ReserveOk, FiredOk, SentOk, Extends, NewTickets;
        var c := Call(serial, more, now, {});
        called := Some(c);
        PushedWithout(old(running), running, |old(issued)|, now, serial);
        hide Pushed;
        Cancel(serial, {} + {serial});
        GoneIsNoException(running, issued, fired, {serial});
      } else {
        Cancel(serial, {});
      }
    }

    /** The callback is that of its push, and was not called before. */
    ghost predicate Answers(called: Called, callbacks: seq<Callback>, before: seq<nat>) {
      called.ticket < |callbacks| && callbacks[called.ticket] == called.callback && called.ticket !in before
    }

    /** The timer comes to one request: after six sendings it is given up, before that
        it is sent again when thirty seconds have gone by. */
    method Visit(serial: nat, now: int, more: seq<Order>, ghost except: set<nat>)
      returns (giveUp: bool, called: Option<Called>)
      requires Valid(except) && serial in running && serial !in except
      modifies this
      ensures Valid(if called.Some? then except + {serial} else except) && (called.Some? ==> giveUp)
      ensures giveUp == (old(running)[serial].sendTimes > 5) && Extends(old(issued), issued, more)
      ensures old(sent) <= sent && (giveUp ==> Pushed(old(running), running, |old(issued)|, now))
      ensures fired == if called.Some? then old(fired) + [called.value.ticket] else old(fired)
      ensures called.Some? ==> In(sent, called.value.ticket) == 6
      ensures called.Some? ==> called.value.ticket < |issued| && issued[called.value.ticket] == called.value.callback
      ensures !giveUp ==> running == if IsDue(old(running)[serial], now)
                                     then old(running)[serial := Sending(old(running)[serial], now)] else old(running)
      ensures In(sent, old(running)[serial].ticket) ==
        In(old(sent), old(running)[serial].ticket) + (if !giveUp && IsDue(old(running)[serial], now) then 1 else 0)
    {
      hide RunningOk, ReserveOk, FiredOk, SentOk, In, Extends;
      giveUp := running[serial].sendTimes > 5;
      if giveUp {
        called := GiveUp(serial, now, more, except);
      } else {
        NothingExtends(issued, more);
        called := None;
        SendIfDue(serial, now, except);
      }
    }

    /** The callback, if there is one, is called; the request itself ends after the walk. */
    method GiveUp(serial: nat, now: int, more: seq<Order>, ghost except: set<nat>) returns (called: Option<Called>)
      requires Valid(except) && serial in running && serial !in except && running[serial].sendTimes > 5
      modifies this
      ensures Valid(if called.Some? then except + {serial} else except) && Extends(old(issued), issued, more)
      ensures Pushed(old(running), running, |old(issued)|, now) && old(sent) <= sent
      ensures fired == if called.Some? then old(fired) + [called.value.ticket] else old(fired)
      ensures called.Some? ==> called.value.ticket == old(running)[serial].ticket
      ensures called.Some? ==> called.value.ticket < |issued| && issued[called.value.ticket] == called.value.callback
      ensures In(sent, old(running)[serial].ticket) == In(old(sent), old(running)[serial].ticket) == 6
    {
      SentSixTimes(running, objects, issued, sent, serial);
      NothingExtends(issued, more);
      hide RunningOk, ReserveOk, FiredOk, In, Extends;
      called := None;
      if running[serial].callback != NoCallback {
        var c := Call(serial, more, now, except);
        called := Some(c);
        assert SixTimes(old(sent), [c.ticket]);
        StillSixTimes(old(sent), sent, issued, [c.ticket]);
        assert [c.ticket][0] == c.ticket;
      }
    }

    method SendIfDue(serial: nat, now: int, ghost except: set<nat>)
      requires Valid(except) && serial in running && running[serial].sendTimes <= 5
      modifies this`running, this`sent
      ensures Valid(except) && old(sent) <= sent
      ensures running == if IsDue(old(running)[serial], now)
                         then old(running)[serial := Sending(old(running)[serial], now)] else old(running)
      ensures In(sent, old(running)[serial].ticket) ==
        In(old(sent), old(running)[serial].ticket) + (if IsDue(old(running)[serial], now) then 1 else 0)
    {
      if running[serial].lastSend + TIME_CHECK_REQ_STATE <= now {
        ResendKeeps(running, objects, issued, sent, serial, now);
        ResendKeepsOthers(running, reserve, objects, issued, fired, except, serial, now);
        hide RunningOk, ReserveOk, FiredOk, SentOk;
        InMore(sent, running[serial].ticket, running[serial].ticket);
        sent := sent + [running[serial].ticket];
        running := running[serial := Sending(running[serial], now)];
      }
    }

    /** A notice of delay comes in, and then the timer: the request is sent again exactly
        when it was sent at most five times, the last time at most at `now + 60`. */
    method NoticeThenVisit(serial: nat, early: int, now: int) returns (giveUp: bool, called: Option<Called>)
      requires Valid({}) && serial in running
      modifies this
      ensures In(sent, old(running)[serial].ticket) == In(old(sent), old(running)[serial].ticket) +
        (if old(running)[serial].sendTimes <= 5 && old(running)[serial].lastSend <= now + 2 * TIME_CHECK_REQ_STATE
         then 1 else 0)
    {
      hide RunningOk, ReserveOk, FiredOk, SentOk, In, Extends;
      var none := OnMsg(serial, 1, early, []);
      giveUp, called := Visit(serial, now, [], {});
    }

    /** What a walk of the timer has done so far. */
    ghost predicate Walked(issuedBefore: seq<Callback>, firedBefore: seq<nat>, called: seq<Called>,
                           posts: map<nat, seq<Order>>)
      reads this
    {
      && issuedBefore <= issued && fired == firedBefore + Tickets(called)
      && SixTimes(sent, Tickets(called)) && CallbacksOf(called, issued)
      && ((forall s | s in posts :: NoneForClub(posts[s])) ==> OthersAdded(issuedBefore, issued))
    }

    method VisitNext(s: nat, now: int, posts: map<nat, seq<Order>>, called: seq<Called>, ghost except: set<nat>,
                     ghost issuedBefore: seq<Callback>, ghost firedBefore: seq<nat>)
      returns (giveUp: bool, called': seq<Called>, ghost except': set<nat>)
      requires Valid(except) && s in running && s !in except && Walked(issuedBefore, firedBefore, called, posts)
      modifies this
      ensures Valid(except') && Walked(issuedBefore, firedBefore, called', posts)
      ensures (except' == except || (giveUp && except' == except + {s})) && old(sent) <= sent && old(issued) <= issued
      ensures giveUp == (old(running)[s].sendTimes > 5)
      ensures if giveUp then Pushed(old(running), running, |old(issued)|, now)
              else running == old(running)[s := Passed(old(running)[s], now)]
    {
      hide RunningOk, ReserveOk, FiredOk, SentOk, In, Extends, Tickets, NoneForClub, OthersAdded, SixTimes, IsDue;
      NothingAdded(issued);
      var more := if s in posts then posts[s] else [];
      ghost var issuedNow, sentNow := issued, sent;
      var one;
      giveUp, one := Visit(s, now, more, except);
      AddedByOthers(issuedBefore, issuedNow, issued, more);
      StillSixTimes(sentNow, sent, issued, Tickets(called));
      called', except' := called, except;
      if one.Some? {
        TicketsMore(called, one.value);
        SixTimesMore(sent, Tickets(called), one.value.ticket);
        except' := except + {s};
        called' := called + [one.value];
      }
    }

    /** `timerCheckReqState`: all running requests are visited; those given up end
        afterwards. `posts` is what their callbacks push. */
    method OnTimer(now: int, posts: map<nat, seq<Order>>) returns (called: seq<Called>)
      requires Valid({})
      modifies this
      ensures Valid({}) && fired == old(fired) + Tickets(called) && SixTimes(sent, Tickets(called))
      ensures old(issued) <= issued && old(sent) <= sent && TimerDid(old(running), running, |old(issued)|, now)
      ensures forall s | s in old(running) && old(running)[s].sendTimes <= 5 :: s in running
      ensures forall s | s in running && running[s].ticket < |old(issued)| ::
        && s in old(running) && old(running)[s].sendTimes <= 5
        && running[s] == if old(running)[s].lastSend + 30 > now then old(running)[s]
                         else old(running)[s].(sendTimes := old(running)[s].sendTimes + 1, lastSend := now)
      ensures CallbacksOf(called, issued)
      ensures (forall s | s in posts :: NoneForClub(posts[s])) ==> OthersAdded(old(issued), issued)
    {
      hide *;
      WalkStarts(posts);
      var order := SortedKeys(running.Keys);
      var ended: seq<nat> := [];
      ghost var except: set<nat> := {};
      called := [];
      var k := 0;
      NothingEnded(order);
      UnderwayStarts(running, order, |issued|, now);
      while k < |order|
        invariant k <= |order| && Valid(except) && Walked(old(issued), old(fired), called, posts)
        invariant Ending(order, k, ended, except) && old(sent) <= sent
        invariant Underway(old(running), running, order, k, ended, |old(issued)|, now)
      {
        var s := order[k];
        assert s in order;
        ghost var ended', except' := ended, except;
        ghost var was, callbacks := running, issued;
        EndingNow(order, k, ended, except);
        NextRuns(old(running), running, order, k, ended, |old(issued)|, now);
        OnlyMore(old(issued), old(fired), called, posts);
        var giveUp;
        giveUp, called, except := VisitNext(s, now, posts, called, except, old(issued), old(fired));
        if giveUp {
          ended := ended + [s];
        }
        EndingNext(order, k, ended', except', giveUp, except);
        UnderwayNext(old(running), was, running, order, k, ended', |old(issued)|, |callbacks|, giveUp, now);
        k := k + 1;
      }
      WalkIsOver(old(issued), old(fired), called, posts);
      EndingThen(order, ended, except);
      EndingRuns(old(running), running, order, ended, |old(issued)|, now);
      ghost var was := running;
      EndAll(ended, except);
      TimerIsOver(old(running), was, running, order, ended, |old(issued)|, now);
      TimerMeans(old(running), running, |old(issued)|, now);
    }

    lemma OnlyMore(issuedBefore: seq<Callback>, firedBefore: seq<nat>, called: seq<Called>,
                   posts: map<nat, seq<Order>>)
      requires Walked(issuedBefore, firedBefore, called, posts)
      ensures issuedBefore <= issued
    {
    }

    lemma WalkStarts(posts: map<nat, seq<Order>>)
      ensures Walked(issued, fired, [], posts)
    {
      NothingAdded(issued);
      TicketsOfNone();
    }

    lemma WalkIsOver(issuedBefore: seq<Callback>, firedBefore: seq<nat>, called: seq<Called>,
                     posts: map<nat, seq<Order>>)
      requires Walked(issuedBefore, firedBefore, called, posts)
      ensures issuedBefore <= issued && fired == firedBefore + Tickets(called)
      ensures SixTimes(sent, Tickets(called)) && CallbacksOf(called, issued)
      ensures (forall s | s in posts :: NoneForClub(posts[s])) ==> OthersAdded(issuedBefore, issued)
    {
    }

    method EndAll(ended: seq<nat>, ghost except: set<nat>)
      requires Valid(except) && NoTwice(ended) && (forall s | s in ended :: s in running)
      requires forall s | s in except :: s in ended
      modifies this`running, this`reserve
      ensures Valid({}) && forall s :: s in running <==> s in old(running) && s !in ended
      ensures sent == old(sent) && forall s | s in running :: running[s] == old(running)[s]
    {
      hide RunningOk, ReserveOk, FiredOk, SentOk, NoTwice;
      var k := 0;
      while k < |ended|
        invariant k <= |ended| && Valid(except)
        invariant forall s :: s in running <==> s in old(running) && s !in ended[..k]
        invariant forall s | s in running :: running[s] == old(running)[s]
      {
        NextIsNew(ended, k);
        Cancel(ended[k], except);
        k := k + 1;
      }
      assert ended[..k] == ended;
      GoneIsNoException(running, issued, fired, except);
    }
  }

  lemma NextIsNew(s: seq<nat>, k: nat)
    requires NoTwice(s) && k < |s|
    ensures s[k] in s && s[k] !in s[..k] && s[..k + 1] == s[..k] + [s[k]]
  {
  }

  lemma ResendKeepsOthers(running: Running, reserve: seq<nat>, next: nat, issued: seq<Callback>, fired: seq<nat>,
                          except: set<nat>, s: nat, now: int)
    requires ReserveOk(running, reserve, next) && FiredOk(running, issued, fired, except) && s in running
    ensures ReserveOk(running[s := Sending(running[s], now)], reserve, next)
    ensures FiredOk(running[s := Sending(running[s], now)], issued, fired, except)
  {
  }

  lemma AddedByOthers(a: seq<Callback>, b: seq<Callback>, c: seq<Callback>, more: seq<Order>)
    requires Extends(b, c, more)
    ensures b <= c && (NoneForClub(more) && OthersAdded(a, b) ==> OthersAdded(a, c))
  {
    if NoneForClub(more) && OthersAdded(a, b) {
      ExtendsByOthers(b, c, more);
      OthersAddedTwice(a, b, c);
    }
  }

  /** What the timer makes of a request that it does not end. */
  function Passed(r: Request, now: int): Request {
    if IsDue(r, now) then Sending(r, now) else r
  }

  /** What the timer does: it ends just the requests that were sent six times and passes over
      the others; callbacks may push new ones. */
  ghost predicate TimerDid(was: Running, running: Running, n: nat, now: int) {
    && (forall s | s in was && was[s].sendTimes <= 5 :: s in running)
    && forall s | s in running ::
         IsFresh(running[s], n, now) || (s in was && was[s].sendTimes <= 5 && running[s] == Passed(was[s], now))
  }

  lemma TimerMeans(was: Running, running: Running, n: nat, now: int)
    requires TimerDid(was, running, n, now)
    ensures forall s | s in was && was[s].sendTimes <= 5 :: s in running
    ensures forall s | s in running && running[s].ticket < n ::
      && s in was && was[s].sendTimes <= 5
      && running[s] == if was[s].lastSend + 30 > now then was[s]
                       else was[s].(sendTimes := was[s].sendTimes + 1, lastSend := now)
  {
  }

  /** The same after the first `k` requests of the walk, those to be ended still running. */
  ghost predicate Underway(was: Running, running: Running, order: seq<nat>, k: nat, ended: seq<nat>, n: nat, now: int) {
    && k <= |order| && was.Keys <= running.Keys && (forall s :: s in order <==> s in was)
    && (forall s | s in ended :: s in was && was[s].sendTimes > 5)
    && forall s | s in running ::
         IsFresh(running[s], n, now) ||
         (s in was && if s !in order[..k] then running[s] == was[s]
                      else if was[s].sendTimes > 5 then s in ended else running[s] == Passed(was[s], now))
  }

  lemma UnderwayStarts(was: Running, order: seq<nat>, n: nat, now: int)
    requires forall s :: s in order <==> s in was
    ensures Underway(was, was, order, 0, [], n, now)
  {
  }

  lemma NextRuns(was: Running, running: Running, order: seq<nat>, k: nat, ended: seq<nat>, n: nat, now: int)
    requires Underway(was, running, order, k, ended, n, now) && k < |order|
    ensures order[k] in running
  {
    assert order[k] in order;
  }

  lemma UnderwayNext(was: Running, before: Running, after: Running, order: seq<nat>, k: nat, ended: seq<nat>, n: nat,
                     m: nat, giveUp: bool, now: int)
    requires Underway(was, before, order, k, ended, n, now) && k < |order| && n <= m
    requires (forall i, j | 0 <= i < j < |order| :: order[i] < order[j]) && order[k] in before
    requires giveUp == (before[order[k]].sendTimes > 5)
    requires if giveUp then Pushed(before, after, m, now)
             else after == before[order[k] := Passed(before[order[k]], now)]
    ensures Underway(was, after, order, k + 1, if giveUp then ended + [order[k]] else ended, n, now)
  {
    assert order[k] in order && order[k] !in order[..k];
    assert order[..k + 1] == order[..k] + [order[k]];
  }

  lemma EndingRuns(was: Running, running: Running, order: seq<nat>, ended: seq<nat>, n: nat, now: int)
    requires Underway(was, running, order, |order|, ended, n, now)
    ensures forall s | s in ended :: s in running
  {
  }

  lemma TimerIsOver(was: Running, before: Running, after: Running, order: seq<nat>, ended: seq<nat>, n: nat, now: int)
    requires Underway(was, before, order, |order|, ended, n, now)
    requires forall s :: s in after <==> s in before && s !in ended
    requires forall s | s in after :: after[s] == before[s]
    ensures TimerDid(was, after, n, now)
  {
    assert order[..|order|] == order;
  }

  function Tickets(called: seq<Called>): (r: seq<nat>)
    ensures |r| == |called|
  {
    seq(|called|, k requires 0 <= k < |called| => called[k].ticket)
  }

  lemma TicketsOfNone()
    ensures Tickets([]) == []
  {
  }

  lemma TicketsMore(called: seq<Called>, one: Called)
    ensures Tickets(called + [one]) == Tickets(called) + [one.ticket]
  {
  }

  ghost predicate CallbacksOf(called: seq<Called>, issued: seq<Callback>) {
    forall k | 0 <= k < |called| :: called[k].ticket < |issued| && issued[called[k].ticket] == called[k].callback
  }

  /** Sent six times. */
  ghost predicate SixTimes(sent: seq<nat>, tickets: seq<nat>) {
    forall k | 0 <= k < |tickets| :: In(sent, tickets[k]) == 6
  }

  lemma {:induction false} MessagesOnlyAdded(before: seq<nat>, after: seq<nat>, t: nat)
    requires before <= after
    ensures In(before, t) <= In(after, t)
  {
    assert after == before + after[|before|..];
  }

  lemma StillSixTimes(before: seq<nat>, after: seq<nat>, issued: seq<Callback>, tickets: seq<nat>)
    requires before <= after && SentOk(issued, after) && SixTimes(before, tickets)
    ensures SixTimes(after, tickets)
  {
    forall k | 0 <= k < |tickets| ensures In(after, tickets[k]) == 6 {
      MessagesOnlyAdded(before, after, tickets[k]);
    }
  }

  ghost predicate NoneForClub(orders: seq<Order>) {
    forall k | 0 <= k < |orders| :: !orders[k].callback.ClubCreate?
  }

  /** Tickets were only added, none of them for a room of a club. */
  ghost predicate OthersAdded(before: seq<Callback>, after: seq<Callback>) {
    before <= after && forall t | |before| <= t < |after| :: !after[t].ClubCreate?
  }

  lemma ExtendsByOthers(before: seq<Callback>, after: seq<Callback>, more: seq<Order>)
    requires Extends(before, after, more) && NoneForClub(more)
    ensures OthersAdded(before, after)
  {
  }

  lemma NothingExtends(issued: seq<Callback>, more: seq<Order>)
    ensures Extends(issued, issued, more)
  {
  }

  lemma AnswersItsPush(running: Running, next: nat, issued: seq<Callback>, sent: seq<nat>, fired: seq<nat>, s: nat)
    requires RunningOk(running, next, issued, sent) && FiredOk(running, issued, fired, {}) && s in running
    ensures var r := running[s];
      r.ticket < |issued| && issued[r.ticket] == r.callback && r.ticket !in fired
  {
    assert RequestOk(s, running[s], next, issued, sent);
  }

  lemma SixTimesMore(sent: seq<nat>, tickets: seq<nat>, t: nat)
    requires SixTimes(sent, tickets) && In(sent, t) == 6
    ensures SixTimes(sent, tickets + [t])
  {
  }

  /** The requests to end are among the first `k` visited, and those whose callbacks were
      called among them. */
  ghost predicate Ending(order: seq<nat>, k: nat, ended: seq<nat>, except: set<nat>) {
    && (forall i, j | 0 <= i < j < |order| :: order[i] < order[j])
    && k <= |order| && NoTwice(ended) && (forall s | s in ended :: s in order[..k])
    && (forall s | s in except :: s in ended)
  }

  lemma NothingEnded(order: seq<nat>)
    requires forall i, j | 0 <= i < j < |order| :: order[i] < order[j]
    ensures Ending(order, 0, [], {})
  {
  }

  lemma EndingNow(order: seq<nat>, k: nat, ended: seq<nat>, except: set<nat>)
    requires k < |order| && Ending(order, k, ended, except)
    ensures order[k] !in except
  {
    assert order[k] !in order[..k];
  }

  lemma EndingNext(order: seq<nat>, k: nat, ended: seq<nat>, except: set<nat>, giveUp: bool, except': set<nat>)
    requires k < |order| && Ending(order, k, ended, except)
    requires except' == except || (giveUp && except' == except + {order[k]})
    ensures Ending(order, k + 1, if giveUp then ended + [order[k]] else ended, except')
  {
    assert order[k] !in order[..k];
    assert order[..k + 1] == order[..k] + [order[k]];
    var more := if giveUp then ended + [order[k]] else ended;
    assert forall s :: s in more <==> s in ended || (giveUp && s == order[k]);
  }

  lemma EndingThen(order: seq<nat>, ended: seq<nat>, except: set<nat>)
    requires Ending(order, |order|, ended, except)
    ensures NoTwice(ended) && (forall s | s in ended :: s in order) && forall s | s in except :: s in ended
  {
  }

  lemma SentSixTimes(running: Running, next: nat, issued: seq<Callback>, sent: seq<nat>, s: nat)
    requires RunningOk(running, next, issued, sent) && s in running && running[s].sendTimes > 5
    ensures In(sent, running[s].ticket) == 6
  {
    assert RequestOk(s, running[s], next, issued, sent);
  }

  lemma NothingAdded(issued: seq<Callback>)
    ensures OthersAdded(issued, issued) && NoneForClub([])
  {
  }

  lemma OthersAddedTwice(a: seq<Callback>, b: seq<Callback>, c: seq<Callback>)
    requires OthersAdded(a, b) && OthersAdded(b, c)
    ensures OthersAdded(a, c)
  {
  }

  /** Pushes only add tickets, with the callbacks ordered. */
  ghost predicate Extends(before: seq<Callback>, after: seq<Callback>, more: seq<Order>) {
    before <= after && forall t | |before| <= t < |after| :: exists k :: 0 <= k < |more| && after[t] == more[k].callback
  }

  lemma HomesBelow(running: Running, next: nat, issued: seq<Callback>, sent: seq<nat>)
    requires RunningOk(running, next, issued, sent)
    ensures forall s | s in running :: running[s].home < next
  {
    forall s | s in running ensures running[s].home < next {
      assert RequestOk(s, running[s], next, issued, sent);
    }
  }

  lemma FirstTaken(s: seq<nat>)
    requires NoTwice(s) && s != []
    ensures NoTwice(s[1..]) && s[0] !in s[1..] && forall x | x in s[1..] :: x in s
  {
  }

  lemma PushKeepsReserve(running: Running, reserve: seq<nat>, next: nat, s: nat, r: Request)
    requires ReserveOk(running, reserve, next) && r.home !in reserve
    ensures ReserveOk(running[s := r], reserve, next)
  {
  }

  lemma CancelKeeps(running: Running, reserve: seq<nat>, next: nat, issued: seq<Callback>, fired: seq<nat>,
                    sent: seq<nat>, except: set<nat>, s: nat)
    requires RunningOk(running, next, issued, sent) && ReserveOk(running, reserve, next)
    requires FiredOk(running, issued, fired, except) && s in running
    ensures RunningOk(running - {s}, next, issued, sent) && FiredOk(running - {s}, issued, fired, except)
    ensures ReserveOk(running - {s}, reserve + [running[s].home], next)
  {
    assert RequestOk(s, running[s], next, issued, sent);
  }

  lemma FireKeeps(running: Running, next: nat, issued: seq<Callback>, sent: seq<nat>, fired: seq<nat>, except: set<nat>,
                  s: nat)
    requires RunningOk(running, next, issued, sent) && FiredOk(running, issued, fired, except)
    requires s in running && s !in except && running[s].callback != NoCallback
    ensures FiredOk(running, issued, fired + [running[s].ticket], except + {s})
  {
    assert RequestOk(s, running[s], next, issued, sent);
  }

  lemma DelayKeeps(running: Running, reserve: seq<nat>, next: nat, issued: seq<Callback>, fired: seq<nat>,
                   sent: seq<nat>, s: nat)
    requires RunningOk(running, next, issued, sent) && ReserveOk(running, reserve, next)
    requires FiredOk(running, issued, fired, {}) && s in running
    ensures var more := running[s := Delayed(running[s])];
      RunningOk(more, next, issued, sent) && ReserveOk(more, reserve, next) && FiredOk(more, issued, fired, {})
  {
    var more := running[s := Delayed(running[s])];
    hide In;
    forall t | t in more ensures RequestOk(t, more[t], next, issued, sent) {
      assert RequestOk(t, running[t], next, issued, sent);
    }
  }

  lemma GoneIsNoException(running: Running, issued: seq<Callback>, fired: seq<nat>, except: set<nat>)
    requires FiredOk(running, issued, fired, except) && forall s | s in except :: s !in running
    ensures FiredOk(running, issued, fired, {})
  {
  }

  /** A map is walked through in the order of its keys. */
  method SortedKeys(keys: set<nat>) returns (order: seq<nat>)
    ensures forall k :: k in order <==> k in keys
    ensures forall i, j | 0 <= i < j < |order| :: order[i] < order[j]
  {
    var rest, list := keys, [];
    while rest != {}
      invariant rest <= keys && NoTwice(list) && forall k :: k in list <==> k in keys && k !in rest
      decreases |rest|
    {
      var k :| k in rest;
      rest := rest - {k};
      list := list + [k];
    }
    var key := (k: nat) => k as int;
    order := Sort(list, key);
    SortedStrictly(list, order, key);
  }

  lemma TwiceThere(s: seq<nat>, i: nat, j: nat)
    requires i < j < |s| && s[i] == s[j]
    ensures multiset(s)[s[i]] >= 2
  {
    assert s == s[..i] + [s[i]] + s[i + 1..j] + [s[j]] + s[j + 1..];
  }

  lemma SortedStrictly(list: seq<nat>, order: seq<nat>, key: nat -> int)
    requires multiset(order) == multiset(list) && NoTwice(list) && Ascending(order, key) && forall k: nat :: key(k) == k
    ensures forall k :: k in order <==> k in list
    ensures forall i, j | 0 <= i < j < |order| :: order[i] < order[j]
  {
    forall k ensures k in order <==> k in list {
      assert k in order <==> k in multiset(order);
      assert k in list <==> k in multiset(list);
    }
    forall i, j | 0 <= i < j < |order| ensures order[i] < order[j] {
      assert key(order[i]) <= key(order[j]);
      if order[i] == order[j] {
        TwiceThere(order, i, j);
        OnceOnly(list, order[i]);
      }
    }
  }

  lemma {:induction false} OnceOnly(list: seq<nat>, x: nat)
    requires NoTwice(list)
    ensures multiset(list)[x] <= 1
  {
    if list != [] {
      assert list == [list[0]] + list[1..];
      OnceOnly(list[1..], x);
    }
  }
}
