/** Two runs of the queue: a notice of delay that makes it send at once, and a serial number
    that comes round. */
module AsyncExamples {
  import opened AsyncQueue

  /** A request is sent, a notice of delay comes in, and the timer at the same moment sends
      the request a second time. */
  method SentAgainAtOnce(now: int) returns (queue: Queue)
    ensures In(queue.sent, 0) == 2
  {
    hide RunningOk, ReserveOk, FiredOk, SentOk;
    queue := new Queue();
    var serial := queue.PushNew(Order(1, 0, NoCallback), now, {});
    assert queue.sent == [0];
    var giveUp, called := queue.NoticeThenVisit(serial, now, now);
  }

  /** Without the notice nothing is sent for thirty seconds. */
  method SentOnce(now: int) returns (queue: Queue)
    ensures In(queue.sent, 0) == 1
  {
    hide RunningOk, ReserveOk, FiredOk, SentOk;
    queue := new Queue();
    var serial := queue.PushNew(Order(1, 0, NoCallback), now, {});
    assert queue.sent == [0];
    var giveUp, called := queue.Visit(serial, now, [], {});
  }

  /** A request stays unanswered while 2^32 - 1 others come and go. The next one takes its
      serial number: it runs no more, and its callback was not called and never will be. */
  method SerialComesRound(now: int) returns (queue: Queue)
    ensures queue.Valid({}) && queue.issued != [] && queue.issued[0] == Other && 0 !in queue.fired
    ensures forall s | s in queue.running :: queue.running[s].ticket != 0
  {
    hide RunningOk, ReserveOk, FiredOk, SentOk;
    queue := new Queue();
    var first := queue.PushNew(Order(1, 0, Other), now, {});
    ghost var r := queue.running[first];
    assert first == 1 && queue.running == map[1 := r];
    var k := 1;
    while k < UINT32_END
      invariant 1 <= k <= UINT32_END && queue.Valid({}) && fresh(queue) && queue.fired == []
      invariant queue.lastSerial == k % UINT32_END && queue.running == map[1 := r] && r.ticket == 0
      invariant queue.issued != [] && queue.issued[0] == Other
    {
      var serial := queue.PushNew(Order(2, 0, NoCallback), now, {});
      queue.Cancel(serial, {});
      assert queue.running == map[1 := r];
      k := k + 1;
    }
    var last := queue.PushNew(Order(1, 0, Other), now, {});
    assert last == 1;
  }
}
