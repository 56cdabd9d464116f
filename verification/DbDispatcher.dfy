/** `DBRWModule`: requests are attached to a limited number of task objects; those
    that find none wait. Every posting of a request has a number of its own. */
module DbDispatcher {
  import opened Wrappers
  import opened StdVector

  const UINT8_END := 0x100
  const MOST_WAITING := 1000

  // ---------------------------------------------------------------- requests

  ghost predicate InFlight(flying: set<nat>, requestOf: map<nat, nat>, r: nat) {
    exists t :: t in flying && t in requestOf && requestOf[t] == r
  }

  /** An accepted request is waiting, attached to a task in the pool, or answered: in
      one of these, and once. */
  ghost predicate Conserved(waiting: seq<nat>, flying: set<nat>, requestOf: map<nat, nat>, accepted: set<nat>,
                            answered: seq<nat>) {
    && NoTwice(waiting) && NoTwice(answered)
    && (forall t | t in flying :: t in requestOf)
    && (forall r: nat :: r in accepted <==> r in waiting || InFlight(flying, requestOf, r) || r in answered)
    && (forall r | r in waiting :: r !in answered && !InFlight(flying, requestOf, r))
    && (forall r | r in answered :: !InFlight(flying, requestOf, r))
    && (forall t, u | t in flying && u in flying && t != u :: requestOf[t] != requestOf[u])
  }

  lemma InFlightMore(flying: set<nat>, requestOf: map<nat, nat>, t: nat, x: nat)
    requires t !in flying
    ensures forall r: nat :: InFlight(flying + {t}, requestOf[t := x], r) <==> InFlight(flying, requestOf, r) || r == x
  {
    var more, after := flying + {t}, requestOf[t := x];
    forall r: nat ensures InFlight(more, after, r) <==> InFlight(flying, requestOf, r) || r == x {
      if InFlight(flying, requestOf, r) {
        var u :| u in flying && u in requestOf && requestOf[u] == r;
        assert u in more && u in after && after[u] == r;
      }
      if r == x {
        assert t in more && t in after && after[t] == r;
      }
    }
  }

  lemma AttachKeeps(waiting: seq<nat>, flying: set<nat>, requestOf: map<nat, nat>, accepted: set<nat>,
                    answered: seq<nat>, t: nat, x: nat)
    requires Conserved(waiting, flying, requestOf, accepted, answered) && t !in flying && x !in accepted
    ensures Conserved(waiting, flying + {t}, requestOf[t := x], accepted + {x}, answered)
  {
    InFlightMore(flying, requestOf, t, x);
    forall u | u in flying ensures requestOf[u] != x {
      assert InFlight(flying, requestOf, requestOf[u]);
    }
    hide InFlight;
  }

  lemma EnqueueKeeps(waiting: seq<nat>, flying: set<nat>, requestOf: map<nat, nat>, accepted: set<nat>,
                     answered: seq<nat>, x: nat)
    requires Conserved(waiting, flying, requestOf, accepted, answered) && x !in accepted
    ensures Conserved(waiting + [x], flying, requestOf, accepted + {x}, answered)
  {
    hide InFlight;
  }

  lemma DequeueKeeps(waiting: seq<nat>, flying: set<nat>, requestOf: map<nat, nat>, accepted: set<nat>,
                     answered: seq<nat>, t: nat)
    requires Conserved(waiting, flying, requestOf, accepted, answered) && t !in flying && waiting != []
    ensures Conserved(waiting[1..], flying + {t}, requestOf[t := waiting[0]], accepted, answered)
  {
    var x, rest := waiting[0], waiting[1..];
    InFlightMore(flying, requestOf, t, x);
    forall u | u in flying ensures requestOf[u] != x {
      assert InFlight(flying, requestOf, requestOf[u]);
    }
    hide InFlight;
    assert waiting == [x] + rest;
    forall r ensures r in waiting <==> r == x || r in rest {
    }
    assert x !in rest;
  }

  lemma LandKeeps(waiting: seq<nat>, flying: set<nat>, requestOf: map<nat, nat>, accepted: set<nat>, answered: seq<nat>,
                  t: nat)
    requires Conserved(waiting, flying, requestOf, accepted, answered) && t in flying
    ensures Conserved(waiting, flying - {t}, requestOf, accepted, answered + [requestOf[t]])
  {
    var x := requestOf[t];
    assert InFlight(flying, requestOf, x);
    forall r: nat ensures InFlight(flying, requestOf, r) <==> InFlight(flying - {t}, requestOf, r) || r == x {
      if u :| u in flying && u in requestOf && requestOf[u] == r && u != t {
        assert u in flying - {t};
      }
    }
    assert !InFlight(flying - {t}, requestOf, x);
    hide InFlight;
  }

  // ---------------------------------------------------------------- task objects

  /** Task objects are free or in the pool; with up to 127 threads all are counted. */
  ghost predicate TasksCounted(threads: nat, created: nat, free: seq<nat>, flying: set<nat>, next: nat) {
    && NoTwice(free) && (forall t | t in free :: t !in flying && t < next) && (forall t | t in flying :: t < next)
    && created < UINT8_END && created <= 2 * threads + 1
    && (threads < 128 ==> |free| + |flying| == created == next)
  }

  lemma ReuseCounted(threads: nat, created: nat, free: seq<nat>, flying: set<nat>, next: nat)
    requires TasksCounted(threads, created, free, flying, next) && free != []
    ensures var t := free[|free| - 1];
      t !in flying && TasksCounted(threads, created, free[..|free| - 1], flying + {t}, next)
  {
    var t, less := free[|free| - 1], free[..|free| - 1];
    assert free == less + [t];
    assert t in free && t !in less;
    forall x | x in less ensures x in free {
    }
    assert |flying + {t}| == |flying| + 1;
  }

  lemma CreateCounted(threads: nat, created: nat, flying: set<nat>, next: nat)
    requires TasksCounted(threads, created, [], flying, next) && created <= 2 * threads
    ensures next !in flying && TasksCounted(threads, (created + 1) % UINT8_END, [], flying + {next}, next + 1)
  {
    assert |flying + {next}| == |flying| + 1;
  }

  lemma LandCounted(threads: nat, created: nat, free: seq<nat>, flying: set<nat>, next: nat, t: nat)
    requires TasksCounted(threads, created, free, flying, next) && t in flying
    ensures TasksCounted(threads, created, free + [t], flying - {t}, next)
  {
    assert |flying - {t}| == |flying| - 1;
  }

  /** How many requests the callbacks post. */
  function Posted(posts: seq<seq<nat>>): nat {
    if posts == [] then 0 else Posted(posts[..|posts| - 1]) + |posts[|posts| - 1]|
  }

  lemma PostedNext(posts: seq<seq<nat>>, k: nat)
    requires k < |posts|
    ensures Posted(posts[..k + 1]) == Posted(posts[..k]) + |posts[k]| <= Posted(posts)
  {
    assert posts[..k + 1][..k] == posts[..k];
    PostedWithin(posts, k + 1);
  }

  lemma {:induction false} PostedWithin(posts: seq<seq<nat>>, k: nat)
    requires k <= |posts|
    ensures Posted(posts[..k]) <= Posted(posts)
    decreases |posts| - k
  {
    if k < |posts| {
      assert posts[..k + 1][..k] == posts[..k];
      PostedWithin(posts, k + 1);
    } else {
      assert posts[..k] == posts;
    }
  }

  // ---------------------------------------------------------------- the dispatcher

  class Dispatcher {
    const threadCount: nat
    var created: nat               // `m_nAlreadyCreatedTaskObj`, eight bits
    var free: seq<nat>             // task objects that can be used again
    var requestOf: map<nat, nat>   // the request a task object carries
    var waiting: seq<nat>          // `m_vWaitToProcessDBRequest`
    var reserve: seq<nat>          // `m_vReseverDBRequest`
    var nextTask: nat
    var flying: set<nat>           // task objects in the pool
    ghost var accepted: set<nat>
    ghost var answered: seq<nat>

    constructor (threadCount: nat)
      requires threadCount < UINT8_END
      ensures Valid(0) && this.threadCount == threadCount && accepted == {} && answered == [] && waiting == []
      ensures flying == {}
    {
      this.threadCount := threadCount;
      created, free, requestOf, waiting, reserve, nextTask := 0, [], map[], [], [], 0;
      flying, accepted, answered := {}, {}, [];
    }

    /** A request waits only if all task objects were created and at most `slack` of
        them are free. */
    ghost predicate Valid(slack: nat)
      reads this
    {
      && TasksCounted(threadCount, created, free, flying, nextTask)
      && Conserved(waiting, flying, requestOf, accepted, answered)
      && (waiting != [] ==> |free| <= slack && created == 2 * threadCount + 1)
    }

    /** `getReuseTaskObjByID` with `createTask`: the last free task object, or a new one
        unless twice the number of threads and one were created. */
    method GetReuseTask() returns (task: Option<nat>)
      requires TasksCounted(threadCount, created, free, flying, nextTask)
      modifies this`free, this`created, this`nextTask
      ensures task.None? <==> old(free) == [] && old(created) == 2 * threadCount + 1
      ensures task.None? ==> free == old(free) && created == old(created) && nextTask == old(nextTask)
      ensures task.Some? ==>
        task.value !in flying && TasksCounted(threadCount, created, free, flying + {task.value}, nextTask)
      ensures |free| == if old(free) == [] then 0 else |old(free)| - 1
      ensures old(free) != [] ==> created == old(created)
      ensures task.Some? ==>
        |free| + |flying + {task.value}| == |old(free)| + |flying| + (if old(free) == [] then 1 else 0)
    {
      if free == [] {
        if created > threadCount * 2 {
          return None;
        }
        CreateCounted(threadCount, created, flying, nextTask);
        created := (created + 1) % UINT8_END;
        task := Some(nextTask);
        nextTask := nextTask + 1;
        return;
      }
      ReuseCounted(threadCount, created, free, flying, nextTask);
      task := Some(free[|free| - 1]);
      free := free[..|free| - 1];
    }

    /** `postDBRequest`. Without a task object the request waits; beyond a thousand
        waiting it is dropped, though the caller is told otherwise. */
    method PostDBRequest(request: nat, ghost slack: nat) returns (r: bool)
      requires Valid(slack) && request !in accepted
      modifies this`free, this`created, this`nextTask, this`requestOf, this`flying, this`waiting, this`accepted
      ensures Valid(slack) && r
      ensures var refused := old(free) == [] && old(created) == 2 * threadCount + 1 && |old(waiting)| > MOST_WAITING;
        && |flying| + |waiting| == |old(flying)| + |old(waiting)| + (if refused then 0 else 1)
        && accepted == old(accepted) + (if refused then {} else {request})
      ensures waiting == old(waiting) || (waiting == old(waiting) + [request] && free == [] && old(free) == [])
      ensures Refused(old(free), old(created), old(waiting)) ==> Refused(free, created, waiting)
      ensures old(flying) <= flying
      ensures forall t | t in old(flying) :: t in requestOf && t in old(requestOf) && requestOf[t] == old(requestOf)[t]
    {
      hide TasksCounted, Conserved, InFlight;
      r := true;
      var task := GetReuseTask();
      ConservedKnows(waiting, flying, requestOf, accepted, answered);
      if task.None? {
        if |waiting| > MOST_WAITING {
          return;
        }
        EnqueueKeeps(waiting, flying, requestOf, accepted, answered, request);
        waiting := waiting + [request];
        accepted := accepted + {request};
        return;
      }
      Attach(task.value, request);
    }

    method Attach(task: nat, request: nat)
      requires Conserved(waiting, flying, requestOf, accepted, answered) && task !in flying && request !in accepted
      modifies this`requestOf, this`flying, this`accepted
      ensures Conserved(waiting, flying, requestOf, accepted, answered)
      ensures requestOf == old(requestOf)[task := request] && flying == old(flying) + {task}
      ensures accepted == old(accepted) + {request}
    {
      AttachKeeps(waiting, flying, requestOf, accepted, answered, task, request);
      hide *;
      requestOf := requestOf[task := request];
      flying := flying + {task};
      accepted := accepted + {request};
    }

    /** A delivered task is free again; its request's callback may post `more`; then a
        waiting request gets a task, if the callback left one. */
    method OnTaskFinish(task: nat, more: seq<nat>)
      requires Valid(0) && task in flying && task in requestOf
      requires NoTwice(more) && forall r | r in more :: r !in accepted
      modifies this`free, this`created, this`nextTask, this`requestOf, this`flying, this`waiting, this`reserve,
               this`accepted, this`answered
      ensures Valid(0) && answered == old(answered) + [old(requestOf)[task]]
      ensures old(accepted) <= accepted && forall r | r in accepted :: r in old(accepted) || r in more
      ensures (forall r | r in more :: r in accepted) || |waiting| >= MOST_WAITING
      ensures |waiting| <= |old(waiting)| + |more|
      ensures forall t | t in old(flying) && t != task && t in old(requestOf) ::
        t in flying && t in requestOf && requestOf[t] == old(requestOf)[t]
    {
      var request := requestOf[task];
      LandKeeps(waiting, flying, requestOf, accepted, answered, task);
      LandCounted(threadCount, created, free, flying, nextTask, task);
      hide TasksCounted, Conserved, InFlight;
      free := free + [task];
      flying := flying - {task};
      answered := answered + [request];
      PostAll(more, request);
      reserve := reserve + [request];
      if waiting == [] {
        return;
      }
      GiveToWaiting();
    }

    /** What the callback does: it posts more requests, one after the other. */
    method PostAll(more: seq<nat>, ghost request: nat)
      requires Valid(1) && NoTwice(more) && forall r | r in more :: r !in accepted
      modifies this`free, this`created, this`nextTask, this`requestOf, this`flying, this`waiting, this`accepted
      ensures Valid(1)
      ensures old(accepted) <= accepted && forall r | r in accepted :: r in old(accepted) || r in more
      ensures (forall r | r in more :: r in accepted) || |waiting| > MOST_WAITING
      ensures |waiting| <= |old(waiting)| + |more|
      ensures old(flying) <= flying
      ensures forall t | t in old(flying) && t in old(requestOf) :: t in requestOf && requestOf[t] == old(requestOf)[t]
    {
      var k := 0;
      while k < |more|
        invariant k <= |more| && Valid(1)
        invariant old(accepted) <= accepted && forall r | r in accepted :: r in old(accepted) || r in more[..k]
        invariant (forall r | r in more[..k] :: r in accepted) || |waiting| > MOST_WAITING
        invariant |waiting| <= |old(waiting)| + k
        invariant old(flying) <= flying
        invariant forall t | t in old(flying) && t in old(requestOf) ::
          t in requestOf && requestOf[t] == old(requestOf)[t]
      {
        assert more[k] in more && more[k] !in more[..k];
        assert more[..k + 1] == more[..k] + [more[k]];
        var told := PostDBRequest(more[k], 1);
        k := k + 1;
      }
      assert more[..k] == more;
    }

    method GiveToWaiting()
      requires Valid(1) && waiting != []
      modifies this`free, this`created, this`nextTask, this`requestOf, this`flying, this`waiting
      ensures Valid(0) && (waiting == old(waiting) || waiting == old(waiting)[1..])
      ensures old(flying) <= flying
      ensures forall t | t in old(flying) && t in old(requestOf) :: t in requestOf && requestOf[t] == old(requestOf)[t]
    {
      hide TasksCounted, Conserved, InFlight;
      var task := GetReuseTask();
      if task.None? {
        return;
      }
      DequeueKeeps(waiting, flying, requestOf, accepted, answered, task.value);
      requestOf := requestOf[task.value := waiting[0]];
      flying := flying + {task.value};
      waiting := waiting[1..];
    }

    /** `update`: the finished tasks, in the order of the finish list, each with what
        its callback posts. */
    method Update(finished: seq<nat>, posts: seq<seq<nat>>)
      requires Valid(0) && |posts| == |finished| && NoTwice(finished) && forall t | t in finished :: t in flying
      requires forall k | 0 <= k < |posts| :: NoTwice(posts[k]) && forall r | r in posts[k] :: r !in accepted
      requires forall j, k, r: nat | 0 <= j < k < |posts| && r in posts[j] :: r !in posts[k]
      modifies this`free, this`created, this`nextTask, this`requestOf, this`flying, this`waiting, this`reserve,
               this`accepted, this`answered
      ensures Valid(0) && |answered| == |old(answered)| + |finished|
      ensures old(answered) <= answered && old(accepted) <= accepted
      ensures forall r | r in accepted :: r in old(accepted) || exists k :: 0 <= k < |posts| && r in posts[k]
      ensures |old(waiting)| + Posted(posts) < MOST_WAITING ==>
        forall k, r | 0 <= k < |posts| && r in posts[k] :: r in accepted
      ensures forall k | 0 <= k < |finished| ::
        finished[k] in old(requestOf) && answered[|old(answered)| + k] == old(requestOf)[finished[k]]
    {
      ConservedKnows(waiting, flying, requestOf, accepted, answered);
      assert forall k | 0 <= k < |finished| :: finished[k] in finished;
      hide TasksCounted, Conserved, InFlight;
      var k := 0;
      while k < |finished|
        invariant k <= |finished| && Valid(0) && |answered| == |old(answered)| + k
        invariant old(answered) <= answered && old(accepted) <= accepted
        invariant forall r | r in accepted :: r in old(accepted) || exists k :: 0 <= k < |posts| && r in posts[k]
        invariant |waiting| <= |old(waiting)| + Posted(posts[..k])
        invariant |old(waiting)| + Posted(posts) < MOST_WAITING ==>
          forall q, r | 0 <= q < k && r in posts[q] :: r in accepted
        invariant forall q | k <= q < |finished| ::
          (finished[q] in flying && finished[q] in requestOf && finished[q] in old(requestOf)
           && requestOf[finished[q]] == old(requestOf)[finished[q]])
        invariant forall q | k <= q < |finished| :: forall r | r in posts[q] :: r !in accepted
        invariant forall q | 0 <= q < k ::
          finished[q] in old(requestOf) && answered[|old(answered)| + q] == old(requestOf)[finished[q]]
      {
        PostedNext(posts, k);
        OnTaskFinish(finished[k], posts[k]);
        k := k + 1;
      }
    }

    /** Up to 127 threads there are never more task objects than twice their number and one.
        From 128 on the eight-bit count never reaches that, so no request ever waits and none
        is refused. */
    lemma EightBitCount(slack: nat)
      requires Valid(slack)
      ensures threadCount < 128 ==> nextTask <= 2 * threadCount + 1
      ensures threadCount >= 128 ==> waiting == [] && !Refused(free, created, waiting)
    {
    }

    predicate Refused(free: seq<nat>, created: nat, waiting: seq<nat>) {
      free == [] && created == 2 * threadCount + 1 && |waiting| > MOST_WAITING
    }
  }

  /** With 128 threads or more, more requests than twice their number and one are in the pool
      at the same time, each with a task object of its own. */
  method MoreThanTheLimit(threadCount: nat) returns (d: Dispatcher)
    requires 128 <= threadCount < UINT8_END
    ensures d.Valid(0) && d.waiting == [] && |d.flying| == 2 * threadCount + 2
  {
    hide TasksCounted, Conserved;
    d := new Dispatcher(threadCount);
    var k := 0;
    while k < 2 * threadCount + 2
      invariant k <= 2 * threadCount + 2 && d.Valid(0) && fresh(d) && d.threadCount == threadCount
      invariant d.waiting == [] && |d.flying| == k && forall r | r in d.accepted :: r < k
    {
      d.EightBitCount(0);
      var told := d.PostDBRequest(k, 0);
      d.EightBitCount(0);
      k := k + 1;
    }
  }

  lemma ConservedKnows(waiting: seq<nat>, flying: set<nat>, requestOf: map<nat, nat>, accepted: set<nat>,
                       answered: seq<nat>)
    requires Conserved(waiting, flying, requestOf, accepted, answered)
    ensures forall t | t in flying :: t in requestOf
  {
  }
}
