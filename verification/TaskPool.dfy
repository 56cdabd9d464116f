/** The worker pool as a state machine: posters, workers and the updater take turns
    in any order, one access to shared state at a time. A posting has a number of its
    own, so a task object that is posted again counts as a new posting. */
module TaskPool {
  import opened Wrappers

  // ---------------------------------------------------------------- state

  /** Where a worker thread is in its loop and in `onThreadFinishTask`. */
  datatype WorkerPc =
    | Waiting          // for its condition
    | Woken            // flag taken back, task not yet looked at
    | Performing
    | Finishing        // performed, not yet in the finish list
    | Clearing         // in the finish list, `m_pTask` not yet cleared
    | Fetching         // about to look into the waiting queue
    | Taking(t: nat)   // taken from the waiting queue, not yet assigned
    | Signalling       // assigned to itself, flag not yet set
    | Retiring         // about to move from busy to idle

  datatype Worker = Worker(pc: WorkerPc, task: Option<nat>, hasNewTask: bool)

  /** Where a poster is in `postTask`. */
  datatype PosterPc =
    | Away
    | Holding(t: nat)          // task in hand
    | Giving(g: nat, w: nat)   // an idle worker taken
    | Waking(w: nat)           // assigned, flag not yet set
    | Queueing(q: nat)         // no idle worker was there

  datatype State = State(
    workers: seq<Worker>,
    posters: seq<PosterPc>,
    idle: seq<nat>,
    busy: seq<nat>,
    waiting: seq<nat>,
    finished: seq<nat>,
    delivering: seq<nat>,
    delivered: seq<nat>,
    posted: set<nat>,
    performed: multiset<nat>)

  datatype Step =
    | Post(p: nat, t: nat) | Choose(p: nat) | Assign(p: nat) | Signal(p: nat) | Enqueue(p: nat)
    | Wake(w: nat) | Look(w: nat) | Perform(w: nat) | PushFinished(w: nat) | Clear(w: nat)
    | Fetch(w: nat) | TakeOver(w: nat) | SignalSelf(w: nat) | Retire(w: nat)
    | Swap | Deliver

  const RESTING := Worker(Waiting, None, false)

  ghost predicate Init(s: State) {
    && (forall w | 0 <= w < |s.workers| :: s.workers[w] == RESTING)
    && (forall p | 0 <= p < |s.posters| :: s.posters[p] == Away)
    && s.idle == seq(|s.workers|, i => i) && s.busy == [] && s.waiting == [] && s.finished == []
    && s.delivering == [] && s.delivered == [] && s.posted == {} && s.performed == multiset{}
  }

  function RemoveFirst(s: seq<nat>, x: nat): seq<nat> {
    if s == [] then [] else if s[0] == x then s[1..] else [s[0]] + RemoveFirst(s[1..], x)
  }

  // ---------------------------------------------------------------- steps

  predicate At(s: State, w: nat, pc: WorkerPc) {
    w < |s.workers| && s.workers[w].pc == pc
  }

  predicate Enabled(s: State, step: Step) {
    match step
    case Post(p, t) => p < |s.posters| && s.posters[p] == Away && t !in s.posted
    case Choose(p) => p < |s.posters| && s.posters[p].Holding?
    case Assign(p) => p < |s.posters| && s.posters[p].Giving? && s.posters[p].w < |s.workers|
    case Signal(p) => p < |s.posters| && s.posters[p].Waking? && s.posters[p].w < |s.workers|
    case Enqueue(p) => p < |s.posters| && s.posters[p].Queueing?
    case Wake(w) => At(s, w, Waiting) && s.workers[w].hasNewTask
    case Look(w) => At(s, w, Woken)
    case Perform(w) => At(s, w, Performing) && s.workers[w].task.Some?
    case PushFinished(w) => At(s, w, Finishing) && s.workers[w].task.Some?
    case Clear(w) => At(s, w, Clearing)
    case Fetch(w) => At(s, w, Fetching)
    case TakeOver(w) => w < |s.workers| && s.workers[w].pc.Taking?
    case SignalSelf(w) => At(s, w, Signalling)
    case Retire(w) => At(s, w, Retiring)
    case Swap => s.delivering == []
    case Deliver => s.delivering != []
  }

  function SetWorker(s: State, w: nat, worker: Worker): State
    requires w < |s.workers|
  {
    s.(workers := s.workers[w := worker])
  }

  function SetPoster(s: State, p: nat, pc: PosterPc): State
    requires p < |s.posters|
  {
    s.(posters := s.posters[p := pc])
  }

  /** What each step does, as the lines between two accesses to shared state. */
  function Apply(s: State, step: Step): State
    requires Enabled(s, step)
  {
    match step
    case Post(p, t) => SetPoster(s, p, Holding(t)).(posted := s.posted + {t})
    case Choose(p) =>
      var t := s.posters[p].t;
      if s.idle == [] then SetPoster(s, p, Queueing(t))
      else
        var n := |s.idle| - 1;
        SetPoster(s, p, Giving(t, s.idle[n])).(idle := s.idle[..n], busy := s.busy + [s.idle[n]])
    case Assign(p) =>
      var pc := s.posters[p];
      SetWorker(SetPoster(s, p, Waking(pc.w)), pc.w, s.workers[pc.w].(task := Some(pc.g)))
    case Signal(p) =>
      var w := s.posters[p].w;
      SetWorker(SetPoster(s, p, Away), w, s.workers[w].(hasNewTask := true))
    case Enqueue(p) => SetPoster(s, p, Away).(waiting := s.waiting + [s.posters[p].q])
    case Wake(w) => SetWorker(s, w, s.workers[w].(pc := Woken, hasNewTask := false))
    case Look(w) => SetWorker(s, w, s.workers[w].(pc := if s.workers[w].task.Some? then Performing else Waiting))
    case Perform(w) =>
      SetWorker(s, w, s.workers[w].(pc := Finishing)).(performed := s.performed + multiset{s.workers[w].task.value})
    case PushFinished(w) =>
      SetWorker(s, w, s.workers[w].(pc := Clearing)).(finished := s.finished + [s.workers[w].task.value])
    case Clear(w) => SetWorker(s, w, s.workers[w].(pc := Fetching, task := None))
    case Fetch(w) =>
      if s.waiting == [] then SetWorker(s, w, s.workers[w].(pc := Retiring))
      else SetWorker(s, w, s.workers[w].(pc := Taking(s.waiting[0]))).(waiting := s.waiting[1..])
    case TakeOver(w) => SetWorker(s, w, s.workers[w].(pc := Signalling, task := Some(s.workers[w].pc.t)))
    case SignalSelf(w) => SetWorker(s, w, s.workers[w].(pc := Waiting, hasNewTask := true))
    case Retire(w) =>
      if w in s.busy
      then SetWorker(s, w, s.workers[w].(pc := Waiting)).(busy := RemoveFirst(s.busy, w), idle := s.idle + [w])
      else SetWorker(s, w, s.workers[w].(pc := Waiting))
    case Swap => s.(delivering := s.finished, finished := [])
    case Deliver => s.(delivering := s.delivering[1..], delivered := s.delivered + [s.delivering[0]])
  }

  // ---------------------------------------------------------------- where the tasks are

  function One(o: Option<nat>, t: nat): nat {
    if o == Some(t) then 1 else 0
  }

  /** Task `t` is the worker's to see through: not if it is in the finish list already. */
  function HeldBy(w: Worker, t: nat): nat {
    (if w.pc == Taking(t) then 1 else 0) + (if w.pc == Clearing then 0 else One(w.task, t))
  }

  function HandedBy(pc: PosterPc, t: nat): nat {
    if pc == Holding(t) || pc == Queueing(t) || (pc.Giving? && pc.g == t) then 1 else 0
  }

  /** Task `t` is performed, and still with the worker. */
  function DoneBy(w: Worker, t: nat): nat {
    if w.pc == Finishing then One(w.task, t) else 0
  }

  function Held(ws: seq<Worker>, t: nat): nat {
    if ws == [] then 0 else Held(ws[..|ws| - 1], t) + HeldBy(ws[|ws| - 1], t)
  }

  function Done(ws: seq<Worker>, t: nat): nat {
    if ws == [] then 0 else Done(ws[..|ws| - 1], t) + DoneBy(ws[|ws| - 1], t)
  }

  function Handed(ps: seq<PosterPc>, t: nat): nat {
    if ps == [] then 0 else Handed(ps[..|ps| - 1], t) + HandedBy(ps[|ps| - 1], t)
  }

  lemma {:induction false} WorkerChanges(ws: seq<Worker>, i: nat, w: Worker, t: nat)
    requires i < |ws|
    ensures Held(ws[i := w], t) + HeldBy(ws[i], t) == Held(ws, t) + HeldBy(w, t)
    ensures Done(ws[i := w], t) + DoneBy(ws[i], t) == Done(ws, t) + DoneBy(w, t)
  {
    hide HeldBy, DoneBy;
    var n := |ws| - 1;
    if i == n {
      assert ws[i := w][..n] == ws[..n];
    } else {
      assert ws[i := w][..n] == ws[..n][i := w];
      WorkerChanges(ws[..n], i, w, t);
    }
  }

  lemma {:induction false} PosterChanges(ps: seq<PosterPc>, i: nat, pc: PosterPc, t: nat)
    requires i < |ps|
    ensures Handed(ps[i := pc], t) + HandedBy(ps[i], t) == Handed(ps, t) + HandedBy(pc, t)
  {
    hide HandedBy;
    var n := |ps| - 1;
    if i == n {
      assert ps[i := pc][..n] == ps[..n];
    } else {
      assert ps[i := pc][..n] == ps[..n][i := pc];
      PosterChanges(ps[..n], i, pc, t);
    }
  }

  function In(s: seq<nat>, t: nat): nat {
    multiset(s)[t]
  }

  /** In how many places task `t` is: in a poster's hands, waiting, with a worker,
      finished, being delivered, delivered. */
  function Places(s: State, t: nat): nat {
    Handed(s.posters, t) + In(s.waiting, t) + Held(s.workers, t)
    + In(s.finished, t) + In(s.delivering, t) + In(s.delivered, t)
  }

  /** Every posted task is in exactly one place, others in none; it was performed once
      if it is on its way back or delivered, and never before. */
  ghost predicate Kept(s: State, t: nat) {
    && Places(s, t) == (if t in s.posted then 1 else 0)
    && s.performed[t] == Done(s.workers, t) + In(s.finished, t) + In(s.delivering, t) + In(s.delivered, t)
  }

  // ---------------------------------------------------------------- what the threads do

  /** The worker a poster is about to give a task or a signal. */
  function Target(pc: PosterPc): Option<nat> {
    if pc.Giving? then Some(pc.w) else if pc.Waking? then Some(pc.w) else None
  }

  /** A flag is set only for a waiting worker that has a task. */
  predicate Shape(w: Worker) {
    && (w.hasNewTask ==> w.pc == Waiting && w.task.Some?)
    && (w.pc in {Woken, Performing, Finishing, Clearing, Signalling} ==> w.task.Some?)
    && (w.pc.Taking? || w.pc in {Fetching, Retiring} ==> w.task.None?)
  }

  ghost predicate IdleOrBusy(s: State) {
    forall w: nat :: multiset(s.idle)[w] + multiset(s.busy)[w] == if w < |s.workers| then 1 else 0
  }

  /** A poster's target waits for it, with no task before it is given one. */
  ghost predicate Serves(s: State, p: nat) {
    p < |s.posters| && (Target(s.posters[p]).Some? ==>
      var w := Target(s.posters[p]).value;
      && w < |s.workers| && w !in s.idle && s.workers[w].pc == Waiting && !s.workers[w].hasNewTask
      && (s.posters[p].Giving? <==> s.workers[w].task.None?))
  }

  ghost predicate Served(s: State, w: nat) {
    exists p :: 0 <= p < |s.posters| && Target(s.posters[p]) == Some(w)
  }

  ghost predicate Threads(s: State) {
    && IdleOrBusy(s)
    && (forall w | 0 <= w < |s.workers| :: Shape(s.workers[w]))
    && (forall w | w in s.idle :: w < |s.workers| && s.workers[w] == RESTING)
    && (forall p | 0 <= p < |s.posters| :: Serves(s, p))
    && (forall p, q | 0 <= p < q < |s.posters| && Target(s.posters[p]).Some? ::
         Target(s.posters[p]) != Target(s.posters[q]))
    && (forall w | 0 <= w < |s.workers| && s.workers[w].pc == Waiting && !s.workers[w].hasNewTask && w !in s.idle ::
         Served(s, w))
  }

  ghost predicate Inv(s: State) {
    Threads(s) && forall t: nat :: Kept(s, t)
  }

  // ---------------------------------------------------------------- tasks are kept

  lemma MoreOf(s: seq<nat>, x: nat, t: nat)
    ensures In(s + [x], t) == In(s, t) + (if x == t then 1 else 0)
  {
  }

  lemma FirstOf(s: seq<nat>, t: nat)
    requires s != []
    ensures In(s, t) == (if s[0] == t then 1 else 0) + In(s[1..], t)
  {
    assert s == [s[0]] + s[1..];
  }

  lemma PostKeeps(s: State, p: nat, x: nat, t: nat)
    requires Enabled(s, Post(p, x)) && Kept(s, t)
    ensures Kept(Apply(s, Post(p, x)), t)
  {
    hide Held, Handed, Done, In;
    PosterChanges(s.posters, p, Holding(x), t);
  }

  lemma ChooseKeeps(s: State, p: nat, t: nat)
    requires Enabled(s, Choose(p)) && Kept(s, t)
    ensures Kept(Apply(s, Choose(p)), t)
  {
    hide Held, Handed, Done, In;
    PosterChanges(s.posters, p, Apply(s, Choose(p)).posters[p], t);
  }

  /** The worker given a task has none, so none is lost. */
  lemma AssignKeeps(s: State, p: nat, t: nat)
    requires Threads(s) && Enabled(s, Assign(p)) && Kept(s, t)
    ensures Kept(Apply(s, Assign(p)), t)
  {
    assert Serves(s, p);
    hide Threads, Held, Handed, Done, In;
    var w := s.posters[p].w;
    PosterChanges(s.posters, p, Waking(w), t);
    WorkerChanges(s.workers, w, s.workers[w].(task := Some(s.posters[p].g)), t);
  }

  lemma SignalKeeps(s: State, p: nat, t: nat)
    requires Enabled(s, Signal(p)) && Kept(s, t)
    ensures Kept(Apply(s, Signal(p)), t)
  {
    hide Held, Handed, Done, In;
    var w := s.posters[p].w;
    PosterChanges(s.posters, p, Away, t);
    WorkerChanges(s.workers, w, s.workers[w].(hasNewTask := true), t);
  }

  lemma EnqueueKeeps(s: State, p: nat, t: nat)
    requires Enabled(s, Enqueue(p)) && Kept(s, t)
    ensures Kept(Apply(s, Enqueue(p)), t)
  {
    hide Held, Handed, Done, In;
    PosterChanges(s.posters, p, Away, t);
    MoreOf(s.waiting, s.posters[p].q, t);
  }

  /** A worker moves on with its task, and nothing else changes. */
  lemma MovingOnKeeps(s: State, s': State, w: nat, worker: Worker, t: nat)
    requires w < |s.workers| && Kept(s, t)
    requires HeldBy(worker, t) == HeldBy(s.workers[w], t) && DoneBy(worker, t) == DoneBy(s.workers[w], t)
    requires s'.workers == s.workers[w := worker] && s'.posters == s.posters && s'.waiting == s.waiting
    requires s'.finished == s.finished && s'.delivering == s.delivering && s'.delivered == s.delivered
    requires s'.posted == s.posted && s'.performed == s.performed
    ensures Kept(s', t)
  {
    hide Held, Handed, Done, In;
    WorkerChanges(s.workers, w, worker, t);
  }

  lemma LoopKeeps(s: State, step: Step, t: nat)
    requires Threads(s) && Enabled(s, step) && Kept(s, t)
    requires step.Wake? || step.Look? || step.Clear? || step.TakeOver? || step.SignalSelf? || step.Retire?
    ensures Kept(Apply(s, step), t)
  {
    var s', w := Apply(s, step), step.w;
    assert Shape(s.workers[w]);
    hide Threads, Kept, RemoveFirst, Held, Handed, Done, In;
    MovingOnKeeps(s, s', w, s'.workers[w], t);
  }

  lemma PerformKeeps(s: State, w: nat, t: nat)
    requires Enabled(s, Perform(w)) && Kept(s, t)
    ensures Kept(Apply(s, Perform(w)), t)
  {
    hide Held, Handed, Done, In;
    WorkerChanges(s.workers, w, s.workers[w].(pc := Finishing), t);
  }

  lemma PushFinishedKeeps(s: State, w: nat, t: nat)
    requires Enabled(s, PushFinished(w)) && Kept(s, t)
    ensures Kept(Apply(s, PushFinished(w)), t)
  {
    hide Held, Handed, Done, In;
    WorkerChanges(s.workers, w, s.workers[w].(pc := Clearing), t);
    MoreOf(s.finished, s.workers[w].task.value, t);
  }

  lemma FetchKeeps(s: State, w: nat, t: nat)
    requires Threads(s) && Enabled(s, Fetch(w)) && Kept(s, t)
    ensures Kept(Apply(s, Fetch(w)), t)
  {
    assert Shape(s.workers[w]);
    hide Threads, Held, Handed, Done, In;
    WorkerChanges(s.workers, w, Apply(s, Fetch(w)).workers[w], t);
    if s.waiting != [] {
      FirstOf(s.waiting, t);
    }
  }

  lemma UpdateKeeps(s: State, step: Step, t: nat)
    requires Enabled(s, step) && Kept(s, t) && (step == Swap || step == Deliver)
    ensures Kept(Apply(s, step), t)
  {
    hide Held, Handed, Done;
    if step == Deliver {
      FirstOf(s.delivering, t);
      MoreOf(s.delivered, s.delivering[0], t);
    }
  }

  // ---------------------------------------------------------------- threads keep their places

  predicate AtRest(w: Worker) {
    w.pc == Waiting && !w.hasNewTask
  }

  /** A worker that is not at rest moves on, and does not come to rest. */
  lemma WorkerMovesOn(s: State, s': State, w: nat, worker: Worker)
    requires Threads(s) && w < |s.workers| && !AtRest(s.workers[w]) && Shape(worker) && !AtRest(worker)
    requires s'.workers == s.workers[w := worker] && s'.posters == s.posters && s'.idle == s.idle && s'.busy == s.busy
    ensures Threads(s')
  {
    forall p | 0 <= p < |s.posters| ensures Serves(s', p) {
      assert Serves(s, p);
    }
    forall x | 0 <= x < |s'.workers| && s'.workers[x].pc == Waiting && !s'.workers[x].hasNewTask && x !in s'.idle
      ensures Served(s', x) {
      assert Served(s, x);
    }
  }

  /** A poster that serves no one goes on to serve no one. */
  lemma PosterMovesOn(s: State, s': State, p: nat, pc: PosterPc)
    requires Threads(s) && p < |s.posters| && Target(s.posters[p]).None? && Target(pc).None?
    requires s'.workers == s.workers && s'.posters == s.posters[p := pc] && s'.idle == s.idle && s'.busy == s.busy
    ensures Threads(s')
  {
    forall q | 0 <= q < |s.posters| ensures Serves(s', q) {
      assert Serves(s, q);
    }
    forall x | 0 <= x < |s'.workers| && AtRest(s'.workers[x]) && x !in s'.idle ensures Served(s', x) {
      var q :| 0 <= q < |s.posters| && Target(s.posters[q]) == Some(x);
      assert Target(s'.posters[q]) == Some(x);
    }
  }

  lemma TopOfStack(s: State)
    requires IdleOrBusy(s) && s.idle != []
    ensures var n := |s.idle| - 1;
      var w := s.idle[n];
      && w < |s.workers| && w !in s.idle[..n] && IdleOrBusy(s.(idle := s.idle[..n], busy := s.busy + [w]))
      && forall x | x in s.idle[..n] :: x in s.idle
  {
    var n := |s.idle| - 1;
    var w := s.idle[n];
    assert s.idle == s.idle[..n] + [w];
    assert multiset(s.idle) == multiset(s.idle[..n]) + multiset{w};
    assert multiset(s.idle)[w] + multiset(s.busy)[w] == if w < |s.workers| then 1 else 0;
    assert w in s.idle[..n] <==> multiset(s.idle[..n])[w] > 0;
  }

  lemma ChooseKeepsThreads(s: State, p: nat)
    requires Threads(s) && Enabled(s, Choose(p)) && s.idle != []
    ensures Threads(Apply(s, Choose(p)))
  {
    var s' := Apply(s, Choose(p));
    var w := s.idle[|s.idle| - 1];
    TopOfStack(s);
    assert s.workers[w] == RESTING;
    hide IdleOrBusy, Shape;
    forall q | 0 <= q < |s.posters| ensures Serves(s', q) && (q != p ==> Target(s.posters[q]) != Some(w)) {
      assert Serves(s, q);
    }
    forall x | 0 <= x < |s'.workers| && AtRest(s'.workers[x]) && x !in s'.idle ensures Served(s', x) {
      ChooseServed(s, p, x);
    }
  }

  lemma ChooseServed(s: State, p: nat, x: nat)
    requires Threads(s) && Enabled(s, Choose(p)) && s.idle != [] && x < |s.workers| && AtRest(s.workers[x])
    requires x !in Apply(s, Choose(p)).idle
    ensures Served(Apply(s, Choose(p)), x)
  {
    var s', w := Apply(s, Choose(p)), s.idle[|s.idle| - 1];
    if x == w {
      assert Target(s'.posters[p]) == Some(w);
    } else {
      NotBelowTop(s, x);
      var q :| 0 <= q < |s.posters| && Target(s.posters[q]) == Some(x);
      assert Target(s'.posters[q]) == Some(x);
    }
  }

  lemma NotBelowTop(s: State, x: nat)
    requires s.idle != [] && x !in s.idle[..|s.idle| - 1] && x != s.idle[|s.idle| - 1]
    ensures x !in s.idle
  {
    assert s.idle == s.idle[..|s.idle| - 1] + [s.idle[|s.idle| - 1]];
  }

  lemma AssignKeepsThreads(s: State, p: nat)
    requires Threads(s) && Enabled(s, Assign(p))
    ensures Threads(Apply(s, Assign(p)))
  {
    var s' := Apply(s, Assign(p));
    var w := s.posters[p].w;
    assert Serves(s, p);
    forall q | 0 <= q < |s.posters| ensures Serves(s', q) {
      assert Serves(s, q);
      if q != p {
        OneServes(s, p, q);
      }
    }
    forall x | 0 <= x < |s'.workers| && AtRest(s'.workers[x]) && x !in s'.idle ensures Served(s', x) {
      assert Served(s, x);
      var q :| 0 <= q < |s.posters| && Target(s.posters[q]) == Some(x);
      assert Target(s'.posters[q]) == Some(x);
    }
  }

  lemma OneServes(s: State, p: nat, q: nat)
    requires Threads(s) && p < |s.posters| && q < |s.posters| && p != q && Target(s.posters[p]).Some?
    ensures Target(s.posters[p]) != Target(s.posters[q])
  {
    if q < p {
      assert Target(s.posters[q]).Some? ==> Target(s.posters[q]) != Target(s.posters[p]);
    }
  }

  lemma SignalKeepsThreads(s: State, p: nat)
    requires Threads(s) && Enabled(s, Signal(p))
    ensures Threads(Apply(s, Signal(p)))
  {
    var s' := Apply(s, Signal(p));
    var w := s.posters[p].w;
    assert Serves(s, p);
    forall q | 0 <= q < |s.posters| ensures Serves(s', q) {
      assert Serves(s, q);
      if q != p {
        OneServes(s, p, q);
      }
    }
    forall x | 0 <= x < |s'.workers| && AtRest(s'.workers[x]) && x !in s'.idle ensures Served(s', x) {
      assert Served(s, x);
      var q :| 0 <= q < |s.posters| && Target(s.posters[q]) == Some(x);
      assert q != p && Target(s'.posters[q]) == Some(x);
    }
  }

  lemma {:induction false} RemoveFirstTakesOne(s: seq<nat>, x: nat)
    requires x in s
    ensures multiset(s) == multiset(RemoveFirst(s, x)) + multiset{x}
  {
    assert s == [s[0]] + s[1..];
    if s[0] != x {
      RemoveFirstTakesOne(s[1..], x);
      assert multiset(s) == multiset{s[0]} + multiset(s[1..]);
    }
  }

  /** A retiring worker is found among the busy ones. */
  lemma RetiringIsBusy(s: State, w: nat)
    requires Threads(s) && Enabled(s, Retire(w))
    ensures w in s.busy && w !in s.idle
  {
    assert forall x | x in s.idle :: s.workers[x] == RESTING;
    assert w !in multiset(s.idle);
    assert multiset(s.idle)[w] + multiset(s.busy)[w] == if w < |s.workers| then 1 else 0;
  }

  lemma RetireCounts(s: State, w: nat)
    requires IdleOrBusy(s) && Enabled(s, Retire(w)) && w in s.busy
    ensures IdleOrBusy(Apply(s, Retire(w)))
  {
    var s' := Apply(s, Retire(w));
    RemoveFirstTakesOne(s.busy, w);
    forall x: nat ensures multiset(s'.idle)[x] + multiset(s'.busy)[x] == if x < |s'.workers| then 1 else 0 {
      assert multiset(s.idle)[x] + multiset(s.busy)[x] == if x < |s.workers| then 1 else 0;
    }
  }

  lemma RetireKeepsThreads(s: State, w: nat)
    requires Threads(s) && Enabled(s, Retire(w))
    ensures Threads(Apply(s, Retire(w)))
  {
    var s' := Apply(s, Retire(w));
    RetiringIsBusy(s, w);
    assert Shape(s.workers[w]);
    RetireCounts(s, w);
    hide IdleOrBusy, RemoveFirst;
    forall q | 0 <= q < |s.posters| ensures Serves(s', q) {
      assert Serves(s, q);
    }
    forall x | 0 <= x < |s'.workers| && AtRest(s'.workers[x]) && x !in s'.idle ensures Served(s', x) {
      assert x !in s.idle && x != w;
      assert Served(s, x);
    }
  }

  lemma StepKeepsThreads(s: State, step: Step)
    requires Threads(s) && Enabled(s, step)
    ensures Threads(Apply(s, step))
  {
    hide Threads;
    var s' := Apply(s, step);
    if step.Post? || step.Enqueue? || (step.Choose? && s.idle == []) {
      PosterMovesOn(s, s', step.p, s'.posters[step.p]);
    } else if step.Choose? {
      ChooseKeepsThreads(s, step.p);
    } else if step.Assign? {
      AssignKeepsThreads(s, step.p);
    } else if step.Signal? {
      SignalKeepsThreads(s, step.p);
    } else if step.Retire? {
      RetireKeepsThreads(s, step.w);
    } else if step == Swap || step == Deliver {
      ListsOnly(s, s');
    } else {
      LoopKeepsThreads(s, step);
    }
  }

  lemma ListsOnly(s: State, s': State)
    requires Threads(s) && s'.workers == s.workers && s'.posters == s.posters && s'.idle == s.idle && s'.busy == s.busy
    ensures Threads(s')
  {
    forall p | 0 <= p < |s.posters| ensures Serves(s', p) {
      assert Serves(s, p);
    }
    forall w | 0 <= w < |s.workers| && AtRest(s.workers[w]) && w !in s.idle ensures Served(s', w) {
      assert Served(s, w);
    }
  }

  predicate IsLoopStep(step: Step) {
    step.Wake? || step.Look? || step.Perform? || step.PushFinished? || step.Clear? || step.Fetch?
    || step.TakeOver? || step.SignalSelf?
  }

  lemma LoopKeepsThreads(s: State, step: Step)
    requires Threads(s) && Enabled(s, step) && IsLoopStep(step)
    ensures Threads(Apply(s, step))
  {
    assert Shape(s.workers[step.w]);
    hide Threads;
    WorkerMovesOn(s, Apply(s, step), step.w, Apply(s, step).workers[step.w]);
  }

  // ---------------------------------------------------------------- every run

  lemma StepKeepsInv(s: State, step: Step)
    requires Inv(s) && Enabled(s, step)
    ensures Inv(Apply(s, step))
  {
    StepKeepsThreads(s, step);
    forall t: nat ensures Kept(Apply(s, step), t) {
      hide Threads, Apply, Kept, Enabled;
      match step
      case Post(p, x) => PostKeeps(s, p, x, t);
      case Choose(p) => ChooseKeeps(s, p, t);
      case Assign(p) => AssignKeeps(s, p, t);
      case Signal(p) => SignalKeeps(s, p, t);
      case Enqueue(p) => EnqueueKeeps(s, p, t);
      case Perform(w) => PerformKeeps(s, w, t);
      case PushFinished(w) => PushFinishedKeeps(s, w, t);
      case Fetch(w) => FetchKeeps(s, w, t);
      case Swap => UpdateKeeps(s, step, t);
      case Deliver => UpdateKeeps(s, step, t);
      case _ => LoopKeeps(s, step, t);
    }
  }

  lemma {:induction false} NothingWithWorkers(ws: seq<Worker>, t: nat)
    requires forall w | 0 <= w < |ws| :: ws[w] == RESTING
    ensures Held(ws, t) == 0 && Done(ws, t) == 0
  {
    if ws != [] {
      NothingWithWorkers(ws[..|ws| - 1], t);
    }
  }

  lemma {:induction false} NothingWithPosters(ps: seq<PosterPc>, t: nat)
    requires forall p | 0 <= p < |ps| :: ps[p] == Away
    ensures Handed(ps, t) == 0
  {
    if ps != [] {
      NothingWithPosters(ps[..|ps| - 1], t);
    }
  }

  lemma {:induction false} CountingUp(n: nat, w: nat)
    ensures multiset(seq(n, i => i))[w] == if w < n then 1 else 0
  {
    if n > 0 {
      assert seq(n, i => i) == seq(n - 1, i => i) + [n - 1];
      CountingUp(n - 1, w);
    }
  }

  lemma InitHasInv(s: State)
    requires Init(s)
    ensures Inv(s)
  {
    forall t: nat ensures Kept(s, t) {
      NothingWithWorkers(s.workers, t);
      NothingWithPosters(s.posters, t);
    }
    forall w: nat ensures multiset(s.idle)[w] == if w < |s.workers| then 1 else 0 {
      CountingUp(|s.workers|, w);
    }
    forall w | 0 <= w < |s.workers| ensures w in s.idle {
      assert s.idle[w] == w;
    }
  }

  ghost predicate IsRun(run: seq<State>, steps: seq<Step>) {
    && |run| == |steps| + 1 && Init(run[0])
    && forall k | 0 <= k < |steps| :: Enabled(run[k], steps[k]) && run[k + 1] == Apply(run[k], steps[k])
  }

  /** Every interleaving keeps the invariant. */
  lemma {:induction false} RunKeepsInv(run: seq<State>, steps: seq<Step>, k: nat)
    requires IsRun(run, steps) && k < |run|
    ensures Inv(run[k])
  {
    hide Inv, Apply, Enabled;
    if k == 0 {
      InitHasInv(run[0]);
    } else {
      RunKeepsInv(run, steps, k - 1);
      StepKeepsInv(run[k - 1], steps[k - 1]);
    }
  }

  lemma InOf(s: seq<nat>, t: nat)
    ensures In(s, t) > 0 <==> t in s
  {
  }

  /** In every state of every interleaving: a posted task is in exactly one place; it
      is performed once before it is delivered and never twice; a worker is idle or
      busy and not both; and a worker that is given a task has none. */
  lemma EveryRun(run: seq<State>, steps: seq<Step>, k: nat)
    requires IsRun(run, steps) && k < |run|
    ensures forall t: nat :: Places(run[k], t) == if t in run[k].posted then 1 else 0
    ensures forall t: nat | t in run[k].delivered :: run[k].performed[t] == 1
    ensures forall t: nat :: run[k].performed[t] <= 1
    ensures forall w: nat | w < |run[k].workers| :: (w in run[k].idle) != (w in run[k].busy)
    ensures forall w: nat | w in run[k].idle :: w < |run[k].workers| && run[k].workers[w].task == None
    ensures k < |steps| && steps[k].Assign? ==> run[k].workers[run[k].posters[steps[k].p].w].task == None
    ensures k < |steps| && steps[k].TakeOver? ==> run[k].workers[steps[k].w].task == None
  {
    RunKeepsInv(run, steps, k);
    var s := run[k];
    forall t: nat ensures Places(s, t) == if t in s.posted then 1 else 0 {
      assert Kept(s, t);
    }
    forall t: nat ensures s.performed[t] <= 1 && (t in s.delivered ==> s.performed[t] == 1) {
      PerformedOnce(s, t);
    }
    forall w: nat | w < |s.workers| ensures (w in s.idle) != (w in s.busy) {
      assert multiset(s.idle)[w] + multiset(s.busy)[w] == if w < |s.workers| then 1 else 0;
      InOf(s.idle, w);
      InOf(s.busy, w);
    }
    if k < |steps| {
      GivenNothingBefore(s, steps[k]);
    }
  }

  lemma {:induction false} DoneIsHeld(ws: seq<Worker>, t: nat)
    ensures Done(ws, t) <= Held(ws, t)
  {
    if ws != [] {
      DoneIsHeld(ws[..|ws| - 1], t);
    }
  }

  lemma PerformedOnce(s: State, t: nat)
    requires Inv(s)
    ensures s.performed[t] <= 1 && (t in s.delivered ==> s.performed[t] == 1)
  {
    assert Kept(s, t);
    DoneIsHeld(s.workers, t);
    InOf(s.delivered, t);
  }

  lemma GivenNothingBefore(s: State, step: Step)
    requires Threads(s) && Enabled(s, step)
    ensures step.Assign? ==> s.workers[s.posters[step.p].w].task == None
    ensures step.TakeOver? ==> s.workers[step.w].task == None
  {
    if step.Assign? {
      assert Serves(s, step.p);
    }
    if step.TakeOver? {
      assert Shape(s.workers[step.w]);
    }
  }

  /** What is not promised: when the last worker retires between a poster's look at the
      idle workers and its entry into the queue, the task waits beside an idle worker. */
  lemma TaskMayWaitBesideIdleWorker(s: State, p: nat, w: nat)
    requires Threads(s) && Enabled(s, Retire(w)) && Enabled(s, Enqueue(p))
    ensures Enabled(Apply(s, Retire(w)), Enqueue(p))
    ensures var after := Apply(Apply(s, Retire(w)), Enqueue(p));
      s.posters[p].q in after.waiting && w in after.idle && after.posters[p] == Away
  {
    RetiringIsBusy(s, w);
  }
}
