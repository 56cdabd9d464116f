/** What the worker pool gets done: waiting tasks are taken in the order they came, results
    come back in the order the tasks were finished, and working workers empty the queue. */
module TaskProgress {
  import opened Wrappers
  import opened TaskPool

  // ---------------------------------------------------------------- one step

  /** A worker comes to retire only from a look that found no task waiting. */
  lemma RetiresFromEmptyQueue(s: State, step: Step, w: nat)
    requires Enabled(s, step) && At(Apply(s, step), w, Retiring) && !At(s, w, Retiring)
    ensures step == Fetch(w) && s.waiting == []
  {
    hide RemoveFirst;
  }

  /** A poster lets a task wait only when it finds no idle worker; otherwise the worker that became
      idle last is to have it. */
  lemma WaitsWithoutIdleWorker(s: State, step: Step, p: nat)
    requires Enabled(s, step) && p < |s.posters|
    ensures var s' := Apply(s, step);
      && |s'.posters| == |s.posters|
      && (s'.posters[p].Queueing? && !s.posters[p].Queueing? ==>
            step == Choose(p) && s.idle == [] && s.posters[p] == Holding(s'.posters[p].q))
      && (s'.posters[p].Giving? && !s.posters[p].Giving? ==>
            step == Choose(p) && s.idle == s'.idle + [s'.posters[p].w] && s.posters[p] == Holding(s'.posters[p].g))
  {
    hide RemoveFirst;
  }

  /** The task that enters the queue in a step, and the one that leaves it. */
  function Entering(s: State, step: Step): seq<nat>
    requires Enabled(s, step)
  {
    if step.Enqueue? then [s.posters[step.p].q] else []
  }

  /** A task leaves the queue only into the hands of a worker. */
  ghost predicate Leaving(s: State, s': State, taken: seq<nat>) {
    taken == [] || (|taken| == 1 && exists w: nat :: w < |s'.workers| && s'.workers[w].pc == Taking(taken[0])
                                                       && At(s, w, Fetching))
  }

  /** The queue is one: tasks enter at its end and leave at its front. */
  lemma QueueStep(s: State, step: Step) returns (taken: seq<nat>)
    requires Enabled(s, step)
    ensures s.waiting + Entering(s, step) == taken + Apply(s, step).waiting
    ensures Leaving(s, Apply(s, step), taken)
  {
    hide RemoveFirst;
    taken := if step.Fetch? && s.waiting != [] then [s.waiting[0]] else [];
    if step.Fetch? && s.waiting != [] {
      assert s.waiting == [s.waiting[0]] + s.waiting[1..];
      assert Apply(s, step).workers[step.w].pc == Taking(taken[0]);
    }
  }

  /** Results on their way back, first the first. */
  function Results(s: State): seq<nat> {
    s.delivered + s.delivering + s.finished
  }

  /** Results come back in the order in which the workers finished. */
  lemma ResultStep(s: State, step: Step)
    requires Enabled(s, step)
    ensures Results(Apply(s, step)) ==
      if step.PushFinished? then Results(s) + [s.workers[step.w].task.value] else Results(s)
    ensures s.delivered <= Apply(s, step).delivered
  {
    hide RemoveFirst;
    if step == Deliver {
      FirstMoves(s.delivered, s.delivering);
    } else if step == Swap {
      assert s.delivering == [] && Apply(s, step) == s.(delivering := s.finished, finished := []);
    } else {
      ListsStay(s, step);
    }
  }

  lemma FirstMoves(a: seq<nat>, b: seq<nat>)
    requires b != []
    ensures (a + [b[0]]) + b[1..] == a + b
  {
  }

  lemma ListsStay(s: State, step: Step)
    requires Enabled(s, step) && step != Deliver && step != Swap
    ensures Apply(s, step).delivered == s.delivered && Apply(s, step).delivering == s.delivering
    ensures Apply(s, step).finished ==
      if step.PushFinished? then s.finished + [s.workers[step.w].task.value] else s.finished
  {
    hide RemoveFirst;
  }

  // ---------------------------------------------------------------- any run

  /** The tasks that entered the queue in the first `k` steps, in that order. */
  ghost function Entered(run: seq<State>, steps: seq<Step>, k: nat): seq<nat>
    requires IsRun(run, steps) && k <= |steps|
  {
    if k == 0 then [] else Entered(run, steps, k - 1) + Entering(run[k - 1], steps[k - 1])
  }

  /** A task a worker has taken from the queue. */
  ghost predicate Taken(run: seq<State>, t: nat, k: nat) {
    exists j, w: nat :: 0 < j <= k < |run| && w < |run[j].workers| && run[j].workers[w].pc == Taking(t)
  }

  /** Waiting tasks leave the queue in the order they came, each into a worker's hands: those that
      entered it are those taken, in that order, and those still waiting. */
  lemma {:induction false} FirstComeFirstServed(run: seq<State>, steps: seq<Step>, k: nat) returns (taken: seq<nat>)
    requires IsRun(run, steps) && k <= |steps|
    ensures Entered(run, steps, k) == taken + run[k].waiting
    ensures forall i | 0 <= i < |taken| :: Taken(run, taken[i], k)
  {
    hide Apply, Enabled;
    if k == 0 {
      taken := [];
    } else {
      var before := FirstComeFirstServed(run, steps, k - 1);
      var now := QueueStep(run[k - 1], steps[k - 1]);
      taken := before + now;
      Shifted(before, run[k - 1].waiting, Entering(run[k - 1], steps[k - 1]), now, run[k].waiting);
      hide Entering;
      forall i | 0 <= i < |taken| ensures Taken(run, taken[i], k) {
        if i < |before| {
          assert Taken(run, before[i], k - 1);
          var j, w: nat :| 0 < j <= k - 1 && w < |run[j].workers| && run[j].workers[w].pc == Taking(before[i]);
          assert run[j].workers[w].pc == Taking(taken[i]);
        } else {
          var w: nat :| w < |run[k].workers| && run[k].workers[w].pc == Taking(now[0]);
          assert run[k].workers[w].pc == Taking(taken[i]);
        }
      }
    }
  }

  lemma Shifted(a: seq<nat>, b: seq<nat>, c: seq<nat>, d: seq<nat>, e: seq<nat>)
    requires b + c == d + e
    ensures (a + b) + c == (a + d) + e
  {
    assert (a + b) + c == a + (b + c);
  }

  // ---------------------------------------------------------------- workers alone

  predicate OfWorker(step: Step) {
    IsLoopStep(step) || step.Retire?
  }

  /** The steps can be made one after the other, all of them by workers. */
  ghost predicate CanWork(s: State, steps: seq<Step>)
    decreases |steps|
  {
    steps == [] || (OfWorker(steps[0]) && Enabled(s, steps[0]) && CanWork(Apply(s, steps[0]), steps[1..]))
  }

  ghost function Worked(s: State, steps: seq<Step>): State
    requires CanWork(s, steps)
    decreases |steps|
  {
    if steps == [] then s else Worked(Apply(s, steps[0]), steps[1..])
  }

  lemma {:induction false} WorkOn(s: State, a: seq<Step>, b: seq<Step>)
    requires CanWork(s, a) && CanWork(Worked(s, a), b)
    ensures CanWork(s, a + b) && Worked(s, a + b) == Worked(Worked(s, a), b)
    decreases |a|
  {
    hide Apply, Enabled, OfWorker;
    if a == [] {
      assert a + b == b;
    } else {
      assert (a + b)[0] == a[0] && (a + b)[1..] == a[1..] + b;
      WorkOn(Apply(s, a[0]), a[1..], b);
    }
  }

  /** A worker that will look into the queue again: it has a task or is about to look. */
  predicate Working(s: State, w: nat) {
    w < |s.workers| && !AtRest(s.workers[w]) && s.workers[w].pc != Retiring
  }

  /** The task a worker is still to perform. */
  function ToPerform(w: Worker): Option<nat> {
    match w.pc
    case Taking(t) => Some(t)
    case Signalling => w.task
    case Waiting => w.task
    case Woken => w.task
    case Performing => w.task
    case _ => None
  }

  /** How many steps a worker is from its next look into the queue. */
  function Distance(pc: WorkerPc): nat {
    match pc
    case Taking(_) => 7
    case Signalling => 6
    case Waiting => 5
    case Woken => 4
    case Performing => 3
    case Finishing => 2
    case Clearing => 1
    case _ => 0
  }

  function NextStep(pc: WorkerPc, w: nat): Step {
    match pc
    case Taking(_) => TakeOver(w)
    case Signalling => SignalSelf(w)
    case Waiting => Wake(w)
    case Woken => Look(w)
    case Performing => Perform(w)
    case Finishing => PushFinished(w)
    case _ => Clear(w)
  }

  lemma OneStepCloser(s: State, w: nat)
    requires Threads(s) && Working(s, w) && s.workers[w].pc != Fetching
    ensures var step := NextStep(s.workers[w].pc, w);
      && OfWorker(step) && Enabled(s, step)
      && var s' := Apply(s, step);
        && Working(s', w) && Distance(s'.workers[w].pc) < Distance(s.workers[w].pc) && s'.waiting == s.waiting
        && s.performed <= s'.performed
        && (ToPerform(s.workers[w]).Some? ==>
              ToPerform(s'.workers[w]) == ToPerform(s.workers[w]) || s'.performed[ToPerform(s.workers[w]).value] > 0)
  {
    assert Shape(s.workers[w]);
    hide Threads, RemoveFirst;
  }

  /** A working worker performs its task and comes to look into the queue. */
  lemma {:induction false} ComesToLook(s: State, w: nat) returns (steps: seq<Step>)
    requires Threads(s) && Working(s, w)
    ensures CanWork(s, steps)
    ensures var s' := Worked(s, steps);
      && Threads(s') && At(s', w, Fetching) && s'.waiting == s.waiting && s.performed <= s'.performed
      && (ToPerform(s.workers[w]).Some? ==> s'.performed[ToPerform(s.workers[w]).value] > 0)
    decreases Distance(s.workers[w].pc)
  {
    if s.workers[w].pc == Fetching {
      steps := [];
    } else {
      var step := NextStep(s.workers[w].pc, w);
      OneStepCloser(s, w);
      StepKeepsThreads(s, step);
      hide Threads, Apply, Enabled, NextStep;
      var rest := ComesToLook(Apply(s, step), w);
      steps := [step] + rest;
      assert steps[0] == step && steps[1..] == rest;
    }
  }

  lemma TakesFirst(s: State, w: nat)
    requires Threads(s) && At(s, w, Fetching) && s.waiting != []
    ensures Enabled(s, Fetch(w)) && Threads(Apply(s, Fetch(w)))
    ensures var s' := Apply(s, Fetch(w));
      && Working(s', w) && s'.waiting == s.waiting[1..] && s'.performed == s.performed
      && ToPerform(s'.workers[w]) == Some(s.waiting[0])
  {
    StepKeepsThreads(s, Fetch(w));
    hide Threads;
  }

  lemma ThenWork(s: State, a: seq<Step>, step: Step, b: seq<Step>)
    requires CanWork(s, a) && OfWorker(step) && Enabled(Worked(s, a), step) && CanWork(Apply(Worked(s, a), step), b)
    ensures CanWork(s, a + ([step] + b)) && Worked(s, a + ([step] + b)) == Worked(Apply(Worked(s, a), step), b)
  {
    hide Apply, Enabled;
    assert ([step] + b)[1..] == b;
    WorkOn(s, a, [step] + b);
  }

  /** Nothing waits any more, and the worker's own task and all that waited are performed. */
  ghost predicate AllDone(s: State, mine: Option<nat>, s': State) {
    && s'.waiting == [] && s.performed <= s'.performed && (mine.Some? ==> s'.performed[mine.value] > 0)
    && forall t | t in s.waiting :: s'.performed[t] > 0
  }

  lemma AllDoneNext(s: State, mine: Option<nat>, looking: State, taken: State, s': State)
    requires looking.waiting == s.waiting != [] && s.performed <= looking.performed
    requires mine.Some? ==> looking.performed[mine.value] > 0
    requires taken.waiting == s.waiting[1..] && taken.performed == looking.performed
    requires AllDone(taken, Some(s.waiting[0]), s')
    ensures AllDone(s, mine, s')
  {
    assert s.waiting == [s.waiting[0]] + s.waiting[1..];
  }

  /** One working worker alone empties the queue. */
  lemma {:induction false} EmptiesQueue(s: State, w: nat) returns (steps: seq<Step>)
    requires Threads(s) && Working(s, w)
    ensures CanWork(s, steps) && AllDone(s, ToPerform(s.workers[w]), Worked(s, steps))
    decreases |s.waiting|
  {
    var first := ComesToLook(s, w);
    var looking := Worked(s, first);
    if s.waiting == [] {
      steps := first;
    } else {
      TakesFirst(looking, w);
      hide Threads, Apply, Enabled, CanWork, Worked, Working, ToPerform, AllDone;
      var taken := Apply(looking, Fetch(w));
      var rest := EmptiesQueue(taken, w);
      ThenWork(s, first, Fetch(w), rest);
      steps := first + ([Fetch(w)] + rest);
      AllDoneNext(s, ToPerform(s.workers[w]), looking, taken, Worked(taken, rest));
    }
  }

  lemma {:induction false} NobodyWorks(s: State, steps: seq<Step>)
    requires Threads(s) && CanWork(s, steps) && forall w: nat :: !Working(s, w)
    ensures Worked(s, steps).waiting == s.waiting
    decreases |steps|
  {
    if steps != [] {
      OnlyRetires(s, steps[0]);
      StepKeepsThreads(s, steps[0]);
      hide Threads, Apply, Enabled, Working;
      NobodyWorks(Apply(s, steps[0]), steps[1..]);
    }
  }

  lemma OnlyRetires(s: State, step: Step)
    requires Threads(s) && OfWorker(step) && Enabled(s, step) && forall w: nat :: !Working(s, w)
    ensures Apply(s, step).waiting == s.waiting && forall w: nat :: !Working(Apply(s, step), w)
  {
    assert Shape(s.workers[step.w]);
    assert !Working(s, step.w);
    var s' := Apply(s, step);
    assert AtRest(s'.workers[step.w]) by {
      hide Threads, RemoveFirst;
    }
    hide Threads, Shape, RemoveFirst;
    forall w: nat ensures !Working(s', w) {
      assert !Working(s, w);
    }
  }

  /** The workers alone can empty the queue exactly when it is empty or someone works; a worker
      that is about to retire does not look again. */
  lemma WorkersEmptyQueueExactlyWhen(s: State)
    requires Threads(s)
    ensures (exists steps :: CanWork(s, steps) && Worked(s, steps).waiting == []) <==>
      s.waiting == [] || exists w: nat :: Working(s, w)
  {
    hide Threads, Working;
    if s.waiting == [] {
      CanEmpty(s, []);
    } else if w: nat :| Working(s, w) {
      var steps := EmptiesQueue(s, w);
      CanEmpty(s, steps);
    } else {
      forall steps | CanWork(s, steps) ensures Worked(s, steps).waiting != [] {
        NobodyWorks(s, steps);
      }
    }
  }

  lemma CanEmpty(s: State, steps: seq<Step>)
    requires CanWork(s, steps) && Worked(s, steps).waiting == []
    ensures exists steps :: CanWork(s, steps) && Worked(s, steps).waiting == []
  {
  }

  lemma {:induction false} WorkKeepsInv(s: State, steps: seq<Step>)
    requires Inv(s) && CanWork(s, steps)
    ensures Inv(Worked(s, steps))
    decreases |steps|
  {
    if steps != [] {
      StepKeepsInv(s, steps[0]);
      hide Inv, Apply, Enabled;
      WorkKeepsInv(Apply(s, steps[0]), steps[1..]);
    }
  }

  /** From every state of every interleaving in which someone works there are steps of workers
      alone after which nothing waits, and every task that waited was performed, once. */
  lemma WaitingTasksGetDone(run: seq<State>, steps: seq<Step>, k: nat, w: nat) returns (work: seq<Step>)
    requires IsRun(run, steps) && k < |run| && Working(run[k], w)
    ensures CanWork(run[k], work)
    ensures var s := Worked(run[k], work);
      s.waiting == [] && forall t | t in run[k].waiting :: s.performed[t] == 1
  {
    RunKeepsInv(run, steps, k);
    work := EmptiesQueue(run[k], w);
    WorkKeepsInv(run[k], work);
    var s := Worked(run[k], work);
    forall t | t in run[k].waiting ensures s.performed[t] == 1 {
      PerformedOnce(s, t);
    }
  }
}
