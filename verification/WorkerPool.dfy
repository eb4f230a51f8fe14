/** The bounded pool of workers fed by a priority queue (`worker_pool.py`).
    Tasks are numbered in the order they were submitted. */
module WorkerPool {
  import opened Common

  datatype Outcome = Value(v: int) | Failure(message: string)

  /** `Dropped` is a task whose worker was cancelled under it: the worker loop
      catches only `Exception`, so its future is never resolved. */
  datatype Stage = Pending | Running | Finished(outcome: Outcome) | Dropped

  datatype Future = Waiting | Resolved(outcome: Outcome) | CancelledByCaller

  datatype Task = Task(priority: int, stage: Stage, future: Future)

  // _QueuedTask.sort_key
  function SortKey(priority: int, id: nat): (int, int) { (-priority, id) }

  predicate Before(a: (int, int), b: (int, int)) {
    a.0 < b.0 || (a.0 == b.0 && a.1 < b.1)
  }

  /** `workers` is the number of live worker loops, `dispatched` the tasks in
      the order workers took them off the queue. */
  datatype System = System(maxWorkers: nat, started: bool, workers: nat, active: int,
                           tasks: seq<Task>, dispatched: seq<nat>)

  datatype Action =
    | Submit(priority: int)
    | Dispatch(t: nat)
    | Finish(t: nat, outcome: Outcome)
    | GiveUp(t: nat)     // the submitting caller is cancelled while awaiting its future
    | Die(t: nat)        // the task ends in cancellation, which also ends its worker
    | Shutdown

  predicate IsPending(s: System, t: nat) {
    t < |s.tasks| && s.tasks[t].stage.Pending?
  }

  function KeyOf(s: System, t: nat): (int, int)
    requires t < |s.tasks|
  {
    SortKey(s.tasks[t].priority, t)
  }

  // t is at the front of the priority queue.
  predicate IsFirst(s: System, t: nat) {
    IsPending(s, t) && forall u :: 0 <= u < |s.tasks| && u != t && IsPending(s, u) ==> Before(KeyOf(s, t), KeyOf(s, u))
  }

  predicate Enabled(s: System, a: Action) {
    match a
    case Submit(_) => true
    case Dispatch(t) => IsFirst(s, t) && CountRunning(s.tasks) < s.workers
    case Finish(t, _) => t < |s.tasks| && s.tasks[t].stage.Running?
    case GiveUp(t) => t < |s.tasks| && s.tasks[t].future.Waiting?
    case Die(t) => t < |s.tasks| && s.tasks[t].stage.Running?
    case Shutdown => true
  }

  function Drop(tasks: seq<Task>): (r: seq<Task>)
    ensures |r| == |tasks|
    ensures forall i :: 0 <= i < |tasks| ==>
                          r[i] == if tasks[i].stage.Running? then tasks[i].(stage := Dropped) else tasks[i]
  {
    seq(|tasks|, i requires 0 <= i < |tasks| =>
      if tasks[i].stage.Running? then tasks[i].(stage := Dropped) else tasks[i])
  }

  function Next(s: System, a: Action): System
    requires Enabled(s, a)
  {
    match a
    case Submit(p) =>
      s.(started := true, workers := if s.started then s.workers else s.maxWorkers,
         tasks := s.tasks + [Task(p, Pending, Waiting)])
    case Dispatch(t) =>
      s.(active := s.active + 1, tasks := s.tasks[t := s.tasks[t].(stage := Running)], dispatched := s.dispatched + [t])
    case Finish(t, o) =>
      var future := if s.tasks[t].future.Waiting? then Resolved(o) else s.tasks[t].future;
      s.(active := s.active - 1, tasks := s.tasks[t := s.tasks[t].(stage := Finished(o), future := future)])
    case GiveUp(t) => s.(tasks := s.tasks[t := s.tasks[t].(future := CancelledByCaller)])
    case Die(t) =>
      s.(active := s.active - 1, workers := if s.workers == 0 then 0 else s.workers - 1,
         tasks := s.tasks[t := s.tasks[t].(stage := Dropped)])
    case Shutdown => s.(started := false, workers := 0, active := 0, tasks := Drop(s.tasks))
  }

  // Counted from the stages themselves, not from the pool's own counter.
  function CountRunning(tasks: seq<Task>): nat {
    if tasks == [] then 0
    else CountRunning(tasks[..|tasks| - 1]) + if tasks[|tasks| - 1].stage.Running? then 1 else 0
  }

  lemma {:induction false} CountUpdate(tasks: seq<Task>, i: nat, t: Task)
    requires i < |tasks|
    ensures CountRunning(tasks[i := t]) ==
            CountRunning(tasks) + (if t.stage.Running? then 1 else 0) - (if tasks[i].stage.Running? then 1 else 0)
  {
    var n := |tasks| - 1;
    if i < n {
      CountUpdate(tasks[..n], i, t);
      assert tasks[i := t][..n] == tasks[..n][i := t];
    } else {
      assert tasks[i := t][..n] == tasks[..n];
    }
  }

  lemma {:induction false} CountDropped(tasks: seq<Task>)
    ensures CountRunning(Drop(tasks)) == 0
  {
    if tasks != [] {
      assert Drop(tasks)[..|tasks| - 1] == Drop(tasks[..|tasks| - 1]);
      CountDropped(tasks[..|tasks| - 1]);
    }
  }

  predicate Step(s: System, a: Action, t: System) {
    Enabled(s, a) && t == Next(s, a)
  }

  predicate Run(maxWorkers: nat, states: seq<System>, acts: seq<Action>) {
    && |states| == |acts| + 1 && states[0] == System(maxWorkers, false, 0, 0, [], [])
    && forall k :: 0 <= k < |acts| ==> Step(states[k], acts[k], states[k + 1])
  }

  ghost predicate CapacityInv(s: System) {
    && s.active == CountRunning(s.tasks) <= s.workers <= s.maxWorkers
    && (!s.started ==> s.workers == 0)
  }

  // A future carries the outcome of its own task and of no other.
  predicate FutureOk(t: Task) {
    && (t.future.Resolved? ==> t.stage == Finished(t.future.outcome))
    && (t.stage.Finished? ==> t.future == Resolved(t.stage.outcome) || t.future.CancelledByCaller?)
  }

  ghost predicate QueueInv(s: System) {
    && (forall t :: 0 <= t < |s.tasks| ==> FutureOk(s.tasks[t]))
    && (forall k :: 0 <= k < |s.dispatched| ==> s.dispatched[k] < |s.tasks| && !IsPending(s, s.dispatched[k]))
    && (forall t :: 0 <= t < |s.tasks| && !IsPending(s, t) ==> t in s.dispatched)
    && (forall k, l :: 0 <= k < l < |s.dispatched| ==> s.dispatched[k] != s.dispatched[l])
  }

  lemma CapacityStep(s: System, a: Action)
    requires CapacityInv(s) && Enabled(s, a)
    ensures CapacityInv(Next(s, a))
  {
    match a
    case Submit(p) =>
      assert (s.tasks + [Task(p, Pending, Waiting)])[..|s.tasks|] == s.tasks;
    case Shutdown =>
      CountDropped(s.tasks);
    case Dispatch(t) =>
      CountUpdate(s.tasks, t, s.tasks[t].(stage := Running));
    case Finish(t, o) =>
      CountUpdate(s.tasks, t, Next(s, a).tasks[t]);
    case GiveUp(t) =>
      CountUpdate(s.tasks, t, s.tasks[t].(future := CancelledByCaller));
    case Die(t) =>
      CountUpdate(s.tasks, t, s.tasks[t].(stage := Dropped));
  }

  lemma QueueStep(s: System, a: Action)
    requires QueueInv(s) && Enabled(s, a)
    ensures QueueInv(Next(s, a))
  {
    var t := Next(s, a);
    forall u | 0 <= u < |t.tasks| && !IsPending(t, u)
      ensures u in t.dispatched
    {
      assert u < |s.tasks| && (!IsPending(s, u) || a == Dispatch(u));
    }
  }

  lemma {:induction false} RunInv(maxWorkers: nat, states: seq<System>, acts: seq<Action>, n: nat)
    requires Run(maxWorkers, states, acts) && n < |states|
    ensures CapacityInv(states[n]) && QueueInv(states[n]) && states[n].maxWorkers == maxWorkers
  {
    if n > 0 {
      RunInv(maxWorkers, states, acts, n - 1);
      assert Step(states[n - 1], acts[n - 1], states[n]);
      CapacityStep(states[n - 1], acts[n - 1]);
      QueueStep(states[n - 1], acts[n - 1]);
    }
  }

  // The priorities asked for, in the order of submission.
  function Submitted(acts: seq<Action>): seq<int> {
    if acts == [] then []
    else
      var rest := Submitted(acts[..|acts| - 1]);
      match acts[|acts| - 1]
      case Submit(p) => rest + [p]
      case _ => rest
  }

  /** Live workers as the actions tell it: all of them from the first submission
      on, less one for each task that has died since; none after a shutdown. */
  function LiveWorkers(maxWorkers: nat, acts: seq<Action>): (bool, int) {
    if acts == [] then (false, 0)
    else
      var (started, live) := LiveWorkers(maxWorkers, acts[..|acts| - 1]);
      match acts[|acts| - 1]
      case Submit(_) => if started then (true, live) else (true, maxWorkers)
      case Die(_) => (started, live - 1)
      case Shutdown => (false, 0)
      case _ => (started, live)
  }

  // What task t has come to is told by the actions so far.
  ghost predicate Told(s: System, acts: seq<Action>, t: nat)
    requires t < |s.tasks|
  {
    var task := s.tasks[t];
    && (task.future.CancelledByCaller? <==> GiveUp(t) in acts)
    && (forall o :: task.stage == Finished(o) <==> Finish(t, o) in acts)
    && (forall o :: task.future == Resolved(o) <==> Finish(t, o) in acts && GiveUp(t) !in acts)
  }

  ghost predicate TasksTold(s: System, acts: seq<Action>) {
    && (forall t :: 0 <= t < |s.tasks| ==> Told(s, acts, t))
    && (forall t: nat :: |s.tasks| <= t ==> GiveUp(t) !in acts)
    && (forall t: nat, o :: |s.tasks| <= t ==> Finish(t, o) !in acts)
  }

  ghost predicate PoolTold(s: System, acts: seq<Action>) {
    && |Submitted(acts)| == |s.tasks| && (forall t :: 0 <= t < |s.tasks| ==> s.tasks[t].priority == Submitted(acts)[t])
    && LiveWorkers(s.maxWorkers, acts) == (s.started, s.workers)
  }

  lemma TasksToldStep(s: System, a: Action, acts: seq<Action>)
    requires Enabled(s, a) && TasksTold(s, acts)
    ensures TasksTold(Next(s, a), acts + [a])
  {
    var t := Next(s, a);
    forall u | 0 <= u < |t.tasks|
      ensures Told(t, acts + [a], u)
    {
      assert u < |s.tasks| ==> Told(s, acts, u);
    }
  }

  lemma PoolToldStep(s: System, a: Action, acts: seq<Action>)
    requires Enabled(s, a) && CapacityInv(s) && PoolTold(s, acts)
    ensures PoolTold(Next(s, a), acts + [a])
  {
    assert (acts + [a])[..|acts|] == acts;
    if a.Die? {
      RunningCounts(s.tasks, a.t);
    }
  }

  lemma {:induction false} RunningCounts(tasks: seq<Task>, t: nat)
    requires t < |tasks| && tasks[t].stage.Running?
    ensures 0 < CountRunning(tasks)
  {
    if t < |tasks| - 1 {
      RunningCounts(tasks[..|tasks| - 1], t);
    }
  }

  lemma {:induction false} RunTold(maxWorkers: nat, states: seq<System>, acts: seq<Action>, n: nat)
    requires Run(maxWorkers, states, acts) && n < |states|
    ensures TasksTold(states[n], acts[..n]) && PoolTold(states[n], acts[..n])
  {
    if n > 0 {
      RunTold(maxWorkers, states, acts, n - 1);
      RunInv(maxWorkers, states, acts, n - 1);
      assert Step(states[n - 1], acts[n - 1], states[n]);
      TasksToldStep(states[n - 1], acts[n - 1], acts[..n - 1]);
      PoolToldStep(states[n - 1], acts[n - 1], acts[..n - 1]);
      assert acts[..n] == acts[..n - 1] + [acts[n - 1]];
    }
  }

  /** In every run, told by the actions alone: a task has finished with an outcome
      exactly if it was so settled; its future holds that outcome unless its
      caller gave up, and is cancelled only then. */
  lemma FutureIff(maxWorkers: nat, states: seq<System>, acts: seq<Action>, n: nat, t: nat, o: Outcome)
    requires Run(maxWorkers, states, acts) && n < |states| && t < |states[n].tasks|
    ensures states[n].tasks[t].stage == Finished(o) <==> Finish(t, o) in acts[..n]
    ensures states[n].tasks[t].future == Resolved(o) <==> Finish(t, o) in acts[..n] && GiveUp(t) !in acts[..n]
    ensures states[n].tasks[t].future.CancelledByCaller? <==> GiveUp(t) in acts[..n]
  {
    RunTold(maxWorkers, states, acts, n);
    assert Told(states[n], acts[..n], t);
  }

  /** The active count is the number of running tasks and never exceeds the
      limit; a task is pending exactly until it is taken off the queue, which
      happens once; a resolved future holds its own task's outcome. */
  lemma PoolSafety(maxWorkers: nat, states: seq<System>, acts: seq<Action>, n: nat)
    requires Run(maxWorkers, states, acts) && n < |states|
    ensures states[n].active == CountRunning(states[n].tasks) <= maxWorkers
    ensures forall t | 0 <= t < |states[n].tasks| :: IsPending(states[n], t) <==> t !in states[n].dispatched
    ensures forall k, l | 0 <= k < l < |states[n].dispatched| :: states[n].dispatched[k] != states[n].dispatched[l]
    ensures forall t | 0 <= t < |states[n].tasks| && states[n].tasks[t].future.Resolved? ::
              states[n].tasks[t].stage == Finished(states[n].tasks[t].future.outcome)
  {
    RunInv(maxWorkers, states, acts, n);
    assert forall t :: 0 <= t < |states[n].tasks| ==> FutureOk(states[n].tasks[t]);
  }

  /** A future that has been resolved, or given up, never changes again. */
  lemma {:induction false} FuturesSettleOnce(maxWorkers: nat, states: seq<System>, acts: seq<Action>, m: nat, n: nat, t: nat)
    requires Run(maxWorkers, states, acts) && m <= n < |states|
    requires t < |states[m].tasks| && !states[m].tasks[t].future.Waiting?
    ensures t < |states[n].tasks| && states[n].tasks[t].future == states[m].tasks[t].future
    decreases n - m
  {
    if m < n {
      FuturesSettleOnce(maxWorkers, states, acts, m, n - 1, t);
      assert Step(states[n - 1], acts[n - 1], states[n]);
    }
  }

  // b left the queue only after a did.
  ghost predicate InTurn(s: System, a: nat, b: nat) {
    && a < |s.tasks| && b < |s.tasks|
    && (IsPending(s, b) || exists k, l :: 0 <= k < l < |s.dispatched| && s.dispatched[k] == a && s.dispatched[l] == b)
  }

  lemma KeysStay(s: System, x: Action, a: nat)
    requires a < |s.tasks| && Enabled(s, x)
    ensures a < |Next(s, x).tasks| && KeyOf(Next(s, x), a) == KeyOf(s, a)
    ensures IsPending(Next(s, x), a) <==> IsPending(s, a) && x != Dispatch(a)
  {
  }

  lemma TurnStep(s: System, x: Action, a: nat, b: nat)
    requires QueueInv(s) && InTurn(s, a, b) && Before(KeyOf(s, a), KeyOf(s, b)) && Enabled(s, x)
    ensures InTurn(Next(s, x), a, b)
    ensures Before(KeyOf(Next(s, x), a), KeyOf(Next(s, x), b))
  {
    var t := Next(s, x);
    KeysStay(s, x, a);
    KeysStay(s, x, b);
    if !IsPending(s, b) {
      var k, l :| 0 <= k < l < |s.dispatched| && s.dispatched[k] == a && s.dispatched[l] == b;
      assert t.dispatched[k] == a && t.dispatched[l] == b;
    } else if x == Dispatch(b) {
      TurnComes(s, a, b);
    }
  }

  // b is taken off the queue only when a no longer waits before it.
  lemma TurnComes(s: System, a: nat, b: nat)
    requires QueueInv(s) && a < |s.tasks| && IsFirst(s, b) && Before(KeyOf(s, a), KeyOf(s, b))
    ensures exists k :: 0 <= k < |s.dispatched| && s.dispatched[k] == a
    ensures var d := s.dispatched + [b];
            exists k, l :: 0 <= k < l < |d| && d[k] == a && d[l] == b
  {
    assert !IsPending(s, a);
    var k :| 0 <= k < |s.dispatched| && s.dispatched[k] == a;
    var d := s.dispatched + [b];
    assert d[k] == a && d[|s.dispatched|] == b;
  }

  /** Of two tasks once pending together, the one of higher priority, or the
      earlier submitted of equals, is always dispatched first. */
  lemma {:induction false} PriorityThenFifo(maxWorkers: nat, states: seq<System>, acts: seq<Action>, m: nat, n: nat,
                                            a: nat, b: nat)
    requires Run(maxWorkers, states, acts) && m <= n < |states|
    requires IsPending(states[m], a) && IsPending(states[m], b)
    requires var asked := Submitted(acts[..m]);
             a < |asked| && b < |asked| && (asked[a] > asked[b] || (asked[a] == asked[b] && a < b))
    ensures InTurn(states[n], a, b) && Before(KeyOf(states[n], a), KeyOf(states[n], b))
    decreases n - m
  {
    RunTold(maxWorkers, states, acts, m);
    if m < n {
      PriorityThenFifo(maxWorkers, states, acts, m, n - 1, a, b);
      RunInv(maxWorkers, states, acts, n - 1);
      assert Step(states[n - 1], acts[n - 1], states[n]);
      TurnStep(states[n - 1], acts[n - 1], a, b);
    }
  }

  lemma {:induction false} FirstOf(s: System, n: nat) returns (t: nat)
    requires n <= |s.tasks| && exists u :: 0 <= u < n && IsPending(s, u)
    ensures t < n && IsPending(s, t)
    ensures forall u :: 0 <= u < n && u != t && IsPending(s, u) ==> Before(KeyOf(s, t), KeyOf(s, u))
  {
    if exists u :: 0 <= u < n - 1 && IsPending(s, u) {
      t := FirstOf(s, n - 1);
      if IsPending(s, n - 1) && Before(KeyOf(s, n - 1), KeyOf(s, t)) {
        t := n - 1;
      }
    } else {
      t := n - 1;
    }
  }

  /** Work conservation: some task can be dispatched exactly when one is pending
      and a live worker is idle. Every task that ends in cancellation costs a
      worker, and only a shutdown lets new ones start. */
  lemma DispatchPossibleIff(maxWorkers: nat, states: seq<System>, acts: seq<Action>, n: nat)
    requires Run(maxWorkers, states, acts) && n < |states|
    ensures (exists t :: Enabled(states[n], Dispatch(t))) <==>
            (exists t :: IsPending(states[n], t)) && states[n].active < LiveWorkers(maxWorkers, acts[..n]).1
  {
    RunInv(maxWorkers, states, acts, n);
    RunTold(maxWorkers, states, acts, n);
    var s := states[n];
    if u :| IsPending(s, u) {
      var t := FirstOf(s, |s.tasks|);
      assert IsFirst(s, t);
      assert Enabled(s, Dispatch(t)) <==> s.active < s.workers;
    }
    if t :| Enabled(s, Dispatch(t)) {
      assert IsPending(s, t);
    }
  }

  // `s` can reach `t` by `acts`.
  predicate Leads(s: System, acts: seq<Action>, t: System)
    decreases |acts|
  {
    if acts == [] then s == t
    else Enabled(s, acts[0]) && Leads(Next(s, acts[0]), acts[1..], t)
  }

  lemma LeadsByOne(s: System, a: Action, rest: seq<Action>, t: System)
    requires Enabled(s, a) && Leads(Next(s, a), rest, t)
    ensures Leads(s, [a] + rest, t)
  {
    assert ([a] + rest)[1..] == rest;
  }

  predicate DispatchesLater(s: System, acts: seq<Action>, t: System) {
    Leads(s, acts, t) && Shutdown !in acts && |s.dispatched| < |t.dispatched|
  }

  lemma {:induction false} DeadStaysDead(s: System, acts: seq<Action>, t: System)
    requires s.started && s.workers == 0 && Leads(s, acts, t) && Shutdown !in acts
    ensures t.started && t.workers == 0 && t.dispatched == s.dispatched
    decreases |acts|
  {
    if acts != [] {
      DeadStaysDead(Next(s, acts[0]), acts[1..], t);
    }
  }

  lemma {:induction false} RunningTask(tasks: seq<Task>) returns (t: nat)
    requires 0 < CountRunning(tasks)
    ensures t < |tasks| && tasks[t].stage.Running?
  {
    var n := |tasks| - 1;
    if tasks[n].stage.Running? {
      t := n;
    } else {
      t := RunningTask(tasks[..n]);
    }
  }

  // With an idle worker to come, a new task gets some task dispatched.
  lemma SubmitThenDispatch(s: System) returns (acts: seq<Action>, t: System)
    requires CountRunning(s.tasks) < if s.started then s.workers else s.maxWorkers
    ensures DispatchesLater(s, acts, t)
  {
    var submitted := Next(s, Submit(0));
    var n := |s.tasks|;
    assert submitted.tasks[..n] == s.tasks;
    assert IsPending(submitted, n);
    var first := FirstOf(submitted, n + 1);
    assert IsFirst(submitted, first);
    t := Next(submitted, Dispatch(first));
    LeadsByOne(submitted, Dispatch(first), [], t);
    LeadsByOne(s, Submit(0), [Dispatch(first)], t);
    acts := [Submit(0)] + [Dispatch(first)];
  }

  lemma FinishFreesWorker(s: System) returns (task: nat)
    requires 0 < CountRunning(s.tasks)
    ensures Enabled(s, Finish(task, Value(0)))
    ensures var t := Next(s, Finish(task, Value(0)));
            && CountRunning(t.tasks) == CountRunning(s.tasks) - 1
            && t.workers == s.workers && t.started == s.started && t.dispatched == s.dispatched
  {
    task := RunningTask(s.tasks);
    CountUpdate(s.tasks, task, Next(s, Finish(task, Value(0))).tasks[task]);
  }

  /** Without a shutdown, something is dispatched again in some continuation
      exactly when the pool has not started or has a live worker: once every
      worker has died nothing submitted is ever run. */
  lemma DispatchesAgainIff(maxWorkers: nat, states: seq<System>, acts: seq<Action>, n: nat)
    requires 0 < maxWorkers && Run(maxWorkers, states, acts) && n < |states|
    ensures var (started, live) := LiveWorkers(maxWorkers, acts[..n]);
            (exists more, t :: DispatchesLater(states[n], more, t)) <==> !started || 0 < live
  {
    RunInv(maxWorkers, states, acts, n);
    RunTold(maxWorkers, states, acts, n);
    var s := states[n];
    if s.started && s.workers == 0 {
      forall more, t | Leads(s, more, t) && Shutdown !in more
        ensures !DispatchesLater(s, more, t)
      {
        DeadStaysDead(s, more, t);
      }
    } else if !s.started || CountRunning(s.tasks) < s.workers {
      var more, t := SubmitThenDispatch(s);
      assert DispatchesLater(s, more, t);
    } else {
      var task := FinishFreesWorker(s);
      var u := Next(s, Finish(task, Value(0)));
      var more, t := SubmitThenDispatch(u);
      LeadsByOne(s, Finish(task, Value(0)), more, t);
      assert DispatchesLater(s, [Finish(task, Value(0))] + more, t);
    }
  }

  const CANCELLED_TASK: seq<Action> := [Submit(0), Submit(0), Dispatch(0), Die(0)]

  /** It can come to that: a pool of one whose first task ends in cancellation
      has no worker left for the second. */
  lemma CancellationKillsThePool() returns (states: seq<System>)
    ensures Run(1, states, CANCELLED_TASK)
    ensures states[4].started && states[4].workers == 0 && IsPending(states[4], 1)
  {
    var waiting := Task(0, Pending, Waiting);
    var s0 := System(1, false, 0, 0, [], []);
    var s1 := System(1, true, 1, 0, [waiting], []);
    var s2 := s1.(tasks := [waiting, waiting]);
    var s3 := System(1, true, 1, 1, [waiting.(stage := Running), waiting], [0]);
    var s4 := System(1, true, 0, 0, [waiting.(stage := Dropped), waiting], [0]);
    assert s2.tasks[..1] == [waiting];
    assert [waiting][..0] == [] && CountRunning([waiting]) == 0;
    states := [s0, s1, s2, s3, s4];
  }

  // ------------------------------------------------------------------
  // The pool itself
  // ------------------------------------------------------------------

  datatype QueuedTask = QueuedTask(sortKey: (int, int), id: nat)

  // `pending` holds an entry for each pending task and nothing else.
  ghost predicate Queues(s: System, pending: set<QueuedTask>) {
    forall q :: q in pending <==> IsPending(s, q.id) && q.sortKey == KeyOf(s, q.id)
  }

  lemma QueuesAfterSubmit(s: System, pending: set<QueuedTask>, priority: int)
    requires Queues(s, pending)
    ensures Queues(Next(s, Submit(priority)), pending + {QueuedTask(SortKey(priority, |s.tasks|), |s.tasks|)})
  {
  }

  lemma QueuesAfterDispatch(s: System, pending: set<QueuedTask>, q: QueuedTask)
    requires Queues(s, pending) && q in pending && Enabled(s, Dispatch(q.id))
    ensures Queues(Next(s, Dispatch(q.id)), pending - {q})
  {
  }

  lemma FrontIsFirst(s: System, pending: set<QueuedTask>, q: QueuedTask)
    requires Queues(s, pending) && q in pending
    requires forall r :: r in pending && r != q ==> Before(q.sortKey, r.sortKey)
    ensures IsFirst(s, q.id)
  {
    forall u | 0 <= u < |s.tasks| && u != q.id && IsPending(s, u)
      ensures Before(KeyOf(s, q.id), KeyOf(s, u))
    {
      assert QueuedTask(KeyOf(s, u), u) in pending;
    }
  }

  // Keys are distinct because ids are.
  ghost predicate DistinctKeys(pending: set<QueuedTask>) {
    forall q, r :: q in pending && r in pending && q != r ==> Before(q.sortKey, r.sortKey) || Before(r.sortKey, q.sortKey)
  }

  // PriorityQueue.get on a non-empty queue
  method Front(pending: set<QueuedTask>) returns (q: QueuedTask)
    requires pending != {} && DistinctKeys(pending)
    ensures q in pending && forall r :: r in pending && r != q ==> Before(q.sortKey, r.sortKey)
  {
    q :| q in pending;
    var rest := pending - {q};
    while rest != {}
      invariant q in pending && rest <= pending && q !in rest
      invariant forall r :: r in pending && r !in rest && r != q ==> Before(q.sortKey, r.sortKey)
      decreases rest
    {
      var r :| r in rest;
      rest := rest - {r};
      if Before(r.sortKey, q.sortKey) {
        q := r;
      }
    }
  }

  class WorkerPool {
    const maxWorkers: nat
    var pending: set<QueuedTask>
    var nextSeq: nat
    var started: bool
    var workers: nat
    var activeCount: int
    var futures: seq<Future>
    ghost var sys: System     // the state of the step system above

    ghost predicate Valid()
      reads this
    {
      && sys.maxWorkers == maxWorkers && CapacityInv(sys) && QueueInv(sys)
      && nextSeq == |sys.tasks| && started == sys.started && workers == sys.workers && activeCount == sys.active
      && Queues(sys, pending)
      && |futures| == |sys.tasks| && (forall t :: 0 <= t < |futures| ==> futures[t] == sys.tasks[t].future)
    }

    constructor (maxWorkers: nat)
      requires 0 < maxWorkers
      ensures Valid() && this.maxWorkers == maxWorkers && sys == System(maxWorkers, false, 0, 0, [], [])
    {
      this.maxWorkers := maxWorkers;
      pending, nextSeq, started, workers, activeCount, futures := {}, 0, false, 0, 0, [];
      sys := System(maxWorkers, false, 0, 0, [], []);
    }

    // submit, up to the await of the future
    method Submit(priority: int) returns (id: nat)
      requires Valid()
      modifies this
      ensures Valid() && id == old(|sys.tasks|) && sys == old(Next(sys, Action.Submit(priority)))
    {
      if !started {
        started, workers := true, maxWorkers;
      }
      id := nextSeq;
      nextSeq := nextSeq + 1;
      pending := pending + {QueuedTask(SortKey(priority, id), id)};
      futures := futures + [Waiting];
      QueuesAfterSubmit(sys, old(pending), priority);
      CapacityStep(sys, Action.Submit(priority));
      QueueStep(sys, Action.Submit(priority));
      sys := Next(sys, Action.Submit(priority));
    }

    // One idle worker's `await self._pending.get()` and the count that follows.
    method Take() returns (id: nat)
      requires Valid() && pending != {} && activeCount < workers
      modifies this
      ensures Valid() && old(Enabled(sys, Dispatch(id))) && sys == Next(old(sys), Dispatch(id))
    {
      var q := Front(pending);
      id := q.id;
      FrontIsFirst(sys, pending, q);
      QueuesAfterDispatch(sys, pending, q);
      pending := pending - {q};
      activeCount := activeCount + 1;
      CapacityStep(sys, Dispatch(id));
      QueueStep(sys, Dispatch(id));
      sys := Next(sys, Dispatch(id));
    }

    // The rest of the worker loop's round, for a task that returned or raised.
    method Settle(id: nat, outcome: Outcome)
      requires Valid() && id < |sys.tasks| && sys.tasks[id].stage.Running?
      modifies this
      ensures Valid() && sys == old(Next(sys, Finish(id, outcome)))
    {
      if futures[id].Waiting? {
        futures := futures[id := Resolved(outcome)];
      }
      activeCount := activeCount - 1;
      CapacityStep(sys, Finish(id, outcome));
      QueueStep(sys, Finish(id, outcome));
      sys := Next(sys, Finish(id, outcome));
    }
  }

  // WorkerPool(max_workers); None where the source raises ValueError.
  method Create(maxWorkers: int) returns (pool: Option<WorkerPool>)
    ensures pool.Some? <==> 0 < maxWorkers
    ensures pool.Some? ==> fresh(pool.value) && pool.value.Valid() && pool.value.maxWorkers == maxWorkers
  {
    if maxWorkers <= 0 {
      return None;
    }
    var p := new WorkerPool(maxWorkers);
    return Some(p);
  }
}
