/**
 The thread pool: a queue of tasks under a mutex, a condition variable, a stop flag, and workers
 that sleep, take, run and exit. A run of `Step` is any interleaving of the workers, of threads
 calling Add, and of the destructor; wake-ups may be spurious.
 */
module Pools {
  import opened Utils

  type Task = nat

  /** A running worker holds the ticket of its task: the position at which the task was added. */
  datatype Worker = Ready | Asleep | Running(ticket: nat) | Exited

  datatype Closing = Open | Stopping | Joining | Joined

  datatype Pool = Pool(
    tasks: seq<Task>,        // tasks_
    stop: bool,              // stop_
    workers: seq<Worker>,
    toNotify: nat,           // threads in Add between the push and notify_one
    closing: Closing,        // how far the destructor has come
    added: seq<Task>,        // history: tasks whose Add succeeded, in lock order
    taken: seq<Task>,        // history: tasks popped by workers, in order
    finished: set<nat>)      // history: tickets whose task has returned

  datatype Action =
    | AddTask(t: Task) | NotifyOne(w: nat) | Wake(w: nat) | Check(w: nat) | Finish(w: nat)
    | SetStop | NotifyAll | Join

  function Init(n: nat): Pool {
    Pool([], false, seq(n, _ => Ready), 0, Open, [], [], {})
  }

  ghost predicate Enabled(p: Pool, a: Action) {
    match a
    case AddTask(_) => true
    case NotifyOne(w) =>
      p.toNotify > 0 && ((w < |p.workers| && p.workers[w].Asleep?) || Asleep !in p.workers)
    case Wake(w) => w < |p.workers| && p.workers[w].Asleep?
    case Check(w) => w < |p.workers| && p.workers[w].Ready?
    case Finish(w) => w < |p.workers| && p.workers[w].Running?
    case SetStop => p.closing.Open?
    case NotifyAll => p.closing.Stopping?
    case Join => p.closing.Joining? && forall w :: 0 <= w < |p.workers| ==> p.workers[w].Exited?
  }

  function SetWorker(p: Pool, w: nat, x: Worker): Pool
    requires w < |p.workers|
  {
    p.(workers := p.workers[w := x])
  }

  /** Add under the lock: a stopped pool refuses the task. */
  function AddStep(p: Pool, t: Task): Pool {
    if p.stop then p
    else p.(tasks := p.tasks + [t], added := p.added + [t], toNotify := p.toNotify + 1)
  }

  /** A worker holding the lock: it leaves, takes the front task, or goes to sleep. */
  function CheckStep(p: Pool, w: nat): Pool
    requires w < |p.workers|
  {
    if p.stop && p.tasks == [] then SetWorker(p, w, Exited)
    else if p.tasks != [] then
      SetWorker(p, w, Running(|p.taken|)).(tasks := p.tasks[1..], taken := p.taken + [p.tasks[0]])
    else SetWorker(p, w, Asleep)
  }

  ghost function Step(p: Pool, a: Action): Pool
    requires Enabled(p, a)
  {
    match a
    case AddTask(t) => AddStep(p, t)
    case NotifyOne(w) =>
      var q := p.(toNotify := p.toNotify - 1);
      if w < |p.workers| && p.workers[w].Asleep? then SetWorker(q, w, Ready) else q
    case Wake(w) => SetWorker(p, w, Ready)
    case Check(w) => CheckStep(p, w)
    case Finish(w) => SetWorker(p, w, Ready).(finished := p.finished + {p.workers[w].ticket})
    case SetStop => p.(stop := true, closing := Stopping)
    case NotifyAll => p.(closing := Joining, workers := WokenAll(p.workers))
    case Join => p.(closing := Joined)
  }

  function WokenAll(ws: seq<Worker>): (r: seq<Worker>)
    ensures |r| == |ws|
    ensures forall w :: 0 <= w < |ws| ==> r[w] == if ws[w].Asleep? then Ready else ws[w]
  {
    seq(|ws|, w requires 0 <= w < |ws| => if ws[w].Asleep? then Ready else ws[w])
  }

  ghost predicate ValidRun(p: Pool, run: seq<Action>)
    decreases |run|
  {
    run == [] || (Enabled(p, run[0]) && ValidRun(Step(p, run[0]), run[1..]))
  }

  ghost function RunAll(p: Pool, run: seq<Action>): Pool
    requires ValidRun(p, run)
    decreases |run|
  {
    if run == [] then p else RunAll(Step(p, run[0]), run[1..])
  }

  ghost predicate Reachable(p: Pool, n: nat) {
    exists run :: ValidRun(Init(n), run) && RunAll(Init(n), run) == p
  }

  // ---------------------------------------------------------------- invariant

  ghost predicate Runs(p: Pool, w: nat, ticket: nat) {
    w < |p.workers| && p.workers[w] == Running(ticket)
  }

  ghost predicate TicketsOk(p: Pool) {
    && (forall w: nat, k: nat :: Runs(p, w, k) ==> k < |p.taken| && k !in p.finished)
    && (forall v: nat, w: nat, k: nat :: Runs(p, v, k) && Runs(p, w, k) ==> v == w)
    && (forall k :: k in p.finished ==> k < |p.taken|)
    && (forall k :: 0 <= k < |p.taken| && k !in p.finished ==> exists w: nat :: Runs(p, w, k))
  }

  ghost predicate WakeOk(p: Pool) {
    && (p.tasks != [] && p.toNotify == 0 && !p.closing.Stopping? && p.workers != [] ==>
          exists w :: 0 <= w < |p.workers| && Awake(p.workers[w]))
    && (p.closing.Joining? || p.closing.Joined? ==> Asleep !in p.workers)
  }

  predicate Awake(x: Worker) {
    x.Ready? || x.Running?
  }

  ghost predicate Inv(p: Pool) {
    && p.taken + p.tasks == p.added
    && TicketsOk(p)
    && WakeOk(p)
    && (Exited in p.workers ==> p.stop && p.tasks == [])
    && (p.stop <==> !p.closing.Open?)
    && (p.closing.Joined? ==> forall w :: 0 <= w < |p.workers| ==> p.workers[w].Exited?)
  }

  lemma TicketsKept(p: Pool, a: Action)
    requires Inv(p) && Enabled(p, a)
    ensures TicketsOk(Step(p, a))
  {
    var q := Step(p, a);
    assert a.Finish? ==> Runs(p, a.w, p.workers[a.w].ticket);
    forall w: nat, k: nat | Runs(q, w, k)
      ensures Runs(p, w, k) || (a == Check(w) && k == |p.taken|)
      ensures k < |q.taken| && k !in q.finished
    {}
    forall k | 0 <= k < |q.taken| && k !in q.finished ensures exists w: nat :: Runs(q, w, k) {
      if k == |p.taken| {
        assert Runs(q, a.w, k);
      } else {
        var w :| Runs(p, w, k);
        assert Runs(q, w, k);
      }
    }
  }

  lemma WakeKept(p: Pool, a: Action)
    requires Inv(p) && Enabled(p, a)
    ensures WakeOk(Step(p, a))
  {
    var q := Step(p, a);
    if q.tasks != [] && q.toNotify == 0 && !q.closing.Stopping? && q.workers != [] {
      assert p.workers != [] && Exited !in p.workers;
      if a.Wake? || a.Check? || a.Finish? {
        assert Awake(q.workers[a.w]);
      } else if a.NotifyOne? {
        var w := if a.w < |p.workers| && p.workers[a.w].Asleep? then a.w else 0;
        assert p.workers[w] in p.workers;
        assert Awake(q.workers[w]);
      } else if a.NotifyAll? {
        assert p.workers[0] in p.workers;
        assert Awake(q.workers[0]);
      } else if a.SetStop? {
      } else {
        var w :| 0 <= w < |p.workers| && Awake(p.workers[w]);
        assert Awake(q.workers[w]);
      }
    }
  }

  lemma StepKeepsInv(p: Pool, a: Action)
    requires Inv(p) && Enabled(p, a)
    ensures Inv(Step(p, a))
  {
    var q := Step(p, a);
    TicketsKept(p, a);
    WakeKept(p, a);
    assert a.AddTask? && !p.stop ==> p.taken + q.tasks == p.added + [a.t];
    assert a.Check? && p.tasks != [] ==> q.taken + q.tasks == p.taken + p.tasks;
    assert Exited in q.workers ==> Exited in p.workers || (a.Check? && p.stop && p.tasks == []);
  }

  lemma InitInv(n: nat)
    ensures Inv(Init(n))
  {
    assert forall w :: 0 <= w < n ==> Init(n).workers[w] == Ready;
  }

  lemma {:induction false} RunKeepsInv(p: Pool, run: seq<Action>)
    requires Inv(p) && ValidRun(p, run)
    ensures Inv(RunAll(p, run)) && |RunAll(p, run).workers| == |p.workers|
    decreases |run|
  {
    if run != [] {
      StepKeepsInv(p, run[0]);
      RunKeepsInv(Step(p, run[0]), run[1..]);
    }
  }

  lemma ReachableInv(p: Pool, n: nat)
    requires Reachable(p, n)
    ensures Inv(p) && |p.workers| == n
  {
    var run :| ValidRun(Init(n), run) && RunAll(Init(n), run) == p;
    InitInv(n);
    RunKeepsInv(Init(n), run);
  }

  // ---------------------------------------------------------------- results

  /** Tasks are taken first in first out, each by exactly one worker, and run once. */
  lemma TakenOnceInOrder(p: Pool, n: nat)
    requires Reachable(p, n)
    ensures p.taken + p.tasks == p.added
    ensures forall v: nat, w: nat, k: nat :: Runs(p, v, k) && Runs(p, w, k) ==> v == w
    ensures forall k :: 0 <= k < |p.taken| ==> (k in p.finished) != (exists w: nat :: Runs(p, w, k))
  {
    ReachableInv(p, n);
  }

  /** No task is forgotten: with a task queued and nobody awake to take it, a notification is due. */
  lemma NoForgottenTask(p: Pool, n: nat)
    requires Reachable(p, n) && n > 0 && p.tasks != []
    requires forall w :: 0 <= w < |p.workers| ==> !Awake(p.workers[w])
    ensures p.toNotify > 0 || p.closing.Stopping?
  {
    ReachableInv(p, n);
  }

  /** The destructor cannot hang: until every worker has exited, some worker can move. */
  lemma JoinMakesProgress(p: Pool, n: nat)
    requires Reachable(p, n) && p.closing.Joining?
    ensures Enabled(p, Join) || exists w :: Enabled(p, Check(w)) || Enabled(p, Finish(w))
  {
    ReachableInv(p, n);
    if !Enabled(p, Join) {
      var w :| 0 <= w < |p.workers| && !p.workers[w].Exited?;
      assert p.workers[w] in p.workers;
      assert Enabled(p, Check(w)) || Enabled(p, Finish(w));
    }
  }

  ghost predicate AllFinished(p: Pool) {
    forall k :: 0 <= k < |p.added| ==> k in p.finished
  }

  /** When the destructor returns, every task whose Add succeeded has finished: exactly for pools
      that have a worker, or never accepted a task. */
  lemma DestructorWaitsForAll(p: Pool, n: nat)
    requires Reachable(p, n) && p.closing.Joined?
    ensures AllFinished(p) <==> n > 0 || p.added == []
  {
    ReachableInv(p, n);
    if n > 0 {
      assert p.workers[0] in p.workers;
      assert p.tasks == [] && p.taken == p.added;
    } else if p.added != [] {
      assert forall k :: k in p.finished ==> k < |p.taken|;
      NoWorkersTakeNothing(p);
      assert 0 !in p.finished;
    }
  }

  lemma {:induction false} NoWorkersRun(p: Pool, run: seq<Action>)
    requires p.workers == [] && p.taken == [] && ValidRun(p, run)
    ensures RunAll(p, run).taken == []
    decreases |run|
  {
    if run != [] {
      NoWorkersRun(Step(p, run[0]), run[1..]);
    }
  }

  lemma NoWorkersTakeNothing(p: Pool)
    requires Reachable(p, 0)
    ensures p.taken == []
  {
    var run :| ValidRun(Init(0), run) && RunAll(Init(0), run) == p;
    NoWorkersRun(Init(0), run);
  }

  /** A pool of no workers does reach a destructor that returns with its task never run. */
  lemma PoolOfNobody()
    ensures exists p :: Reachable(p, 0) && p.closing.Joined? && !AllFinished(p)
  {
    var run := [AddTask(7), SetStop, NotifyAll, Join];
    var p0 := Init(0);
    var p1 := Step(p0, AddTask(7));
    var p2 := Step(p1, SetStop);
    var p3 := Step(p2, NotifyAll);
    var p4 := Step(p3, Join);
    assert run[1..] == [SetStop, NotifyAll, Join] && run[1..][1..] == [NotifyAll, Join];
    assert run[1..][1..][1..] == [Join] && run[1..][1..][1..][1..] == [];
    assert ValidRun(p4, []) && RunAll(p4, []) == p4;
    assert ValidRun(p3, [Join]) && RunAll(p3, [Join]) == p4;
    assert ValidRun(p2, [NotifyAll, Join]) && RunAll(p2, [NotifyAll, Join]) == p4;
    assert ValidRun(p1, [SetStop, NotifyAll, Join]) && RunAll(p1, [SetStop, NotifyAll, Join]) == p4;
    assert ValidRun(p0, run) && RunAll(p0, run) == p4;
    assert 0 < |p4.added| && 0 !in p4.finished;
  }

  // ---------------------------------------------------------------- the code's critical sections

  datatype Outcome = Leave | Take(task: Task) | Sleep

  class ThreadPool {
    var tasks: seq<Task>
    var stop: bool
    ghost var workers: seq<Worker>
    ghost var toNotify: nat
    ghost var closing: Closing
    ghost var added: seq<Task>
    ghost var taken: seq<Task>
    ghost var finished: set<nat>

    ghost function View(): Pool
      reads this
    {
      Pool(tasks, stop, workers, toNotify, closing, added, taken, finished)
    }

    constructor (size: nat)
      ensures View() == Init(size) && Inv(View())
    {
      tasks, stop := [], false;
      workers, toNotify, closing := seq(size, _ => Ready), 0, Open;
      added, taken, finished := [], [], {};
      new;
      InitInv(size);
    }

    /** Add's critical section; the exception of a stopped pool is `ok == false`. */
    method Add(task: Task) returns (ok: bool)
      requires Inv(View())
      modifies this
      ensures ok == !old(stop)
      ensures tasks == old(tasks) + (if ok then [task] else [])
      ensures View() == Step(old(View()), AddTask(task)) && Inv(View())
    {
      StepKeepsInv(View(), AddTask(task));
      if stop {
        return false;
      }
      tasks := tasks + [task];
      added, toNotify := added + [task], toNotify + 1;
      ok := true;
    }

    /** A worker's critical section, from holding the lock to releasing it. */
    method NextTask(ghost w: nat) returns (r: Outcome)
      requires Inv(View()) && Enabled(View(), Check(w))
      modifies this
      ensures r == if old(tasks) != [] then Take(old(tasks)[0]) else if stop then Leave else Sleep
      ensures tasks == if r.Take? then old(tasks)[1..] else old(tasks)
      ensures r.Take? ==> |old(taken)| < |added| && r.task == added[|old(taken)|]
      ensures View() == Step(old(View()), Check(w)) && Inv(View())
    {
      StepKeepsInv(View(), Check(w));
      if !(stop || tasks != []) {
        workers := workers[w := Asleep];
        return Sleep;
      }
      if stop && tasks == [] {
        workers := workers[w := Exited];
        return Leave;
      }
      r := Take(tasks[0]);
      tasks := tasks[1..];
      workers, taken := workers[w := Running(|taken|)], taken + [r.task];
    }

    /** The destructor's critical section, after which no task is accepted. */
    method Stop()
      requires Inv(View()) && closing.Open?
      modifies this
      ensures stop && tasks == old(tasks) && View() == Step(old(View()), SetStop) && Inv(View())
    {
      StepKeepsInv(View(), SetStop);
      stop := true;
      closing := Stopping;
    }
  }
}
