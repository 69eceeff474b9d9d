/**
 The deferred-call protocol of one EventLoop: a mutex-protected list of functors, an eventfd that
 wakes the loop out of Poll, and the flag that tells the loop thread to wake itself. A run of
 `Step` is any interleaving of the loop thread with any number of queueing threads.
 */
module WakeUp {
  import opened Utils

  /** A deferred call, and the calls its body queues on the same loop when it runs. */
  datatype Functor = Functor(id: nat, queues: seq<Functor>)

  /** Where the loop thread is. `wake` says the wake-up channel is still to be handled. */
  datatype Phase = Polling | Handling(wake: bool) | Draining | Running(rest: seq<Functor>)

  datatype Loop = Loop(
    toDo: seq<Functor>,      // to_do_list_
    counter: nat,            // value of the eventfd
    calling: bool,           // calling_functors_
    phase: Phase,
    ownWriting: bool,        // the loop thread is between its push and its write
    writers: nat,            // other threads between their push and their write
    pushed: seq<Functor>,    // history: every functor, in the order the lock was taken
    ran: seq<Functor>)       // history: every functor called by DoToDoList, in order

  datatype Action =
    | PollReturns(wake: bool) | HandleWake | StartDrain | Swap | RunOne | EndDrain
    | PushOwn(f: Functor) | WriteOwn | PushOther(f: Functor) | WriteOther

  /** The largest value an eventfd holds; a write beyond it fails. */
  const EVENTFD_MAX: nat := 0xffff_ffff_ffff_fffe

  const INIT := Loop([], 0, false, Polling, false, 0, [], [])

  predicate Enabled(s: Loop, a: Action) {
    match a
    case PollReturns(wake) => s.phase.Polling? && (wake ==> s.counter > 0)
    case HandleWake => s.phase == Handling(true)
    case StartDrain => s.phase == Handling(false)
    case Swap => s.phase.Draining?
    case RunOne => s.phase.Running? && s.phase.rest != [] && !s.ownWriting
    case EndDrain => s.phase == Running([]) && !s.ownWriting
    case PushOwn(_) => (s.phase.Handling? || s.phase.Running?) && !s.ownWriting
    case WriteOwn => s.ownWriting
    case PushOther(_) => true
    case WriteOther => s.writers > 0
  }

  /** The asserts on the eventfd's read and write. */
  predicate Faults(s: Loop, a: Action) {
    match a
    case HandleWake => s.counter == 0
    case WriteOwn => s.counter == EVENTFD_MAX
    case WriteOther => s.counter == EVENTFD_MAX
    case _ => false
  }

  function Push(s: Loop, f: Functor): Loop {
    s.(toDo := s.toDo + [f], pushed := s.pushed + [f])
  }

  function Step(s: Loop, a: Action): Loop
    requires Enabled(s, a)
  {
    match a
    case PollReturns(wake) => s.(phase := Handling(wake))
    case HandleWake => s.(phase := Handling(false), counter := 0)
    case StartDrain => s.(phase := Draining, calling := true)
    case Swap => s.(phase := Running(s.toDo), toDo := [])
    case RunOne => s.(phase := Running(s.phase.rest[1..]), ran := s.ran + [s.phase.rest[0]])
    case EndDrain => s.(phase := Polling, calling := false)
    case PushOwn(f) => Push(s, f).(ownWriting := s.calling)
    case WriteOwn => s.(ownWriting := false, counter := s.counter + 1)
    case PushOther(f) => Push(s, f).(writers := s.writers + 1)
    case WriteOther => s.(writers := s.writers - 1, counter := s.counter + 1)
  }

  predicate ValidRun(s: Loop, run: seq<Action>)
    decreases |run|
  {
    run == [] || (Enabled(s, run[0]) && ValidRun(Step(s, run[0]), run[1..]))
  }

  function RunAll(s: Loop, run: seq<Action>): Loop
    requires ValidRun(s, run)
    decreases |run|
  {
    if run == [] then s else RunAll(Step(s, run[0]), run[1..])
  }

  ghost predicate Reachable(s: Loop) {
    exists run :: ValidRun(INIT, run) && RunAll(INIT, run) == s
  }

  function Rest(p: Phase): seq<Functor> {
    if p.Running? then p.rest else []
  }

  predicate Inv(s: Loop) {
    InOrder(s) && Woken(s)
  }

  predicate InOrder(s: Loop) {
    s.ran + Rest(s.phase) + s.toDo == s.pushed
  }

  predicate Woken(s: Loop) {
    && (s.toDo != [] && (s.phase.Polling? || s.phase.Running?) ==> s.counter > 0 || s.writers > 0 || s.ownWriting)
    && (s.phase == Handling(true) ==> s.counter > 0)
    && (s.calling <==> s.phase.Draining? || s.phase.Running?)
    && (s.ownWriting ==> s.phase.Running?)
    && s.counter + s.writers + (if s.ownWriting then 1 else 0) <= |s.pushed|
  }

  lemma PushKeepsOrder(ran: seq<Functor>, rest: seq<Functor>, toDo: seq<Functor>, f: Functor)
    ensures ran + rest + (toDo + [f]) == (ran + rest + toDo) + [f]
  {
  }

  lemma RunKeepsOrder(ran: seq<Functor>, rest: seq<Functor>, toDo: seq<Functor>)
    requires rest != []
    ensures (ran + [rest[0]]) + rest[1..] + toDo == ran + rest + toDo
  {
    assert rest == [rest[0]] + rest[1..];
    Assoc(ran, [rest[0]], rest[1..]);
  }

  lemma SwapKeepsOrder(ran: seq<Functor>, toDo: seq<Functor>)
    ensures ran + toDo + [] == ran + [] + toDo
  {
    assert ran + [] == ran && (ran + toDo) + [] == ran + toDo;
  }

  lemma StepKeepsOrder(s: Loop, a: Action)
    requires InOrder(s) && Enabled(s, a)
    ensures InOrder(Step(s, a))
  {
    match a {
      case RunOne => RunKeepsOrder(s.ran, s.phase.rest, s.toDo);
      case Swap => SwapKeepsOrder(s.ran, s.toDo);
      case PushOwn(f) => PushKeepsOrder(s.ran, Rest(s.phase), s.toDo, f);
      case PushOther(f) => PushKeepsOrder(s.ran, Rest(s.phase), s.toDo, f);
      case _ =>
    }
  }

  lemma StepKeepsInv(s: Loop, a: Action)
    requires Inv(s) && Enabled(s, a)
    ensures Inv(Step(s, a))
    ensures Faults(s, a) ==> |s.pushed| > EVENTFD_MAX
  {
    hide InOrder;
    StepKeepsOrder(s, a);
  }

  lemma {:induction false} RunKeepsInv(s: Loop, run: seq<Action>)
    requires Inv(s) && ValidRun(s, run)
    ensures Inv(RunAll(s, run))
    decreases |run|
  {
    if run != [] {
      StepKeepsInv(s, run[0]);
      RunKeepsInv(Step(s, run[0]), run[1..]);
    }
  }

  lemma ReachableInv(s: Loop)
    requires Reachable(s)
    ensures Inv(s)
  {
    var run :| ValidRun(INIT, run) && RunAll(INIT, run) == s;
    RunKeepsInv(INIT, run);
  }

  /** No wake-up is lost: a loop blocked in Poll with work to do either finds its eventfd readable
      or is about to, because some other thread has pushed and not yet written. */
  lemma NoLostWakeUp(s: Loop)
    requires Reachable(s) && s.phase.Polling? && s.toDo != []
    ensures Enabled(s, PollReturns(true)) || Enabled(s, WriteOther)
  {
    ReachableInv(s);
  }

  /** Every functor is called at most once, in the order the lock was taken; the ones not called
      yet are exactly those in the swapped-out list followed by to_do_list_. */
  lemma RunsInLockOrder(s: Loop)
    requires Reachable(s)
    ensures s.ran <= s.pushed && s.pushed[|s.ran|..] == Rest(s.phase) + s.toDo
  {
    ReachableInv(s);
    assert s.ran + (Rest(s.phase) + s.toDo) == s.pushed;
  }

  /** The asserts on reading and writing the eventfd hold, short of 2^64 - 1 queued functors. */
  lemma NoEventFdFault(s: Loop, a: Action)
    requires Reachable(s) && Enabled(s, a) && |s.pushed| <= EVENTFD_MAX
    ensures !Faults(s, a)
  {
    ReachableInv(s);
    StepKeepsInv(s, a);
  }

  // ---------------------------------------------------------------- one round of the loop

  lemma {:induction false} RunConcat(s: Loop, a: seq<Action>, b: seq<Action>)
    requires ValidRun(s, a) && ValidRun(RunAll(s, a), b)
    ensures ValidRun(s, a + b) && RunAll(s, a + b) == RunAll(RunAll(s, a), b)
    decreases |a|
  {
    if a == [] {
      assert a + b == b;
    } else {
      RunConcat(Step(s, a[0]), a[1..], b);
      assert (a + b)[1..] == a[1..] + b;
    }
  }

  lemma RunSnoc(s: Loop, run: seq<Action>, a: Action)
    requires ValidRun(s, run) && Enabled(RunAll(s, run), a)
    ensures ValidRun(s, run + [a]) && RunAll(s, run + [a]) == Step(RunAll(s, run), a)
  {
    var t := RunAll(s, run);
    assert [a][1..] == [] && ValidRun(Step(t, a), []);
    RunConcat(s, run, [a]);
  }

  lemma {:induction false} RunRest(s: Loop) returns (run: seq<Action>)
    requires s.phase.Running? && !s.ownWriting
    ensures ValidRun(s, run) && RunAll(s, run) == s.(phase := Running([]), ran := s.ran + s.phase.rest)
    ensures forall a :: a in run ==> a == RunOne
    decreases |Rest(s.phase)|
  {
    if s.phase.rest == [] {
      run := [];
    } else {
      var t := Step(s, RunOne);
      var tail := RunRest(t);
      run := [RunOne] + tail;
      assert run[1..] == tail && s.phase.rest == [s.phase.rest[0]] + t.phase.rest;
      assert t.ran + t.phase.rest == s.ran + s.phase.rest;
    }
  }

  predicate NoPush(run: seq<Action>) {
    forall a :: a in run ==> !a.PushOwn? && !a.PushOther?
  }

  /** The threads that have pushed get to their writes. */
  lemma {:induction false} FinishWrites(s: Loop) returns (run: seq<Action>)
    requires s.phase.Polling?
    ensures ValidRun(s, run) && forall a :: a in run ==> a == WriteOther
    ensures RunAll(s, run) == s.(writers := 0, counter := s.counter + s.writers)
    decreases s.writers
  {
    if s.writers == 0 {
      run := [];
    } else {
      var tail := FinishWrites(Step(s, WriteOther));
      run := [WriteOther] + tail;
      assert run[1..] == tail;
    }
  }

  /** A loop blocked with work to do needs nothing but the writes already due: then it wakes up and
      calls all of that work in one round. */
  lemma OneRoundRunsEverything(s: Loop)
    requires Reachable(s) && s.phase.Polling? && s.toDo != []
    ensures exists run: seq<Action> :: ValidRun(s, run) && RunAll(s, run).phase.Polling?
                                       && RunAll(s, run).ran == s.pushed && RunAll(s, run).toDo == []
                                       && NoPush(run)
  {
    ReachableInv(s);
    var writes := FinishWrites(s);
    var t := RunAll(s, writes);
    var round := OneRound(t);
    RunConcat(s, writes, round);
    assert RunAll(s, writes + round) == RunAll(t, round);
  }

  lemma OneRound(s: Loop) returns (run: seq<Action>)
    requires InOrder(s) && s.phase.Polling? && s.counter > 0 && !s.ownWriting
    ensures ValidRun(s, run) && RunAll(s, run).phase.Polling?
    ensures RunAll(s, run).ran == s.pushed && RunAll(s, run).toDo == []
    ensures NoPush(run)
  {
    hide ValidRun, RunAll;
    StartOfRun(s);
    var wake := [PollReturns(true), HandleWake, StartDrain, Swap];
    var s1 := Step(s, PollReturns(true));
    var s2 := Step(s1, HandleWake);
    var s3 := Step(s2, StartDrain);
    var s4 := Step(s3, Swap);
    var first := [PollReturns(true)];
    assert [] + first == first && first + [HandleWake] + [StartDrain] + [Swap] == wake;
    RunSnoc(s, [], PollReturns(true));
    RunSnoc(s, first, HandleWake);
    RunSnoc(s, first + [HandleWake], StartDrain);
    RunSnoc(s, first + [HandleWake] + [StartDrain], Swap);
    assert ValidRun(s, wake) && RunAll(s, wake) == s4;
    var rest := RunRest(s4);
    RunConcat(s, wake, rest);
    RunSnoc(s, wake + rest, EndDrain);
    run := wake + rest + [EndDrain];
    assert s.ran + [] == s.ran;
  }

  lemma StartOfRun(s: Loop)
    ensures ValidRun(s, []) && RunAll(s, []) == s
  {
  }
}
