/**
 EventLoop's own methods, updating to_do_list_, calling_functors_ and the eventfd. Each appends the
 steps of module WakeUp it takes to `trace`; `Valid` says the fields are what that run produces.
 */
module EventLoops {
  import opened Utils
  import opened WakeUp

  /** What a list of functors queues, when they are called one after the other. */
  function QueuedBy(fs: seq<Functor>): seq<Functor> {
    if fs == [] then [] else fs[0].queues + QueuedBy(fs[1..])
  }

  lemma {:induction false} QueuedBySnoc(fs: seq<Functor>, f: Functor)
    ensures QueuedBy(fs + [f]) == QueuedBy(fs) + f.queues
  {
    if fs == [] {
      assert fs + [f] == [f] && [f][1..] == [];
    } else {
      QueuedBySnoc(fs[1..], f);
      assert (fs + [f])[1..] == fs[1..] + [f];
    }
  }

  class EventLoop {
    var toDoList: seq<Functor>
    var counter: nat
    var callingFunctors: bool
    ghost var phase: Phase
    ghost var ownWriting: bool
    ghost var writers: nat
    ghost var pushed: seq<Functor>
    ghost var ran: seq<Functor>
    ghost var trace: seq<Action>

    ghost function View(): Loop
      reads this
    {
      Loop(toDoList, counter, callingFunctors, phase, ownWriting, writers, pushed, ran)
    }

    ghost predicate Valid()
      reads this
    {
      ValidRun(INIT, trace) && RunAll(INIT, trace) == View()
    }

    constructor ()
      ensures Valid() && View() == INIT
    {
      toDoList, counter, callingFunctors := [], 0, false;
      phase, ownWriting, writers, pushed, ran, trace := Polling, false, 0, [], [], [];
    }

    ghost method Took(s: Loop, a: Action)
      requires ValidRun(INIT, trace) && RunAll(INIT, trace) == s
      requires Enabled(s, a) && View() == Step(s, a)
      modifies this`trace
      ensures Valid() && trace == old(trace) + [a]
    {
      RunSnoc(INIT, trace, a);
      trace := trace + [a];
    }

    /** A push under the lock, then a write unless the loop thread is sure to look at the list. */
    method QueueOneFunc(cb: Functor, inLoopThread: bool)
      requires Valid() && (inLoopThread ==> Enabled(View(), PushOwn(cb)))
      modifies this
      ensures Valid() && callingFunctors == old(callingFunctors) && phase == old(phase) && ran == old(ran)
      ensures toDoList == old(toDoList) + [cb] && pushed == old(pushed) + [cb]
      ensures writers == old(writers) && ownWriting == (old(ownWriting) && !inLoopThread)
      ensures counter == old(counter) + (if !inLoopThread || callingFunctors then 1 else 0)
    {
      hide ValidRun, RunAll;
      ghost var s := View();
      toDoList := toDoList + [cb];
      pushed := pushed + [cb];
      if inLoopThread {
        ownWriting := callingFunctors;
        Took(s, PushOwn(cb));
      } else {
        writers := writers + 1;
        Took(s, PushOther(cb));
      }
      if !inLoopThread || callingFunctors {
        s := View();
        counter := counter + 1;
        if inLoopThread {
          ownWriting := false;
          Took(s, WriteOwn);
        } else {
          writers := writers - 1;
          Took(s, WriteOther);
        }
      }
    }

    /** The body of a functor: it queues further functors from the loop thread. */
    method Call(cb: Functor)
      requires Valid() && (phase.Handling? || phase.Running?) && !ownWriting
      modifies this
      ensures Valid() && callingFunctors == old(callingFunctors) && phase == old(phase) && ran == old(ran)
      ensures toDoList == old(toDoList) + cb.queues && pushed == old(pushed) + cb.queues
      ensures writers == old(writers) && !ownWriting
      ensures counter == old(counter) + (if callingFunctors then |cb.queues| else 0)
    {
      for i := 0 to |cb.queues|
        invariant Valid() && callingFunctors == old(callingFunctors) && phase == old(phase) && ran == old(ran)
        invariant toDoList == old(toDoList) + cb.queues[..i] && pushed == old(pushed) + cb.queues[..i]
        invariant writers == old(writers) && !ownWriting
        invariant counter == old(counter) + (if callingFunctors then i else 0)
      {
        assert cb.queues[..i + 1] == cb.queues[..i] + [cb.queues[i]];
        QueueOneFunc(cb.queues[i], true);
      }
      assert cb.queues[..|cb.queues|] == cb.queues;
    }

    /** The loop thread calls at once; any other thread queues. */
    method RunOneFunc(cb: Functor, inLoopThread: bool)
      requires Valid() && (inLoopThread ==> (phase.Handling? || phase.Running?) && !ownWriting)
      modifies this
      ensures Valid() && ran == old(ran)
      ensures toDoList == old(toDoList) + (if inLoopThread then cb.queues else [cb])
      ensures !inLoopThread ==> counter == old(counter) + 1
    {
      if inLoopThread {
        Call(cb);
      } else {
        QueueOneFunc(cb, inLoopThread);
      }
    }

    /** The wake-up channel was reported readable, so the read finds a value. */
    method HandleRead()
      requires Valid() && phase == Handling(true)
      modifies this
      ensures Valid() && counter == 0 && phase == Handling(false) && toDoList == old(toDoList) && ran == old(ran)
    {
      assert counter > 0 by { ReachableInv(View()); }
      ghost var s := View();
      counter := 0;
      phase := Handling(false);
      Took(s, HandleWake);
    }

    method SwapOut() returns (functors: seq<Functor>)
      requires Valid() && phase == Handling(false)
      modifies this
      ensures Valid() && callingFunctors && phase == Running(functors) && !ownWriting
      ensures functors == old(toDoList) && toDoList == [] && counter == old(counter) && ran == old(ran)
    {
      assert !ownWriting by { ReachableInv(View()); }
      ghost var s := View();
      callingFunctors := true;
      phase := Draining;
      Took(s, StartDrain);
      s := View();
      functors := toDoList;
      toDoList := [];
      phase := Running(functors);
      Took(s, Swap);
    }

    method CallNext(functor: Functor)
      requires Valid() && callingFunctors && !ownWriting
      requires phase.Running? && phase.rest != [] && phase.rest[0] == functor
      modifies this
      ensures Valid() && callingFunctors && !ownWriting && phase == Running(old(phase.rest)[1..])
      ensures ran == old(ran) + [functor]
      ensures toDoList == old(toDoList) + functor.queues && counter == old(counter) + |functor.queues|
    {
      ghost var s := View();
      phase := Running(phase.rest[1..]);
      ran := ran + [functor];
      Took(s, RunOne);
      Call(functor);
    }

    /** Swaps the list out and calls it in order. What those calls queue stays for the next round,
        with the eventfd left readable if there is any. */
    method DoToDoList()
      requires Valid() && phase == Handling(false)
      modifies this
      ensures Valid() && phase.Polling? && !callingFunctors
      ensures ran == old(ran) + old(toDoList)
      ensures toDoList == QueuedBy(old(toDoList)) && counter == old(counter) + |toDoList|
    {
      var functors := SwapOut();
      for i := 0 to |functors|
        invariant Valid() && callingFunctors && phase == Running(functors[i..]) && !ownWriting
        invariant ran == old(ran) + functors[..i]
        invariant toDoList == QueuedBy(functors[..i]) && counter == old(counter) + |toDoList|
      {
        CallNext(functors[i]);
        QueuedBySnoc(functors[..i], functors[i]);
        assert functors[..i] + [functors[i]] == functors[..i + 1] && functors[i..][1..] == functors[i + 1..];
      }
      assert functors[..|functors|] == functors && functors[|functors|..] == [];
      ghost var s := View();
      callingFunctors := false;
      phase := Polling;
      Took(s, EndDrain);
    }
  }
}
