/**
 The handlers of Server and Connection as they update the server's fields. Each appends to `trace`
 the interleaving steps of module Lifecycle it performs, and `Valid` says that the fields are what
 that run produces; so what is proved of every run holds of the fields after any calls.
 */
module ServerThreads {
  import opened Utils
  import opened Lifecycle

  class Server {
    const threads: nat
    var conns: seq<Conn>
    ghost var live: set<ConnId>
    var connections: map<nat, ConnId>
    var nextConnId: nat
    var accepting: Accepting
    var draining: bool
    var toDo: seq<ConnId>
    var pending: seq<ConnId>
    var done: seq<ConnId>
    var subs: seq<Sub>
    ghost var erased: seq<ConnId>
    ghost var deregistered: seq<ConnId>
    ghost var trace: seq<Action>

    ghost function View(): System
      reads this
    {
      System(conns, live, connections, nextConnId, accepting, draining, toDo, pending, done, subs, erased, deregistered)
    }

    ghost predicate Valid()
      reads this
    {
      ValidRun(Init(threads), trace) && RunAll(Init(threads), trace) == View()
    }

    constructor (threads: nat)
      ensures Valid() && View() == Init(threads) && this.threads == threads
    {
      this.threads := threads;
      conns, live, connections, nextConnId := [], {}, map[], 1;
      accepting, draining, toDo, pending, done := Idle, false, [], [], [];
      subs := seq(threads, _ => EMPTY_SUB);
      erased, deregistered, trace := [], [], [];
    }

    lemma ViewReachable()
      requires Valid()
      ensures Reachable(View(), threads) && Inv(View())
    {
      ReachableInv(View(), threads);
    }

    /** One step is complete: references no longer held are dropped, destroying what they kept. */
    ghost method Took(s: System, a: Action)
      requires ValidRun(Init(threads), trace) && RunAll(Init(threads), trace) == s
      requires Enabled(s, a) && View() == Apply(s, a)
      modifies this`live, this`trace
      ensures Valid() && View() == Step(s, a) && trace == old(trace) + [a]
    {
      RunSnoc(Init(threads), trace, a);
      live := Step(s, a).live;
      trace := trace + [a];
    }

    method HandleNewConnection(fd: nat)
      requires Valid() && Enabled(View(), Accept(fd))
      modifies this
      ensures Valid()
      ensures trace == old(trace) + [Accept(fd), AcceptNext, AcceptNext, AcceptNext, AcceptNext, AcceptNext]
      ensures connections == old(connections)[fd := |old(conns)|] && fd !in old(connections)
      ensures nextConnId == if old(nextConnId) == 999 then 1 else old(nextConnId) + 1
      ensures |subs| == |old(subs)| > 0
      ensures subs == old(subs)[fd % |subs| := old(subs)[fd % |subs|].(
                        interest := old(subs)[fd % |subs|].interest + {|old(conns)|})]
      ensures conns == old(conns) + [Conn(fd, fd % |subs|, old(nextConnId), Connected, true, true, true, false, true)]
      ensures toDo == old(toDo) && accepting.Idle?
    {
      hide Inv, ValidRun, RunAll, Faults;
      assert fd !in connections by {
        ViewReachable();
        MappedIsOpen(View(), fd);
      }
      NewConnection(fd);
      MapConnection();
      ConnectionEstablished();
    }

    method NewConnection(fd: nat)
      requires Valid() && Enabled(View(), Accept(fd))
      modifies this
      ensures Valid() && trace == old(trace) + [Accept(fd)]
      ensures View() == Step(old(View()), Accept(fd))
      ensures |subs| == |old(subs)| > 0
      ensures subs == old(subs)[fd % |subs| := old(subs)[fd % |subs|].(
                        interest := old(subs)[fd % |subs|].interest + {|old(conns)|})]
      ensures conns == old(conns) + [Conn(fd, fd % |subs|, old(nextConnId), Invalid, true, false, false, false, false)]
      ensures connections == old(connections) && nextConnId == old(nextConnId) && toDo == old(toDo)
      ensures accepting == InProgress(|old(conns)|, Constructed)
    {
      ghost var s := View();
      var loop := fd % |subs|;
      var conn := |conns|;
      conns := conns + [Conn(fd, loop, nextConnId, Invalid, true, false, false, false, false)];
      live := live + {conn};
      accepting := InProgress(conn, Constructed);
      subs := subs[loop := subs[loop].(interest := subs[loop].interest + {conn})];
      Took(s, Accept(fd));
    }

    method MapConnection()
      requires Valid() && accepting.InProgress? && accepting.at == Constructed && accepting.id < |conns|
      modifies this
      ensures Valid() && trace == old(trace) + [AcceptNext]
      ensures View() == Step(old(View()), AcceptNext)
      ensures nextConnId == if old(nextConnId) == 999 then 1 else old(nextConnId) + 1
      ensures connections == old(connections)[conns[old(accepting).id].fd := old(accepting).id]
      ensures conns == old(conns) && subs == old(subs) && toDo == old(toDo)
      ensures accepting == InProgress(old(accepting).id, Mapped)
    {
      ghost var s := View();
      connections := connections[conns[accepting.id].fd := accepting.id];
      nextConnId := nextConnId + 1;
      if nextConnId == 1000 {
        nextConnId := 1;
      }
      accepting := InProgress(accepting.id, Mapped);
      Took(s, AcceptNext);
    }

    /** Connected, then tied, then listening, then announced, with other threads running between. */
    method ConnectionEstablished()
      requires Valid() && accepting.InProgress? && accepting.at == Mapped && accepting.id < |conns|
      modifies this
      ensures Valid() && trace == old(trace) + [AcceptNext, AcceptNext, AcceptNext, AcceptNext]
      ensures connections == old(connections) && nextConnId == old(nextConnId) && subs == old(subs) && toDo == old(toDo)
      ensures conns == old(conns)[old(accepting).id :=
                         old(conns)[old(accepting).id].(state := Connected, tied := true, reading := true, announced := true)]
      ensures accepting.Idle?
    {
      hide Inv, ValidRun, RunAll, Step, Faults;
      var conn := accepting.id;
      SetConn(conns[conn].(state := Connected), InProgress(conn, Established));
      SetConn(conns[conn].(tied := true), InProgress(conn, Tied));
      SetConn(conns[conn].(reading := true), InProgress(conn, Reading));
      SetConn(conns[conn].(announced := true), Idle);
    }

    method SetConn(c: Conn, next: Accepting)
      requires Valid() && Enabled(View(), AcceptNext) && accepting.at != Constructed
      requires Advance(View()) == WithConn(View(), accepting.id, c).(accepting := next)
      modifies this`conns, this`accepting, this`live, this`trace
      ensures Valid() && trace == old(trace) + [AcceptNext]
      ensures conns == old(conns)[old(accepting).id := c] && accepting == next
    {
      ghost var s := View();
      conns := conns[accepting.id := c];
      accepting := next;
      Took(s, AcceptNext);
    }

    /** The read callback of the event that sub-reactor i handles, up to the assert of Read; `holds` is
        the assert's value, false exactly when a close of the connection is on its way. */
    method CallReadCallback(i: nat) returns (holds: bool)
      requires Valid() && Enabled(View(), SubCall(i))
      modifies this
      ensures Valid() && trace == old(trace) + [SubCall(i)] && conns == old(conns) && toDo == old(toDo)
      ensures |subs| == |old(subs)| && subs[i] == old(subs[i]).(due := old(subs[i]).due - 1, inside := true)
      ensures holds == !CloseOnItsWay(old(View()), old(subs[i]).guard.value)
    {
      hide Inv, ValidRun, RunAll, Step, Faults;
      ghost var s := View();
      ViewReachable();
      CallCondition(s, threads, i);
      holds := conns[subs[i].guard.value].state == Connected;
      subs := subs[i := subs[i].(due := subs[i].due - 1, inside := true)];
      Took(s, SubCall(i));
    }

    /** Connection::HandleClose on sub-reactor i, for the connection whose event it handles. */
    method HandleClose(i: nat)
      requires Valid() && Enabled(View(), SubClose(i))
      modifies this
      ensures Valid() && trace == old(trace) + [SubClose(i)]
      ensures subs == old(subs) && connections == old(connections)
      ensures conns == old(conns)[subs[i].guard.value := old(conns)[subs[i].guard.value].(state := Disconnected)]
      ensures toDo == old(toDo) + if old(conns)[subs[i].guard.value].state == Disconnected then []
                                 else [subs[i].guard.value]
    {
      ghost var s := View();
      var conn := subs[i].guard.value;
      if conns[conn].state != Disconnected {
        conns := conns[conn := conns[conn].(state := Disconnected)];
        toDo := toDo + [conn];
      }
      Took(s, SubClose(i));
    }

    lemma MappingFound()
      requires Valid() && Enabled(View(), MainRun)
      ensures conns[pending[0]].fd in connections && connections[conns[pending[0]].fd] == pending[0]
    {
      ViewReachable();
      NoFaultEver(View(), threads, MainRun);
    }

    lemma StillRegistered(i: nat)
      requires Valid() && Enabled(View(), SubRun(i))
      ensures subs[i].pending[0] in live && subs[i].pending[0] in subs[i].interest
    {
      ViewReachable();
      NoFaultEver(View(), threads, SubRun(i));
    }

    /** The assert on the mapping is written out; it never fails, and finds the connection itself. */
    method HandleCloseInLoop()
      requires Valid() && Enabled(View(), MainRun)
      modifies this
      ensures Valid() && trace == old(trace) + [MainRun]
      ensures var (id, c) := (old(pending[0]), old(conns[pending[0]]));
              && c.fd in old(connections) && old(connections)[c.fd] == id && connections == old(connections) - {c.fd}
              && subs == old(subs)[c.loop := old(subs)[c.loop].(toDo := old(subs)[c.loop].toDo + [id])]
      ensures conns == old(conns)
      ensures erased == old(erased) + [old(pending[0])] && pending == old(pending)[1..]
      ensures done == old(done) + [old(pending[0])] && toDo == old(toDo) && draining
    {
      hide Inv, ValidRun, RunAll, Step, Faults;
      ghost var s := View();
      var conn := pending[0];
      var fd := conns[conn].fd;
      MappingFound();
      assert fd in connections && connections[fd] == conn;
      connections := connections - {fd};
      var loop := conns[conn].loop;
      subs := subs[loop := subs[loop].(toDo := subs[loop].toDo + [conn])];
      pending, done := pending[1..], done + [conn];
      erased := erased + [conn];
      Took(s, MainRun);
    }

    method SwapOutCloses()
      requires Valid() && Enabled(View(), MainDrainBegin)
      modifies this
      ensures Valid() && trace == old(trace) + [MainDrainBegin]
      ensures draining && pending == old(toDo) && toDo == [] && done == old(done) && erased == old(erased)
    {
      ghost var s := View();
      draining, pending, toDo := true, toDo, [];
      Took(s, MainDrainBegin);
    }

    method DropCloses()
      requires Valid() && Enabled(View(), MainDrainEnd)
      modifies this
      ensures Valid() && trace == old(trace) + [MainDrainEnd]
      ensures !draining && done == [] && toDo == old(toDo) && erased == old(erased)
    {
      ghost var s := View();
      draining, done := false, [];
      Took(s, MainDrainEnd);
    }

    lemma CloseEnabled()
      requires Valid() && draining && pending != []
      ensures Enabled(View(), MainRun)
    {
      ViewReachable();
      assert pending[0] in pending && ConnOk(View(), pending[0]);
    }

    lemma ErasedIsHandedOver(id: ConnId)
      requires Valid() && id in erased
      ensures id !in connections.Values && (id !in deregistered ==> QueuedToSub(View(), id))
    {
      ViewReachable();
      assert ConnOk(View(), id);
    }

    method RunCloses()
      requires Valid() && draining && toDo == []
      modifies this
      ensures Valid() && draining && toDo == [] && pending == []
      ensures |trace| == |old(trace)| + |old(pending)| && erased == old(erased + pending)
    {
      hide Inv, ValidRun, RunAll, Step, Faults;
      ghost var closed: seq<ConnId> := [];
      while pending != []
        invariant Valid() && draining && toDo == []
        invariant closed + pending == old(pending) && erased == old(erased) + closed
        invariant |trace| == |old(trace)| + |closed|
        decreases |pending|
      {
        CloseEnabled();
        closed := closed + [pending[0]];
        HandleCloseInLoop();
      }
    }

    /** The main reactor runs all queued closes: each is unmapped and handed to its sub-reactor. */
    method MainDoToDoList()
      requires Valid() && Enabled(View(), MainDrainBegin)
      modifies this
      ensures Valid() && |trace| == |old(trace)| + |old(toDo)| + 2
      ensures erased == old(erased) + old(toDo) && toDo == [] && !draining
      ensures forall id :: id in old(toDo) ==> id !in connections.Values
      ensures forall id :: id in old(toDo) && id !in deregistered ==> QueuedToSub(View(), id)
    {
      SwapOutCloses();
      RunCloses();
      DropCloses();
      forall id | id in old(toDo)
        ensures id !in connections.Values && (id !in deregistered ==> QueuedToSub(View(), id))
      {
        assert id in old(erased) + old(toDo);
        ErasedIsHandedOver(id);
      }
    }

    /** epoll_ctl deletes a descriptor that is registered and whose connection is alive. */
    method ConnectionDestructor(i: nat)
      requires Valid() && Enabled(View(), SubRun(i))
      modifies this
      ensures Valid() && trace == old(trace) + [SubRun(i)]
      ensures |subs| == |old(subs)| && subs[i].draining && subs[i].pending == old(subs[i].pending)[1..]
      ensures subs[i].interest == old(subs[i].interest) - {old(subs[i].pending[0])}
      ensures forall j :: 0 <= j < |subs| && j != i ==> subs[j] == old(subs)[j]
      ensures |subs[i].pending| == |old(subs[i].pending)| - 1
      ensures deregistered == old(deregistered) + [old(subs[i].pending[0])]
      ensures subs[i].done == old(subs[i].done) + [old(subs[i].pending[0])] && subs[i].toDo == old(subs[i].toDo)
    {
      hide Inv, ValidRun, RunAll, Step, Faults;
      ghost var s := View();
      var u := subs[i];
      var conn := u.pending[0];
      StillRegistered(i);
      assert conn in live && conn in u.interest;
      conns := conns[conn := conns[conn].(inEpoll := false)];
      subs := subs[i := u.(interest := u.interest - {conn}, pending := u.pending[1..], done := u.done + [conn])];
      deregistered := deregistered + [conn];
      Took(s, SubRun(i));
    }

    method SwapOutDestructors(i: nat)
      requires Valid() && Enabled(View(), SubDrainBegin(i))
      modifies this
      ensures Valid() && trace == old(trace) + [SubDrainBegin(i)]
      ensures |subs| == |old(subs)| && subs[i] == old(subs[i]).(draining := true, pending := old(subs[i].toDo), toDo := [])
      ensures deregistered == old(deregistered)
    {
      ghost var s := View();
      subs := subs[i := subs[i].(draining := true, pending := subs[i].toDo, toDo := [])];
      Took(s, SubDrainBegin(i));
    }

    /** Dropping the closures destroys their connections, unless the main reactor holds them too. */
    method DropDestructors(i: nat)
      requires Valid() && Enabled(View(), SubDrainEnd(i)) && subs[i].toDo == []
      modifies this
      ensures Valid() && trace == old(trace) + [SubDrainEnd(i)] && deregistered == old(deregistered)
      ensures forall id :: id in old(subs[i].done) ==> id !in live || id in done
    {
      ghost var s := View();
      ViewReachable();
      assert SubOk(s, i);
      subs := subs[i := subs[i].(draining := false, done := [])];
      Took(s, SubDrainEnd(i));
      forall id | id in s.subs[i].done ensures id !in live || id in done {
        ViewReachable();
        assert Owned(s, i, id);
        OnlyMainHolds(View(), i, id);
      }
    }

    lemma DestructorEnabled(i: nat)
      requires Valid() && i < |subs| && subs[i].draining && subs[i].pending != []
      ensures Enabled(View(), SubRun(i))
    {
      ViewReachable();
      assert SubOk(View(), i) && subs[i].pending[0] in subs[i].pending;
      assert Owned(View(), i, subs[i].pending[0]);
    }

    method RunDestructors(i: nat)
      requires Valid() && i < |subs| && subs[i].draining && subs[i].toDo == []
      modifies this
      ensures Valid() && |subs| == |old(subs)| && subs[i].draining && subs[i].toDo == [] && subs[i].pending == []
      ensures |trace| == |old(trace)| + |old(subs[i].pending)|
      ensures subs[i].done == old(subs[i].done + subs[i].pending)
      ensures deregistered == old(deregistered + subs[i].pending)
    {
      hide Inv, ValidRun, RunAll, Step, Faults;
      ghost var closed: seq<ConnId> := [];
      while subs[i].pending != []
        invariant Valid() && |subs| == |old(subs)| && subs[i].draining && subs[i].toDo == []
        invariant closed + subs[i].pending == old(subs[i].pending)
        invariant subs[i].done == old(subs[i].done) + closed && deregistered == old(deregistered) + closed
        invariant |trace| == |old(trace)| + |closed|
        decreases |subs[i].pending|
      {
        DestructorEnabled(i);
        closed := closed + [subs[i].pending[0]];
        ConnectionDestructor(i);
      }
    }

    /** A sub-reactor runs all queued destructors: each connection leaves epoll, and its descriptor
        is closed unless the main reactor's own closure still holds it. */
    method SubDoToDoList(i: nat)
      requires Valid() && Enabled(View(), SubDrainBegin(i))
      modifies this
      ensures Valid() && |trace| == |old(trace)| + |old(subs[i].toDo)| + 2
      ensures deregistered == old(deregistered) + old(subs[i].toDo)
      ensures forall id :: id in old(subs[i].toDo) ==> id !in live || id in done
    {
      assert subs[i].done == [] by { ViewReachable(); assert SubOk(View(), i); }
      SwapOutDestructors(i);
      RunDestructors(i);
      DropDestructors(i);
    }
  }

  ghost predicate QueuedToSub(s: System, id: ConnId) {
    id < |s.conns| && s.conns[id].loop < |s.subs|
    && (id in s.subs[s.conns[id].loop].toDo || id in s.subs[s.conns[id].loop].pending)
  }

  /** A deregistered connection whose sub-reactor is between drains and events. */
  lemma OnlyMainHolds(s: System, i: nat, id: ConnId)
    requires Inv(s) && i < |s.subs| && !s.subs[i].draining && s.subs[i].toDo == [] && s.subs[i].guard == None
    requires id in s.deregistered && s.conns[id].loop == i
    ensures id !in s.live || id in s.done
  {
    assert ConnOk(s, id);
    forall j | 0 <= j < |s.subs| ensures !SubHolds(s.subs[j], id) {
      assert SubOk(s, j) && (j != i ==> !Owned(s, j, id));
    }
    assert forall fd :: fd in s.connections ==> s.connections[fd] != id;
  }
}
