/**
 The life of a TCP connection across two threads: accepted by the main reactor, served by one
 sub-reactor, unmapped by the main reactor after a close, deregistered by its sub-reactor, and
 destroyed (closing its descriptor) when the last shared reference goes away.

 Every handler is cut at the points where another thread can observe it, so a run of `Step`
 is an arbitrary interleaving of the main reactor and all sub-reactors.
 */
module Lifecycle {
  import opened Utils

  /** Connection objects are named by the order in which they are created. */
  type ConnId = nat

  datatype ConnState = Invalid | Connected | Disconnected

  datatype Conn = Conn(
    fd: nat,             // connfd_
    loop: nat,           // index of the sub-reactor the connection is bound to
    connid: nat,         // connid_
    state: ConnState,    // state_
    inEpoll: bool,       // channel_->in_epoll_
    tied: bool,          // channel_->tie_ refers to this connection
    reading: bool,       // EPOLLIN is among the channel's events
    writing: bool,       // EPOLLOUT is among the channel's events
    announced: bool)     // the connect callback has run

  /** One entry of the vector Poll returns: a raw channel pointer and its ready bits. */
  datatype Polled = Polled(id: ConnId, readable: bool, writable: bool)

  /** Each of the two bits calls the read callback once. */
  function Calls(e: Polled): nat {
    (if e.readable then 1 else 0) + (if e.writable then 1 else 0)
  }

  /** `guard` is the connection whose event or timer is being handled, `due` how many callbacks of the
      event are still to be called, `inside` that one has been; `functors` of DoToDoList is split into
      the closures still to run and those already run; both keep their connection alive until the vector
      goes out of scope. */
  datatype Sub = Sub(
    interest: set<ConnId>,
    draining: bool,
    batch: seq<Polled>,
    guard: Option<ConnId>,
    due: nat,
    inside: bool,
    toDo: seq<ConnId>,
    pending: seq<ConnId>,
    done: seq<ConnId>)

  /** How far HandleNewConnection has come with the connection it is creating. */
  datatype AcceptPoint = Constructed | Mapped | Established | Tied | Reading
  datatype Accepting = Idle | InProgress(id: ConnId, at: AcceptPoint)

  datatype System = System(
    conns: seq<Conn>,                 // every connection ever constructed
    live: set<ConnId>,                // those not destroyed yet
    connections: map<nat, ConnId>,    // Server::connections_
    nextConnId: nat,                  // Server::next_conn_id_
    accepting: Accepting,
    draining: bool,                   // the main reactor is inside DoToDoList
    toDo: seq<ConnId>,
    pending: seq<ConnId>,
    done: seq<ConnId>,
    subs: seq<Sub>,
    erased: seq<ConnId>,              // history: unmapped by HandleCloseInLoop
    deregistered: seq<ConnId>)        // history: removed from epoll by ConnectionDestructor

  datatype Action =
    | Accept(fd: nat)
    | AcceptNext
    | MainDrainBegin | MainRun | MainDrainEnd
    | SubPoll(i: nat, events: seq<Polled>)
    | SubBegin(i: nat)
    | SubTimer(i: nat, id: ConnId)
    | SubCall(i: nat)
    | SubWatch(i: nat)
    | SubClose(i: nat)
    | SubEnd(i: nat)
    | SubDrainBegin(i: nat) | SubRun(i: nat) | SubDrainEnd(i: nat)

  const EMPTY_SUB := Sub({}, false, [], None, 0, false, [], [], [])

  function Init(n: nat): System {
    System([], {}, map[], 1, Idle, false, [], [], [], seq(n, _ => EMPTY_SUB), [], [])
  }

  // ---------------------------------------------------------------- ownership

  ghost predicate SubHolds(u: Sub, id: ConnId) {
    id in u.toDo || id in u.pending || id in u.done || u.guard == Some(id)
  }

  /** Some shared_ptr to the connection exists. */
  ghost predicate Referenced(s: System, id: ConnId) {
    || id in s.connections.Values
    || (s.accepting.InProgress? && s.accepting.id == id)
    || id in s.toDo || id in s.pending || id in s.done
    || exists i :: 0 <= i < |s.subs| && SubHolds(s.subs[i], id)
  }

  /** Connections whose last reference has gone are destroyed, which closes their descriptors. */
  ghost function Release(s: System): System {
    s.(live := set id | id in s.live && Referenced(s, id))
  }

  ghost predicate Open(s: System, fd: nat) {
    exists id :: id in s.live && id < |s.conns| && s.conns[id].fd == fd
  }

  // ---------------------------------------------------------------- steps

  /** When each thread may take the step; nothing here rules out a failing assertion. */
  ghost predicate Enabled(s: System, a: Action) {
    match a
    case Accept(fd) => s.accepting.Idle? && !s.draining && |s.subs| > 0 && !Open(s, fd)
    case AcceptNext => s.accepting.InProgress? && s.accepting.id < |s.conns|
    case MainDrainBegin => s.accepting.Idle? && !s.draining
    case MainRun => s.draining && s.pending != [] && s.pending[0] < |s.conns|
                    && s.conns[s.pending[0]].loop < |s.subs|
    case MainDrainEnd => s.draining && s.pending == []
    case SubPoll(i, events) =>
      && i < |s.subs| && !s.subs[i].draining && s.subs[i].batch == [] && s.subs[i].guard == None
      && forall e :: e in events ==>
                       && e.id in s.subs[i].interest
                       && e.id < |s.conns|
                       && (e.readable ==> s.conns[e.id].reading) && (e.writable ==> s.conns[e.id].writing)
    case SubBegin(i) => i < |s.subs| && s.subs[i].batch != [] && s.subs[i].guard == None
    case SubTimer(i, id) =>
      && i < |s.subs| && !s.subs[i].draining && s.subs[i].guard == None
      && id in s.live && id < |s.conns| && s.conns[id].loop == i && s.conns[id].announced
    case SubCall(i) => i < |s.subs| && s.subs[i].guard.Some? && s.subs[i].due > 0
    case SubWatch(i) =>
      && i < |s.subs| && s.subs[i].guard.Some? && s.subs[i].inside && s.subs[i].guard.value < |s.conns|
      && s.conns[s.subs[i].guard.value].state == Connected
    case SubClose(i) =>
      i < |s.subs| && s.subs[i].guard.Some? && s.subs[i].inside && s.subs[i].guard.value < |s.conns|
    case SubEnd(i) => i < |s.subs| && s.subs[i].guard.Some? && s.subs[i].due == 0
    case SubDrainBegin(i) =>
      i < |s.subs| && !s.subs[i].draining && s.subs[i].batch == [] && s.subs[i].guard == None
    case SubRun(i) => i < |s.subs| && s.subs[i].draining && s.subs[i].pending != []
                      && s.subs[i].pending[0] < |s.conns|
    case SubDrainEnd(i) => i < |s.subs| && s.subs[i].draining && s.subs[i].pending == []
  }

  /** Epoll instance i has a channel with the descriptor, so that adding another one would fail. */
  ghost predicate Registered(s: System, i: nat, fd: nat)
    requires i < |s.subs|
  {
    exists id :: id in s.subs[i].interest && id < |s.conns| && s.conns[id].fd == fd
  }

  /** The step would trip an assert or an Errif, drop a mapping, or touch a destroyed channel. */
  ghost predicate Faults(s: System, a: Action)
    requires Enabled(s, a)
  {
    match a
    case Accept(fd) => fd in s.connections || Registered(s, fd % |s.subs|, fd)
    case AcceptNext => s.accepting.id !in s.live || !s.conns[s.accepting.id].inEpoll
    case MainRun =>
      var c := s.conns[s.pending[0]];
      c.fd !in s.connections || s.connections[c.fd] != s.pending[0]
    case SubBegin(i) =>
      var e := s.subs[i].batch[0];
      e.id !in s.live || (Calls(e) > 0 && (e.id >= |s.conns| || !s.conns[e.id].tied))
    case SubCall(i) => s.subs[i].guard.value !in s.live
    case SubWatch(i) =>
      var id := s.subs[i].guard.value;
      id !in s.live || !s.conns[id].inEpoll || id !in s.subs[i].interest
    case SubClose(i) => s.subs[i].guard.value !in s.live
    case SubRun(i) => s.subs[i].pending[0] !in s.live || s.subs[i].pending[0] !in s.subs[i].interest
    case _ => false
  }

  function WithConn(s: System, id: ConnId, c: Conn): System
    requires id < |s.conns|
  {
    s.(conns := s.conns[id := c])
  }

  function WithSub(s: System, i: nat, u: Sub): System
    requires i < |s.subs|
  {
    s.(subs := s.subs[i := u])
  }

  function NextId(n: nat): nat {
    if n + 1 == 1000 then 1 else n + 1
  }

  /** Constructing the connection registers its channel, edge triggered and without events. */
  function Construct(s: System, fd: nat): System
    requires |s.subs| > 0
  {
    var i := fd % |s.subs|;
    var id := |s.conns|;
    var u := s.subs[i];
    s.(conns := s.conns + [Conn(fd, i, s.nextConnId, Invalid, true, false, false, false, false)],
       live := s.live + {id},
       accepting := InProgress(id, Constructed),
       subs := s.subs[i := u.(interest := u.interest + {id})])
  }

  function Advance(s: System): System
    requires s.accepting.InProgress? && s.accepting.id < |s.conns|
  {
    var id := s.accepting.id;
    var c := s.conns[id];
    match s.accepting.at
    case Constructed =>
      s.(connections := s.connections[c.fd := id], nextConnId := NextId(s.nextConnId),
         accepting := InProgress(id, Mapped))
    case Mapped => WithConn(s, id, c.(state := Connected)).(accepting := InProgress(id, Established))
    case Established => WithConn(s, id, c.(tied := true)).(accepting := InProgress(id, Tied))
    case Tied => WithConn(s, id, c.(reading := true)).(accepting := InProgress(id, Reading))
    case Reading => WithConn(s, id, c.(announced := true)).(accepting := Idle)
  }

  /** HandleCloseInLoop on the next closure of the main reactor. */
  function CloseInLoop(s: System): System
    requires s.pending != [] && s.pending[0] < |s.conns| && s.conns[s.pending[0]].loop < |s.subs|
  {
    var id := s.pending[0];
    var c := s.conns[id];
    var u := s.subs[c.loop];
    s.(connections := s.connections - {c.fd},
       subs := s.subs[c.loop := u.(toDo := u.toDo + [id])],
       pending := s.pending[1..], done := s.done + [id], erased := s.erased + [id])
  }

  /** Connection::HandleClose and the hop to the main reactor it starts. */
  function CloseConn(s: System, id: ConnId): System
    requires id < |s.conns|
  {
    if s.conns[id].state == Disconnected then s
    else WithConn(s, id, s.conns[id].(state := Disconnected)).(toDo := s.toDo + [id])
  }

  /** ConnectionDestructor on the next closure of sub-reactor i. */
  function Deregister(s: System, i: nat): System
    requires i < |s.subs| && s.subs[i].pending != [] && s.subs[i].pending[0] < |s.conns|
  {
    var u := s.subs[i];
    var id := u.pending[0];
    WithConn(s, id, s.conns[id].(inEpoll := false)).(
      subs := s.subs[i := u.(interest := u.interest - {id}, pending := u.pending[1..], done := u.done + [id])],
      deregistered := s.deregistered + [id])
  }

  ghost function Apply(s: System, a: Action): System
    requires Enabled(s, a)
  {
    match a
    case Accept(fd) => Construct(s, fd)
    case AcceptNext => Advance(s)
    case MainDrainBegin => s.(draining := true, pending := s.toDo, toDo := [])
    case MainRun => CloseInLoop(s)
    case MainDrainEnd => s.(draining := false, done := [])
    case SubPoll(i, events) => WithSub(s, i, s.subs[i].(batch := events))
    case SubBegin(i) =>
      var u := s.subs[i];
      var calls := Calls(u.batch[0]);
      WithSub(s, i, u.(batch := u.batch[1..], guard := if calls > 0 then Some(u.batch[0].id) else None, due := calls))
    case SubTimer(i, id) => WithSub(s, i, s.subs[i].(guard := Some(id), inside := true))
    case SubCall(i) => WithSub(s, i, s.subs[i].(due := s.subs[i].due - 1, inside := true))
    case SubWatch(i) =>
      var id := s.subs[i].guard.value;
      WithConn(s, id, s.conns[id].(writing := true))
    case SubClose(i) => CloseConn(s, s.subs[i].guard.value)
    case SubEnd(i) => WithSub(s, i, s.subs[i].(guard := None, inside := false))
    case SubDrainBegin(i) =>
      var u := s.subs[i];
      WithSub(s, i, u.(draining := true, pending := u.toDo, toDo := []))
    case SubRun(i) => Deregister(s, i)
    case SubDrainEnd(i) => WithSub(s, i, s.subs[i].(draining := false, done := []))
  }

  ghost function Step(s: System, a: Action): System
    requires Enabled(s, a)
  {
    Release(Apply(s, a))
  }

  /** A run: each action is enabled where it is taken. */
  ghost predicate ValidRun(s: System, run: seq<Action>)
    decreases |run|
  {
    run == [] || (Enabled(s, run[0]) && ValidRun(Step(s, run[0]), run[1..]))
  }

  ghost function RunAll(s: System, run: seq<Action>): System
    requires ValidRun(s, run)
    decreases |run|
  {
    if run == [] then s else RunAll(Step(s, run[0]), run[1..])
  }

  // ---------------------------------------------------------------- invariant

  ghost predicate ConnOk(s: System, id: ConnId)
    requires id < |s.conns|
  {
    var c := s.conns[id];
    && c.loop < |s.subs|
    && (c.tied ==> c.state != Invalid)
    && (c.reading ==> c.tied)
    && (c.writing ==> c.reading)
    && (c.announced ==> c.reading)
    && (c.state == Disconnected ==> c.reading)
    && (id in s.erased ==> c.state == Disconnected)
    && (id in s.deregistered ==> id in s.erased)
    && (c.inEpoll <==> id !in s.deregistered)
    && (id in s.subs[c.loop].interest <==> c.inEpoll)
    && (id !in s.live ==> id in s.deregistered)
    && (id !in s.erased && s.accepting != InProgress(id, Constructed)
        ==> c.fd in s.connections && s.connections[c.fd] == id)
    && ((c.state == Disconnected && id !in s.erased) <==> (id in s.toDo || id in s.pending))
    && ((id in s.erased && id !in s.deregistered)
        <==> (id in s.subs[c.loop].toDo || id in s.subs[c.loop].pending))
    && (c.announced || (s.accepting.InProgress? && s.accepting.id == id))
  }

  ghost predicate AcceptOk(s: System) {
    s.accepting.InProgress? ==>
      var id := s.accepting.id;
      && id < |s.conns| && !s.draining && id !in s.erased
      && var c := s.conns[id];
         var at := s.accepting.at;
      && !c.announced
      && (c.reading <==> at == Reading)
      && (c.tied <==> at == Tied || at == Reading)
      && (at == Constructed || at == Mapped <==> c.state == Invalid)
      && (at == Constructed ==> c.fd !in s.connections)
  }

  ghost predicate MainOk(s: System) {
    && NoDup(s.toDo) && NoDup(s.pending)
    && (forall id :: id in s.toDo ==> id < |s.conns| && id !in s.pending)
    && (forall id :: id in s.pending ==> id < |s.conns|)
    && (forall id :: id in s.done ==> id in s.live && id in s.erased)
    && (!s.draining ==> s.pending == [] && s.done == [])
    && (forall fd :: fd in s.connections ==>
                       && s.connections[fd] < |s.conns|
                       && s.conns[s.connections[fd]].fd == fd
                       && s.connections[fd] !in s.erased)
    && 1 <= s.nextConnId < 1000
  }

  ghost predicate Owned(s: System, i: nat, id: ConnId) {
    id < |s.conns| && s.conns[id].loop == i
  }

  ghost predicate SubOk(s: System, i: nat)
    requires i < |s.subs|
  {
    var u := s.subs[i];
    && NoDup(u.toDo) && NoDup(u.pending)
    && (forall id :: id in u.toDo ==> Owned(s, i, id) && id !in u.pending)
    && (forall id :: id in u.pending ==> Owned(s, i, id))
    && (forall id :: id in u.done ==> Owned(s, i, id) && id in s.live && id in s.deregistered)
    && (forall id :: id in u.interest ==> Owned(s, i, id))
    && (forall e :: e in u.batch ==>
                      && e.id in u.interest && e.id < |s.conns|
                      && (e.readable ==> s.conns[e.id].reading) && (e.writable ==> s.conns[e.id].writing))
    && (u.guard.Some? ==> Owned(s, i, u.guard.value) && u.guard.value in s.live && s.conns[u.guard.value].reading)
    && (u.guard == None ==> u.due == 0 && !u.inside)
    && (u.draining ==> u.batch == [] && u.guard == None)
    && (!u.draining ==> u.pending == [] && u.done == [])
  }

  ghost predicate LiveOk(s: System) {
    && (forall id :: id in s.live ==> id < |s.conns|)
    && (forall a, b :: a in s.live && b in s.live && a != b ==> s.conns[a].fd != s.conns[b].fd)
  }

  ghost predicate LogsOk(s: System) {
    && NoDup(s.erased) && NoDup(s.deregistered)
    && (forall id :: id in s.erased ==> id < |s.conns|)
    && (forall id :: id in s.deregistered ==> id < |s.conns|)
  }

  ghost predicate Core(s: System) {
    && (forall id :: 0 <= id < |s.conns| ==> ConnOk(s, id))
    && (forall i :: 0 <= i < |s.subs| ==> SubOk(s, i))
    && AcceptOk(s) && MainOk(s) && LiveOk(s) && LogsOk(s)
  }

  ghost predicate Inv(s: System) {
    && Core(s)
    && (forall id :: id in s.live ==> Referenced(s, id))
  }

  // ---------------------------------------------------------------- preservation

  /** A connection still in epoll is referenced, so destruction only reaches deregistered ones. */
  lemma RegisteredIsReferenced(s: System, id: ConnId)
    requires Core(s) && id < |s.conns| && id !in s.deregistered
    ensures Referenced(s, id)
  {
    assert ConnOk(s, id);
    var c := s.conns[id];
    if id in s.erased {
      assert SubHolds(s.subs[c.loop], id);
    } else if s.accepting != InProgress(id, Constructed) {
      assert s.connections[c.fd] in s.connections.Values;
    }
  }

  lemma ReleaseKeepsInv(s: System)
    requires Core(s)
    ensures Inv(Release(s))
  {
    var t := Release(s);
    forall id | 0 <= id < |t.conns| ensures ConnOk(t, id) {
      assert ConnOk(s, id);
      if id !in t.live && id !in s.deregistered {
        RegisteredIsReferenced(s, id);
      }
    }
    forall i | 0 <= i < |t.subs| ensures SubOk(t, i) {
      assert SubOk(s, i);
      forall id | SubHolds(s.subs[i], id) ensures Referenced(s, id) {}
    }
    forall id | id in t.live ensures Referenced(t, id) {
      if exists i :: 0 <= i < |s.subs| && SubHolds(s.subs[i], id) {
        var i :| 0 <= i < |s.subs| && SubHolds(s.subs[i], id);
        assert SubHolds(t.subs[i], id);
      }
    }
  }

  lemma MappedIsOpen(s: System, fd: nat)
    requires Inv(s)
    ensures fd in s.connections ==> s.connections[fd] in s.live && Open(s, fd)
  {
    if fd in s.connections {
      assert ConnOk(s, s.connections[fd]);
    }
  }

  lemma AcceptConn(s: System, fd: nat, id: ConnId)
    requires Inv(s) && Enabled(s, Accept(fd)) && id <= |s.conns|
    ensures ConnOk(Construct(s, fd), id)
  {
    assert SubOk(s, fd % |s.subs|);
    if id < |s.conns| { assert ConnOk(s, id); } else { assert !Owned(s, fd % |s.subs|, id); }
  }

  /** A sub-reactor does not notice flags set, or connections added, elsewhere. */
  lemma SubStays(s: System, t: System, i: nat)
    requires i < |s.subs| == |t.subs| && t.subs[i] == s.subs[i] && SubOk(s, i)
    requires |s.conns| <= |t.conns| && t.live == s.live && t.deregistered == s.deregistered
    requires forall id :: 0 <= id < |s.conns| ==>
      && t.conns[id].loop == s.conns[id].loop && (s.conns[id].reading ==> t.conns[id].reading)
      && (s.conns[id].writing ==> t.conns[id].writing)
    ensures SubOk(t, i)
  {
    hide NoDup;
    forall id | Owned(s, i, id) ensures Owned(t, i, id) {}
  }

  lemma AcceptSub(s: System, fd: nat, i: nat)
    requires Inv(s) && Enabled(s, Accept(fd)) && i < |s.subs|
    ensures SubOk(Construct(s, fd), i)
  {
    hide MainOk, AcceptOk, LiveOk, LogsOk, Referenced;
    assert SubOk(s, i);
    forall id | Owned(s, i, id) ensures Owned(Construct(s, fd), i, id) {}
  }

  lemma AcceptRest(s: System, fd: nat)
    requires Inv(s) && Enabled(s, Accept(fd))
    ensures fd !in s.connections
    ensures var t := Construct(s, fd); AcceptOk(t) && MainOk(t) && LiveOk(t) && LogsOk(t)
  {
    MappedIsOpen(s, fd);
    var t := Construct(s, fd);
    forall a, b | a in t.live && b in t.live && a != b ensures t.conns[a].fd != t.conns[b].fd {
      if a == |s.conns| { assert b in s.live; } else if b == |s.conns| { assert a in s.live; }
    }
  }

  lemma AcceptKeeps(s: System, fd: nat)
    requires Inv(s) && Enabled(s, Accept(fd))
    ensures Core(Apply(s, Accept(fd))) && !Faults(s, Accept(fd))
  {
    var t := Apply(s, Accept(fd));
    forall id | 0 <= id < |t.conns| ensures ConnOk(t, id) { AcceptConn(s, fd, id); }
    forall i | 0 <= i < |t.subs| ensures SubOk(t, i) { AcceptSub(s, fd, i); }
    AcceptRest(s, fd);
    AcceptNotRegistered(s, fd);
  }

  /** A descriptor that is not open is in no epoll instance. */
  lemma AcceptNotRegistered(s: System, fd: nat)
    requires Inv(s) && Enabled(s, Accept(fd))
    ensures !Registered(s, fd % |s.subs|, fd)
  {
    var i := fd % |s.subs|;
    assert SubOk(s, i);
    forall id | id in s.subs[i].interest && id < |s.conns| ensures s.conns[id].fd != fd {
      assert Owned(s, i, id) && ConnOk(s, id);
    }
  }

  lemma AdvanceConn(s: System, id: ConnId)
    requires Inv(s) && Enabled(s, AcceptNext) && id < |s.conns|
    ensures ConnOk(Advance(s), id)
  {
    assert ConnOk(s, id) && ConnOk(s, s.accepting.id);
    hide SubOk, MainOk, LiveOk, LogsOk, Referenced;
  }

  lemma AdvanceSub(s: System, i: nat)
    requires Inv(s) && Enabled(s, AcceptNext) && i < |s.subs|
    ensures SubOk(Advance(s), i)
  {
    assert SubOk(s, i);
    hide SubOk, ConnOk, MainOk, LiveOk, LogsOk, Referenced;
    SubStays(s, Advance(s), i);
  }

  /** Changing one connection's flags, not its descriptor, leaves these parts alone. */
  lemma SameDescriptors(s: System, t: System)
    requires LiveOk(s) && LogsOk(s) && |t.conns| == |s.conns| && t.live == s.live
    requires forall id :: 0 <= id < |s.conns| ==> t.conns[id].fd == s.conns[id].fd
    requires t.erased == s.erased
    requires t.deregistered == s.deregistered
             || exists x :: x < |s.conns| && x !in s.deregistered && t.deregistered == s.deregistered + [x]
    ensures LiveOk(t) && LogsOk(t)
  {
  }

  lemma AdvanceRest(s: System)
    requires Inv(s) && Enabled(s, AcceptNext)
    ensures AcceptOk(Advance(s)) && MainOk(Advance(s))
  {
    assert ConnOk(s, s.accepting.id);
  }

  lemma AdvanceKeeps(s: System)
    requires Inv(s) && Enabled(s, AcceptNext)
    ensures Core(Apply(s, AcceptNext)) && !Faults(s, AcceptNext)
  {
    var t := Apply(s, AcceptNext);
    assert ConnOk(s, s.accepting.id);
    forall id | 0 <= id < |t.conns| ensures ConnOk(t, id) { AdvanceConn(s, id); }
    forall i | 0 <= i < |t.subs| ensures SubOk(t, i) { AdvanceSub(s, i); }
    AdvanceRest(s);
    SameDescriptors(s, t);
  }

  lemma MainDrainBeginKeeps(s: System)
    requires Inv(s) && Enabled(s, MainDrainBegin)
    ensures Core(Apply(s, MainDrainBegin))
  {
    var t := Apply(s, MainDrainBegin);
    forall id | 0 <= id < |t.conns| ensures ConnOk(t, id) { assert ConnOk(s, id); }
    forall i | 0 <= i < |t.subs| ensures SubOk(t, i) { assert SubOk(s, i); }
  }

  lemma MainRunConn(s: System, id: ConnId)
    requires Inv(s) && Enabled(s, MainRun) && id < |s.conns|
    ensures ConnOk(CloseInLoop(s), id)
  {
    var x := s.pending[0];
    assert x in s.pending && ConnOk(s, x) && ConnOk(s, id);
    assert s.pending == [x] + CloseInLoop(s).pending;
    assert id in s.pending <==> id == x || id in s.pending[1..];
  }

  lemma MainRunSub(s: System, i: nat)
    requires Inv(s) && Enabled(s, MainRun) && i < |s.subs|
    ensures SubOk(CloseInLoop(s), i)
  {
    hide MainOk, AcceptOk, LiveOk, LogsOk, Referenced;
    var x := s.pending[0];
    assert x in s.pending && ConnOk(s, x) && SubOk(s, i);
    forall id | Owned(s, i, id) ensures Owned(CloseInLoop(s), i, id) {}
  }

  lemma MainRunMain(s: System)
    requires Inv(s) && Enabled(s, MainRun)
    ensures AcceptOk(CloseInLoop(s)) && MainOk(CloseInLoop(s))
  {
    var t := CloseInLoop(s);
    var x := s.pending[0];
    assert x in s.pending && ConnOk(s, x);
    assert forall id :: id in t.pending ==> id in s.pending;
    forall fd | fd in t.connections ensures t.connections[fd] != x {}
  }

  lemma MainRunKeeps(s: System)
    requires Inv(s) && Enabled(s, MainRun)
    ensures Core(Apply(s, MainRun)) && !Faults(s, MainRun)
  {
    var t := Apply(s, MainRun);
    var x := s.pending[0];
    assert x in s.pending && ConnOk(s, x);
    forall id | 0 <= id < |t.conns| ensures ConnOk(t, id) { MainRunConn(s, id); }
    forall i | 0 <= i < |t.subs| ensures SubOk(t, i) { MainRunSub(s, i); }
    MainRunMain(s);
  }

  lemma MainDrainEndKeeps(s: System)
    requires Inv(s) && Enabled(s, MainDrainEnd)
    ensures Core(Apply(s, MainDrainEnd))
  {
    var t := Apply(s, MainDrainEnd);
    forall id | 0 <= id < |t.conns| ensures ConnOk(t, id) { assert ConnOk(s, id); }
    forall i | 0 <= i < |t.subs| ensures SubOk(t, i) { assert SubOk(s, i); }
  }

  /** Steps that only move a sub-reactor's own batch, guard and closures around. */
  ghost predicate SameButSub(s: System, t: System, i: nat) {
    && i < |s.subs| && |t.subs| == |s.subs| && t == s.(subs := s.subs[i := t.subs[i]])
    && t.subs[i].interest == s.subs[i].interest
    && forall id :: (id in s.subs[i].toDo || id in s.subs[i].pending)
                    <==> (id in t.subs[i].toDo || id in t.subs[i].pending)
  }

  lemma SubPhaseCore(s: System, t: System, i: nat)
    requires Inv(s) && SameButSub(s, t, i) && SubOk(t, i)
    ensures Core(t)
  {
    forall id | 0 <= id < |t.conns| ensures ConnOk(t, id) { assert ConnOk(s, id); }
    forall j | 0 <= j < |t.subs| ensures SubOk(t, j) { if j != i { assert SubOk(s, j); } }
  }

  lemma SubTimerSub(s: System, a: Action)
    requires Inv(s) && Enabled(s, a) && a.SubTimer?
    ensures SubOk(Apply(s, a), a.i) && SameButSub(s, Apply(s, a), a.i)
  {
    assert SubOk(s, a.i) && ConnOk(s, a.id);
    hide ConnOk, NoDup, MainOk, AcceptOk, LiveOk, LogsOk, Referenced;
  }

  lemma SubHandlesSub(s: System, a: Action)
    requires Inv(s) && Enabled(s, a) && (a.SubCall? || a.SubEnd?)
    ensures SubOk(Apply(s, a), a.i) && SameButSub(s, Apply(s, a), a.i)
  {
    hide ConnOk, NoDup, MainOk, AcceptOk, LiveOk, LogsOk, Referenced;
    assert SubOk(s, a.i);
  }

  lemma SubDrainsSub(s: System, a: Action)
    requires Inv(s) && Enabled(s, a) && (a.SubPoll? || a.SubDrainBegin? || a.SubDrainEnd?)
    ensures SubOk(Apply(s, a), a.i) && SameButSub(s, Apply(s, a), a.i)
  {
    hide ConnOk, MainOk, AcceptOk, LiveOk, LogsOk, Referenced;
    assert SubOk(s, a.i);
  }

  lemma SubPhaseKeeps(s: System, a: Action)
    requires Inv(s) && Enabled(s, a)
    requires a.SubPoll? || a.SubTimer? || a.SubCall? || a.SubEnd? || a.SubDrainBegin? || a.SubDrainEnd?
    ensures Core(Apply(s, a))
  {
    hide SubOk, ConnOk;
    if a.SubTimer? {
      SubTimerSub(s, a);
    } else if a.SubCall? || a.SubEnd? {
      SubHandlesSub(s, a);
    } else {
      SubDrainsSub(s, a);
    }
    SubPhaseCore(s, Apply(s, a), a.i);
  }

  lemma SubBeginKeeps(s: System, i: nat)
    requires Inv(s) && Enabled(s, SubBegin(i))
    ensures Core(Apply(s, SubBegin(i))) && !Faults(s, SubBegin(i))
  {
    var t := Apply(s, SubBegin(i));
    assert SubOk(s, i);
    var e := s.subs[i].batch[0];
    assert e in s.subs[i].batch && Owned(s, i, e.id) && ConnOk(s, e.id);
    assert forall f :: f in t.subs[i].batch ==> f in s.subs[i].batch;
    assert SubOk(t, i);
    SubPhaseCore(s, t, i);
  }

  lemma SubWatchSub(s: System, i: nat, j: nat)
    requires Inv(s) && Enabled(s, SubWatch(i)) && j < |s.subs|
    ensures SubOk(Apply(s, SubWatch(i)), j)
  {
    assert SubOk(s, j);
    hide SubOk, ConnOk, MainOk, AcceptOk, LiveOk, LogsOk, Referenced;
    SubStays(s, Apply(s, SubWatch(i)), j);
  }

  lemma SubWatchKeeps(s: System, i: nat)
    requires Inv(s) && Enabled(s, SubWatch(i))
    ensures Core(Apply(s, SubWatch(i))) && !Faults(s, SubWatch(i))
  {
    var t := Apply(s, SubWatch(i));
    assert SubOk(s, i) && ConnOk(s, s.subs[i].guard.value);
    forall id | 0 <= id < |t.conns| ensures ConnOk(t, id) { assert ConnOk(s, id); }
    forall j | 0 <= j < |t.subs| ensures SubOk(t, j) { SubWatchSub(s, i, j); }
    hide SubOk, ConnOk;
    SameDescriptors(s, t);
  }

  lemma SubCloseConn(s: System, i: nat, id: ConnId)
    requires Inv(s) && Enabled(s, SubClose(i)) && id < |s.conns|
    ensures ConnOk(CloseConn(s, s.subs[i].guard.value), id)
  {
    assert SubOk(s, i) && ConnOk(s, id) && ConnOk(s, s.subs[i].guard.value);
  }

  lemma SubCloseSub(s: System, i: nat, j: nat)
    requires Inv(s) && Enabled(s, SubClose(i)) && j < |s.subs|
    ensures SubOk(CloseConn(s, s.subs[i].guard.value), j)
  {
    assert SubOk(s, j);
    hide SubOk, ConnOk, MainOk, AcceptOk, LiveOk, LogsOk, Referenced;
    SubStays(s, CloseConn(s, s.subs[i].guard.value), j);
  }

  lemma SubCloseRest(s: System, i: nat)
    requires Inv(s) && Enabled(s, SubClose(i))
    ensures var t := CloseConn(s, s.subs[i].guard.value); AcceptOk(t) && MainOk(t)
  {
    assert SubOk(s, i) && ConnOk(s, s.subs[i].guard.value);
  }

  lemma SubCloseKeeps(s: System, i: nat)
    requires Inv(s) && Enabled(s, SubClose(i))
    ensures Core(Apply(s, SubClose(i))) && !Faults(s, SubClose(i))
  {
    var t := Apply(s, SubClose(i));
    assert SubOk(s, i);
    forall id | 0 <= id < |t.conns| ensures ConnOk(t, id) { SubCloseConn(s, i, id); }
    forall j | 0 <= j < |t.subs| ensures SubOk(t, j) { SubCloseSub(s, i, j); }
    SubCloseRest(s, i);
    SameDescriptors(s, t);
  }

  lemma SubRunConn(s: System, i: nat, id: ConnId)
    requires Inv(s) && Enabled(s, SubRun(i)) && id < |s.conns|
    ensures ConnOk(Deregister(s, i), id)
  {
    assert SubOk(s, i);
    var x := s.subs[i].pending[0];
    assert x in s.subs[i].pending && ConnOk(s, x) && ConnOk(s, id);
    assert s.subs[i].pending == [x] + s.subs[i].pending[1..];
    assert id in s.subs[i].pending <==> id == x || id in s.subs[i].pending[1..];
    assert x !in s.subs[i].pending[1..] && x !in s.subs[i].toDo;
  }

  lemma SubRunSub(s: System, i: nat, j: nat)
    requires Inv(s) && Enabled(s, SubRun(i)) && j < |s.subs|
    ensures SubOk(Deregister(s, i), j)
  {
    hide MainOk, AcceptOk, LiveOk, LogsOk, Referenced;
    assert SubOk(s, i) && SubOk(s, j);
    var t := Deregister(s, i);
    var x := s.subs[i].pending[0];
    assert x in s.subs[i].pending && ConnOk(s, x);
    assert forall id :: id in t.subs[i].pending ==> id in s.subs[i].pending;
    forall id | Owned(s, j, id) ensures Owned(t, j, id) {}
    assert j != i ==> !Owned(s, j, x);
  }

  lemma SubRunRest(s: System, i: nat)
    requires Inv(s) && Enabled(s, SubRun(i))
    ensures var t := Deregister(s, i); AcceptOk(t) && MainOk(t)
    ensures s.subs[i].pending[0] !in s.deregistered && !Faults(s, SubRun(i))
  {
    assert SubOk(s, i);
    var x := s.subs[i].pending[0];
    assert x in s.subs[i].pending && ConnOk(s, x);
  }

  lemma SubRunKeeps(s: System, i: nat)
    requires Inv(s) && Enabled(s, SubRun(i))
    ensures Core(Apply(s, SubRun(i))) && !Faults(s, SubRun(i))
  {
    var t := Apply(s, SubRun(i));
    forall id | 0 <= id < |t.conns| ensures ConnOk(t, id) { SubRunConn(s, i, id); }
    forall j | 0 <= j < |t.subs| ensures SubOk(t, j) { SubRunSub(s, i, j); }
    SubRunRest(s, i);
    SameDescriptors(s, t);
  }

  /** A close of the connection is queued, running or done. */
  ghost predicate CloseOnItsWay(s: System, id: ConnId) {
    id in s.toDo || id in s.pending || id in s.erased
  }

  lemma GuardOk(s: System, i: nat)
    requires Inv(s) && i < |s.subs| && s.subs[i].guard.Some?
    ensures Owned(s, i, s.subs[i].guard.value) && s.conns[s.subs[i].guard.value].reading
    ensures s.subs[i].guard.value in s.live
    ensures s.conns[s.subs[i].guard.value].state == Connected <==> !CloseOnItsWay(s, s.subs[i].guard.value)
  {
    assert SubOk(s, i) && ConnOk(s, s.subs[i].guard.value);
  }

  /** Every step of every thread keeps the invariant, and none of them faults. */
  lemma StepKeepsInv(s: System, a: Action)
    requires Inv(s) && Enabled(s, a)
    ensures Inv(Step(s, a)) && !Faults(s, a)
  {
    match a {
      case Accept(fd) => AcceptKeeps(s, fd);
      case AcceptNext => AdvanceKeeps(s);
      case MainDrainBegin => MainDrainBeginKeeps(s);
      case MainRun => MainRunKeeps(s);
      case MainDrainEnd => MainDrainEndKeeps(s);
      case SubBegin(i) => SubBeginKeeps(s, i);
      case SubCall(i) =>
        GuardOk(s, i);
        SubPhaseKeeps(s, a);
      case SubWatch(i) => SubWatchKeeps(s, i);
      case SubClose(i) => SubCloseKeeps(s, i);
      case SubRun(i) => SubRunKeeps(s, i);
      case _ => SubPhaseKeeps(s, a);
    }
    ReleaseKeepsInv(Apply(s, a));
  }

  // ---------------------------------------------------------------- whole runs

  lemma InitInv(n: nat)
    ensures Inv(Init(n))
  {
    var s := Init(n);
    forall i | 0 <= i < |s.subs| ensures SubOk(s, i) { assert s.subs[i] == EMPTY_SUB; }
  }

  lemma {:induction false} RunKeepsInv(s: System, run: seq<Action>)
    requires Inv(s) && ValidRun(s, run)
    ensures Inv(RunAll(s, run))
    decreases |run|
  {
    if run != [] {
      StepKeepsInv(s, run[0]);
      RunKeepsInv(Step(s, run[0]), run[1..]);
    }
  }

  lemma {:induction false} RunSnoc(s: System, run: seq<Action>, a: Action)
    requires ValidRun(s, run) && Enabled(RunAll(s, run), a)
    ensures ValidRun(s, run + [a]) && RunAll(s, run + [a]) == Step(RunAll(s, run), a)
    decreases |run|
  {
    if run == [] {
      assert run + [a] == [a];
      assert ValidRun(Step(s, a), []) && RunAll(Step(s, a), []) == Step(s, a);
      assert [a][1..] == [];
    } else {
      RunSnoc(Step(s, run[0]), run[1..], a);
      assert (run + [a])[1..] == run[1..] + [a] && (run + [a])[0] == run[0];
    }
  }

  /** The state is one that n sub-reactors and the main reactor can produce together. */
  ghost predicate Reachable(s: System, n: nat) {
    exists run :: ValidRun(Init(n), run) && RunAll(Init(n), run) == s
  }

  lemma ReachableInv(s: System, n: nat)
    requires Reachable(s, n)
    ensures Inv(s)
  {
    var run :| ValidRun(Init(n), run) && RunAll(Init(n), run) == s;
    InitInv(n);
    RunKeepsInv(Init(n), run);
  }

  /** No reachable interleaving trips the assert on the mapping, an epoll error, or a dangling channel. */
  lemma NoFaultEver(s: System, n: nat, a: Action)
    requires Reachable(s, n) && Enabled(s, a)
    ensures !Faults(s, a)
  {
    ReachableInv(s, n);
    StepKeepsInv(s, a);
  }

  /** Who owns a descriptor: while mapped, registered, polled or asked to close, a connection is
      alive, and no two live connections share a descriptor; so none is closed or reused too early. */
  lemma DescriptorsSafe(s: System, n: nat)
    requires Reachable(s, n)
    ensures forall fd :: fd in s.connections ==>
                           && s.connections[fd] in s.live && s.connections[fd] < |s.conns|
                           && s.conns[s.connections[fd]].fd == fd
    ensures forall id :: 0 <= id < |s.conns| && s.conns[id].inEpoll ==> id in s.live
    ensures forall i, e :: 0 <= i < |s.subs| && e in s.subs[i].batch ==> e.id in s.live
    ensures forall id :: id in s.toDo || id in s.pending ==>
                           && id in s.live && id < |s.conns| && id !in s.erased
                           && s.conns[id].fd in s.connections && s.connections[s.conns[id].fd] == id
    ensures forall a, b :: a in s.live && b in s.live && a < |s.conns| && b < |s.conns| && a != b ==>
                             s.conns[a].fd != s.conns[b].fd
  {
    ReachableInv(s, n);
    forall fd | fd in s.connections ensures s.connections[fd] in s.live { MappedIsOpen(s, fd); }
    forall id | 0 <= id < |s.conns| && s.conns[id].inEpoll ensures id in s.live { assert ConnOk(s, id); }
    forall i, e | 0 <= i < |s.subs| && e in s.subs[i].batch ensures e.id in s.live {
      assert SubOk(s, i) && Owned(s, i, e.id);
      assert ConnOk(s, e.id);
    }
    forall id | id in s.toDo || id in s.pending
      ensures && id in s.live && id < |s.conns| && id !in s.erased
              && s.conns[id].fd in s.connections && s.connections[s.conns[id].fd] == id
    {
      assert ConnOk(s, id);
    }
  }

  /** Unmapping and deregistering each happen at most once per connection, in that order, and only
      after it was closed; a destroyed connection went through both. */
  lemma CloseHappensOnce(s: System, n: nat)
    requires Reachable(s, n)
    ensures NoDup(s.erased) && NoDup(s.deregistered)
    ensures forall id :: id in s.deregistered ==> id in s.erased
    ensures forall id :: id in s.erased ==> id < |s.conns| && s.conns[id].state == Disconnected
    ensures forall id :: 0 <= id < |s.conns| && id !in s.live ==> id in s.deregistered
  {
    ReachableInv(s, n);
    forall id | 0 <= id < |s.conns|
      ensures (id in s.deregistered ==> id in s.erased) && (id in s.erased ==> s.conns[id].state == Disconnected)
              && (id !in s.live ==> id in s.deregistered)
    {
      assert ConnOk(s, id);
    }
  }

  ghost predicate Quiet(s: System) {
    && s.accepting.Idle? && !s.draining && s.toDo == []
    && forall i :: 0 <= i < |s.subs| ==> QuietSub(s.subs[i])
  }

  ghost predicate QuietSub(u: Sub) {
    !u.draining && u.toDo == [] && u.guard == None
  }

  /** Nothing leaks: once all queues are empty, exactly the connections never closed are alive,
      mapped and registered, and every closed one has had its descriptor closed. */
  lemma QuietMeansNoLeak(s: System, n: nat)
    requires Reachable(s, n) && Quiet(s)
    ensures forall id :: 0 <= id < |s.conns| ==>
                           && (s.conns[id].state == Disconnected <==> id !in s.live)
                           && (id in s.live <==> s.conns[id].inEpoll)
                           && (id in s.live <==> s.conns[id].fd in s.connections && s.connections[s.conns[id].fd] == id)
  {
    ReachableInv(s, n);
    forall id | 0 <= id < |s.conns|
      ensures && (s.conns[id].state == Disconnected <==> id !in s.live)
              && (id in s.live <==> s.conns[id].inEpoll)
              && (id in s.live <==> s.conns[id].fd in s.connections && s.connections[s.conns[id].fd] == id)
    {
      assert ConnOk(s, id);
      assert QuietSub(s.subs[s.conns[id].loop]);
      if id in s.live {
        assert Referenced(s, id);
        forall i | 0 <= i < |s.subs| ensures !SubHolds(s.subs[i], id) {
          assert SubOk(s, i) && QuietSub(s.subs[i]);
        }
        assert id in s.connections.Values;
        var fd :| fd in s.connections && s.connections[fd] == id;
        assert s.conns[id].fd == fd;
      }
    }
  }

  // ---------------------------------------------------------------- events of closed connections

  /** The assert at the head of Connection::Read, met by each callback of an event. */
  ghost predicate ReadAssertHolds(s: System, i: nat)
    requires Enabled(s, SubCall(i)) && s.subs[i].guard.value < |s.conns|
  {
    s.conns[s.subs[i].guard.value].state == Connected
  }

  /** Exactly when a callback meets that assert: no close of its connection is on its way. */
  lemma CallCondition(s: System, n: nat, i: nat)
    requires Reachable(s, n) && Enabled(s, SubCall(i))
    ensures s.subs[i].guard.value < |s.conns|
    ensures ReadAssertHolds(s, i) <==> !CloseOnItsWay(s, s.subs[i].guard.value)
  {
    ReachableInv(s, n);
    GuardOk(s, i);
  }

  lemma StepFields(s: System, a: Action)
    requires Enabled(s, a)
    ensures Step(s, a).conns == Apply(s, a).conns && Step(s, a).subs == Apply(s, a).subs
  {
  }

  lemma GuardedSub(s: System, i: nat, a: Action)
    requires Enabled(s, a) && i < |s.subs| && s.subs[i].guard.Some? && a != SubEnd(i)
    ensures var t := Apply(s, a);
            && |t.subs| == |s.subs| && t.subs[i].guard == s.subs[i].guard
            && t.subs[i].due == (if a == SubCall(i) then s.subs[i].due - 1 else s.subs[i].due)
            && t.subs[i].inside == (s.subs[i].inside || a == SubCall(i))
  {
    hide Open, Registered;
  }

  /** The connection an action of some thread may close or connect. */
  lemma OtherGuard(s: System, i: nat, a: Action)
    requires Inv(s) && Enabled(s, a) && i < |s.subs| && s.subs[i].guard.Some?
    ensures a.SubClose? && a.i != i ==> s.subs[a.i].guard != s.subs[i].guard
    ensures a.AcceptNext? && s.accepting.id == s.subs[i].guard.value ==> s.accepting.at == Reading
  {
    GuardOk(s, i);
    if a.SubClose? {
      GuardOk(s, a.i);
    }
  }

  predicate TouchesConns(a: Action) {
    a.Accept? || a.AcceptNext? || a.SubWatch? || a.SubClose? || a.SubRun?
  }

  lemma SameConns(s: System, a: Action)
    requires Enabled(s, a) && !TouchesConns(a)
    ensures Apply(s, a).conns == s.conns
  {
    hide Open, Registered;
  }

  lemma GuardedConn(s: System, i: nat, a: Action)
    requires Enabled(s, a) && i < |s.subs| && s.subs[i].guard.Some? && s.subs[i].guard.value < |s.conns|
    requires a.SubClose? && a.i != i ==> s.subs[a.i].guard != s.subs[i].guard
    requires a.AcceptNext? && s.accepting.id == s.subs[i].guard.value ==> s.accepting.at == Reading
    ensures var (t, id) := (Apply(s, a), s.subs[i].guard.value);
            && id < |t.conns|
            && (t.conns[id].state == Connected <==> s.conns[id].state == Connected && a != SubClose(i))
  {
    hide Open, Registered;
    if !TouchesConns(a) {
      hide Apply, Enabled;
      SameConns(s, a);
    }
  }

  /** While sub-reactor i handles an event, nobody but itself closes the connection. */
  lemma GuardedStep(s: System, i: nat, a: Action)
    requires Inv(s) && Enabled(s, a) && i < |s.subs| && s.subs[i].guard.Some? && a != SubEnd(i)
    ensures var (t, id) := (Step(s, a), s.subs[i].guard.value);
            && |t.subs| == |s.subs| && t.subs[i].guard == Some(id) && id < |s.conns| && id < |t.conns|
            && (t.conns[id].state == Connected <==> s.conns[id].state == Connected && a != SubClose(i))
            && t.subs[i].due == (if a == SubCall(i) then s.subs[i].due - 1 else s.subs[i].due)
            && t.subs[i].inside == (s.subs[i].inside || a == SubCall(i))
  {
    hide Inv, Step, Enabled, Apply;
    GuardOk(s, i);
    StepFields(s, a);
    GuardedSub(s, i, a);
    OtherGuard(s, i, a);
    GuardedConn(s, i, a);
  }

  /** No callback of the run meets a connection that is not connected. */
  ghost predicate AssertsHold(s: System, i: nat, run: seq<Action>)
    requires ValidRun(s, run)
    decreases |run|
  {
    run == []
    || ((run[0] == SubCall(i) ==> s.subs[i].guard.value < |s.conns| && ReadAssertHolds(s, i))
        && AssertsHold(Step(s, run[0]), i, run[1..]))
  }

  /** The same read off the steps alone, for a connection that is open at first or is not. */
  predicate CallsWhileOpen(open: bool, i: nat, run: seq<Action>)
    decreases |run|
  {
    run == [] || ((run[0] == SubCall(i) ==> open) && CallsWhileOpen(open && run[0] != SubClose(i), i, run[1..]))
  }

  /** A callback closes the connection, and another callback of the event comes after it. */
  ghost predicate CloseThenCall(i: nat, run: seq<Action>) {
    exists j, k :: 0 <= j < k < |run| && run[j] == SubClose(i) && run[k] == SubCall(i)
  }

  lemma {:induction false} OpenOrNot(open: bool, i: nat, run: seq<Action>)
    ensures CallsWhileOpen(open, i, run) <==> SubCall(i) !in run || (open && !CloseThenCall(i, run))
    decreases |run|
  {
    if run != [] {
      var rest := run[1..];
      OpenOrNot(open && run[0] != SubClose(i), i, rest);
      assert SubCall(i) in run <==> run[0] == SubCall(i) || SubCall(i) in rest;
      if CloseThenCall(i, rest) {
        var j, k :| 0 <= j < k < |rest| && rest[j] == SubClose(i) && rest[k] == SubCall(i);
        assert run[j + 1] == SubClose(i) && run[k + 1] == SubCall(i);
      }
      if CloseThenCall(i, run) {
        var j, k :| 0 <= j < k < |run| && run[j] == SubClose(i) && run[k] == SubCall(i);
        assert rest[k - 1] == SubCall(i) && (j > 0 ==> rest[j - 1] == SubClose(i));
      }
      if run[0] == SubClose(i) && SubCall(i) in rest {
        var k :| 0 <= k < |rest| && rest[k] == SubCall(i);
        assert run[k + 1] == SubCall(i);
      }
    }
  }

  lemma {:induction false} AssertsFollow(s: System, i: nat, run: seq<Action>)
    requires Inv(s) && ValidRun(s, run) && i < |s.subs| && s.subs[i].guard.Some? && SubEnd(i) !in run
    ensures s.subs[i].guard.value < |s.conns|
    ensures AssertsHold(s, i, run) <==> CallsWhileOpen(s.conns[s.subs[i].guard.value].state == Connected, i, run)
    decreases |run|
  {
    hide Inv, Step, Enabled;
    GuardOk(s, i);
    if run != [] {
      assert run[0] in run && forall a :: a in run[1..] ==> a in run;
      GuardedStep(s, i, run[0]);
      StepKeepsInv(s, run[0]);
      AssertsFollow(Step(s, run[0]), i, run[1..]);
    }
  }

  lemma {:induction false} CallsLeft(s: System, i: nat, run: seq<Action>)
    requires Inv(s) && ValidRun(s, run) && i < |s.subs| && s.subs[i].guard.Some? && SubEnd(i) !in run
    ensures s.subs[i].due == 0 ==> SubCall(i) !in run
    ensures s.subs[i].due == 1 && !s.subs[i].inside ==> CallsWhileOpen(true, i, run)
    decreases |run|
  {
    hide Inv, Step;
    if run != [] {
      assert run[0] in run && forall a :: a in run[1..] ==> a in run;
      GuardedStep(s, i, run[0]);
      StepKeepsInv(s, run[0]);
      CallsLeft(Step(s, run[0]), i, run[1..]);
      OpenOrNot(true, i, run[1..]);
    }
  }

  /** A whole event, from its head to any point before its end, whatever other threads do meanwhile:
      all its asserts hold exactly if no callback is called, or no close of the connection is on its
      way at the head and no callback that closes it is followed by another one. With one ready bit there
      is no other one. */
  lemma EventAsserts(s: System, n: nat, i: nat, run: seq<Action>)
    requires Reachable(s, n) && Enabled(s, SubBegin(i))
    requires s.subs[i].batch[0].readable || s.subs[i].batch[0].writable
    requires ValidRun(Step(s, SubBegin(i)), run) && SubEnd(i) !in run
    ensures AssertsHold(Step(s, SubBegin(i)), i, run) <==>
            SubCall(i) !in run || (!CloseOnItsWay(s, s.subs[i].batch[0].id) && !CloseThenCall(i, run))
    ensures SubCall(i) in run && CloseThenCall(i, run) ==> s.subs[i].batch[0].readable && s.subs[i].batch[0].writable
  {
    hide Inv, Step, Enabled, AssertsHold, CloseOnItsWay, CloseThenCall, CallsWhileOpen, Reachable;
    ReachableInv(s, n);
    AtHead(s, i);
    var t := Step(s, SubBegin(i));
    AssertsFollow(t, i, run);
    OpenOrNot(t.conns[t.subs[i].guard.value].state == Connected, i, run);
    CallsLeft(t, i, run);
    OpenOrNot(true, i, run);
  }

  lemma AtHead(s: System, i: nat)
    requires Inv(s) && Enabled(s, SubBegin(i)) && Calls(s.subs[i].batch[0]) > 0
    ensures var (t, e) := (Step(s, SubBegin(i)), s.subs[i].batch[0]);
            && Inv(t) && i < |t.subs| && t.subs[i].guard == Some(e.id) && e.id < |t.conns|
            && t.subs[i].due == Calls(e) && !t.subs[i].inside
            && (t.conns[e.id].state == Connected <==> !CloseOnItsWay(s, e.id))
  {
    StepKeepsInv(s, SubBegin(i));
    assert SubOk(s, i);
    hide ConnOk, MainOk, LogsOk, LiveOk, AcceptOk;
    GuardOk(Step(s, SubBegin(i)), i);
  }

  /** While nothing has been deregistered, no step destroys a connection. */
  lemma StepDestroysNothing(s: System, a: Action)
    requires Inv(s) && Enabled(s, a) && Apply(s, a).deregistered == []
    requires a.Accept? || Apply(s, a).live == s.live
    ensures Step(s, a) == Apply(s, a)
  {
    StepKeepsInv(s, a);
    var t := Apply(s, a);
    forall id | id in t.live ensures id in Step(s, a).live {
      assert id < |t.conns| && ConnOk(Step(s, a), id);
    }
    assert Step(s, a).live == t.live;
  }

  lemma Extend(n: nat, run: seq<Action>, a: Action) returns (run': seq<Action>, t: System)
    requires ValidRun(Init(n), run)
    requires Enabled(RunAll(Init(n), run), a)
    requires Apply(RunAll(Init(n), run), a).deregistered == []
    ensures ValidRun(Init(n), run') && RunAll(Init(n), run') == t
    ensures t == Apply(RunAll(Init(n), run), a) == Step(RunAll(Init(n), run), a)
  {
    hide Enabled, Inv, Step, Faults;
    InitInv(n);
    RunKeepsInv(Init(n), run);
    RunSnoc(Init(n), run, a);
    StepDestroysNothing(RunAll(Init(n), run), a);
    run', t := run + [a], Step(RunAll(Init(n), run), a);
  }

  ghost function Serving(state: ConnState, writing: bool, u: Sub, toDo: seq<ConnId>): System {
    System([Conn(5, 0, 1, state, true, true, true, writing, true)], {0}, map[5 := 0], 2, Idle, false,
           toDo, [], [], [u], [], [])
  }

  const REGISTERED := EMPTY_SUB.(interest := {0})

  lemma EmptyRun(n: nat)
    ensures ValidRun(Init(n), []) && RunAll(Init(n), []) == Init(n)
  {
  }

  /** The first connection of a server with one sub-reactor can be fully established. */
  lemma FirstConnection() returns (run: seq<Action>)
    ensures ValidRun(Init(1), run)
    ensures RunAll(Init(1), run) == Serving(Connected, false, REGISTERED, [])
  {
    hide Inv, Step, ValidRun, RunAll, Release, Faults;
    EmptyRun(1);
    var s;
    run, s := Extend(1, [], Accept(5));
    var subs := [REGISTERED];
    assert 5 % 1 == 0 && s.subs[0].interest == {0} && s.subs == subs;
    assert s.live == {0};
    assert s == System([Conn(5, 0, 1, Invalid, true, false, false, false, false)], {0}, map[], 1,
                       InProgress(0, Constructed), false, [], [], [], subs, [], []);
    run, s := Extend(1, run, AcceptNext);
    run, s := Extend(1, run, AcceptNext);
    run, s := Extend(1, run, AcceptNext);
    run, s := Extend(1, run, AcceptNext);
    run, s := Extend(1, run, AcceptNext);
    assert s.conns == [Conn(5, 0, 1, Connected, true, true, true, false, true)];
  }

  /** The first connection's first event, read by its callback. */
  lemma FirstRead() returns (run: seq<Action>)
    ensures ValidRun(Init(1), run)
    ensures RunAll(Init(1), run) == Serving(Connected, false, REGISTERED.(guard := Some(0), inside := true), [])
  {
    hide Inv, Step, ValidRun, RunAll, Release, Faults;
    run := FirstConnection();
    var e := Polled(0, true, false);
    var s;
    run, s := Extend(1, run, SubPoll(0, [e]));
    assert s == Serving(Connected, false, REGISTERED.(batch := [e]), []);
    run, s := Extend(1, run, SubBegin(0));
    assert [e][1..] == [];
    assert s == Serving(Connected, false, REGISTERED.(guard := Some(0), due := 1), []);
    run, s := Extend(1, run, SubCall(0));
  }

  /** One event later it is closed: still registered, its request queued to the main reactor. */
  lemma FirstClose() returns (run: seq<Action>)
    ensures ValidRun(Init(1), run)
    ensures RunAll(Init(1), run) == Serving(Disconnected, false, REGISTERED.(guard := Some(0), inside := true), [0])
  {
    hide Inv, Step, ValidRun, RunAll, Release, Faults;
    run := FirstRead();
    var s;
    run, s := Extend(1, run, SubClose(0));
  }

  /** The channel stays registered during the two hops of the close, so a second event of a connection
      already closed does reach the assert. */
  lemma LateEventReachable()
    ensures exists s :: Reachable(s, 1) && Enabled(s, SubCall(0))
                        && s.subs[0].guard.value < |s.conns| && !ReadAssertHolds(s, 0) && CloseOnItsWay(s, 0)
  {
    hide Inv, Step, ValidRun, RunAll, Release, Faults;
    var run := FirstClose();
    var s;
    var e := Polled(0, true, false);
    run, s := Extend(1, run, SubEnd(0));
    assert s == Serving(Disconnected, false, REGISTERED, [0]);
    run, s := Extend(1, run, SubPoll(0, [e]));
    assert s == Serving(Disconnected, false, REGISTERED.(batch := [e]), [0]);
    run, s := Extend(1, run, SubBegin(0));
  }

  /** After a short write the connection waits for EPOLLOUT too. */
  lemma ShortWrite() returns (run: seq<Action>)
    ensures ValidRun(Init(1), run) && RunAll(Init(1), run) == Serving(Connected, true, REGISTERED, [])
  {
    hide Inv, Step, ValidRun, RunAll, Release, Faults;
    run := FirstRead();
    var s;
    run, s := Extend(1, run, SubWatch(0));
    run, s := Extend(1, run, SubEnd(0));
  }

  /** One event that is ready for reading and for writing, with no close on its way at its head: its
      first callback closes the connection, its second meets the assert and fails it. */
  lemma SecondCallReachable()
    ensures exists s, run :: (
      && Reachable(s, 1) && Enabled(s, SubBegin(0)) && !CloseOnItsWay(s, s.subs[0].batch[0].id)
      && ValidRun(Step(s, SubBegin(0)), run) && run == [SubCall(0), SubClose(0), SubCall(0)]
      && !AssertsHold(Step(s, SubBegin(0)), 0, run))
  {
    hide Inv, Step, ValidRun, RunAll, Release, Faults, CallsWhileOpen;
    var run, s := TwoCalls();
    EventAsserts(s, 1, 0, [SubCall(0), SubClose(0), SubCall(0)]);
    var next := [SubCall(0), SubClose(0), SubCall(0)];
    assert next[1] == SubClose(0) && next[2] == SubCall(0);
  }

  lemma TwoCalls() returns (run: seq<Action>, s: System)
    ensures ValidRun(Init(1), run) && RunAll(Init(1), run) == s
    ensures s == Serving(Connected, true, REGISTERED.(batch := [Polled(0, true, true)]), [])
    ensures Enabled(s, SubBegin(0)) && ValidRun(Step(s, SubBegin(0)), [SubCall(0), SubClose(0), SubCall(0)])
  {
    hide Inv, Step, ValidRun, RunAll, Release, Faults;
    var e := Polled(0, true, true);
    var run0 := ShortWrite();
    run, s := Extend(1, run0, SubPoll(0, [e]));
    assert s == Serving(Connected, true, REGISTERED.(batch := [e]), []);
    var run1, s1 := Extend(1, run, SubBegin(0));
    assert [e][1..] == [];
    assert s1 == Serving(Connected, true, REGISTERED.(guard := Some(0), due := 2), []);
    var run2, s2 := Extend(1, run1, SubCall(0));
    var run3, s3 := Extend(1, run2, SubClose(0));
    OneStepRun(s3, SubCall(0));
    RunCons(s2, SubClose(0), [SubCall(0)]);
    RunCons(s1, SubCall(0), [SubClose(0)] + [SubCall(0)]);
    assert [SubCall(0)] + ([SubClose(0)] + [SubCall(0)]) == [SubCall(0), SubClose(0), SubCall(0)];
  }

  lemma RunCons(s: System, a: Action, run: seq<Action>)
    requires Enabled(s, a) && ValidRun(Step(s, a), run)
    ensures ValidRun(s, [a] + run)
  {
    assert ([a] + run)[1..] == run;
  }

  lemma OneStepRun(s: System, a: Action)
    requires Enabled(s, a)
    ensures ValidRun(s, [a])
  {
    RunCons(s, a, []);
    assert [a] + [] == [a];
  }
}
