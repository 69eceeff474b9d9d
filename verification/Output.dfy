/**
 A connection's output path: Send and WriteNonBlocking over partial writes, full socket buffers and
 errors. The bytes given to the socket, followed by the send buffer, are proved to be the bytes sent,
 on exactly the steps without a hard error and without the buffer's faulty branch.
 */
module Outputs {
  import opened Utils
  import opened Buffers

  /** What a write call reports: bytes taken, EAGAIN or EWOULDBLOCK, or another error. */
  datatype WriteResult = Wrote(n: nat) | Again | Failed

  /** `wire` is what the socket has taken, `sent` what Send was given, `watching` the EPOLLOUT interest. */
  datatype Out = Out(buffer: Buf, wire: string, sent: string, watching: bool)

  datatype Action = Send(msg: string, result: WriteResult) | Flush(result: WriteResult)

  predicate Good(o: Out) {
    Valid(o.buffer) && o.wire + Content(o.buffer) == o.sent
  }

  /** What the operating system may report: no more bytes than were offered. */
  predicate Possible(o: Out, a: Action)
    requires Valid(o.buffer)
  {
    a.result.Wrote? ==> a.result.n <= if a.Send? then |a.msg| else |Content(o.buffer)|
  }

  /** Bytes of the message that go straight to the socket; only an empty buffer lets them. */
  function Direct(o: Out, msg: string, result: WriteResult): nat
    requires Valid(o.buffer)
  {
    if Content(o.buffer) == "" && result.Wrote? && result.n <= |msg| then result.n else 0
  }

  /** None: the buffer has been overrun. */
  function AfterSend(o: Out, msg: string, result: WriteResult): Option<Out>
    requires Valid(o.buffer)
  {
    var all := o.sent + msg;
    if Content(o.buffer) == "" && result == Failed then Some(o.(sent := all))
    else
      var n := Direct(o, msg, result);
      if n == |msg| then Some(o.(wire := o.wire + msg, sent := all))
      else
        match Put(o.buffer, msg[n..])
        case None => None
        case Some(b) => Some(Out(b, o.wire + msg[..n], all, true))
  }

  function AfterFlush(o: Out, result: WriteResult): Out
    requires Valid(o.buffer) && Possible(o, Flush(result))
  {
    match result
    case Wrote(n) => o.(buffer := Take(o.buffer, n), wire := o.wire + Content(o.buffer)[..n])
    case Again => o.(buffer := Take(o.buffer, 0))
    case Failed => o.(buffer := Take(o.buffer, -1))
  }

  function After(o: Out, a: Action): Option<Out>
    requires Valid(o.buffer) && Possible(o, a)
  {
    match a
    case Send(msg, result) => AfterSend(o, msg, result)
    case Flush(result) => Some(AfterFlush(o, result))
  }

  /** The steps that lose or invent bytes: a hard error, which Send answers by dropping the message and
      WriteNonBlocking by retrieving -1 bytes, and an append that takes the buffer's faulty branch. */
  predicate Faulty(o: Out, a: Action)
    requires Valid(o.buffer)
  {
    match a
    case Flush(result) => result == Failed
    case Send(msg, result) =>
      if Content(o.buffer) == "" && result == Failed then msg != ""
      else Compacts(o.buffer, |msg| - Direct(o, msg, result))
  }

  /** One step keeps the account of bytes exactly when it is not faulty. */
  lemma KeptExactlyUnlessFaulty(o: Out, a: Action)
    requires Good(o) && Possible(o, a)
    ensures (After(o, a).Some? && Good(After(o, a).value)) <==> !Faulty(o, a)
  {
    match a
    case Send(msg, result) => SendKeeps(o, msg, result);
    case Flush(result) => FlushKeeps(o, result);
  }

  lemma SendKeeps(o: Out, msg: string, result: WriteResult)
    requires Good(o) && Possible(o, Send(msg, result))
    ensures (AfterSend(o, msg, result).Some? && Good(AfterSend(o, msg, result).value)) <==> !Faulty(o, Send(msg, result))
  {
    hide Put, Compacts;
    var n := Direct(o, msg, result);
    if Content(o.buffer) == "" && result == Failed {
      assert |o.wire + ""| == |o.sent|;
      assert msg == "" ==> o.sent + msg == o.sent;
    } else if n == |msg| {
      NothingToAdd(o.buffer);
      assert msg != "" ==> Content(o.buffer) == "";
      SentAtOnce(o.wire, msg, Content(o.buffer));
    } else {
      PutAppends(o.buffer, msg[n..]);
      SentInPart(o.wire, msg, n, Content(o.buffer));
    }
  }

  lemma SentAtOnce(wire: string, msg: string, c: string)
    requires msg == "" || c == ""
    ensures (wire + msg) + c == (wire + c) + msg
  {
  }

  lemma SentInPart(wire: string, msg: string, n: nat, c: string)
    requires n <= |msg| && (n == 0 || c == "")
    ensures (wire + msg[..n]) + (c + msg[n..]) == (wire + c) + msg
  {
  }

  lemma NothingToAdd(b: Buf)
    requires Valid(b)
    ensures !Compacts(b, 0)
  {
  }

  lemma FlushKeeps(o: Out, result: WriteResult)
    requires Good(o) && Possible(o, Flush(result))
    ensures Good(AfterFlush(o, result)) <==> result != Failed
  {
    var c := Content(o.buffer);
    match result
    case Wrote(n) =>
      TakeDrops(o.buffer, n);
      assert (o.wire + c[..n]) + c[n..] == o.wire + c;
    case Again =>
      TakeDrops(o.buffer, 0);
    case Failed =>
      var b := Take(o.buffer, -1);
      assert Valid(b) ==> |Content(b)| == |c| + 1;
      assert |o.wire + c| == |o.sent|;
  }

  /** The final state of a run; None when a step is impossible or overruns the buffer. */
  function RunAll(o: Out, actions: seq<Action>): Option<Out>
    decreases |actions|
  {
    if actions == [] then Some(o)
    else if !Valid(o.buffer) || !Possible(o, actions[0]) then None
    else match After(o, actions[0]) case None => None case Some(next) => RunAll(next, actions[1..])
  }

  /** No step of the run is faulty. */
  predicate Sound(o: Out, actions: seq<Action>)
    decreases |actions|
  {
    actions != [] && Valid(o.buffer) && Possible(o, actions[0]) ==>
      !Faulty(o, actions[0]) && (After(o, actions[0]).Some? ==> Sound(After(o, actions[0]).value, actions[1..]))
  }

  function AllSent(actions: seq<Action>): string {
    if actions == [] then ""
    else (if actions[0].Send? then actions[0].msg else "") + AllSent(actions[1..])
  }

  /** Over any run of partial writes and full socket buffers: the bytes given to the socket, followed by
      the send buffer, are all messages in the order of their sending. */
  lemma {:induction false} StreamConserved(o: Out, actions: seq<Action>)
    requires Good(o) && Sound(o, actions) && RunAll(o, actions).Some?
    ensures var last := RunAll(o, actions).value;
            Valid(last.buffer) && last.wire + Content(last.buffer) == o.sent + AllSent(actions)
    decreases |actions|
  {
    if actions != [] {
      var a, rest := actions[0], actions[1..];
      KeptExactlyUnlessFaulty(o, a);
      var next := After(o, a).value;
      StreamConserved(next, rest);
      Assoc(o.sent, if a.Send? then a.msg else "", AllSent(rest));
      assert a.Flush? ==> o.sent + "" == o.sent && next.sent == o.sent;
    }
  }

  const FRESH := Out(EMPTY, "", "", false)

  /** From a new connection: the socket has seen a prefix of what was sent. */
  lemma WireIsPrefix(actions: seq<Action>)
    requires Sound(FRESH, actions) && RunAll(FRESH, actions).Some?
    ensures RunAll(FRESH, actions).value.wire <= AllSent(actions)
  {
    StreamConserved(FRESH, actions);
    assert "" + AllSent(actions) == AllSent(actions);
  }

  // ---------------------------------------------------------------- nothing but sending

  /** Sends that meet no hard error; the operating system takes no more than it is offered. */
  predicate OnlySends(actions: seq<Action>) {
    forall a :: a in actions ==> a.Send? && a.result != Failed && (a.result.Wrote? ==> a.result.n <= |a.msg|)
  }

  /** A buffer nothing has been retrieved from grows where it is, and never compacts. */
  lemma PutAtFront(b: Buf, msg: string)
    requires Valid(b) && b.read == PREPEND
    ensures !Compacts(b, |msg|) && Put(b, msg).Some? && Put(b, msg).value.read == PREPEND
  {
    PutAppends(b, msg);
  }

  lemma SendAtFront(o: Out, a: Action)
    requires Good(o) && o.buffer.read == PREPEND && OnlySends([a])
    ensures Possible(o, a) && !Faulty(o, a) && After(o, a).Some?
    ensures Good(After(o, a).value) && After(o, a).value.buffer.read == PREPEND
  {
    assert a in [a];
    var n := Direct(o, a.msg, a.result);
    PutAtFront(o.buffer, a.msg[n..]);
    hide Compacts, Put;
    KeptExactlyUnlessFaulty(o, a);
  }

  lemma {:induction false} SendsAreSound(o: Out, actions: seq<Action>)
    requires Good(o) && o.buffer.read == PREPEND && OnlySends(actions)
    ensures Sound(o, actions) && RunAll(o, actions).Some?
    decreases |actions|
  {
    hide Good, Faulty, Possible, After;
    if actions != [] {
      assert actions[0] in actions;
      assert Valid(o.buffer) by { GoodIsValid(o); }
      SendAtFront(o, actions[0]);
      SendsAreSound(After(o, actions[0]).value, actions[1..]);
    }
  }

  lemma GoodIsValid(o: Out)
    requires Good(o)
    ensures Valid(o.buffer)
  {
  }

  /** A connection that only sends, as every one driven by events does: through any short writes and
      full socket buffers no byte is lost, and the socket has seen a prefix of what was sent. */
  lemma SendsConserved(actions: seq<Action>)
    requires OnlySends(actions)
    ensures RunAll(FRESH, actions).Some?
    ensures var last := RunAll(FRESH, actions).value;
            Valid(last.buffer) && last.wire + Content(last.buffer) == AllSent(actions) && last.wire <= AllSent(actions)
  {
    assert "" + Content(EMPTY) == "";
    SendsAreSound(FRESH, actions);
    StreamConserved(FRESH, actions);
    assert "" + AllSent(actions) == AllSent(actions);
  }

  /** EPOLLOUT interest and a filled send buffer go together while nothing is retrieved from it. */
  ghost predicate WatchesWhatIsKept(o: Out) {
    Valid(o.buffer) && o.buffer.read == PREPEND && (o.watching <==> Content(o.buffer) != "")
  }

  lemma SendWatches(o: Out, msg: string, result: WriteResult)
    requires WatchesWhatIsKept(o) && Possible(o, Send(msg, result))
    ensures AfterSend(o, msg, result).Some? && WatchesWhatIsKept(AfterSend(o, msg, result).value)
  {
    var part := msg[Direct(o, msg, result)..];
    PutAtFront(o.buffer, part);
    PutAppends(o.buffer, part);
    assert |Content(o.buffer) + part| == |Content(o.buffer)| + |part|;
  }

  lemma {:induction false} KeepsWatch(o: Out, actions: seq<Action>)
    requires WatchesWhatIsKept(o) && forall a :: a in actions ==> a.Send?
    requires RunAll(o, actions).Some?
    ensures WatchesWhatIsKept(RunAll(o, actions).value)
    decreases |actions|
  {
    hide WatchesWhatIsKept, AfterSend, Possible;
    if actions != [] {
      var a := actions[0];
      assert a in actions;
      SendWatches(o, a.msg, a.result);
      KeepsWatch(AfterSend(o, a.msg, a.result).value, actions[1..]);
    }
  }

  /** The interest in writability is set exactly if some send has left bytes in the send buffer: whatever
      is sent and whatever the writes report, from a new connection on. */
  lemma WatchedIffKept(actions: seq<Action>)
    requires (forall a :: a in actions ==> a.Send?) && RunAll(FRESH, actions).Some?
    ensures var last := RunAll(FRESH, actions).value;
            Valid(last.buffer) && (last.watching <==> Content(last.buffer) != "")
  {
    KeepsWatch(FRESH, actions);
  }

  // ---------------------------------------------------------------- event dispatch

  datatype Callback = ReadCallback | WriteCallback

  /** The callbacks that an event with these bits calls, on a channel that has both. */
  function Called(readable: bool, writable: bool): seq<Callback> {
    (if readable then [ReadCallback] else []) + (if writable then [ReadCallback] else [])
  }

  /** A channel's ready events, and the callbacks that HandleEventWithGuard calls for them. */
  class Channel {
    var readyIn: bool
    var readyPri: bool
    var readyOut: bool
    var listenOut: bool
    var hasReadCallback: bool
    var hasWriteCallback: bool

    constructor ()
      ensures !listenOut && !readyIn && !readyPri && !readyOut && hasReadCallback && hasWriteCallback
    {
      readyIn, readyPri, readyOut, listenOut := false, false, false, false;
      hasReadCallback, hasWriteCallback := true, true;
    }

    method EnableWrite()
      modifies this`listenOut
      ensures listenOut
    {
      listenOut := true;
    }

    /** Writability calls the read callback, and nothing calls the write callback. */
    method HandleEventWithGuard() returns (called: seq<Callback>)
      ensures called == if hasReadCallback then Called(readyIn || readyPri, readyOut) else []
      ensures hasReadCallback && (readyIn || readyPri) && readyOut ==> called == [ReadCallback, ReadCallback]
      ensures hasReadCallback && (readyIn || readyPri) != readyOut ==> called == [ReadCallback]
      ensures !hasReadCallback || !(readyIn || readyPri || readyOut) ==> called == []
    {
      called := [];
      if readyIn || readyPri {
        if hasReadCallback {
          called := called + [ReadCallback];
        }
      }
      if readyOut {
        if hasReadCallback {
          called := called + [ReadCallback];
        }
      }
    }
  }

  /** What happens to a connection in its event loop: a message is sent, or an event is dispatched. What
      the read callback sends is a happening of its own; `result` is the write call's, should the write
      callback be called. */
  datatype Happening = Sending(msg: string, result: WriteResult) | Event(readable: bool, writable: bool, result: WriteResult)

  function Flushes(called: seq<Callback>, result: WriteResult): seq<Action> {
    if called == [] then []
    else (if called[0] == WriteCallback then [Flush(result)] else []) + Flushes(called[1..], result)
  }

  function ActionsOf(h: Happening): seq<Action> {
    match h
    case Sending(msg, result) => [Send(msg, result)]
    case Event(readable, writable, result) => Flushes(Called(readable, writable), result)
  }

  function AllActions(hs: seq<Happening>): seq<Action> {
    if hs == [] then [] else ActionsOf(hs[0]) + AllActions(hs[1..])
  }

  lemma {:induction false} NoFlush(called: seq<Callback>, result: WriteResult)
    requires WriteCallback !in called
    ensures Flushes(called, result) == []
    decreases |called|
  {
    if called != [] {
      NoFlush(called[1..], result);
    }
  }

  /** No event of a loop, in any combination of bits, flushes the send buffer. */
  lemma {:induction false} EventsOnlySend(hs: seq<Happening>)
    ensures forall a :: a in AllActions(hs) ==> a.Send?
    decreases |hs|
  {
    if hs != [] {
      if hs[0].Event? {
        NoFlush(Called(hs[0].readable, hs[0].writable), hs[0].result);
      }
      EventsOnlySend(hs[1..]);
    }
  }

  lemma {:induction false} SendsStall(o: Out, actions: seq<Action>)
    requires Valid(o.buffer) && Content(o.buffer) != ""
    requires (forall a :: a in actions ==> a.Send?) && RunAll(o, actions).Some?
    ensures var last := RunAll(o, actions).value;
            Valid(last.buffer) && last.wire == o.wire && Content(last.buffer) == Content(o.buffer) + AllSent(actions)
    decreases |actions|
  {
    if actions != [] {
      var a, rest := actions[0], actions[1..];
      var next := After(o, a).value;
      PutAppends(o.buffer, a.msg);
      assert a.msg[0..] == a.msg && o.wire + a.msg[..0] == o.wire;
      assert a.msg == "" ==> Content(o.buffer) + a.msg == Content(o.buffer);
      assert Content(next.buffer) == Content(o.buffer) + a.msg;
      SendsStall(next, rest);
      Assoc(Content(o.buffer), a.msg, AllSent(rest));
    }
  }

  /** From the first short write on the socket sees nothing more, however many events report it writable
      and whatever is sent. */
  lemma ShortWriteStalls(o: Out, hs: seq<Happening>)
    requires Valid(o.buffer) && Content(o.buffer) != "" && RunAll(o, AllActions(hs)).Some?
    ensures var last := RunAll(o, AllActions(hs)).value;
            && Valid(last.buffer) && last.wire == o.wire
            && Content(last.buffer) == Content(o.buffer) + AllSent(AllActions(hs))
  {
    EventsOnlySend(hs);
    SendsStall(o, AllActions(hs));
  }

  // ---------------------------------------------------------------- the class

  /** The output half of Connection. The operating system's answers are parameters. */
  class Connection {
    const sendBuffer: Buffer
    const channel: Channel
    ghost var wire: string
    ghost var sent: string

    ghost predicate Valid()
      reads this, sendBuffer
    {
      sendBuffer.Valid()
    }

    ghost function Value(): Out
      reads this, sendBuffer, sendBuffer.data, channel
    {
      Out(sendBuffer.Value(), wire, sent, channel.listenOut)
    }

    constructor ()
      ensures Valid() && Value() == FRESH && wire == sent == "" && !channel.listenOut
      ensures fresh(sendBuffer) && fresh(channel) && fresh(sendBuffer.data)
    {
      sendBuffer := new Buffer();
      channel := new Channel();
      wire, sent := "", "";
    }

    /** False when the append to the send buffer has overrun it. What an empty buffer lets through goes to
        the socket, the rest behind the buffer's content, and a rest asks for writability. */
    method Send(msg: string, result: WriteResult) returns (inside: bool)
      requires Valid() && Possible(Value(), Action.Send(msg, result))
      modifies this, sendBuffer, sendBuffer.data, channel`listenOut
      ensures var empty := old(sendBuffer.read == sendBuffer.write);
              var direct := if empty && result.Wrote? then result.n else 0;
              && wire == old(wire) + msg[..direct] && sent == old(sent) + msg
              && if |msg| > direct && !(empty && result == Failed) then
                   && channel.listenOut
                   && (inside ==>
                         && Valid()
                         && Content(sendBuffer.Value()) == old(Content(sendBuffer.Value())) + msg[direct..])
                 else
                   && inside && channel.listenOut == old(channel.listenOut)
                   && sendBuffer.Value() == old(sendBuffer.Value())
      ensures inside == AfterSend(old(Value()), msg, result).Some?
      ensures inside ==> Valid() && Value() == AfterSend(old(Value()), msg, result).value
      ensures sendBuffer.data == old(sendBuffer.data) || fresh(sendBuffer.data)
    {
      hide Put;
      var remaining, sendBytes := |msg|, 0;
      sent := sent + msg;
      if sendBuffer.ReadAbleBytes() == 0 {
        match result
        case Wrote(n) =>
          sendBytes := n;
          remaining := remaining - sendBytes;
          wire := wire + msg[..n];
        case Again =>
        case Failed =>
          return true;
      }
      inside := true;
      if remaining > 0 {
        assert msg[..0] == "" && wire + "" == wire;
        inside := sendBuffer.Append(msg[sendBytes..]);
        channel.EnableWrite();
      }
    }

    method WriteNonBlocking(result: WriteResult)
      requires Valid() && Possible(Value(), Flush(result))
      modifies this`wire, sendBuffer
      ensures Value() == AfterFlush(old(Value()), result)
      ensures var content := old(Content(sendBuffer.Value()));
              match result
              case Wrote(n) =>
                Valid() && wire == old(wire) + content[..n] && Content(sendBuffer.Value()) == content[n..]
              case Again => Valid() && wire == old(wire) && Content(sendBuffer.Value()) == content
              case Failed =>
                && wire == old(wire) && sendBuffer.write == old(sendBuffer.write)
                && sendBuffer.read == old(sendBuffer.read) - 1
    {
      var sendBytes: int := 0;
      match result {
        case Wrote(n) =>
          wire := wire + sendBuffer.data[sendBuffer.read..sendBuffer.read + n];
          sendBytes := n;
        case Again =>
        case Failed =>
          sendBytes := -1;
      }
      sendBuffer.Retrieve(sendBytes);
    }
  }
}
