/**
 HttpServer: the handlers for messages, requests and idle connections. The idle check is a step system
 over one connection's life; the bounds on closing are proved over all its runs.
 */
module HttpServers {
  import opened Utils
  import opened HttpGrammar
  import opened HttpParser
  import H = HttpResponses
  import O = Outputs
  import Decimal

  // ---------------------------------------------------------------- closing idle connections

  /** AUTOCLOSETIMEOUT, in microseconds. */
  const TIMEOUT := 100_000_000

  datatype Life = Open | Closed | Freed

  /** `last` is the time of the last message (0 before the first), `due` when the pending checks are to
      run, `idledAt` when a check closed the connection. */
  datatype Idle = Idle(life: Life, last: int, spoken: bool, due: seq<int>, clock: int, since: int, idledAt: Option<int>)

  /** A check reads the clock twice, to decide and to set the next check. */
  datatype Event = Message(now: int) | Check(now: int, later: int) | OtherClose(now: int) | Free(now: int) | Tick(now: int)

  function Established(start: int): Idle {
    Idle(Open, 0, false, [start + TIMEOUT], start, start, None)
  }

  function EndOf(e: Event): int {
    if e.Check? then e.later else e.now
  }

  predicate Possible(s: Idle, e: Event) {
    && s.clock <= e.now <= EndOf(e)
    && (e.Check? ==> s.due != [] && s.due[0] <= e.now)
    && (e.Free? ==> s.life != Open)
  }

  function AfterEvent(s: Idle, e: Event): Idle
    requires Possible(s, e)
  {
    var t := s.(clock := EndOf(e));
    match e
    case Message(now) => if s.life == Open then t.(last := now, spoken := true) else t
    case OtherClose(_) => if s.life == Open then t.(life := Closed) else t
    case Free(_) => t.(life := Freed)
    case Tick(_) => t
    case Check(now, later) =>
      if s.life == Freed then t.(due := s.due[1..])
      else if s.last + TIMEOUT < now then
        t.(due := s.due[1..], life := Closed, idledAt := if s.life == Open then Some(now) else s.idledAt)
      else t.(due := s.due[1..] + [later + TIMEOUT])
  }

  /** No pending check is more than `delay` late. */
  predicate Timely(s: Idle, e: Event, delay: nat) {
    forall i :: 0 <= i < |s.due| ==> EndOf(e) <= s.due[i] + delay
  }

  predicate ValidRun(s: Idle, run: seq<Event>, delay: nat)
    decreases |run|
  {
    run != [] ==> Possible(s, run[0]) && Timely(s, run[0], delay) && ValidRun(AfterEvent(s, run[0]), run[1..], delay)
  }

  function RunAll(s: Idle, run: seq<Event>, delay: nat): Idle
    requires ValidRun(s, run, delay)
    decreases |run|
  {
    if run == [] then s else RunAll(AfterEvent(s, run[0]), run[1..], delay)
  }

  predicate IdleInv(s: Idle, delay: nat) {
    && 0 < s.since <= s.clock && s.last <= s.clock
    && |s.due| <= 1 && (s.life == Open ==> |s.due| == 1)
    && (!s.spoken ==> s.last == 0)
    && (s.life == Open ==>
          s.clock <= s.due[0] + delay
          && s.due[0] >= s.since + TIMEOUT
          && (if s.spoken then s.due[0] <= s.last + 2 * TIMEOUT + delay else s.due[0] == s.since + TIMEOUT))
    && (s.life == Open ==> s.idledAt == None)
    && (s.idledAt.Some? ==> s.last + TIMEOUT < s.idledAt.value <= s.clock)
  }

  lemma EventKeepsIdleInv(s: Idle, e: Event, delay: nat)
    requires IdleInv(s, delay) && Possible(s, e) && Timely(s, e, delay)
    ensures IdleInv(AfterEvent(s, e), delay)
  {
  }

  lemma {:induction false} RunKeepsIdleInv(s: Idle, run: seq<Event>, delay: nat)
    requires IdleInv(s, delay) && ValidRun(s, run, delay)
    ensures IdleInv(RunAll(s, run, delay), delay) && RunAll(s, run, delay).since == s.since
    decreases |run|
  {
    if run != [] {
      EventKeepsIdleInv(s, run[0], delay);
      RunKeepsIdleInv(AfterEvent(s, run[0]), run[1..], delay);
    }
  }

  /** Over every run in which checks are at most `delay` late: an open connection has one pending check,
      it has heard a message within twice (timeout + delay), or was established within timeout + delay;
      and a connection closed for idleness was closed more than a timeout after its last message. The
      clock counts from an epoch before the start, which makes a silent connection's time of 0 old. */
  lemma IdleBounds(start: int, run: seq<Event>, delay: nat)
    requires start > 0 && ValidRun(Established(start), run, delay)
    ensures var s := RunAll(Established(start), run, delay);
            && (s.life == Open ==> |s.due| == 1)
            && (s.life == Open && s.spoken ==> s.clock <= s.last + 2 * (100_000_000 + delay))
            && (s.life == Open && !s.spoken ==> s.clock <= start + 100_000_000 + delay)
            && (s.idledAt.Some? ==> s.idledAt.value > s.last + 100_000_000)
  {
    RunKeepsIdleInv(Established(start), run, delay);
  }

  // ---------------------------------------------------------------- requests and responses

  function FieldOf(r: Request, field: string): string {
    if field in r.headers then r.headers[field] else ""
  }

  predicate AsksToClose(r: Request) {
    FieldOf(r, "Connection") == "close"
    || (r.version == Http10 && FieldOf(r, "Connection") != "keep-alive")
  }

  /** Whether the client's wish to close is heard is a matter of the raw header value: the text behind
      the colon must be the bare word, which the customary blank spoils. */
  lemma CloseIsHeardRaw(m: Message)
    requires Sendable(m)
    ensures var r := Run(Next(Start, FRESH), Text(Printed(m))).request;
            AsksToClose(r) <==>
              Pair("Connection", "close") in m.headers
              || (m.version == Http10 && Pair("Connection", "keep-alive") !in m.headers)
  {
    hide Run, Sendable;
    RoundTrip(m);
    var r := Run(Next(Start, FRESH), Text(Printed(m))).request;
    HeaderIsListed(r.headers, m.headers, "close");
    HeaderIsListed(r.headers, m.headers, "keep-alive");
  }

  lemma HeaderIsListed(headers: map<string, string>, ps: seq<Pair>, value: string)
    requires SameEntries(headers, ps)
    ensures Pair("Connection", value) in ps <==> "Connection" in headers && headers["Connection"] == value
  {
  }

  /** What a response callback puts into the response; None leaves the connection's fate as it is. */
  datatype Reply = Reply(code: nat, reason: string, headers: map<string, string>, body: string, close: Option<bool>)

  const BAD_REQUEST := "HTTP/1.1 400 Bad Request\r\n\r\n"

  predicate Closing(r: Request, reply: Reply) {
    if reply.close.Some? then reply.close.value else AsksToClose(r)
  }

  /** The message is a rendering of the reply, cut at its first NUL. */
  ghost predicate Renders(text: string, r: Request, reply: Reply) {
    exists order :: (
      && H.Lists(order, reply.headers)
      && text == H.Sent(H.AnswerText(H.Answer(reply.code, reply.reason,
                                              H.OwnFields(Closing(r, reply), reply.body) + order, reply.body))))
  }

  /** The response's own fields: it closes, or it announces its length and keeps the connection. */
  function ClosingField(): seq<Pair> {
    [Pair("Connection", "close")]
  }

  function KeepingFields(body: string): seq<Pair> {
    [Pair("Content-Length", Decimal.Digits(|body|)), Pair("Connection", "keep-alive")]
  }

  /** The text is the reply with these own fields before its headers, cut at its first NUL. */
  ghost predicate SentAs(text: string, reply: Reply, own: seq<Pair>) {
    exists order :: (
      && H.Lists(order, reply.headers)
      && text == H.Sent(H.AnswerText(H.Answer(reply.code, reply.reason, own + order, reply.body))))
  }

  /** What a handled request leaves, by the reply: the callback's word on closing counts, the request's
      wish only without it, and the text says what is done. */
  ghost predicate Handled(request: Request, reply: Reply, connected: bool, text: string) {
    && (reply.close.Some? ==> connected == !reply.close.value)
    && (reply.close.None? ==> connected == !AsksToClose(request))
    && SentAs(text, reply, if connected then KeepingFields(reply.body) else ClosingField())
  }

  /** The reply of a server without a callback of its own. */
  const NOT_FOUND := Reply(404, "Not Found", map[], "", Some(true))

  lemma NotFoundDigits()
    ensures Decimal.Digits(404) == "404"
  {
    Decimal.DigitsAre(40, 4);
    Decimal.DigitsAre(4, 0);
    Decimal.DigitsAre(0, 4);
  }

  predicate NulFree(reply: Reply) {
    && H.NUL !in reply.reason && H.NUL !in reply.body
    && forall k :: k in reply.headers ==> H.NUL !in k && H.NUL !in reply.headers[k]
  }

  lemma {:induction false} FieldsNulFree(ps: seq<Pair>, rest: string)
    requires H.NUL !in rest && forall p :: p in ps ==> H.NUL !in p.key && H.NUL !in p.value
    ensures H.NUL !in H.FieldsThen(ps, rest)
    decreases |ps|
  {
    if ps != [] {
      FieldsNulFree(ps[1..], rest);
      var more := H.FieldsThen(ps[1..], rest);
      assert H.NUL !in Line(more);
      assert ps[0] in ps && H.NUL !in ": ";
    }
  }

  lemma DigitsNulFree(n: nat)
    ensures H.NUL !in Decimal.Digits(n)
  {
    Decimal.ValueOfDigits(n);
  }

  lemma OwnFieldsNulFree(close: bool, body: string)
    ensures forall p :: p in H.OwnFields(close, body) ==> H.NUL !in p.key && H.NUL !in p.value
  {
    DigitsNulFree(|body|);
    hide Decimal.Digits;
  }

  lemma AnswerNulFree(a: H.Answer)
    requires H.NUL !in a.reason && H.NUL !in a.body
    requires forall p :: p in a.fields ==> H.NUL !in p.key && H.NUL !in p.value
    ensures H.NUL !in H.AnswerText(a)
  {
    assert H.NUL !in Line(a.body);
    FieldsNulFree(a.fields, Line(a.body));
    var f := H.FieldsThen(a.fields, Line(a.body));
    assert H.NUL !in Line(f);
    DigitsNulFree(a.code);
    assert H.NUL !in "HTTP/1.1 " && H.NUL !in " ";
  }

  lemma NothingListed(order: seq<Pair>, headers: map<string, string>)
    requires H.Lists(order, headers)
    ensures order == [] <==> headers == map[]
  {
    if order != [] {
      assert order[0] in order && order[0].key in headers;
    }
  }

  lemma NotFoundText(text: string)
    requires SentAs(text, NOT_FOUND, ClosingField())
    ensures text == "HTTP/1.1 404 Not Found\r\nConnection: close\r\n\r\n"
  {
    hide H.AnswerText, H.Before;
    var order :| (
      && H.Lists(order, NOT_FOUND.headers)
      && text == H.Sent(H.AnswerText(H.Answer(NOT_FOUND.code, NOT_FOUND.reason, ClosingField() + order, NOT_FOUND.body))));
    NothingListed(order, NOT_FOUND.headers);
    assert ClosingField() + order == ClosingField();
    var a := H.Answer(404, "Not Found", ClosingField(), "");
    OwnFieldsNulFree(true, "");
    AnswerNulFree(a);
    assert text == H.AnswerText(a);
    NotFoundWhole();
  }

  lemma NotFoundFields()
    ensures H.FieldsThen(ClosingField(), Line("")) == "Connection: close\r\n\r\n"
  {
    assert ClosingField()[1..] == [];
    assert H.FieldsThen([], Line("")) == Line("");
  }

  lemma NotFoundWhole()
    ensures H.AnswerText(H.Answer(404, "Not Found", ClosingField(), ""))
         == "HTTP/1.1 404 Not Found\r\nConnection: close\r\n\r\n"
  {
    hide H.FieldsThen, Decimal.Digits;
    NotFoundDigits();
    NotFoundFields();
    var fields := "Connection: close\r\n\r\n";
    StatusEnd(fields);
    var end := "Not Found\r\nConnection: close\r\n\r\n";
    StatusStart(end);
    assert "Not Found" + Line(fields) == end;
  }

  lemma StatusStart(end: string)
    requires end == "Not Found\r\nConnection: close\r\n\r\n"
    ensures "HTTP/1.1 " + ("404" + (" " + end)) == "HTTP/1.1 404 Not Found\r\nConnection: close\r\n\r\n"
  {
    assert "404" + (" " + end) == "404 " + end;
    assert "HTTP/1.1 " + ("404 " + end) == "HTTP/1.1 404 " + end;
    assert |"HTTP/1.1 404 " + end| == |"HTTP/1.1 404 Not Found\r\nConnection: close\r\n\r\n"|;
  }

  lemma StatusEnd(fields: string)
    requires fields == "Connection: close\r\n\r\n"
    ensures "Not Found" + Line(fields) == "Not Found\r\nConnection: close\r\n\r\n"
  {
    assert Line(fields) == "\r\nConnection: close\r\n\r\n";
  }

  lemma RenderedIsHandled(text: string, r: Request, reply: Reply)
    requires Renders(text, r, reply)
    ensures Handled(r, reply, !Closing(r, reply), text)
  {
    assert H.OwnFields(Closing(r, reply), reply.body)
        == if Closing(r, reply) then ClosingField() else KeepingFields(reply.body);
    hide H.AnswerText, H.OwnFields, H.Lists;
  }

  lemma OwnFieldsPlain(body: string)
    ensures forall p :: p in ClosingField() || p in KeepingFields(body) ==>
      H.FieldOk(p) && H.NUL !in p.key && H.NUL !in p.value
  {
    assert ClosingField() == H.OwnFields(true, body) && KeepingFields(body) == H.OwnFields(false, body);
    H.OwnFieldsOk(true, body);
    H.OwnFieldsOk(false, body);
    OwnFieldsNulFree(true, body);
    OwnFieldsNulFree(false, body);
  }

  /** What a client reads in the header section of the text that a handled request sends: the code and
      reason; the own fields and then the caller's. A caller that sets no Connection header of its own
      lets the client read `close` exactly when the connection is closed, and `keep-alive` otherwise. */
  lemma HeaderOfHandled(request: Request, reply: Reply, connected: bool, text: string) returns (fields: seq<Pair>)
    requires Handled(request, reply, connected, text) && NulFree(reply)
    requires CR !in reply.reason && H.HeadersOk(reply.headers)
    ensures H.ReadLine(text).Some? && H.ReadStatus(H.ReadLine(text).value.0) == Some((reply.code, reply.reason))
    ensures H.ReadFields(H.ReadLine(text).value.1) == Some((fields, reply.body))
    ensures if connected then KeepingFields(reply.body) <= fields else ClosingField() <= fields
    ensures "Connection" !in reply.headers ==>
      && (Pair("Connection", "close") in fields <==> !connected)
      && (Pair("Connection", "keep-alive") in fields <==> connected)
  {
    hide H.AnswerText, H.FieldOk, H.Before, H.ReadLine, H.ReadStatus, H.ReadFields, Decimal.Digits;
    var own := if connected then KeepingFields(reply.body) else ClosingField();
    var order :| (
      && H.Lists(order, reply.headers)
      && text == H.Sent(H.AnswerText(H.Answer(reply.code, reply.reason, own + order, reply.body))));
    fields := own + order;
    var a := H.Answer(reply.code, reply.reason, fields, reply.body);
    OwnFieldsPlain(reply.body);
    assert forall p :: p in order ==> p == Pair(p.key, reply.headers[p.key]);
    AnswerNulFree(a);
    assert text == H.AnswerText(a) && text + "" == text && a.body + "" == a.body;
    H.HeaderReadsBack(a, "");
  }

  /** From handler to reader: a reply whose strings break no line and hold no NUL reads back with its
      code, reason, headers and body, whatever follows it, exactly if it has no body where the request's
      method or the status allows none, and elsewhere its headers agree with the body it has. */
  lemma ReplyReadsBack(text: string, r: Request, reply: Reply, rest: string) returns (a: H.Answer)
    requires Renders(text, r, reply) && NulFree(reply) && CR !in reply.reason && H.HeadersOk(reply.headers)
    ensures a.code == reply.code && a.reason == reply.reason && a.body == reply.body
    ensures forall k :: k in reply.headers ==> Pair(k, reply.headers[k]) in a.fields
    ensures H.ReadAnswer(text + rest, r.verb == Head) == Some((a, rest)) <==>
            if r.verb == Head || 100 <= reply.code < 200 || reply.code == 204 || reply.code == 304 then reply.body == ""
            else H.Agreeing(reply.headers, Closing(r, reply), |reply.body|)
  {
    hide H.ReadAnswer, H.AnswerText, H.OwnFields, H.HeadersOk, H.Agreeing, H.Before;
    var order :| (
      && H.Lists(order, reply.headers)
      && text == H.Sent(H.AnswerText(H.Answer(reply.code, reply.reason,
                                              H.OwnFields(Closing(r, reply), reply.body) + order, reply.body))));
    a := H.Answer(reply.code, reply.reason, H.OwnFields(Closing(r, reply), reply.body) + order, reply.body);
    OwnFieldsNulFree(Closing(r, reply), reply.body);
    AnswerNulFree(a);
    assert text == H.AnswerText(a);
    H.ReadsBackExactly(
      Closing(r, reply), reply.code, reply.reason, reply.headers, order, reply.body, rest, r.verb == Head);
  }

  class Connection {
    var connected: bool
    var lastActive: int
    var output: seq<string>  // what was given to Send, message by message
    var checks: seq<int>  // when the idle checks set for this connection are to run
    const context: HttpContext
    ghost var idle: Idle

    constructor (start: int)
      ensures Valid() && fresh(context) && connected && output == []
      ensures idle == Established(start).(due := [])
    {
      connected, lastActive, output, checks := true, 0, [], [];
      context := new HttpContext();
      idle := Established(start).(due := []);
    }

    /** The connection's part in the idle protocol is `idle`. */
    ghost predicate Linked()
      reads this
    {
      connected == (idle.life == Open) && lastActive == idle.last && checks == idle.due
    }

    /** Between messages an open connection has its parser at the start. */
    ghost predicate Valid()
      reads this, context
    {
      Linked() && (connected ==> context.state == Start)
    }

    method Send(msg: string)
      modifies this`output
      ensures output == old(output) + [msg]
    {
      output := output + [msg];
    }

    method HandleClose()
      requires Linked()
      modifies this`connected, this`idle
      ensures Linked() && !connected && idle == AfterEvent(old(idle), OtherClose(old(idle).clock))
    {
      if connected {
        connected := false;
      }
      idle := AfterEvent(idle, OtherClose(idle.clock));
    }
  }

  class HttpServer {
    const autoClose: bool

    constructor (autoClose: bool)
      ensures this.autoClose == autoClose
    {
      this.autoClose := autoClose;
    }

    method HandleConnection(conn: Connection, now: int)
      requires conn.Valid() && conn.connected && conn.checks == [] && conn.idle == Established(now).(due := [])
      modifies conn
      ensures conn.Valid() && conn.idle == if autoClose then Established(now) else Established(now).(due := [])
      ensures conn.checks == if autoClose then [now + 100_000_000] else []
    {
      if autoClose {
        conn.checks := conn.checks + [now + TIMEOUT];
        conn.idle := Established(now);
      }
    }

    /** One read's worth of bytes: a whole request is answered, anything else is refused and closed. */
    method HandleMessage(conn: Connection, data: string, now: int, callback: Request -> Reply)
      requires conn.Valid() && (autoClose ==> conn.idle.clock <= now)
      modifies conn, conn.context
      ensures !old(conn.connected) ==>
        && conn.output == old(conn.output) && !conn.connected
        && conn.lastActive == old(conn.lastActive) && conn.idle == old(conn.idle)
      ensures old(conn.connected) ==>
        var c := Run(Next(Start, old(conn.context.request)), data);
        if c.state == Complete then
          && conn.connected == !Closing(c.request, callback(c.request))
          && |conn.output| == |old(conn.output)| + 1 && old(conn.output) <= conn.output
          && Renders(conn.output[|old(conn.output)|], c.request, callback(c.request))
          && Handled(c.request, callback(c.request), conn.connected, conn.output[|old(conn.output)|])
          && conn.context.state == Start && conn.context.request == c.request
        else
          conn.output == old(conn.output) + ["HTTP/1.1 400 Bad Request\r\n\r\n"] && !conn.connected
      ensures conn.lastActive == if autoClose && old(conn.connected) then now else old(conn.lastActive)
      ensures conn.checks == old(conn.checks)
      ensures conn.Valid()
      ensures old(conn.connected) ==>
        var heard := if autoClose then AfterEvent(old(conn.idle), Event.Message(now)) else old(conn.idle);
        conn.idle == if conn.connected then heard else AfterEvent(heard, OtherClose(heard.clock))
    {
      hide Run;
      if conn.connected {
        if autoClose {
          conn.lastActive := now;
          conn.idle := AfterEvent(conn.idle, Event.Message(now));
        }
        var parsed := conn.context.ParaseRequest(data);
        if !parsed {
          conn.Send(BAD_REQUEST);
          conn.HandleClose();
        }
        if conn.context.state == Complete {
          HandleRequest(conn, conn.context.request, callback);
          conn.context.ResetContextStatus();
        }
      }
    }

    method HandleRequest(conn: Connection, request: Request, callback: Request -> Reply)
      requires conn.Linked() && conn.connected
      modifies conn`connected, conn`output, conn`idle
      ensures conn.Linked()
      ensures conn.idle == if conn.connected then old(conn.idle)
                           else AfterEvent(old(conn.idle), OtherClose(old(conn.idle).clock))
      ensures conn.connected == !Closing(request, callback(request))
      ensures |conn.output| == |old(conn.output)| + 1 && old(conn.output) <= conn.output
      ensures Renders(conn.output[|old(conn.output)|], request, callback(request))
      ensures Handled(request, callback(request), conn.connected, conn.output[|old(conn.output)|])
    {
      hide Handled, H.AnswerText, H.Lists;
      var connectionState := FieldOf(request, "Connection");
      var close := connectionState == "close" || (request.version == Http10 && connectionState != "keep-alive");
      var reply := callback(request);
      var response := new H.HttpResponse(close);
      response.statusCode, response.statusMessage := reply.code, reply.reason;
      response.headers, response.body := reply.headers, reply.body;
      if reply.close.Some? {
        response.closeConnection := reply.close.value;
      }
      var message := response.GetMessage();
      conn.Send(H.Sent(message));
      RenderedIsHandled(H.Sent(message), request, reply);
      if response.closeConnection {
        conn.HandleClose();
      }
    }

    /** Connection::HandleMessage: Read and the message callback. `ended` is Read finding the peer gone,
        which closes the connection before the callback runs. */
    method ReadCallback(conn: Connection, data: string, ended: bool, now: int, callback: Request -> Reply)
      requires conn.Valid() && (autoClose ==> conn.idle.clock <= now)
      modifies conn, conn.context
      ensures conn.Valid() && (!old(conn.connected) || ended || data == "" ==> !conn.connected)
      ensures autoClose ==> conn.idle.clock <= now
      ensures !old(conn.connected) || ended ==> conn.output == old(conn.output)
      ensures old(conn.connected) && !ended && data == "" ==> conn.output == old(conn.output) + [BAD_REQUEST]
    {
      if ended {
        conn.HandleClose();
      }
      assert Run(Next(Start, conn.context.request), "").state == Start;
      HandleMessage(conn, data, now, callback);
    }

    /** One event of a connection, with what each callback finds to read. An event that only says the
        socket is writable, as after every short write, finds nothing to read: the server answers 400 to
        nobody's request and closes. So does the second callback of an event with both bits, whose first
        has read everything. */
    method HandleEvent(conn: Connection, channel: O.Channel, first: string, second: string, ended: bool, now: int,
                       callback: Request -> Reply)
      requires conn.Valid() && conn.connected && channel.hasReadCallback && (autoClose ==> conn.idle.clock <= now)
      modifies conn, conn.context
      ensures conn.Valid()
      ensures !channel.readyIn && !channel.readyPri && channel.readyOut && first == "" && !ended ==>
                conn.output == old(conn.output) + [BAD_REQUEST] && !conn.connected
      ensures (channel.readyIn || channel.readyPri) && channel.readyOut && second == "" ==> !conn.connected
      ensures !channel.readyIn && !channel.readyPri && !channel.readyOut ==>
                conn.output == old(conn.output) && conn.connected
    {
      var called := channel.HandleEventWithGuard();
      for i := 0 to |called|
        invariant conn.Valid() && (autoClose ==> conn.idle.clock <= now)
        invariant i == 0 ==> conn.connected && conn.output == old(conn.output)
        invariant i == 1 && first == "" && !ended ==> conn.output == old(conn.output) + [BAD_REQUEST] && !conn.connected
        invariant i == 2 && second == "" ==> !conn.connected
      {
        if called[i] == O.ReadCallback {
          ReadCallback(conn, if i == 0 then first else second, ended, now, callback);
        }
      }
    }

    /** The check itself; null stands for a weak pointer whose connection is gone. */
    method ActiveCloseConn(conn: Connection?, now: int, later: int)
      requires conn != null ==> conn.Valid() && Possible(conn.idle, Check(now, later)) && conn.idle.life != Freed
      modifies conn
      ensures conn != null ==> conn.Valid() && conn.idle == AfterEvent(old(conn.idle), Check(now, later))
      ensures conn != null && old(conn.lastActive) + 100_000_000 < now ==>
        !conn.connected && conn.checks == old(conn.checks)[1..]
      ensures conn != null && old(conn.lastActive) + 100_000_000 >= now ==>
        conn.connected == old(conn.connected) && conn.checks == old(conn.checks)[1..] + [later + 100_000_000]
    {
      if conn != null {
        ghost var before := conn.idle;
        conn.checks := conn.checks[1..];
        conn.idle := conn.idle.(due := conn.idle.due[1..]);
        if conn.lastActive + TIMEOUT < now {
          conn.HandleClose();
        } else {
          conn.checks := conn.checks + [later + TIMEOUT];
        }
        conn.idle := AfterEvent(before, Check(now, later));
      }
    }
  }
}
