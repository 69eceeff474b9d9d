/**
 HttpContext::ParaseRequest with its three cursors, proved to run the machine of module HttpGrammar,
 and what follows from the grammar: the round trip of printed requests, the unreachable method, and
 the headers a reused context keeps.
 */
module HttpParser {
  import opened Utils
  import opened Decimal
  import opened HttpGrammar

  /** States in which the cursor colon marks the end of a key. */
  predicate HasKey(st: State) {
    st == BeforeParamValue || st == ParamValue || st == HeaderValue
  }

  predicate CursorsOk(data: string, st: State, start: nat, colon: nat, end: nat) {
    start <= end <= |data| && (HasKey(st) ==> start <= colon < end)
  }

  /** The configuration three cursors stand for. */
  function At(data: string, st: State, start: nat, colon: nat, end: nat, r: Request): Config
    requires CursorsOk(data, st, start, colon, end)
  {
    if Dead(st) then Next(st, r)
    else if HasKey(st) then Config(st, data[start..colon], data[colon + 1..end], r)
    else Config(st, "", data[start..end], r)
  }

  /** The character at which a value is cut out of the input. */
  predicate EndsValue(st: State, ch: char) {
    (st == ParamValue && (ch == '&' || Blank(ch))) || (st == HeaderValue && ch == CR)
  }

  /** What one call makes of its input. A call that resumes a value, which no completed request and no
      reset leaves behind, has lost the key, and loses the first character with it. */
  function Outcome(st: State, r: Request, data: string): Config {
    if HasKey(st) && data != "" then
      Run(Next(if st != BeforeParamValue then st else if BreakOrBlank(data[0]) then Invalid else ParamValue, r), data[1..])
    else Run(Next(st, r), data)
  }

  class HttpContext {
    var state: State
    var request: Request

    constructor ()
      ensures state == Start && request == FRESH
    {
      state, request := Start, FRESH;
    }

    lemma TokenGrows(data: string, start: nat, end: nat)
      requires start <= end < |data|
      ensures data[start..end + 1] == data[start..end] + [data[end]]
      ensures data[end + 1..end + 1] == "" && data[end..] == [data[end]] + data[end + 1..]
    {
    }

    method ConsumeWord(data: string, start0: nat, colon0: nat, end: nat) returns (start: nat, colon: nat)
      requires state == Start || state == InMethod
      requires end < |data| && CursorsOk(data, state, start0, colon0, end) && !Halted(state)
      requires state == Body ==> start0 == end
      modifies this
      ensures CursorsOk(data, state, start, colon, end + 1)
      ensures state == Body ==> start == end + 1
      ensures At(data, state, start, colon, end + 1, request)
           == Step(At(data, old(state), start0, colon0, end, old(request)), data[end], data[end + 1..])
    {
      start, colon := start0, colon0;
      var ch := data[end];
      TokenGrows(data, start0, end);
      match state {
        case Start =>
          if ch == CR || ch == LF || Blank(ch) {
          } else if Upper(ch) {
            state := InMethod;
          } else {
            state := Invalid;
          }
        case InMethod =>
          if Upper(ch) {
          } else if Blank(ch) {
            request := request.(verb := MethodOf(data[start..end]));
            state, start := BeforeUrl, end + 1;
          } else {
            state := InvalidMethod;
          }
      }
    }

    method ConsumeUrl(data: string, start0: nat, colon0: nat, end: nat) returns (start: nat, colon: nat)
      requires state == BeforeUrl || state == InUrl
      requires end < |data| && CursorsOk(data, state, start0, colon0, end) && !Halted(state)
      requires state == Body ==> start0 == end
      modifies this
      ensures CursorsOk(data, state, start, colon, end + 1)
      ensures state == Body ==> start == end + 1
      ensures At(data, state, start, colon, end + 1, request)
           == Step(At(data, old(state), start0, colon0, end, old(request)), data[end], data[end + 1..])
    {
      start, colon := start0, colon0;
      var ch := data[end];
      TokenGrows(data, start0, end);
      match state {
        case BeforeUrl =>
          if ch == '/' {
            state := InUrl;
          } else if Blank(ch) {
          } else {
            state := InvalidUrl;
          }
        case InUrl =>
          if ch == '?' {
            request := request.(url := data[start..end]);
            state, start := BeforeParamKey, end + 1;
          } else if Blank(ch) {
            request := request.(url := data[start..end]);
            state, start := BeforeProtocol, end + 1;
          }
      }
    }

    method ConsumeParam(data: string, start0: nat, colon0: nat, end: nat) returns (start: nat, colon: nat)
      requires state == BeforeParamKey || state == ParamKey || state == BeforeParamValue || state == ParamValue
      requires end < |data| && CursorsOk(data, state, start0, colon0, end) && !Halted(state)
      requires state == Body ==> start0 == end
      modifies this
      ensures CursorsOk(data, state, start, colon, end + 1)
      ensures state == Body ==> start == end + 1
      ensures At(data, state, start, colon, end + 1, request)
           == Step(At(data, old(state), start0, colon0, end, old(request)), data[end], data[end + 1..])
    {
      start, colon := start0, colon0;
      var ch := data[end];
      TokenGrows(data, start0, end);
      if HasKey(state) { TokenGrows(data, colon0 + 1, end); }
      match state {
        case BeforeParamKey =>
          state := if ch == CR || ch == LF || Blank(ch) then Invalid else ParamKey;
        case ParamKey =>
          if ch == '=' {
            colon, state := end, BeforeParamValue;
          } else if Blank(ch) {
            state := Invalid;
          }
        case BeforeParamValue =>
          state := if ch == CR || ch == LF || Blank(ch) then Invalid else ParamValue;
        case ParamValue =>
          if ch == '&' || Blank(ch) {
            request := request.(params := request.params[data[start..colon] := data[colon + 1..end]]);
            state, start := if ch == '&' then BeforeParamKey else BeforeProtocol, end + 1;
          }
      }
    }

    method ConsumeVersion(data: string, start0: nat, colon0: nat, end: nat) returns (start: nat, colon: nat)
      requires state == BeforeProtocol || state == Protocol || state == BeforeVersion || state == InVersion
      requires end < |data| && CursorsOk(data, state, start0, colon0, end) && !Halted(state)
      requires state == Body ==> start0 == end
      modifies this
      ensures CursorsOk(data, state, start, colon, end + 1)
      ensures state == Body ==> start == end + 1
      ensures At(data, state, start, colon, end + 1, request)
           == Step(At(data, old(state), start0, colon0, end, old(request)), data[end], data[end + 1..])
    {
      start, colon := start0, colon0;
      var ch := data[end];
      TokenGrows(data, start0, end);
      match state {
        case BeforeProtocol =>
          if !Blank(ch) {
            state := Protocol;
          }
        case Protocol =>
          if ch == '/' {
            request := request.(protocol := data[start..end]);
            state, start := BeforeVersion, end + 1;
          }
        case BeforeVersion =>
          state := if IsDigit(ch) then InVersion else Invalid;
        case InVersion =>
          if IsDigit(ch) || ch == '.' {
          } else if ch == CR {
            request := request.(version := VersionOf(data[start..end]));
            state, start := WhenCr, end + 1;
          } else {
            state := Invalid;
          }
      }
    }

    method ConsumeHeader(data: string, start0: nat, colon0: nat, end: nat) returns (start: nat, colon: nat)
      requires state == WhenCr || state == CrLf || state == HeaderKey || state == HeaderValue
      requires end < |data| && CursorsOk(data, state, start0, colon0, end) && !Halted(state)
      requires state == Body ==> start0 == end
      modifies this
      ensures CursorsOk(data, state, start, colon, end + 1)
      ensures state == Body ==> start == end + 1
      ensures At(data, state, start, colon, end + 1, request)
           == Step(At(data, old(state), start0, colon0, end, old(request)), data[end], data[end + 1..])
    {
      start, colon := start0, colon0;
      var ch := data[end];
      TokenGrows(data, start0, end);
      if HasKey(state) { TokenGrows(data, colon0 + 1, end); }
      match state {
        case WhenCr =>
          if ch == LF {
            state, start := CrLf, end + 1;
          } else {
            state := Invalid;
          }
        case CrLf =>
          state := if ch == CR then CrLfCr else if Blank(ch) then Invalid else HeaderKey;
        case HeaderKey =>
          if ch == ':' {
            colon, state := end, HeaderValue;
          }
        case HeaderValue =>
          if ch == CR {
            request := request.(headers := request.headers[data[start..colon] := data[colon + 1..end]]);
            state, start := WhenCr, end + 1;
          }
      }
    }

    method ConsumeBody(data: string, start0: nat, colon0: nat, end: nat) returns (start: nat, colon: nat)
      requires state == CrLfCr || state == Body
      requires end < |data| && CursorsOk(data, state, start0, colon0, end) && !Halted(state)
      requires state == Body ==> start0 == end
      modifies this
      ensures CursorsOk(data, state, start, colon, end + 1)
      ensures state == Body ==> start == end + 1
      ensures At(data, state, start, colon, end + 1, request)
           == Step(At(data, old(state), start0, colon0, end, old(request)), data[end], data[end + 1..])
    {
      start, colon := start0, colon0;
      var ch := data[end];
      TokenGrows(data, start0, end);
      match state {
        case CrLfCr =>
          if ch == LF {
            if "Content-Length" in request.headers {
              state := if Atoi(request.headers["Content-Length"]) > 0 then Body else Complete;
            } else {
              state := if end + 1 < |data| then Body else Complete;
            }
            start := end + 1;
          } else {
            state := Invalid;
          }
        case Body =>
          assert data[end..] == [ch] + data[end + 1..];
          request := request.(body := data[end..]);
          state := Complete;
      }
    }

    /** One turn of the loop: the switch on the state, for the character at `end`. Whenever a key and
        a value are cut out, start <= colon < end holds, so both slices exist. */
    method Consume(data: string, start0: nat, colon0: nat, end: nat) returns (start: nat, colon: nat)
      requires end < |data| && CursorsOk(data, state, start0, colon0, end) && !Halted(state)
      requires state == Body ==> start0 == end
      modifies this
      ensures CursorsOk(data, state, start, colon, end + 1)
      ensures state == Body ==> start == end + 1
      ensures At(data, state, start, colon, end + 1, request)
           == Step(At(data, old(state), start0, colon0, end, old(request)), data[end], data[end + 1..])
    {
      match state {
        case Start => start, colon := ConsumeWord(data, start0, colon0, end);
        case InMethod => start, colon := ConsumeWord(data, start0, colon0, end);
        case BeforeUrl => start, colon := ConsumeUrl(data, start0, colon0, end);
        case InUrl => start, colon := ConsumeUrl(data, start0, colon0, end);
        case BeforeParamKey => start, colon := ConsumeParam(data, start0, colon0, end);
        case ParamKey => start, colon := ConsumeParam(data, start0, colon0, end);
        case BeforeParamValue => start, colon := ConsumeParam(data, start0, colon0, end);
        case ParamValue => start, colon := ConsumeParam(data, start0, colon0, end);
        case BeforeProtocol => start, colon := ConsumeVersion(data, start0, colon0, end);
        case Protocol => start, colon := ConsumeVersion(data, start0, colon0, end);
        case BeforeVersion => start, colon := ConsumeVersion(data, start0, colon0, end);
        case InVersion => start, colon := ConsumeVersion(data, start0, colon0, end);
        case WhenCr => start, colon := ConsumeHeader(data, start0, colon0, end);
        case CrLf => start, colon := ConsumeHeader(data, start0, colon0, end);
        case HeaderKey => start, colon := ConsumeHeader(data, start0, colon0, end);
        case HeaderValue => start, colon := ConsumeHeader(data, start0, colon0, end);
        case CrLfCr => start, colon := ConsumeBody(data, start0, colon0, end);
        case Body => start, colon := ConsumeBody(data, start0, colon0, end);
        case InvalidMethod => start, colon, state := start0, colon0, Invalid;
        case InvalidUrl => start, colon, state := start0, colon0, Invalid;
      }
    }

    /** The loop, with a resumed first round written out. The requirement excludes only the resumed value
        that ends at once, for which the code builds a string from a reversed range. */
    method ParaseRequest(data: string) returns (complete: bool)
      requires HasKey(state) && data != "" ==> !EndsValue(state, data[0])
      modifies this
      ensures var c := Outcome(old(state), old(request), data);
              state == c.state && request == c.request && complete == (c.state == Complete)
    {
      hide Run;
      hide Step;
      var start, colon, end := 0, 0, 0;
      assert data[0..] == data && data[0..0] == "";
      ghost var all := Outcome(state, request, data);
      if HasKey(state) && data != "" {
        if state == BeforeParamValue {
          state := if data[0] == CR || data[0] == LF || Blank(data[0]) then Invalid else ParamValue;
        }
        end := 1;
        assert data[1..1] == "";
      } else if HasKey(state) {
        RunEnds(Next(state, request), data);
        return false;
      }
      while state != Invalid && state != Complete && end < |data|
        invariant CursorsOk(data, state, start, colon, end)
        invariant state == Body ==> start == end
        invariant Run(At(data, state, start, colon, end, request), data[end..]) == all
        decreases |data| - end
      {
        ghost var c := At(data, state, start, colon, end, request);
        start, colon := Consume(data, start, colon, end);
        assert data[end..] == [data[end]] + data[end + 1..];
        Take(c, data[end], data[end + 1..]);
        end := end + 1;
      }
      RunEnds(At(data, state, start, colon, end, request), data[end..]);
      complete := state == Complete;
    }

    method ResetContextStatus()
      modifies this
      ensures state == Start && request == old(request)
    {
      state := Start;
    }
  }

  // ---------------------------------------------------------------- what a caller sees

  /** A fresh context: true for exactly the texts of the grammar, with the fields the tree assigns. */
  method ParseFresh(data: string) returns (context: HttpContext, complete: bool)
    ensures complete <==> exists t :: WellFormed(t) && Text(t) == data && Completes(FRESH, t)
    ensures complete ==> forall t :: WellFormed(t) && Text(t) == data && Completes(FRESH, t) ==>
                                       context.request == Parsed(FRESH, t)
    ensures complete == (context.state == Complete)
  {
    context := new HttpContext();
    complete := context.ParaseRequest(data);
    AcceptsExactlyTheGrammar(FRESH, data);
    assert Accepted(Next(Start, FRESH), data) == complete;
  }

  // ---------------------------------------------------------------- round trip

  /** A request as a client means it. */
  datatype Message = Message(
    verb: Method, path: string, params: seq<Pair>, protocol: string, version: Version,
    headers: seq<Pair>, body: string)

  function VerbText(m: Method): string {
    match m
    case Get => "GET" case Post => "POST" case Head => "HEAD" case Put => "PUT"
    case Delete => "DELETE" case NoMethod => "INVALID"
  }

  function VersionText(v: Version): string {
    match v case Http10 => "1.0" case Http11 => "1.1" case Unknown => "0"
  }

  /** Single separators, nothing before the method. */
  function Printed(m: Message): Tree {
    Tree("", VerbText(m.verb), ' ', "", m.path, m.params, ' ', "", m.protocol, VersionText(m.version), m.headers, m.body)
  }

  ghost predicate DistinctKeys(ps: seq<Pair>) {
    forall i, j :: 0 <= i < j < |ps| ==> ps[i].key != ps[j].key
  }

  function MapOf(ps: seq<Pair>): map<string, string> {
    Updated(map[], ps)
  }

  /** Strings in their character classes, and a body the completion rule asks for exactly when it is there. */
  ghost predicate Sendable(m: Message) {
    && (m.verb == Get || m.verb == Post || m.verb == Head || m.verb == Put)
    && m.version != Unknown
    && All(m.path, c => c != '?' && !Blank(c)) && (forall p :: p in m.params ==> ParamOk(p))
    && m.protocol != "" && !Blank(m.protocol[0]) && All(m.protocol[1..], c => c != '/')
    && (forall h :: h in m.headers ==> HeaderOk(h))
    && DistinctKeys(m.params) && DistinctKeys(m.headers)
    && (m.body != "" <==> WantsBody(FRESH.(headers := MapOf(m.headers)), m.body))
  }

  lemma {:induction false} UpdatedHolds(m: map<string, string>, ps: seq<Pair>)
    requires DistinctKeys(ps)
    ensures forall p :: p in ps ==> p.key in Updated(m, ps) && Updated(m, ps)[p.key] == p.value
    ensures forall k :: (k in Updated(m, ps) <==> k in m || exists p :: p in ps && p.key == k)
    ensures forall k :: k in m && (forall p :: p in ps ==> p.key != k) ==> Updated(m, ps)[k] == m[k]
    decreases |ps|
  {
    if ps != [] {
      var m1 := m[ps[0].key := ps[0].value];
      UpdatedHolds(m1, ps[1..]);
      assert ps == [ps[0]] + ps[1..];
      forall p | p in ps[1..] ensures p.key != ps[0].key {
        var i :| 0 <= i < |ps[1..]| && ps[1..][i] == p;
        assert ps[i + 1] == p;
      }
    }
  }

  /** The map holds exactly the listed entries. */
  ghost predicate SameEntries(m: map<string, string>, ps: seq<Pair>) {
    && (forall p :: p in ps ==> p.key in m && m[p.key] == p.value)
    && (forall k :: k in m ==> exists p :: p in ps && p.key == k)
  }

  lemma HeadOfPrinted(m: Message)
    requires Sendable(m)
    ensures HeadOf(FRESH, Printed(m))
         == Request(m.verb, m.version, "/" + m.path, m.protocol, MapOf(m.params), MapOf(m.headers), "")
  {
    Empty(VerbText(m.verb));
    Empty("/");
    Empty(m.protocol);
  }

  lemma PrintedParsed(m: Message)
    requires Sendable(m)
    ensures Completes(FRESH, Printed(m))
    ensures Parsed(FRESH, Printed(m))
         == Request(m.verb, m.version, "/" + m.path, m.protocol, MapOf(m.params), MapOf(m.headers), m.body)
  {
    HeadOfPrinted(m);
    hide HeadOf, Atoi;
  }

  lemma SendableKeys(m: Message)
    requires Sendable(m)
    ensures DistinctKeys(m.params) && DistinctKeys(m.headers)
  {
  }

  /** Printing a request and parsing it on a fresh context gives every field back. */
  lemma RoundTrip(m: Message)
    requires Sendable(m)
    ensures var c := Run(Next(Start, FRESH), Text(Printed(m)));
            var r := c.request;
            && c.state == Complete
            && r.verb == m.verb && r.url == "/" + m.path && r.protocol == m.protocol
            && r.version == m.version && r.body == m.body
            && SameEntries(r.params, m.params) && SameEntries(r.headers, m.headers)
  {
    hide Run, WellFormed, Text, Completes, Parsed, Sendable;
    PrintedWellFormed(m);
    TreeParses(FRESH, Printed(m));
    PrintedParsed(m);
    assert DistinctKeys(m.params) && DistinctKeys(m.headers) by {
      SendableKeys(m);
    }
    UpdatedHolds(map[], m.params);
    UpdatedHolds(map[], m.headers);
  }

  lemma PrintedWellFormed(m: Message)
    requires Sendable(m)
    ensures WellFormed(Printed(m))
  {
  }

  // ---------------------------------------------------------------- divergences

  /** The parser never reports the DELETE method: it accepts upper-case words only, and SetMethod
      compares with "Delete". */
  lemma DeleteUnreachable(s: string)
    ensures Accepted(Next(Start, FRESH), s) ==> Run(Next(Start, FRESH), s).request.verb != Delete
  {
    if Accepted(Next(Start, FRESH), s) {
      var t := AcceptedIsTree(FRESH, s);
      TreeParses(FRESH, t);
      NotDelete(t.lead + t.word);
    }
  }

  lemma NotDelete(w: string)
    requires All(w, c => Upper(c) || BreakOrBlank(c))
    ensures MethodOf(w) != Delete
  {
    assert |w| == 6 ==> Upper(w[1]) || BreakOrBlank(w[1]);
  }

  /** Blanks or line breaks before the method become part of it, so it is not recognised. */
  lemma LeadingBlanksLoseMethod(t: Tree)
    requires WellFormed(t) && Completes(FRESH, t) && t.lead != ""
    ensures Run(Next(Start, FRESH), Text(t)).request.verb == NoMethod
  {
    TreeParses(FRESH, t);
    assert (t.lead + t.word)[0] == t.lead[0];
  }

  /** A reset context keeps the headers of the request before. A request that sends no Content-Length
      of its own, which a fresh context would complete, is completed by a reused one exactly when no
      positive length is left over from before, or bytes follow its blank line. */
  lemma ReusedContext(prior: Request, t: Tree)
    requires WellFormed(t) && forall h :: h in t.headers ==> h.key != "Content-Length"
    ensures Accepted(Next(Start, FRESH), Text(t))
    ensures Accepted(Next(Start, prior), Text(t)) <==>
            !HasLength(prior) || Atoi(prior.headers["Content-Length"]) <= 0 || t.rest != ""
  {
    TreeParses(FRESH, t);
    TreeParses(prior, t);
    UpdatedKeeps(FRESH.headers, t.headers, "Content-Length");
    UpdatedKeeps(prior.headers, t.headers, "Content-Length");
  }

  lemma {:induction false} UpdatedKeeps(m: map<string, string>, ps: seq<Pair>, k: string)
    requires forall p :: p in ps ==> p.key != k
    ensures (k in Updated(m, ps) <==> k in m) && (k in m ==> Updated(m, ps)[k] == m[k])
    decreases |ps|
  {
    if ps != [] {
      UpdatedKeeps(m[ps[0].key := ps[0].value], ps[1..], k);
    }
  }

  function KeysOf(ps: seq<Pair>): set<string> {
    set i | 0 <= i < |ps| :: ps[i].key
  }

  lemma {:induction false} UpdatedKeys(m: map<string, string>, ps: seq<Pair>)
    ensures Updated(m, ps).Keys == m.Keys + KeysOf(ps)
    decreases |ps|
  {
    if ps != [] {
      UpdatedKeys(m[ps[0].key := ps[0].value], ps[1..]);
      assert forall k :: k in KeysOf(ps) <==> k == ps[0].key || k in KeysOf(ps[1..]);
    }
  }

  lemma {:induction false} UpdatedAgree(m: map<string, string>, n: map<string, string>, ps: seq<Pair>)
    ensures forall k :: k in KeysOf(ps) ==>
      k in Updated(m, ps) && k in Updated(n, ps) && Updated(m, ps)[k] == Updated(n, ps)[k]
    decreases |ps|
  {
    UpdatedKeys(m, ps);
    UpdatedKeys(n, ps);
    if ps != [] {
      var (k, v) := (ps[0].key, ps[0].value);
      UpdatedAgree(m[k := v], n[k := v], ps[1..]);
      assert forall x :: x in KeysOf(ps) <==> x == k || x in KeysOf(ps[1..]);
      if k !in KeysOf(ps[1..]) {
        assert forall q :: q in ps[1..] ==> q.key in KeysOf(ps[1..]);
        UpdatedKeeps(m[k := v], ps[1..], k);
        UpdatedKeeps(n[k := v], ps[1..], k);
      }
    }
  }

  /** Nothing of an older map is left exactly if the new entries replace all of it. */
  lemma UpdatedSame(m: map<string, string>, ps: seq<Pair>)
    ensures Updated(m, ps) == Updated(map[], ps) <==> m.Keys <= KeysOf(ps)
  {
    UpdatedKeys(m, ps);
    UpdatedKeys(map[], ps);
    UpdatedAgree(m, map[], ps);
  }

  /** A reused context extracts the same parameters, or headers, as a fresh one exactly if the new
      request names each one that the request before had. */
  lemma ReusedMaps(prior: Request, t: Tree)
    requires WellFormed(t) && Completes(FRESH, t) && Completes(prior, t)
    ensures var (reused, first) := (Run(Next(Start, prior), Text(t)).request, Run(Next(Start, FRESH), Text(t)).request);
            && (reused.params == first.params <==> prior.params.Keys <= KeysOf(t.params))
            && (reused.headers == first.headers <==> prior.headers.Keys <= KeysOf(t.headers))
  {
    hide Run, Text;
    TreeParses(FRESH, t);
    TreeParses(prior, t);
    UpdatedSame(prior.params, t.params);
    UpdatedSame(prior.headers, t.headers);
  }

  const POSTED := Tree("", "POST", ' ', "", "", [], ' ', "", "HTTP", "1.1", [Pair("Content-Length", "5")], "hello")
  const PLAIN_GET := Tree("", "GET", ' ', "", "", [], ' ', "", "HTTP", "1.1", [], "")

  lemma FiveIsFive()
    ensures Atoi("5") == 5
  {
    assert "5"[..0] == "" && Value("5") == 5 && LeadingDigits("5") == "5" + "" == "5";
  }

  lemma PostedWellFormed()
    ensures WellFormed(POSTED)
  {
    assert [Pair("Content-Length", "5")][0] in POSTED.headers;
  }

  lemma PostedHeaders()
    ensures Updated(FRESH.headers, POSTED.headers) == map["Content-Length" := "5"]
  {
    assert POSTED.headers[1..] == [];
  }

  lemma PostedRequest()
    ensures Accepted(Next(Start, FRESH), Text(POSTED))
    ensures Run(Next(Start, FRESH), Text(POSTED)).request.headers == map["Content-Length" := "5"]
  {
    hide Run, Text, WellFormed, Updated, Atoi;
    PostedWellFormed();
    PostedHeaders();
    TreeParses(FRESH, POSTED);
  }

  /** The request GET / is completed by a fresh context, and never by one that has just parsed a
      request with a body of five bytes and been reset. */
  lemma StaleLengthRejects()
    ensures var prior := Run(Next(Start, FRESH), Text(POSTED));
            && prior.state == Complete
            && Accepted(Next(Start, FRESH), Text(PLAIN_GET)) && !Accepted(Next(Start, prior.request), Text(PLAIN_GET))
  {
    hide Run, Text;
    PostedRequest();
    FiveIsFive();
    ReusedContext(Run(Next(Start, FRESH), Text(POSTED)).request, PLAIN_GET);
  }
}
