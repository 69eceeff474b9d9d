/**
 The request parser as a state machine over the remaining characters, and, independently of it, the
 language it accepts: a request is a syntax tree, `Text` writes the tree out, `WellFormed` says which
 trees count. The two are proved to agree on every input, for fresh and for reused contexts.
 */
module HttpGrammar {
  import opened Utils
  import opened Decimal

  datatype Method = NoMethod | Get | Post | Head | Put | Delete
  datatype Version = Unknown | Http10 | Http11

  datatype Request = Request(
    verb: Method, version: Version, url: string, protocol: string,
    params: map<string, string>, headers: map<string, string>, body: string)

  const FRESH := Request(NoMethod, Unknown, "", "", map[], map[], "")

  const CR := '\r'
  const LF := '\n'

  function MethodOf(s: string): Method {
    if s == "GET" then Get else if s == "POST" then Post else if s == "HEAD" then Head
    else if s == "PUT" then Put else if s == "Delete" then Delete else NoMethod
  }

  function VersionOf(s: string): Version {
    if s == "1.0" then Http10 else if s == "1.1" then Http11 else Unknown
  }

  predicate Blank(c: char) { c == ' ' || c == '\t' }
  predicate Upper(c: char) { 'A' <= c <= 'Z' }
  predicate BreakOrBlank(c: char) { c == CR || c == LF || Blank(c) }

  lemma ClassesAre(c: char)
    ensures Blank(c) <==> c in " \t"
    ensures BreakOrBlank(c) <==> c in " \t\r\n"
    ensures Upper(c) <==> c in CAPITALS
    ensures IsDigit(c) <==> c in NUMERALS
  {
    CapitalsAre(c);
    NumeralsAre(c);
  }

  predicate All(s: string, p: char -> bool) {
    forall i :: 0 <= i < |s| ==> p(s[i])
  }

  // ---------------------------------------------------------------- atoi

  function LeadingDigits(s: string): (d: string)
    ensures AllDigits(d)
  {
    if s == "" || !IsDigit(s[0]) then "" else [s[0]] + LeadingDigits(s[1..])
  }

  function Atoi(s: string): int {
    if s == "" then 0 as int
    else if Space(s[0]) then Atoi(s[1..])
    else if s[0] == '-' then -(Value(LeadingDigits(s[1..])) as int)
    else if s[0] == '+' then Value(LeadingDigits(s[1..]))
    else Value(LeadingDigits(s))
  }

  // ---------------------------------------------------------------- the state machine

  datatype State =
    | Invalid | InvalidMethod | InvalidUrl | Start | InMethod | BeforeUrl | InUrl
    | BeforeParamKey | ParamKey | BeforeParamValue | ParamValue
    | BeforeProtocol | Protocol | BeforeVersion | InVersion
    | WhenCr | CrLf | HeaderKey | HeaderValue | CrLfCr | Body | Complete

  /** `tok` is what lies between the cursors start and end; once a key has been split off, `key` is
      what lies before the cursor colon and `tok` what lies behind it. */
  datatype Config = Config(state: State, key: string, tok: string, request: Request)

  predicate Halted(st: State) { st == Invalid || st == Complete }

  /** States whose token is never used again. */
  predicate Dead(st: State) { st == Invalid || st == InvalidMethod || st == InvalidUrl || st == Complete }

  /** The token grows by one character. */
  function Grow(c: Config, st: State, ch: char): Config {
    if Dead(st) then Next(st, c.request) else c.(state := st, tok := c.tok + [ch])
  }

  /** A new token starts behind the character. */
  function Next(st: State, r: Request): Config {
    Config(st, "", "", r)
  }

  function HasLength(r: Request): bool { "Content-Length" in r.headers }

  function Step(c: Config, ch: char, rest: string): Config {
    var r := c.request;
    match c.state
    case Start => Grow(c, if BreakOrBlank(ch) then Start else if Upper(ch) then InMethod else Invalid, ch)
    case InMethod =>
      if Upper(ch) then Grow(c, InMethod, ch)
      else if Blank(ch) then Next(BeforeUrl, r.(verb := MethodOf(c.tok)))
      else Grow(c, InvalidMethod, ch)
    case BeforeUrl => Grow(c, if ch == '/' then InUrl else if Blank(ch) then BeforeUrl else InvalidUrl, ch)
    case InUrl =>
      if ch == '?' then Next(BeforeParamKey, r.(url := c.tok))
      else if Blank(ch) then Next(BeforeProtocol, r.(url := c.tok))
      else Grow(c, InUrl, ch)
    case BeforeParamKey => Grow(c, if BreakOrBlank(ch) then Invalid else ParamKey, ch)
    case ParamKey =>
      if ch == '=' then Config(BeforeParamValue, c.tok, "", r)
      else Grow(c, if Blank(ch) then Invalid else ParamKey, ch)
    case BeforeParamValue => Grow(c, if BreakOrBlank(ch) then Invalid else ParamValue, ch)
    case ParamValue =>
      if ch == '&' then Next(BeforeParamKey, r.(params := r.params[c.key := c.tok]))
      else if Blank(ch) then Next(BeforeProtocol, r.(params := r.params[c.key := c.tok]))
      else Grow(c, ParamValue, ch)
    case BeforeProtocol => Grow(c, if Blank(ch) then BeforeProtocol else Protocol, ch)
    case Protocol =>
      if ch == '/' then Next(BeforeVersion, r.(protocol := c.tok)) else Grow(c, Protocol, ch)
    case BeforeVersion => Grow(c, if IsDigit(ch) then InVersion else Invalid, ch)
    case InVersion =>
      if IsDigit(ch) || ch == '.' then Grow(c, InVersion, ch)
      else if ch == CR then Next(WhenCr, r.(version := VersionOf(c.tok)))
      else Grow(c, Invalid, ch)
    case WhenCr => if ch == LF then Next(CrLf, r) else Grow(c, Invalid, ch)
    case CrLf => Grow(c, if ch == CR then CrLfCr else if Blank(ch) then Invalid else HeaderKey, ch)
    case HeaderKey =>
      if ch == ':' then Config(HeaderValue, c.tok, "", r) else Grow(c, HeaderKey, ch)
    case HeaderValue =>
      if ch == CR then Next(WhenCr, r.(headers := r.headers[c.key := c.tok]))
      else Grow(c, HeaderValue, ch)
    case CrLfCr =>
      if ch == LF then
        var more := if HasLength(r) then Atoi(r.headers["Content-Length"]) > 0 else rest != "";
        Next(if more then Body else Complete, r)
      else Grow(c, Invalid, ch)
    case Body => Next(Complete, r.(body := [ch] + rest))
    case _ => Grow(c, Invalid, ch)
  }

  function Run(c: Config, s: string): Config
    decreases |s|
  {
    if Halted(c.state) || s == "" then c else Run(Step(c, s[0], s[1..]), s[1..])
  }

  // ---------------------------------------------------------------- the language

  datatype Pair = Pair(key: string, value: string)

  datatype Tree = Tree(
    lead: string, word: string, sep1: char,
    gap1: string, path: string, params: seq<Pair>, sep2: char,
    gap2: string, protocol: string, version: string,
    headers: seq<Pair>, rest: string)

  function ParamText(ps: seq<Pair>): string
    requires ps != []
  {
    ps[0].key + ("=" + if |ps| == 1 then ps[0].value else ps[0].value + ("&" + ParamText(ps[1..])))
  }

  /** A line break and what follows it. */
  function Line(rest: string): string {
    [CR] + ([LF] + rest)
  }

  function HeaderText(hs: seq<Pair>): string {
    if hs == [] then "" else hs[0].key + (":" + (hs[0].value + Line(HeaderText(hs[1..]))))
  }

  function QueryText(ps: seq<Pair>): string {
    if ps == [] then "" else "?" + ParamText(ps)
  }

  function Text(t: Tree): string {
    t.lead + (t.word + ([t.sep1] + (t.gap1 + ("/" + (t.path + (QueryText(t.params) + ([t.sep2] + AfterUrl(t))))))))
  }

  function AfterUrl(t: Tree): string {
    t.gap2 + (t.protocol + ("/" + (t.version + Line(AfterRequestLine(t)))))
  }

  function AfterRequestLine(t: Tree): string {
    HeaderText(t.headers) + Line(t.rest)
  }

  predicate ParamOk(p: Pair) {
    && p.key != "" && !BreakOrBlank(p.key[0]) && All(p.key[1..], c => c != '=' && !Blank(c))
    && p.value != "" && !BreakOrBlank(p.value[0]) && All(p.value[1..], c => c != '&' && !Blank(c))
  }

  predicate HeaderOk(h: Pair) {
    && h.key != "" && h.key[0] != CR && !Blank(h.key[0]) && All(h.key[1..], c => c != ':')
    && All(h.value, c => c != CR)
  }

  predicate WellFormed(t: Tree) {
    && All(t.lead, c => BreakOrBlank(c))
    && t.word != "" && All(t.word, c => Upper(c)) && Blank(t.sep1)
    && All(t.gap1, c => Blank(c)) && All(t.path, c => c != '?' && !Blank(c))
    && (forall p :: p in t.params ==> ParamOk(p)) && Blank(t.sep2)
    && All(t.gap2, c => Blank(c))
    && t.protocol != "" && !Blank(t.protocol[0]) && All(t.protocol[1..], c => c != '/')
    && t.version != "" && IsDigit(t.version[0]) && All(t.version[1..], c => IsDigit(c) || c == '.')
    && (forall h :: h in t.headers ==> HeaderOk(h))
  }

  /** Entries in order, a later one replacing an earlier one of the same key. */
  function Updated(m: map<string, string>, ps: seq<Pair>): map<string, string>
    decreases |ps|
  {
    if ps == [] then m else Updated(m[ps[0].key := ps[0].value], ps[1..])
  }

  /** What the request line and the headers of the tree leave in a context whose request was r. */
  function HeadOf(r: Request, t: Tree): Request {
    Request(MethodOf(t.lead + t.word), VersionOf(t.version), t.gap1 + "/" + t.path, t.gap2 + t.protocol,
            Updated(r.params, t.params), Updated(r.headers, t.headers), r.body)
  }

  /** A body is expected: by Content-Length where there is one, by what has arrived otherwise. */
  predicate WantsBody(r: Request, rest: string) {
    if HasLength(r) then Atoi(r.headers["Content-Length"]) > 0 else rest != ""
  }

  predicate Completes(r: Request, t: Tree) {
    WantsBody(HeadOf(r, t), t.rest) ==> t.rest != ""
  }

  function Parsed(r: Request, t: Tree): Request {
    var h := HeadOf(r, t);
    if WantsBody(h, t.rest) then h.(body := t.rest) else h
  }

  // ---------------------------------------------------------------- scanning

  /** Characters on which a state only grows its token. */
  predicate Stays(st: State, ch: char) {
    match st
    case Start => BreakOrBlank(ch)
    case InMethod => Upper(ch)
    case BeforeUrl => Blank(ch)
    case InUrl => ch != '?' && !Blank(ch)
    case ParamKey => ch != '=' && !Blank(ch)
    case ParamValue => ch != '&' && !Blank(ch)
    case BeforeProtocol => Blank(ch)
    case Protocol => ch != '/'
    case InVersion => IsDigit(ch) || ch == '.'
    case HeaderKey => ch != ':'
    case HeaderValue => ch != CR
    case _ => false
  }

  lemma StaysGrows(c: Config, ch: char, rest: string)
    requires Stays(c.state, ch)
    ensures Step(c, ch, rest) == c.(tok := c.tok + [ch])
  {
  }

  /** One step on a known first character. */
  lemma Take(c: Config, ch: char, rest: string)
    requires !Halted(c.state)
    ensures Run(c, [ch] + rest) == Run(Step(c, ch, rest), rest)
  {
    hide Step;
    assert ([ch] + rest)[1..] == rest;
  }

  lemma RunEnds(c: Config, s: string)
    requires Halted(c.state) || s == ""
    ensures Run(c, s) == c
  {
  }

  lemma {:induction false} Scan(c: Config, w: string, rest: string)
    requires All(w, ch => Stays(c.state, ch))
    ensures Run(c, w + rest) == Run(c.(tok := c.tok + w), rest)
    decreases |w|
  {
    hide Run;
    hide Step;
    if w == "" {
      assert w + rest == rest && c.tok + w == c.tok;
    } else {
      var d := c.(tok := c.tok + [w[0]]);
      HeadTail(w, rest);
      StaysGrows(c, w[0], w[1..] + rest);
      Take(c, w[0], w[1..] + rest);
      Scan(d, w[1..], rest);
      Assoc(c.tok, [w[0]], w[1..]);
      assert [w[0]] + w[1..] == w;
    }
  }

  /** A run of characters that only grow the token, then one that does something else. */
  lemma ScanThen(c: Config, w: string, ch: char, rest: string)
    requires All(w, x => Stays(c.state, x)) && !Halted(c.state)
    ensures Run(c, w + ([ch] + rest)) == Run(Step(c.(tok := c.tok + w), ch, rest), rest)
  {
    hide Run;
    hide Step;
    Scan(c, w, [ch] + rest);
    Take(c.(tok := c.tok + w), ch, rest);
  }

  lemma HeadThen(c: Config, w: string, st: State, rest: string)
    requires w != "" && !Halted(c.state) && Step(c, w[0], w[1..] + rest) == Grow(c, st, w[0])
    ensures Run(c, w + rest) == Run(Grow(c, st, w[0]), w[1..] + rest)
  {
    hide Run;
    hide Step;
    HeadTail(w, rest);
    Take(c, w[0], w[1..] + rest);
  }

  /** A token whose first character moves the machine into the state that collects it. */
  lemma Token(c: Config, w: string, st: State, ch: char, rest: string)
    requires w != "" && !Halted(c.state) && !Dead(st)
    requires Step(c, w[0], w[1..] + ([ch] + rest)) == Grow(c, st, w[0])
    requires All(w[1..], x => Stays(st, x))
    ensures Run(c, w + ([ch] + rest)) == Run(Step(Config(st, c.key, c.tok + w, c.request), ch, rest), rest)
  {
    hide Run;
    hide Step;
    HeadThen(c, w, st, [ch] + rest);
    ScanThen(Grow(c, st, w[0]), w[1..], ch, rest);
    assert (c.tok + [w[0]]) + w[1..] == c.tok + w by {
      Assoc(c.tok, [w[0]], w[1..]);
      assert [w[0]] + w[1..] == w;
    }
  }

  lemma Empty(w: string)
    ensures "" + w == w
  {
  }

  // ---------------------------------------------------------------- every tree parses

  lemma BlankLine(r: Request, rest: string)
    ensures Run(Next(CrLf, r), Line(rest)) == Run(Next(if WantsBody(r, rest) then Body else Complete, r), rest)
  {
    Take(Next(CrLf, r), CR, [LF] + rest);
    Take(Config(CrLfCr, "", [CR], r), LF, rest);
  }

  lemma AfterBlankLine(r: Request, rest: string)
    ensures var c := Run(Next(CrLf, r), Line(rest));
            if !WantsBody(r, rest) then c.state == Complete && c.request == r
            else if rest != "" then c.state == Complete && c.request == r.(body := rest)
            else c.state == Body
  {
    BlankLine(r, rest);
    if WantsBody(r, rest) && rest != "" {
      BodyTaken(r, rest);
    }
  }

  lemma BodyTaken(r: Request, rest: string)
    requires rest != ""
    ensures Run(Next(Body, r), rest).state == Complete && Run(Next(Body, r), rest).request == r.(body := rest)
  {
    assert [rest[0]] + rest[1..] == rest;
  }

  lemma LineFeed(r: Request, rest: string)
    ensures Run(Next(WhenCr, r), [LF] + rest) == Run(Next(CrLf, r), rest)
  {
    Take(Next(WhenCr, r), LF, rest);
  }

  lemma HeaderEnds(r: Request, key: string, value: string, rest: string)
    ensures Step(Config(HeaderValue, key, value, r), CR, rest) == Next(WhenCr, r.(headers := r.headers[key := value]))
  {
  }

  lemma HeaderValuePart(r: Request, key: string, value: string, rest: string)
    requires All(value, c => c != CR)
    ensures Run(Config(HeaderValue, key, "", r), value + Line(rest))
         == Run(Next(CrLf, r.(headers := r.headers[key := value])), rest)
  {
    hide Run;
    hide Step;
    ScanThen(Config(HeaderValue, key, "", r), value, CR, [LF] + rest);
    Empty(value);
    HeaderEnds(r, key, value, [LF] + rest);
    LineFeed(r.(headers := r.headers[key := value]), rest);
  }

  lemma OneHeader(r: Request, h: Pair, rest: string)
    requires HeaderOk(h)
    ensures Run(Next(CrLf, r), h.key + (":" + (h.value + Line(rest))))
         == Run(Next(CrLf, r.(headers := r.headers[h.key := h.value])), rest)
  {
    hide Run;
    Token(Next(CrLf, r), h.key, HeaderKey, ':', h.value + Line(rest));
    Empty(h.key);
    HeaderValuePart(r, h.key, h.value, rest);
  }

  lemma {:induction false} AllHeaders(r: Request, hs: seq<Pair>, rest: string)
    requires forall h :: h in hs ==> HeaderOk(h)
    ensures Run(Next(CrLf, r), HeaderText(hs) + rest) == Run(Next(CrLf, r.(headers := Updated(r.headers, hs))), rest)
    decreases |hs|
  {
    hide Run;
    if hs == [] {
      Empty(rest);
    } else {
      var h, more := hs[0], HeaderText(hs[1..]);
      HeaderTextSplit(hs, rest);
      OneHeader(r, h, more + rest);
      AllHeaders(r.(headers := r.headers[h.key := h.value]), hs[1..], rest);
    }
  }

  lemma HeaderTextSplit(hs: seq<Pair>, rest: string)
    requires hs != []
    ensures HeaderText(hs) + rest == hs[0].key + (":" + (hs[0].value + Line(HeaderText(hs[1..]) + rest)))
  {
    var k, v, more := hs[0].key, hs[0].value, HeaderText(hs[1..]);
    Assoc(k, ":" + (v + Line(more)), rest);
    Assoc(":", v + Line(more), rest);
    Assoc(v, Line(more), rest);
    Assoc([CR], [LF] + more, rest);
    Assoc([LF], more, rest);
  }

  lemma VersionPart(r: Request, v: string, rest: string)
    requires v != "" && IsDigit(v[0]) && All(v[1..], c => IsDigit(c) || c == '.')
    ensures Run(Next(BeforeVersion, r), v + Line(rest)) == Run(Next(CrLf, r.(version := VersionOf(v))), rest)
  {
    hide Run;
    Token(Next(BeforeVersion, r), v, InVersion, CR, [LF] + rest);
    Empty(v);
    Take(Next(WhenCr, r.(version := VersionOf(v))), LF, rest);
  }

  lemma ProtocolPart(r: Request, gap: string, w: string, rest: string)
    requires All(gap, c => Blank(c)) && w != "" && !Blank(w[0]) && All(w[1..], c => c != '/')
    ensures Run(Next(BeforeProtocol, r), gap + (w + ("/" + rest))) == Run(Next(BeforeVersion, r.(protocol := gap + w)), rest)
  {
    hide Run;
    Scan(Next(BeforeProtocol, r), gap, w + ("/" + rest));
    Empty(gap);
    Token(Config(BeforeProtocol, "", gap, r), w, Protocol, '/', rest);
  }

  lemma ProtocolAndVersion(r: Request, t: Tree)
    requires WellFormed(t)
    ensures Run(Next(BeforeProtocol, r), AfterUrl(t))
         == Run(Next(CrLf, r.(protocol := t.gap2 + t.protocol, version := VersionOf(t.version))), AfterRequestLine(t))
  {
    hide Run;
    ProtocolPart(r, t.gap2, t.protocol, t.version + Line(AfterRequestLine(t)));
    VersionPart(r.(protocol := t.gap2 + t.protocol), t.version, AfterRequestLine(t));
  }

  lemma OneParam(r: Request, p: Pair, ch: char, rest: string)
    requires ParamOk(p)
    ensures Run(Next(BeforeParamKey, r), p.key + ("=" + (p.value + ([ch] + rest))))
         == Run(Step(Config(ParamValue, p.key, p.value, r), ch, rest), rest)
  {
    hide Run;
    Token(Next(BeforeParamKey, r), p.key, ParamKey, '=', p.value + ([ch] + rest));
    Empty(p.key);
    Token(Config(BeforeParamValue, p.key, "", r), p.value, ParamValue, ch, rest);
    Empty(p.value);
  }

  lemma ParamTextSplit(ps: seq<Pair>, rest: string)
    requires ps != []
    ensures |ps| == 1 ==> ParamText(ps) + rest == ps[0].key + ("=" + (ps[0].value + rest))
    ensures |ps| > 1 ==> ParamText(ps) + rest == ps[0].key + ("=" + (ps[0].value + (['&'] + (ParamText(ps[1..]) + rest))))
  {
    var k, v := ps[0].key, ps[0].value;
    if |ps| == 1 {
      assert ParamText(ps) == k + ("=" + v);
      Assoc(k, "=" + v, rest);
      Assoc("=", v, rest);
    } else {
      var more := ParamText(ps[1..]);
      assert ParamText(ps) == k + ("=" + (v + ("&" + more)));
      Assoc(k, "=" + (v + ("&" + more)), rest);
      Assoc("=", v + ("&" + more), rest);
      Assoc(v, "&" + more, rest);
      Assoc("&", more, rest);
    }
  }

  lemma {:induction false} AllParams(r: Request, ps: seq<Pair>, sep: char, rest: string)
    requires ps != [] && (forall p :: p in ps ==> ParamOk(p)) && Blank(sep)
    ensures Run(Next(BeforeParamKey, r), ParamText(ps) + ([sep] + rest))
         == Run(Next(BeforeProtocol, r.(params := Updated(r.params, ps))), rest)
    decreases |ps|
  {
    hide Run;
    ParamTextSplit(ps, [sep] + rest);
    if |ps| == 1 {
      OneParam(r, ps[0], sep, rest);
      assert ps[1..] == [];
    } else {
      OneParam(r, ps[0], '&', ParamText(ps[1..]) + ([sep] + rest));
      AllParams(r.(params := r.params[ps[0].key := ps[0].value]), ps[1..], sep, rest);
    }
  }

  lemma PathPart(r: Request, gap: string, path: string, ch: char, rest: string)
    requires All(gap, c => Blank(c)) && All(path, c => c != '?' && !Blank(c))
    ensures Run(Next(BeforeUrl, r), gap + ("/" + (path + ([ch] + rest))))
         == Run(Step(Config(InUrl, "", gap + "/" + path, r), ch, rest), rest)
  {
    hide Run;
    ScanThen(Next(BeforeUrl, r), gap, '/', path + ([ch] + rest));
    Empty(gap);
    ScanThen(Config(InUrl, "", gap + "/", r), path, ch, rest);
  }

  lemma Url(r: Request, t: Tree)
    requires WellFormed(t)
    ensures Run(Next(BeforeUrl, r), t.gap1 + ("/" + (t.path + (QueryText(t.params) + ([t.sep2] + AfterUrl(t))))))
         == Run(Next(BeforeProtocol, r.(url := t.gap1 + "/" + t.path, params := Updated(r.params, t.params))), AfterUrl(t))
  {
    hide Run;
    var s3 := [t.sep2] + AfterUrl(t);
    if t.params == [] {
      Empty(s3);
      PathPart(r, t.gap1, t.path, t.sep2, AfterUrl(t));
    } else {
      Assoc("?", ParamText(t.params), s3);
      PathPart(r, t.gap1, t.path, '?', ParamText(t.params) + s3);
      AllParams(r.(url := t.gap1 + "/" + t.path), t.params, t.sep2, AfterUrl(t));
    }
  }

  lemma WordPart(r: Request, t: Tree, rest: string)
    requires WellFormed(t)
    ensures Run(Next(Start, r), t.lead + (t.word + ([t.sep1] + rest)))
         == Run(Next(BeforeUrl, r.(verb := MethodOf(t.lead + t.word))), rest)
  {
    hide Run;
    Scan(Next(Start, r), t.lead, t.word + ([t.sep1] + rest));
    Empty(t.lead);
    assert Upper(t.word[0]);
    Token(Config(Start, "", t.lead, r), t.word, InMethod, t.sep1, rest);
  }

  /** What the machine does with the text of any tree, from any request left in the context. */
  lemma TreeParses(r: Request, t: Tree)
    requires WellFormed(t)
    ensures var c := Run(Next(Start, r), Text(t));
            if Completes(r, t) then c.state == Complete && c.request == Parsed(r, t) else c.state == Body
  {
    hide Run;
    WordPart(r, t, t.gap1 + ("/" + (t.path + (QueryText(t.params) + ([t.sep2] + AfterUrl(t))))));
    var r1 := r.(verb := MethodOf(t.lead + t.word));
    Url(r1, t);
    var r2 := r1.(url := t.gap1 + "/" + t.path, params := Updated(r.params, t.params));
    ProtocolAndVersion(r2, t);
    var r3 := r2.(protocol := t.gap2 + t.protocol, version := VersionOf(t.version));
    AllHeaders(r3, t.headers, Line(t.rest));
    AfterBlankLine(r3.(headers := Updated(r.headers, t.headers)), t.rest);
  }

  // ---------------------------------------------------------------- nothing else parses

  ghost predicate Accepted(c: Config, s: string) {
    Run(c, s).state == Complete
  }

  lemma {:induction false} DeadStates(c: Config, s: string)
    requires c.state == Invalid || c.state == InvalidMethod || c.state == InvalidUrl
    ensures !Accepted(c, s)
    decreases |s|
  {
    if s != "" && c.state != Invalid {
      DeadStates(Step(c, s[0], s[1..]), s[1..]);
    }
  }

  lemma Uncons(c: Config, s: string) returns (ch: char, rest: string)
    requires c.state != Complete && Accepted(c, s)
    ensures s == [ch] + rest && Accepted(Step(c, ch, rest), rest)
  {
    ch, rest := s[0], s[1..];
  }

  /** An accepted input leaves every collecting state after finitely many characters. */
  lemma {:induction false} ScanBack(c: Config, s: string) returns (w: string, ch: char, rest: string)
    requires c.state != Complete && Accepted(c, s)
    ensures s == w + ([ch] + rest) && All(w, x => Stays(c.state, x)) && !Stays(c.state, ch)
    ensures Accepted(Step(c.(tok := c.tok + w), ch, rest), rest)
    decreases |s|
  {
    ch, rest := Uncons(c, s);
    if Stays(c.state, ch) {
      var d := c.(tok := c.tok + [ch]);
      StaysGrows(c, ch, rest);
      var w1, ch1, rest1 := ScanBack(d, rest);
      Assoc(c.tok, [ch], w1);
      Assoc([ch], w1, [ch1] + rest1);
      w, ch, rest := [ch] + w1, ch1, rest1;
    } else {
      w := "";
      Empty(s);
      assert c.tok + "" == c.tok;
    }
  }

  lemma LineFeedBack(r: Request, s: string) returns (rest: string)
    requires Accepted(Next(WhenCr, r), s)
    ensures s == [LF] + rest && Accepted(Next(CrLf, r), rest)
  {
    var ch;
    ch, rest := Uncons(Next(WhenCr, r), s);
    if ch != LF { DeadStates(Grow(Next(WhenCr, r), Invalid, ch), rest); }
  }

  lemma HeaderBack(r: Request, first: char, s: string) returns (h: Pair, rest: string)
    requires first != CR && !Blank(first) && Accepted(Config(HeaderKey, "", [first], r), s)
    ensures HeaderOk(h) && [first] + s == h.key + (":" + (h.value + Line(rest)))
    ensures Accepted(Next(CrLf, r.(headers := r.headers[h.key := h.value])), rest)
  {
    hide Run;
    var w, ch, s1 := ScanBack(Config(HeaderKey, "", [first], r), s);
    assert ch == ':';
    var key := [first] + w;
    assert key[1..] == w;
    var v, ch2, s2 := ScanBack(Config(HeaderValue, key, "", r), s1);
    assert ch2 == CR;
    Empty(v);
    rest := LineFeedBack(r.(headers := r.headers[key := v]), s2);
    h := Pair(key, v);
    Assoc([first], w, ":" + s1);
  }

  lemma BlankLineBack(r: Request, s: string) returns (rest: string)
    requires Accepted(Config(CrLfCr, "", [CR], r), s)
    ensures s == [LF] + rest
  {
    var ch;
    ch, rest := Uncons(Config(CrLfCr, "", [CR], r), s);
    if ch != LF { DeadStates(Grow(Config(CrLfCr, "", [CR], r), Invalid, ch), rest); }
  }

  lemma {:induction false} HeadersBack(r: Request, s: string) returns (hs: seq<Pair>, rest: string)
    requires Accepted(Next(CrLf, r), s)
    ensures s == HeaderText(hs) + Line(rest) && forall h :: h in hs ==> HeaderOk(h)
    decreases |s|
  {
    hide Run;
    var ch, s1 := Uncons(Next(CrLf, r), s);
    Empty([ch]);
    if ch == CR {
      rest := BlankLineBack(r, s1);
      hs := [];
      Empty(Line(rest));
    } else if Blank(ch) {
      DeadStates(Grow(Next(CrLf, r), Invalid, ch), s1);
      assert false;
    } else {
      var h, s2 := HeaderBack(r, ch, s1);
      assert |s2| < |s|;
      var more;
      more, rest := HeadersBack(r.(headers := r.headers[h.key := h.value]), s2);
      hs := [h] + more;
      assert hs[1..] == more;
      HeaderTextSplit(hs, Line(rest));
    }
  }

  lemma VersionBack(r: Request, s: string) returns (v: string, rest: string)
    requires Accepted(Next(BeforeVersion, r), s)
    ensures v != "" && IsDigit(v[0]) && All(v[1..], c => IsDigit(c) || c == '.') && s == v + Line(rest)
    ensures Accepted(Next(CrLf, r.(version := VersionOf(v))), rest)
  {
    hide Run;
    var ch, s1 := Uncons(Next(BeforeVersion, r), s);
    Empty([ch]);
    if !IsDigit(ch) { DeadStates(Grow(Next(BeforeVersion, r), Invalid, ch), s1); assert false; }
    var w, ch2, s2 := ScanBack(Config(InVersion, "", [ch], r), s1);
    v := [ch] + w;
    assert v[1..] == w;
    if ch2 != CR { DeadStates(Grow(Config(InVersion, "", v, r), Invalid, ch2), s2); assert false; }
    rest := LineFeedBack(r.(version := VersionOf(v)), s2);
    Assoc([ch], w, [CR] + s2);
  }

  lemma ProtocolBack(r: Request, s: string) returns (gap: string, w: string, rest: string)
    requires Accepted(Next(BeforeProtocol, r), s)
    ensures All(gap, c => Blank(c)) && w != "" && !Blank(w[0]) && All(w[1..], c => c != '/')
    ensures s == gap + (w + ("/" + rest)) && Accepted(Next(BeforeVersion, r.(protocol := gap + w)), rest)
  {
    hide Run;
    var ch, s1;
    gap, ch, s1 := ScanBack(Next(BeforeProtocol, r), s);
    Empty(gap);
    var w1, ch2, s2 := ScanBack(Config(Protocol, "", gap + [ch], r), s1);
    w, rest := [ch] + w1, s2;
    assert w[1..] == w1;
    Assoc(gap, [ch], w1);
    Assoc([ch], w1, "/" + rest);
  }

  lemma ParamValueBack(r: Request, key: string, s: string) returns (value: string, ch: char, rest: string)
    requires Accepted(Config(BeforeParamValue, key, "", r), s)
    ensures value != "" && !BreakOrBlank(value[0]) && All(value[1..], c => c != '&' && !Blank(c))
    ensures s == value + ([ch] + rest) && (ch == '&' || Blank(ch))
    ensures Accepted(Step(Config(ParamValue, key, value, r), ch, rest), rest)
  {
    hide Run, Atoi;
    var v0, s1 := Uncons(Config(BeforeParamValue, key, "", r), s);
    Empty([v0]);
    if BreakOrBlank(v0) { DeadStates(Grow(Config(BeforeParamValue, key, "", r), Invalid, v0), s1); assert false; }
    var v;
    v, ch, rest := ScanBack(Config(ParamValue, key, [v0], r), s1);
    value := [v0] + v;
    assert value[1..] == v;
    Assoc([v0], v, [ch] + rest);
  }

  lemma ParamBack(r: Request, s: string) returns (p: Pair, ch: char, rest: string)
    requires Accepted(Next(BeforeParamKey, r), s)
    ensures ParamOk(p) && s == p.key + ("=" + (p.value + ([ch] + rest))) && (ch == '&' || Blank(ch))
    ensures Accepted(Step(Config(ParamValue, p.key, p.value, r), ch, rest), rest)
  {
    hide Run, Atoi;
    var k0, s1 := Uncons(Next(BeforeParamKey, r), s);
    Empty([k0]);
    if BreakOrBlank(k0) { DeadStates(Grow(Next(BeforeParamKey, r), Invalid, k0), s1); assert false; }
    var k, ch1, s2 := ScanBack(Config(ParamKey, "", [k0], r), s1);
    var key := [k0] + k;
    assert key[1..] == k;
    if Blank(ch1) { DeadStates(Grow(Config(ParamKey, "", key, r), Invalid, ch1), s2); assert false; }
    var v;
    v, ch, rest := ParamValueBack(r, key, s2);
    p := Pair(key, v);
    Assoc([k0], k, "=" + s2);
  }

  lemma {:induction false} ParamsBack(r: Request, s: string) returns (ps: seq<Pair>, sep: char, rest: string)
    requires Accepted(Next(BeforeParamKey, r), s)
    ensures ps != [] && (forall p :: p in ps ==> ParamOk(p)) && Blank(sep) && s == ParamText(ps) + ([sep] + rest)
    ensures Accepted(Next(BeforeProtocol, r.(params := Updated(r.params, ps))), rest)
    decreases |s|
  {
    hide Run;
    var p, ch, s1 := ParamBack(r, s);
    var r1 := r.(params := r.params[p.key := p.value]);
    if ch == '&' {
      assert |s1| < |s|;
      var more;
      more, sep, rest := ParamsBack(r1, s1);
      ps := [p] + more;
      assert ps[1..] == more;
    } else {
      ps, sep, rest := [p], ch, s1;
      assert ps[1..] == [];
    }
    ParamTextSplit(ps, [sep] + rest);
  }

  lemma UrlBack(r: Request, s: string)
    returns (gap: string, path: string, ps: seq<Pair>, sep: char, rest: string)
    requires Accepted(Next(BeforeUrl, r), s)
    ensures All(gap, c => Blank(c)) && All(path, c => c != '?' && !Blank(c))
    ensures (forall p :: p in ps ==> ParamOk(p)) && Blank(sep)
    ensures s == gap + ("/" + (path + (QueryText(ps) + ([sep] + rest))))
    ensures Accepted(Next(BeforeProtocol, r.(url := gap + "/" + path, params := Updated(r.params, ps))), rest)
  {
    hide Run;
    var ch, s1;
    gap, ch, s1 := ScanBack(Next(BeforeUrl, r), s);
    Empty(gap);
    if ch != '/' { DeadStates(Grow(Config(BeforeUrl, "", gap, r), InvalidUrl, ch), s1); assert false; }
    var ch2, s2;
    path, ch2, s2 := ScanBack(Config(InUrl, "", gap + "/", r), s1);
    if ch2 == '?' {
      ps, sep, rest := ParamsBack(r.(url := gap + "/" + path), s2);
      Assoc("?", ParamText(ps), [sep] + rest);
    } else {
      ps, sep, rest := [], ch2, s2;
      Empty([sep] + rest);
    }
  }

  lemma WordBack(r: Request, s: string) returns (lead: string, word: string, sep: char, rest: string)
    requires Accepted(Next(Start, r), s)
    ensures All(lead, c => BreakOrBlank(c)) && word != "" && All(word, c => Upper(c)) && Blank(sep)
    ensures s == lead + (word + ([sep] + rest))
    ensures Accepted(Next(BeforeUrl, r.(verb := MethodOf(lead + word))), rest)
  {
    hide Run;
    var ch, s1;
    lead, ch, s1 := ScanBack(Next(Start, r), s);
    Empty(lead);
    if !Upper(ch) { DeadStates(Grow(Config(Start, "", lead, r), Invalid, ch), s1); assert false; }
    var w, ch2, s2 := ScanBack(Config(InMethod, "", lead + [ch], r), s1);
    if !Blank(ch2) { DeadStates(Grow(Config(InMethod, "", lead + [ch] + w, r), InvalidMethod, ch2), s2); assert false; }
    word, sep, rest := [ch] + w, ch2, s2;
    Assoc(lead, [ch], w);
    Assoc([ch], w, [sep] + rest);
  }

  /** Every accepted input is the text of a well-formed tree that completes. */
  lemma AcceptedIsTree(r: Request, s: string) returns (t: Tree)
    requires Accepted(Next(Start, r), s)
    ensures WellFormed(t) && Text(t) == s && Completes(r, t)
  {
    hide Run;
    var lead, word, sep1, s1 := WordBack(r, s);
    var r1 := r.(verb := MethodOf(lead + word));
    var gap1, path, params, sep2, s2 := UrlBack(r1, s1);
    var r2 := r1.(url := gap1 + "/" + path, params := Updated(r.params, params));
    var gap2, protocol, s3 := ProtocolBack(r2, s2);
    var r3 := r2.(protocol := gap2 + protocol);
    var version, s4 := VersionBack(r3, s3);
    var headers, rest := HeadersBack(r3.(version := VersionOf(version)), s4);
    t := Tree(lead, word, sep1, gap1, path, params, sep2, gap2, protocol, version, headers, rest);
    TreeParses(r, t);
  }

  /** The parser accepts exactly the texts of the grammar that meet the completion rule, and leaves
      exactly the fields the tree assigns, whatever request was in the context before. */
  lemma AcceptsExactlyTheGrammar(r: Request, s: string)
    ensures Accepted(Next(Start, r), s) <==> exists t :: WellFormed(t) && Text(t) == s && Completes(r, t)
    ensures forall t :: WellFormed(t) && Text(t) == s && Completes(r, t) ==> Run(Next(Start, r), s).request == Parsed(r, t)
  {
    if Accepted(Next(Start, r), s) {
      var t := AcceptedIsTree(r, s);
    }
    forall t | WellFormed(t) && Text(t) == s && Completes(r, t)
      ensures Accepted(Next(Start, r), s) && Run(Next(Start, r), s).request == Parsed(r, t)
    {
      TreeParses(r, t);
    }
  }
}
