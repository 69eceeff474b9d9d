/**
 HttpResponse::GetMessage, and a reader that finds the end of each message by section 6.3 of RFC 9112:
 no body for HEAD and for the statuses that have none, otherwise the length that is announced, where
 equal repetitions count as one and a transfer coding is refused. The messages that read back as they
 were sent are characterised, and any concatenation of them is proved to read back.
 */
module HttpResponses {
  import opened Utils
  import opened Decimal
  import opened HttpGrammar

  /** A response as the reader sees it: the fields in the order in which they were written. */
  datatype Answer = Answer(code: nat, reason: string, fields: seq<Pair>, body: string)

  // ---------------------------------------------------------------- writing

  function FieldsThen(ps: seq<Pair>, rest: string): string {
    if ps == [] then rest else ps[0].key + (": " + (ps[0].value + Line(FieldsThen(ps[1..], rest))))
  }

  /** Status line, fields, blank line, body. */
  function AnswerText(a: Answer): string {
    "HTTP/1.1 " + (Digits(a.code) + (" " + (a.reason + Line(FieldsThen(a.fields, Line(a.body))))))
  }

  /** The fields GetMessage puts before the caller's own. */
  function OwnFields(close: bool, body: string): seq<Pair> {
    if close then [Pair("Connection", "close")]
    else [Pair("Content-Length", Digits(|body|)), Pair("Connection", "keep-alive")]
  }

  /** The order of std::less on strings of bytes. */
  predicate Before(a: string, b: string) {
    b != "" && (a == "" || a[0] < b[0] || (a[0] == b[0] && Before(a[1..], b[1..])))
  }

  lemma {:induction false} BeforeTotal(a: string, b: string)
    ensures a == b || Before(a, b) || Before(b, a)
    ensures !(Before(a, b) && Before(b, a)) && !Before(a, a)
    decreases |a|
  {
    if a != "" && b != "" {
      BeforeTotal(a[1..], b[1..]);
      assert a[0] == b[0] && a[1..] == b[1..] ==> a == [a[0]] + a[1..] == [b[0]] + b[1..] == b;
    }
    if a != "" {
      BeforeTotal(a[1..], a[1..]);
    }
  }

  lemma {:induction false} BeforeTransitive(a: string, b: string, c: string)
    requires Before(a, b) && Before(b, c)
    ensures Before(a, c)
    decreases |a|
  {
    if a != "" && a[0] == b[0] && b[0] == c[0] {
      BeforeTransitive(a[1..], b[1..], c[1..]);
    }
  }

  /** The strings first differ at i, where a has the smaller character. */
  ghost predicate SmallerAt(a: string, b: string, i: nat) {
    i < |a| && i < |b| && a[..i] == b[..i] && a[i] < b[i]
  }

  lemma SmallerInTail(a: string, b: string, i: nat)
    requires a != "" && b != "" && a[0] == b[0]
    ensures SmallerAt(a[1..], b[1..], i) <==> SmallerAt(a, b, i + 1)
  {
    if i < |a[1..]| && i < |b[1..]| {
      assert a[..i + 1] == [a[0]] + a[1..][..i] && b[..i + 1] == [b[0]] + b[1..][..i];
      assert a[1..][..i] == a[..i + 1][1..] && b[1..][..i] == b[..i + 1][1..];
    }
  }

  lemma SmallerAtOnce(a: string, b: string, i: nat)
    requires a != "" && b != "" && SmallerAt(a, b, i)
    ensures i == 0 <==> a[0] != b[0]
  {
    assert i > 0 ==> a[..i][0] == a[0] && b[..i][0] == b[0];
  }

  /** The earlier of two strings is a proper beginning of the other, or has the smaller character where
      they first differ. */
  lemma {:induction false} BeforeExactly(a: string, b: string)
    ensures Before(a, b) <==> a < b || exists i: nat :: SmallerAt(a, b, i)
    decreases |a|
  {
    hide SmallerAt;
    if a == "" || b == "" {
      NoneSmaller(a, b);
    } else {
      forall i: nat | SmallerAt(a, b, i) ensures i == 0 <==> a[0] != b[0] { SmallerAtOnce(a, b, i); }
      FirstSmaller(a, b);
      if a[0] == b[0] {
        BeforeExactly(a[1..], b[1..]);
        forall i: nat ensures SmallerAt(a[1..], b[1..], i) <==> SmallerAt(a, b, i + 1) { SmallerInTail(a, b, i); }
        if i: nat :| SmallerAt(a, b, i) {
          assert SmallerAt(a[1..], b[1..], i - 1) <==> SmallerAt(a, b, (i - 1) + 1);
        }
        assert a < b <==> a[1..] < b[1..] by { PrefixTail(a, b); }
      }
    }
  }

  lemma PrefixTail(a: string, b: string)
    requires a != "" && b != "" && a[0] == b[0]
    ensures a < b <==> a[1..] < b[1..]
  {
    assert a == [a[0]] + a[1..] && b == [b[0]] + b[1..];
  }

  lemma NoneSmaller(a: string, b: string)
    requires a == "" || b == ""
    ensures forall i: nat :: !SmallerAt(a, b, i)
  {
  }

  lemma FirstSmaller(a: string, b: string)
    requires a != "" && b != ""
    ensures SmallerAt(a, b, 0) <==> a[0] < b[0]
  {
    assert a[..0] == b[..0];
  }

  lemma {:induction false} FirstKey(keys: set<string>) returns (key: string)
    requires keys != {}
    ensures key in keys && forall k :: k in keys ==> k == key || Before(key, k)
    decreases |keys|
  {
    var x :| x in keys;
    if keys == {x} {
      key := x;
    } else {
      var least := FirstKey(keys - {x});
      BeforeTotal(x, least);
      key := if Before(x, least) then x else least;
      forall k | k in keys ensures k == key || Before(key, k) {
        if k != x && Before(x, least) && k != least {
          BeforeTransitive(x, least, k);
        }
      }
    }
  }

  /** The caller's headers, each exactly once, in the order of their names. */
  ghost predicate Lists(order: seq<Pair>, headers: map<string, string>) {
    && (forall i, j :: 0 <= i < j < |order| ==> Before(order[i].key, order[j].key))
    && (forall p :: p in order ==> p.key in headers && headers[p.key] == p.value)
    && (forall k :: k in headers ==> Pair(k, headers[k]) in order)
  }

  lemma {:induction false} FieldsThenConcat(a: seq<Pair>, b: seq<Pair>, rest: string)
    ensures FieldsThen(a + b, rest) == FieldsThen(a, FieldsThen(b, rest))
  {
    if a == [] {
      assert a + b == b;
    } else {
      FieldsThenConcat(a[1..], b, rest);
      assert (a + b)[1..] == a[1..] + b;
    }
  }

  lemma {:induction false} FieldsThenAppend(ps: seq<Pair>, rest: string, tail: string)
    ensures FieldsThen(ps, rest) + tail == FieldsThen(ps, rest + tail)
  {
    if ps != [] {
      var k, v, more := ps[0].key, ps[0].value, FieldsThen(ps[1..], rest);
      FieldsThenAppend(ps[1..], rest, tail);
      Assoc(k, ": " + (v + Line(more)), tail);
      Assoc(": ", v + Line(more), tail);
      Assoc(v, Line(more), tail);
      LineAppend(more, tail);
    }
  }

  lemma LineAppend(s: string, tail: string)
    ensures Line(s) + tail == Line(s + tail)
  {
    Assoc([CR], [LF] + s, tail);
    Assoc([LF], s, tail);
  }

  const CRLF: string := [CR, LF]

  // ---------------------------------------------------------------- reading

  function IndexOf(s: string, c: char): (i: nat)
    ensures i <= |s| && (i < |s| ==> s[i] == c) && forall j :: 0 <= j < i ==> s[j] != c
  {
    if s == "" || s[0] == c then 0 else 1 + IndexOf(s[1..], c)
  }

  /** The characters before the first carriage return, which a line feed must follow. */
  function ReadLine(s: string): Option<(string, string)> {
    var i := IndexOf(s, CR);
    if i + 1 < |s| && s[i + 1] == LF then Some((s[..i], s[i + 2..])) else None
  }

  function ReadField(line: string): Option<Pair> {
    var i := IndexOf(line, ':');
    if i + 1 < |line| && line[i + 1] == ' ' then Some(Pair(line[..i], line[i + 2..])) else None
  }

  lemma ReadLineRest(s: string)
    ensures ReadLine(s).Some? ==> |ReadLine(s).value.1| < |s|
  {
  }

  function ReadFields(s: string): Option<(seq<Pair>, string)>
    decreases |s|
  {
    ReadLineRest(s);
    match ReadLine(s)
    case None => None
    case Some((line, rest)) =>
      if line == "" then Some(([], rest))
      else
        match ReadField(line)
        case None => None
        case Some(p) =>
          match ReadFields(rest)
          case None => None
          case Some((more, body)) => Some(([p] + more, body))
  }

  function Lower(s: string): string {
    seq(|s|, i requires 0 <= i < |s| => if 'A' <= s[i] <= 'Z' then (s[i] as int + 32) as char else s[i])
  }

  predicate IsLength(p: Pair) {
    Lower(p.key) == "content-length"
  }

  /** All values given for the length, under any capitalisation of the name. */
  function Lengths(ps: seq<Pair>): seq<string> {
    if ps == [] then [] else (if IsLength(ps[0]) then [ps[0].value] else []) + Lengths(ps[1..])
  }

  /** A transfer coding delimits the body in its own way, which no message here follows. */
  predicate IsCoding(p: Pair) {
    Lower(p.key) == "transfer-encoding"
  }

  predicate Coded(ps: seq<Pair>) {
    exists p :: p in ps && IsCoding(p)
  }

  function TrimLeft(s: string): string {
    if s != "" && Blank(s[0]) then TrimLeft(s[1..]) else s
  }

  function TrimRight(s: string): string {
    if s != "" && Blank(s[|s| - 1]) then TrimRight(s[..|s| - 1]) else s
  }

  /** The elements of a comma-separated list, without the blanks around them. */
  function Elements(s: string): (es: seq<string>)
    ensures es != []
    decreases |s|
  {
    var i := IndexOf(s, ',');
    [TrimRight(TrimLeft(s[..i]))] + if i == |s| then [] else Elements(s[i + 1..])
  }

  predicate IsNumber(s: string, n: nat) {
    s != "" && AllDigits(s) && Value(s) == n
  }

  /** The value announces the length n, once or several times over. */
  predicate Says(value: string, n: nat) {
    forall e :: e in Elements(value) ==> IsNumber(e, n)
  }

  /** The one length that all length fields agree on. */
  function Announced(ps: seq<Pair>): Option<nat> {
    var values := Lengths(ps);
    if values == [] then None
    else
      var e := Elements(values[0])[0];
      if e != "" && AllDigits(e) && forall v :: v in values ==> Says(v, Value(e)) then Some(Value(e)) else None
  }

  lemma AnnouncedExactly(ps: seq<Pair>, n: nat)
    ensures Announced(ps) == Some(n) <==> Lengths(ps) != [] && forall v :: v in Lengths(ps) ==> Says(v, n)
  {
    hide Elements;
    var values := Lengths(ps);
    if values != [] && Says(values[0], n) {
      assert Elements(values[0])[0] in Elements(values[0]);
    }
    if Announced(ps) == Some(n) {
      assert forall v :: v in values ==> Says(v, n);
    } else if values != [] && forall v :: v in values ==> Says(v, n) {
      assert values[0] in values;
    }
  }

  /** Responses that end with their header section, whatever it announces. */
  predicate Bodiless(code: nat, head: bool) {
    head || 100 <= code < 200 || code == 204 || code == 304
  }

  const PROTOCOL := "HTTP/1.1 "

  function ReadStatus(line: string): Option<(nat, string)> {
    if |line| < 9 || line[..9] != PROTOCOL then None
    else
      var s := line[9..];
      var i := IndexOf(s, ' ');
      if i < |s| && AllDigits(s[..i]) then Some((Value(s[..i]), s[i + 1..])) else None
  }

  /** One message off the front of a stream, for a reader that knows whether its request was HEAD. */
  function ReadAnswer(s: string, head: bool): Option<(Answer, string)> {
    match ReadLine(s)
    case None => None
    case Some((line, s1)) =>
      match (ReadStatus(line), ReadFields(s1))
      case (Some((code, reason)), Some((fields, s2))) => ReadBody(code, reason, fields, s2, head)
      case _ => None
  }

  function ReadBody(code: nat, reason: string, fields: seq<Pair>, s: string, head: bool): Option<(Answer, string)> {
    if Bodiless(code, head) then Some((Answer(code, reason, fields, ""), s))
    else if Coded(fields) then None
    else
      match Announced(fields)
      case None => None
      case Some(n) => if n <= |s| then Some((Answer(code, reason, fields, s[..n]), s[n..])) else None
  }

  /** One message for each request, `heads` saying which were HEAD; None when the stream does not split
      into exactly these. */
  function ReadAll(s: string, heads: seq<bool>): Option<seq<Answer>>
    decreases |heads|
  {
    if heads == [] then (if s == "" then Some([]) else None)
    else
      match ReadAnswer(s, heads[0])
      case None => None
      case Some((a, rest)) =>
        match ReadAll(rest, heads[1..])
        case None => None
        case Some(more) => Some([a] + more)
  }

  // ---------------------------------------------------------------- reading what was written

  predicate FieldOk(p: Pair) {
    CR !in p.key && ':' !in p.key && CR !in p.value
  }

  /** Nothing in the header section breaks its lines. */
  predicate Plain(a: Answer) {
    CR !in a.reason && forall p :: p in a.fields ==> FieldOk(p)
  }

  /** The header section tells where the body ends. */
  predicate Delimited(a: Answer, head: bool) {
    if Bodiless(a.code, head) then a.body == "" else !Coded(a.fields) && Announced(a.fields) == Some(|a.body|)
  }

  lemma IndexOfFirst(w: string, c: char, rest: string)
    requires c !in w
    ensures IndexOf(w + ([c] + rest), c) == |w|
  {
    var s := w + ([c] + rest);
    assert s[|w|] == c;
    assert forall j :: 0 <= j < |w| ==> s[j] == w[j] && w[j] in w;
  }

  lemma ReadLineBack(w: string, rest: string)
    requires CR !in w
    ensures ReadLine(w + Line(rest)) == Some((w, rest))
  {
    IndexOfFirst(w, CR, [LF] + rest);
    var s := w + Line(rest);
    assert s[..|w|] == w && s[|w| + 1] == LF && s[|w| + 2..] == rest;
  }

  lemma ReadFieldBack(p: Pair)
    requires FieldOk(p)
    ensures ReadField(p.key + (": " + p.value)) == Some(p)
  {
    var line := p.key + (": " + p.value);
    assert ": " + p.value == [':'] + ([' '] + p.value);
    IndexOfFirst(p.key, ':', [' '] + p.value);
    assert line[..|p.key|] == p.key && line[|p.key| + 1] == ' ' && line[|p.key| + 2..] == p.value;
  }

  lemma ReadFieldLine(p: Pair, rest: string)
    requires FieldOk(p)
    ensures p.key + (": " + (p.value + Line(rest))) == (p.key + (": " + p.value)) + Line(rest)
    ensures ReadLine((p.key + (": " + p.value)) + Line(rest)) == Some((p.key + (": " + p.value), rest))
  {
    var line := p.key + (": " + p.value);
    Assoc(p.key, ": " + p.value, Line(rest));
    Assoc(": ", p.value, Line(rest));
    assert CR !in ": ";
    ReadLineBack(line, rest);
  }

  lemma {:induction false} ReadFieldsBack(ps: seq<Pair>, body: string)
    requires forall p :: p in ps ==> FieldOk(p)
    ensures ReadFields(FieldsThen(ps, Line(body))) == Some((ps, body))
    decreases |ps|
  {
    if ps == [] {
      assert "" + Line(body) == Line(body);
      ReadLineBack("", body);
    } else {
      var p, rest := ps[0], FieldsThen(ps[1..], Line(body));
      hide ReadLine, ReadField;
      ReadFieldLine(p, rest);
      ReadFieldBack(p);
      ReadFieldsBack(ps[1..], body);
      assert [p] + ps[1..] == ps;
    }
  }

  lemma ReadStatusBack(code: nat, reason: string)
    ensures ReadStatus(PROTOCOL + (Digits(code) + (" " + reason))) == Some((code, reason))
  {
    var line := PROTOCOL + (Digits(code) + (" " + reason));
    ValueOfDigits(code);
    assert line[..9] == PROTOCOL && line[9..] == Digits(code) + ([' '] + reason);
    IndexOfFirst(Digits(code), ' ', reason);
    assert line[9..][..|Digits(code)|] == Digits(code) && line[9..][|Digits(code)| + 1..] == reason;
  }

  /** The status line and the header section alone are always read back. */
  lemma HeaderReadsBack(a: Answer, rest: string)
    requires Plain(a)
    ensures var s := AnswerText(a) + rest;
            && ReadLine(s).Some? && ReadStatus(ReadLine(s).value.0) == Some((a.code, a.reason))
            && ReadFields(ReadLine(s).value.1) == Some((a.fields, a.body + rest))
  {
    hide ReadLine, ReadStatus, ReadFields, AnswerText, FieldsThen, FieldOk;
    var status := PROTOCOL + (Digits(a.code) + (" " + a.reason));
    var s1 := FieldsThen(a.fields, Line(a.body + rest));
    AnswerTextSplit(a, rest);
    NoCrInDigits(a.code);
    assert CR !in PROTOCOL;
    ReadLineBack(status, s1);
    ReadStatusBack(a.code, a.reason);
    ReadFieldsBack(a.fields, a.body + rest);
  }

  lemma HeadReadsBack(a: Answer, rest: string, head: bool)
    requires Plain(a)
    ensures ReadAnswer(AnswerText(a) + rest, head) == ReadBody(a.code, a.reason, a.fields, a.body + rest, head)
  {
    hide ReadLine, ReadStatus, ReadFields, ReadBody, AnswerText, Plain;
    HeaderReadsBack(a, rest);
  }

  /** A message is read back, with what follows it left untouched, exactly if it is delimited. */
  lemma ReadAnswerBack(a: Answer, rest: string, head: bool)
    requires Plain(a)
    ensures ReadAnswer(AnswerText(a) + rest, head) == Some((a, rest)) <==> Delimited(a, head)
  {
    hide ReadAnswer, Announced, Coded, Plain;
    HeadReadsBack(a, rest, head);
    var s := a.body + rest;
    assert s[..|a.body|] == a.body && s[|a.body|..] == rest;
    assert "" + rest == rest;
  }

  lemma AnswerTextSplit(a: Answer, rest: string)
    ensures AnswerText(a) + rest
         == (PROTOCOL + (Digits(a.code) + (" " + a.reason))) + Line(FieldsThen(a.fields, Line(a.body + rest)))
  {
    var d, f := Digits(a.code), FieldsThen(a.fields, Line(a.body));
    var g := FieldsThen(a.fields, Line(a.body + rest));
    LineAppend(a.body, rest);
    FieldsThenAppend(a.fields, Line(a.body), rest);
    LineAppend(f, rest);
    Assoc(PROTOCOL, d + (" " + (a.reason + Line(f))), rest);
    Assoc(d, " " + (a.reason + Line(f)), rest);
    Assoc(" ", a.reason + Line(f), rest);
    Assoc(a.reason, Line(f), rest);
    Assoc(PROTOCOL, d + (" " + a.reason), Line(g));
    Assoc(d, " " + a.reason, Line(g));
    Assoc(" ", a.reason, Line(g));
  }

  /** A whole connection's worth of messages. */
  function StreamText(answers: seq<Answer>): string {
    if answers == [] then "" else AnswerText(answers[0]) + StreamText(answers[1..])
  }

  /** Any concatenation of delimited messages splits uniquely into the messages that were sent. */
  lemma {:induction false} StreamReadsBack(answers: seq<Answer>, heads: seq<bool>)
    requires |heads| == |answers|
    requires forall i :: 0 <= i < |answers| ==> Plain(answers[i]) && Delimited(answers[i], heads[i])
    ensures ReadAll(StreamText(answers), heads) == Some(answers)
    decreases |answers|
  {
    hide ReadAnswer, Plain, Delimited, AnswerText;
    if answers != [] {
      ReadAnswerBack(answers[0], StreamText(answers[1..]), heads[0]);
      StreamReadsBack(answers[1..], heads[1..]);
      assert [answers[0]] + answers[1..] == answers;
    }
  }

  // ---------------------------------------------------------------- cut-off messages

  lemma ReadLineExtends(s: string, more: string)
    requires ReadLine(s).Some?
    ensures ReadLine(s + more) == Some((ReadLine(s).value.0, ReadLine(s).value.1 + more))
  {
    var i := IndexOf(s, CR);
    IndexOfSame(s, more, CR);
    assert (s + more)[..i] == s[..i] && (s + more)[i + 2..] == s[i + 2..] + more;
  }

  lemma IndexOfSame(s: string, more: string, c: char)
    requires IndexOf(s, c) < |s|
    ensures IndexOf(s + more, c) == IndexOf(s, c)
  {
    var i := IndexOf(s, c);
    assert (s + more)[i] == c;
    assert forall j :: 0 <= j < i ==> (s + more)[j] == s[j];
  }

  lemma {:induction false} ReadFieldsExtend(s: string, more: string)
    requires ReadFields(s).Some?
    ensures ReadFields(s + more) == Some((ReadFields(s).value.0, ReadFields(s).value.1 + more))
    decreases |s|
  {
    hide ReadField;
    ReadLineExtends(s, more);
    ReadLineRest(s);
    var (line, rest) := ReadLine(s).value;
    if line != "" {
      ReadFieldsExtend(rest, more);
    }
  }

  /** A message that reads as whole reads the same whatever comes behind it. */
  lemma ReadAnswerExtends(s: string, more: string, head: bool)
    requires ReadAnswer(s, head).Some?
    ensures ReadAnswer(s + more, head) == Some((ReadAnswer(s, head).value.0, ReadAnswer(s, head).value.1 + more))
  {
    hide ReadLine, ReadFields, ReadStatus, Announced, Coded;
    ReadLineExtends(s, more);
    var s1 := ReadLine(s).value.1;
    ReadFieldsExtend(s1, more);
    var (fields, s2) := ReadFields(s1).value;
    if Announced(fields).Some? && Announced(fields).value <= |s2| {
      var n := Announced(fields).value;
      assert (s2 + more)[..n] == s2[..n] && (s2 + more)[n..] == s2[n..] + more;
    }
  }

  const NUL: char := 0 as char

  /** What arrives when a message is passed on as a C string. */
  function Sent(m: string): string {
    m[..IndexOf(m, NUL)]
  }

  /** A message gets through as a C string exactly when it holds no NUL; otherwise no reader sees a
      whole message in what was sent. */
  lemma SentWhole(a: Answer, head: bool)
    requires Plain(a) && Delimited(a, head)
    ensures ReadAnswer(Sent(AnswerText(a)), head) == if NUL in AnswerText(a) then None else Some((a, ""))
  {
    hide ReadAnswer, Plain, Delimited, AnswerText;
    var text := AnswerText(a);
    var i := IndexOf(text, NUL);
    ReadAnswerBack(a, "", head);
    assert text + "" == text;
    assert text[..i] + text[i..] == text;
    if NUL in text {
      if ReadAnswer(text[..i], head).Some? {
        ReadAnswerExtends(text[..i], text[i..], head);
      }
    } else {
      assert text[..i] == text;
    }
  }

  // ---------------------------------------------------------------- which messages delimit themselves

  lemma {:induction false} LengthsConcat(a: seq<Pair>, b: seq<Pair>)
    ensures Lengths(a + b) == Lengths(a) + Lengths(b)
    decreases |a|
  {
    hide IsLength;
    if a == [] {
      assert a + b == b;
    } else {
      LengthsConcat(a[1..], b);
      assert (a + b)[0] == a[0] && (a + b)[1..] == a[1..] + b;
      Assoc(if IsLength(a[0]) then [a[0].value] else [], Lengths(a[1..]), Lengths(b));
    }
  }


  lemma {:induction false} LengthsNone(ps: seq<Pair>)
    ensures Lengths(ps) == [] <==> forall p :: p in ps ==> !IsLength(p)
  {
    if ps != [] {
      LengthsNone(ps[1..]);
      assert forall p :: p in ps <==> p == ps[0] || p in ps[1..];
    }
  }

  lemma LengthOfName(value: string)
    ensures IsLength(Pair("Content-Length", value))
  {
    assert Lower("Content-Length") == "content-length";
  }

  lemma NotALength(value: string)
    ensures !IsLength(Pair("Connection", value))
  {
    assert |Lower("Connection")| != |"content-length"|;
  }

  lemma NoCrInDigits(n: nat)
    ensures CR !in Digits(n)
  {
    ValueOfDigits(n);
  }

  lemma NoCoding(value: string)
    ensures !IsCoding(Pair("Connection", value)) && !IsCoding(Pair("Content-Length", value))
  {
    assert |Lower("Connection")| != |"transfer-encoding"|;
    assert |Lower("Content-Length")| != |"transfer-encoding"|;
  }

  lemma OneLength(p: Pair, q: Pair)
    requires IsLength(p) && !IsLength(q)
    ensures Lengths([p, q]) == [p.value]
  {
    LengthsNone([q]);
    assert [p, q][1..] == [q];
  }

  lemma OwnLengths(close: bool, body: string)
    ensures Lengths(OwnFields(close, body)) == if close then [] else [Digits(|body|)]
  {
    hide IsLength, Digits, Lengths;
    if close {
      NotALength("close");
      LengthsNone(OwnFields(close, body));
    } else {
      NotALength("keep-alive");
      LengthOfName(Digits(|body|));
      OneLength(Pair("Content-Length", Digits(|body|)), Pair("Connection", "keep-alive"));
    }
  }

  lemma OwnNotCoded(close: bool, body: string)
    ensures !Coded(OwnFields(close, body))
  {
    hide IsCoding, Digits;
    NoCoding("close");
    NoCoding("keep-alive");
    NoCoding(Digits(|body|));
  }

  lemma OwnFieldsOk(close: bool, body: string)
    ensures forall p :: p in OwnFields(close, body) ==> FieldOk(p)
  {
    hide Digits;
    NoCrInDigits(|body|);
    FieldNamesOk();
  }

  lemma FieldNamesOk()
    ensures CR !in "Connection" && ':' !in "Connection" && CR !in "Content-Length" && ':' !in "Content-Length"
    ensures CR !in "close" && CR !in "keep-alive"
  {
  }

  lemma DigitsSay(n: nat)
    ensures Says(Digits(n), n)
  {
    ValueOfDigits(n);
    var d := Digits(n);
    assert forall i :: 0 <= i < |d| ==> !Blank(d[i]) && d[i] != ',';
    assert IndexOf(d, ',') == |d|;
    assert d[..|d|] == d && Elements(d) == [d] + [];
  }

  predicate HeadersOk(headers: map<string, string>) {
    forall k :: k in headers ==> FieldOk(Pair(k, headers[k]))
  }

  predicate SetsLength(headers: map<string, string>) {
    exists k :: k in headers && IsLength(Pair(k, headers[k]))
  }

  /** What the caller must keep to, so that a response that has a body delimits it: no transfer coding;
      the true length, if any; and one, if the response itself announces none. */
  predicate Agreeing(headers: map<string, string>, close: bool, n: nat) {
    && (forall k :: k in headers ==> !IsCoding(Pair(k, headers[k])))
    && (forall k :: k in headers && IsLength(Pair(k, headers[k])) ==> Says(headers[k], n))
    && (close ==> SetsLength(headers))
  }

  lemma {:induction false} LengthsOf(ps: seq<Pair>)
    ensures forall v :: v in Lengths(ps) <==> exists p :: p in ps && IsLength(p) && p.value == v
    decreases |ps|
  {
    hide IsLength;
    if ps != [] {
      var own := if IsLength(ps[0]) then [ps[0].value] else [];
      LengthsOf(ps[1..]);
      assert forall p :: p in ps <==> p == ps[0] || p in ps[1..];
      assert forall v :: v in Lengths(ps) <==> v in own || v in Lengths(ps[1..]);
    }
  }

  /** The listed headers, in terms of the caller's map. */
  lemma ListedAgree(order: seq<Pair>, headers: map<string, string>, n: nat)
    requires Lists(order, headers)
    ensures Coded(order) <==> exists k :: k in headers && IsCoding(Pair(k, headers[k]))
    ensures (forall v :: v in Lengths(order) ==> Says(v, n))
        <==> forall k :: k in headers && IsLength(Pair(k, headers[k])) ==> Says(headers[k], n)
    ensures Lengths(order) == [] <==> !SetsLength(headers)
  {
    hide IsCoding, IsLength, Says, Before, Lengths;
    LengthsOf(order);
    LengthsNone(order);
    forall k | k in headers ensures Pair(k, headers[k]) in order {}
    if forall v :: v in Lengths(order) ==> Says(v, n) {
      forall k | k in headers && IsLength(Pair(k, headers[k])) ensures Says(headers[k], n) {
        assert Pair(k, headers[k]) in order;
      }
    }
    if forall k :: k in headers && IsLength(Pair(k, headers[k])) ==> Says(headers[k], n) {
      forall v | v in Lengths(order) ensures Says(v, n) {
        var p :| p in order && IsLength(p) && p.value == v;
        assert p == Pair(p.key, headers[p.key]);
      }
    }
  }

  lemma AllAgree(close: bool, order: seq<Pair>, headers: map<string, string>, body: string)
    requires Lists(order, headers)
    ensures var fields := OwnFields(close, body) + order;
            (!Coded(fields) && Announced(fields) == Some(|body|)) <==> Agreeing(headers, close, |body|)
  {
    hide IsCoding, IsLength, Says, Announced, Lengths, Digits, Lists;
    var own, n := OwnFields(close, body), |body|;
    OwnLengths(close, body);
    OwnNotCoded(close, body);
    ListedAgree(order, headers, n);
    LengthsConcat(own, order);
    AnnouncedExactly(own + order, n);
    DigitsSay(n);
    CodedConcat(own, order);
    assert forall v :: v in Lengths(own + order) <==> v in Lengths(own) || v in Lengths(order);
  }

  lemma CodedConcat(a: seq<Pair>, b: seq<Pair>)
    ensures Coded(a + b) <==> Coded(a) || Coded(b)
  {
    hide IsCoding;
    assert forall p :: p in a + b <==> p in a || p in b;
  }

  /** When a response reads back: one without a body exactly if it has none; any other exactly if the
      caller's headers agree with it. So a keep-alive response does unless the caller sets a transfer
      coding or another length, and a closing one only if the caller sets the length. */
  lemma ReadsBackExactly(close: bool, code: nat, reason: string, headers: map<string, string>,
                         order: seq<Pair>, body: string, rest: string, head: bool)
    requires CR !in reason && HeadersOk(headers) && Lists(order, headers)
    ensures var a := Answer(code, reason, OwnFields(close, body) + order, body);
            ReadAnswer(AnswerText(a) + rest, head) == Some((a, rest)) <==>
            if head || 100 <= code < 200 || code == 204 || code == 304 then body == ""
            else Agreeing(headers, close, |body|)
  {
    hide ReadAnswer, FieldOk, Agreeing, Announced, Coded, AnswerText, Before;
    var a := Answer(code, reason, OwnFields(close, body) + order, body);
    OwnFieldsOk(close, body);
    assert forall p :: p in order ==> p == Pair(p.key, headers[p.key]);
    assert Plain(a);
    AllAgree(close, order, headers, body);
    ReadAnswerBack(a, rest, head);
  }

  // ---------------------------------------------------------------- the class

  class HttpResponse {
    var closeConnection: bool
    var statusCode: nat
    var statusMessage: string
    var headers: map<string, string>
    var body: string

    constructor (close: bool)
      ensures closeConnection == close && statusCode == 1 && statusMessage == "" && headers == map[] && body == ""
    {
      closeConnection, statusCode, statusMessage, headers, body := close, 1, "", map[], "";
    }

    method AddHeader(key: string, value: string)
      modifies this`headers
      ensures headers == old(headers)[key := value]
    {
      headers := headers[key := value];
    }

    method SetContentType(contentType: string)
      modifies this`headers
      ensures headers == old(headers)["Content-Type" := contentType]
    {
      headers := headers["Content-Type" := contentType];
    }

    /** The status line and the response's own fields. */
    method Opening() returns (message: string)
      ensures message == "HTTP/1.1 " + Digits(statusCode) + " " + statusMessage + "\r\n"
                         + if closeConnection then "Connection: close\r\n"
                           else "Content-Length: " + Digits(|body|) + "\r\n" + "Connection: keep-alive\r\n"
      ensures message == "HTTP/1.1 " + Digits(statusCode) + " " + statusMessage + CRLF
                         + FieldsThen(OwnFields(closeConnection, body), "")
    {
      hide FieldsThen, Digits;
      assert CRLF == "\r\n";
      message := "HTTP/1.1 " + Digits(statusCode) + " " + statusMessage + CRLF;
      OwnFieldsText(message, closeConnection, body);
      ghost var status := message;
      if closeConnection {
        message := message + "Connection: close" + CRLF;
        Assoc(status, "Connection: close", CRLF);
      } else {
        message := message + "Content-Length: " + Digits(|body|) + CRLF;
        message := message + "Connection: keep-alive" + CRLF;
        Assoc(status, "Content-Length: ", Digits(|body|));
        Assoc(status, "Content-Length: " + Digits(|body|), CRLF);
        Assoc(status + ("Content-Length: " + Digits(|body|) + CRLF), "Connection: keep-alive", CRLF);
        Assoc(status, "Content-Length: " + Digits(|body|) + CRLF, "Connection: keep-alive" + CRLF);
      }
    }

    /** The message lists every header once, behind the response's own fields. */
    method GetMessage() returns (message: string)
      ensures exists order :: (
        && Lists(order, headers)
        && message == AnswerText(Answer(statusCode, statusMessage, OwnFields(closeConnection, body) + order, body)))
      ensures "HTTP/1.1 " + Digits(statusCode) + " " + statusMessage + "\r\n"
              + (if closeConnection then "Connection: close\r\n"
                 else "Content-Length: " + Digits(|body|) + "\r\n" + "Connection: keep-alive\r\n")
              <= message
    {
      hide FieldsThen, Before;
      message := Opening();
      ghost var status := "HTTP/1.1 " + Digits(statusCode) + " " + statusMessage + CRLF;
      ghost var own := OwnFields(closeConnection, body);
      ghost var opening := message;

      var left := headers.Keys;
      ghost var order: seq<Pair> := [];
      assert own + order == own;
      while left != {}
        invariant left <= headers.Keys
        invariant Lists(order, map k | k in headers.Keys - left :: headers[k])
        invariant forall p, k :: p in order && k in left ==> Before(p.key, k)
        invariant message == status + FieldsThen(own + order, "") && opening <= message
        decreases |left|
      {
        ghost var least := FirstKey(left);
        var key :| key in left && forall k :: k in left ==> k == key || Before(key, k);
        OneMoreField(status, own + order, Pair(key, headers[key]));
        OneMoreListed(order, headers, left, key);
        message := message + (key + ": " + headers[key] + CRLF);
        left := left - {key};
        assert (own + order) + [Pair(key, headers[key])] == own + (order + [Pair(key, headers[key])]);
        order := order + [Pair(key, headers[key])];
      }
      assert (map k | k in headers.Keys - left :: headers[k]) == headers;
      AllFieldsWritten(status, Answer(statusCode, statusMessage, own + order, body));
      message := message + CRLF;
      message := message + body;
    }
  }

  lemma OneField(p: Pair)
    ensures FieldsThen([p], "") == p.key + ": " + p.value + CRLF
  {
    assert FieldsThen([p][1..], "") == "";
    Assoc(p.key, ": ", p.value);
    Assoc(p.key, ": " + p.value, CRLF);
    Assoc(": ", p.value, CRLF);
    assert Line("") == CRLF;
  }

  lemma OneMoreField(status: string, ps: seq<Pair>, p: Pair)
    ensures status + FieldsThen(ps + [p], "") == (status + FieldsThen(ps, "")) + (p.key + ": " + p.value + CRLF)
  {
    OneField(p);
    FieldsThenConcat(ps, [p], "");
    FieldsThenAppend(ps, "", FieldsThen([p], ""));
    assert "" + FieldsThen([p], "") == FieldsThen([p], "");
    Assoc(status, FieldsThen(ps, ""), FieldsThen([p], ""));
  }

  lemma OneMoreListed(order: seq<Pair>, headers: map<string, string>, left: set<string>, key: string)
    requires left <= headers.Keys && key in left
    requires Lists(order, map k | k in headers.Keys - left :: headers[k])
    requires forall p :: p in order ==> Before(p.key, key)
    ensures Lists(order + [Pair(key, headers[key])], map k | k in headers.Keys - (left - {key}) :: headers[k])
  {
    hide Before;
    var p, done := Pair(key, headers[key]), order + [Pair(key, headers[key])];
    var was := map k | k in headers.Keys - left :: headers[k];
    var now := map k | k in headers.Keys - (left - {key}) :: headers[k];
    assert forall q :: q in done <==> q in order || q == p;
    forall i, j | 0 <= i < j < |done| ensures Before(done[i].key, done[j].key) {
      assert done[i] in order;
      assert j < |order| ==> done[i] == order[i] && done[j] == order[j];
    }
    forall k | k in now ensures Pair(k, now[k]) in done {
      assert k == key || (k in was && was[k] == now[k] && Pair(k, was[k]) in order);
    }
    assert forall q :: q in done ==> q.key in now && now[q.key] == q.value;
  }

  lemma CloseText(status: string, p: Pair, text: string)
    requires p.key + ": " + p.value == text
    ensures status + FieldsThen([p], "") == status + text + CRLF
  {
    hide FieldsThen;
    OneField(p);
    Assoc(status, text, CRLF);
  }

  lemma KeepAliveText(status: string, p: Pair, q: Pair, name: string, text: string)
    requires p.key + ": " == name && q.key + ": " + q.value == text
    ensures status + FieldsThen([p, q], "") == (status + name + p.value + CRLF) + text + CRLF
  {
    hide FieldsThen;
    OneField(p);
    Assoc(status, name, p.value);
    Assoc(status, name + p.value, CRLF);
    OneMoreField(status, [p], q);
    Assoc(status + FieldsThen([p], ""), text, CRLF);
    assert [p, q] == [p] + [q];
  }

  lemma FieldNames()
    ensures "Connection" + ": " + "close" == "Connection: close"
    ensures "Content-Length" + ": " == "Content-Length: "
    ensures "Connection" + ": " + "keep-alive" == "Connection: keep-alive"
  {
  }

  lemma OwnFieldsText(status: string, close: bool, body: string)
    ensures status + FieldsThen(OwnFields(close, body), "")
         == if close then status + "Connection: close" + CRLF
            else ((status + "Content-Length: " + Digits(|body|) + CRLF) + "Connection: keep-alive" + CRLF)
  {
    hide FieldsThen, Digits;
    FieldNames();
    if close {
      CloseText(status, Pair("Connection", "close"), "Connection: close");
    } else {
      var d := Digits(|body|);
      KeepAliveText(status, Pair("Content-Length", d), Pair("Connection", "keep-alive"),
                    "Content-Length: ", "Connection: keep-alive");
    }
  }

  lemma AllFieldsWritten(status: string, a: Answer)
    requires status == "HTTP/1.1 " + Digits(a.code) + " " + a.reason + CRLF
    ensures status + FieldsThen(a.fields, "") + CRLF + a.body == AnswerText(a)
  {
    var d, f := Digits(a.code), FieldsThen(a.fields, Line(a.body));
    FieldsThenAppend(a.fields, "", CRLF + a.body);
    assert "" + (CRLF + a.body) == Line(a.body);
    Assoc(status, FieldsThen(a.fields, ""), CRLF);
    Assoc(status, FieldsThen(a.fields, "") + CRLF, a.body);
    Assoc(FieldsThen(a.fields, ""), CRLF, a.body);
    assert status + FieldsThen(a.fields, "") + CRLF + a.body == status + f;
    var t := "HTTP/1.1 " + d + " " + a.reason;
    Assoc(t, CRLF, f);
    Assoc("HTTP/1.1 " + d + " ", a.reason, Line(f));
    Assoc("HTTP/1.1 " + d, " ", a.reason + Line(f));
    Assoc("HTTP/1.1 ", d, " " + (a.reason + Line(f)));
    assert CRLF + f == Line(f);
  }
}
