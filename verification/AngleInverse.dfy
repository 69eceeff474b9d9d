/**
 When cpplint's two searches undo each other for template brackets too: always where neither takes a
 '<' or '>' for an operator, and not in general, as the two look for the word "operator" one place apart.
 */
module AngleInverses {
  import opened Utils
  import opened Brackets
  import opened AngleBrackets

  // ---------------------------------------------------------------- a plain count, on any text

  function Mirror4(c: char): char {
    if c == '<' then '>' else if c == '>' then '<' else Mirror(c)
  }

  /** One character read from the left; angle brackets count outside all others. */
  function Step4(o: Open, c: char): Option<Open> {
    if Opener(c) then Some(o.(inner := o.inner + [c]))
    else if Closer(c) then
      if o.inner != "" && Last(o.inner) == Mirror(c) then Some(o.(inner := Init(o.inner))) else None
    else if o.inner != "" then Some(o)
    else if c == '<' then Some(o.(angles := o.angles + 1))
    else if c == '>' then if o.angles == 0 then None else Some(o.(angles := o.angles - 1))
    else if c == ';' then None
    else Some(o)
  }

  function Run4(o: Open, w: string): Option<Open>
    decreases |w|
  {
    if w == "" then Some(o)
    else match Step4(o, w[0]) case None => None case Some(next) => Run4(next, w[1..])
  }

  /** The index at which the last open angle bracket is closed. */
  function Close4(s: string, i: nat, o: Open): Option<nat>
    decreases |s| - i
  {
    if i >= |s| then None
    else
      match Step4(o, s[i])
      case None => None
      case Some(next) => if next.angles == 0 then Some(i) else Close4(s, i + 1, next)
  }

  function Flip4(s: string): (r: string)
    ensures |r| == |s| && forall k :: 0 <= k < |s| ==> r[k] == Mirror4(s[|s| - 1 - k])
  {
    seq(|s|, k requires 0 <= k < |s| => Mirror4(s[|s| - 1 - k]))
  }

  lemma StepBack4(a: Open, c: char, b: Open)
    requires Step4(a, c) == Some(b)
    ensures Step4(b, Mirror4(c)) == Some(a)
  {
    if Opener(c) {
      assert Init(b.inner) == a.inner;
    } else if Closer(c) {
      assert b.inner + [Mirror(c)] == a.inner;
    }
  }

  lemma {:induction false} RunConcat4(o: Open, u: string, v: string)
    ensures Run4(o, u + v) == match Run4(o, u) case None => None case Some(mid) => Run4(mid, v)
    decreases |u|
  {
    hide Step4;
    if u == "" {
      assert u + v == v;
    } else {
      assert (u + v)[0] == u[0] && (u + v)[1..] == u[1..] + v;
      if Step4(o, u[0]).Some? {
        RunConcat4(Step4(o, u[0]).value, u[1..], v);
      }
    }
  }

  /** What a text opens when read forwards it closes when read backwards. */
  lemma {:induction false} RunBack4(a: Open, w: string, b: Open)
    requires Run4(a, w) == Some(b)
    ensures Run4(b, Flip4(w)) == Some(a)
    decreases |w|
  {
    hide Step4;
    if w != "" {
      var mid := Step4(a, w[0]).value;
      RunBack4(mid, w[1..], b);
      StepBack4(a, w[0], mid);
      var last := [Mirror4(w[0])];
      assert last[1..] == "" && Run4(a, "") == Some(a);
      RunConcat4(b, Flip4(w[1..]), last);
      assert Flip4(w) == Flip4(w[1..]) + last;
    } else {
      assert Flip4(w) == "";
    }
  }

  const NONE := Open(0, "")

  lemma StepBelow(o: Open, c: char)
    ensures var more := Step4(o.(angles := o.angles + 1), c);
            if Step4(o, c).Some? then more == Some(Step4(o, c).value.(angles := Step4(o, c).value.angles + 1))
            else more.None? || (more.value == NONE && o == NONE && c == '>')
    ensures o == NONE && c == '>' ==> Step4(o, c).None? && Step4(Open(1, ""), c) == Some(NONE)
  {
  }

  /** A search below which one angle bracket is open stops where everything above it is closed. */
  lemma {:induction false} CloseIsBalanced4(s: string, i: nat, o: Open, q: nat)
    ensures Close4(s, i, o.(angles := o.angles + 1)) == Some(q)
        <==> i <= q < |s| && Run4(o, s[i..q]) == Some(NONE) && s[q] == '>'
    decreases |s| - i
  {
    hide Step4;
    if i < |s| {
      var c := s[i];
      StepBelow(o, c);
      assert i < q < |s| ==> s[i..q][0] == c && s[i..q][1..] == s[i + 1..q];
      assert q == i ==> s[i..q] == "";
      if Step4(o, c).Some? {
        CloseIsBalanced4(s, i + 1, Step4(o, c).value, q);
      }
    }
  }

  lemma FlipTwice4(s: string)
    ensures Flip4(Flip4(s)) == s
  {
  }

  lemma FlipSlice4(s: string, i: nat, j: nat)
    requires i <= j <= |s|
    ensures Flip4(s[i..j]) == Flip4(s)[|s| - j..|s| - i]
  {
  }

  lemma CloseFlips(s: string, p: nat, q: nat)
    requires p < |s| && q < |s| && s[p] == '<' && s[q] == '>'
    requires Close4(s, p + 1, Open(1, "")) == Some(q)
    ensures Close4(Flip4(s), |s| - q, Open(1, "")) == Some(|s| - 1 - p)
  {
    hide Run4, Close4, Step4;
    CloseIsBalanced4(s, p + 1, NONE, q);
    RunBack4(NONE, s[p + 1..q], NONE);
    FlipSlice4(s, p + 1, q);
    CloseIsBalanced4(Flip4(s), |s| - q, NONE, |s| - 1 - p);
  }

  lemma Unflipped(s: string, r: string, p: nat, q: nat, from: nat, to: nat)
    requires Flip4(r) == s && |r| == |s| && p < |s| && q < |s| && from == |s| - 1 - q && to == |s| - 1 - p
    requires r[from] == '<' && r[to] == '>' && Close4(r, from + 1, Open(1, "")) == Some(to)
    ensures Close4(s, p + 1, Open(1, "")) == Some(q)
  {
    hide *;
    CloseFlips(r, from, to);
  }

  lemma ClosesBothWays(s: string, r: string, p: nat, q: nat)
    requires r == Flip4(s) && p < |s| && q < |s| && s[p] == '<' && s[q] == '>'
    ensures Close4(s, p + 1, Open(1, "")) == Some(q) <==> Close4(r, |s| - q, Open(1, "")) == Some(|s| - 1 - p)
  {
    hide Close4, Flip4;
    FlipTwice4(s);
    assert r[|s| - 1 - q] == Mirror4(s[q]) && r[|s| - 1 - p] == Mirror4(s[p]);
    hide Mirror4;
    if Close4(s, p + 1, Open(1, "")) == Some(q) {
      Unflipped(r, s, |s| - 1 - q, |s| - 1 - p, p, q);
    }
    if Close4(r, |s| - q, Open(1, "")) == Some(|s| - 1 - p) {
      Unflipped(s, r, p, q, |s| - 1 - q, |s| - 1 - p);
    }
  }

  // ---------------------------------------------------------------- lines without operators

  /** Neither scanner takes a '<' or '>' of the line for part of "<<", "->", ">=" or of an operator's name. */
  ghost predicate Clear(line: string) {
    forall k :: 0 <= k < |line| && line[k] in "<>" ==>
      Seen(line, k) == SeenBack(line, k) == if line[k] == '<' then Less else Greater
  }

  lemma ClearAt(line: string, k: nat)
    requires Clear(line) && k < |line|
    ensures line[k] == '<' ==> Seen(line, k) == Less
    ensures line[k] == '>' ==> SeenBack(line, k) == Greater
  {
    hide Seen, SeenBack;
  }

  lemma ClearStep(line: string, i: nat, o: Open)
    requires Clear(line) && i < |line| && o.angles > 0
    ensures match Read(o, Seen(line, i))
            case Shut => Step4(o, line[i]) == Some(NONE)
            case Bad => Step4(o, line[i]) == None
            case At(next) => Step4(o, line[i]) == Some(next) && next.angles > 0
  {
    hide AfterOperator;
  }

  lemma {:induction false} ClearForward(line: string, i: nat, o: Open, s: string, base: nat)
    requires Clear(line) && i <= |line| && o.angles > 0
    requires base + |line| <= |s| && s[base..base + |line|] == line
    ensures match AngleEnd(line, i, o)
            case Ends(e) => Close4(s, base + i, o) == Some(base + e - 1)
            case Hopeless => Close4(s, base + i, o) == None
            case Goes(next) => Close4(s, base + i, o) == Close4(s, base + |line|, next)
    decreases |line| - i
  {
    hide Seen, Read, Step4, Clear;
    if i < |line| {
      assert s[base + i] == s[base..base + |line|][i];
      ClearStep(line, i, o);
      match Read(o, Seen(line, i))
      case Shut =>
      case Bad =>
      case At(next) => ClearForward(line, i + 1, next, s, base);
    }
  }

  /** What the backward count has open, in the text seen from its end. */
  function Around(o: Open): Open {
    o.(inner := Turn(o.inner))
  }

  lemma OneAround()
    ensures Around(Open(1, "")) == Open(1, "")
  {
  }

  lemma ClearStepBack(line: string, i: nat, o: Open)
    requires Clear(line) && i < |line| && o.angles > 0
    ensures !SeenBack(line, i).Pair?
    ensures match Count(o, line, i)
            case Shut => Step4(Around(o), Mirror4(line[i])) == Some(NONE)
            case Bad => Step4(Around(o), Mirror4(line[i])) == None
            case At(next) => Step4(Around(o), Mirror4(line[i])) == Some(Around(next)) && next.angles > 0
  {
    hide AfterOperator, Turn;
    MirrorTwice(line[i]);
    TurnPush(o.inner, line[i]);
    if o.inner != "" {
      TurnPop(o.inner);
      MirrorTwice(Last(o.inner));
    }
  }

  lemma {:induction false} ClearBackward(line: string, n: nat, o: Open, r: string, base: nat)
    requires Clear(line) && n <= |line| && o.angles > 0
    requires base + |line| <= |r| && r[base..base + |line|] == Flip4(line)
    ensures var from := base + |line| - n;
            match AngleStart(line, n, o)
            case Ends(e) => Close4(r, from, Around(o)) == Some(base + |line| - 1 - e)
            case Hopeless => Close4(r, from, Around(o)) == None
            case Goes(next) => Close4(r, from, Around(o)) == Close4(r, base + |line|, Around(next))
    decreases n
  {
    hide SeenBack, Read, Step4, Clear, Flip4;
    if n > 0 {
      var from := base + |line| - n;
      assert r[from] == r[base..base + |line|][|line| - n] == Mirror4(line[n - 1]);
      ClearStepBack(line, n - 1, o);
      match Count(o, line, n - 1)
      case Shut =>
      case Bad =>
      case At(next) => ClearBackward(line, n - 1, next, r, base);
    }
  }

  lemma {:induction false} ClosingFlat(lines: seq<string>, l: nat, i: nat, o: Open)
    requires (forall line :: line in lines ==> Clear(line)) && l < |lines| && i <= |lines[l]| && o.angles > 0
    ensures match AngleClosing(lines, l, i, o) case None => true case Some((m, e)) => m < |lines| && 0 < e <= |lines[m]|
    ensures Close4(Flatten(lines), Base(lines, l) + i, o)
         == match AngleClosing(lines, l, i, o)
            case None => None
            case Some((m, e)) => Some(Base(lines, m) + e - 1)
    decreases |lines| - l
  {
    hide AngleEnd, Base, Flatten, Clear, Step4;
    LineInText(lines, l);
    ClearForward(lines[l], i, o, Flatten(lines), Base(lines, l));
    match AngleEnd(lines[l], i, o)
    case Ends(e) =>
    case Hopeless =>
    case Goes(next) =>
      if l + 1 < |lines| {
        ClosingFlat(lines, l + 1, 0, next);
      }
  }

  lemma LineFromEnd4(lines: seq<string>, l: nat) returns (base: nat)
    requires l < |lines|
    ensures base == |Flatten(lines)| - Base(lines, l) - |lines[l]|
    ensures Flip4(Flatten(lines))[base..base + |lines[l]|] == Flip4(lines[l])
    ensures Base(lines, l) + |lines[l]| == Base(lines, l + 1) && Base(lines, 0) == 0
  {
    LineInText(lines, l);
    FlipSlice4(Flatten(lines), Base(lines, l), Base(lines, l) + |lines[l]|);
    base := |Flatten(lines)| - Base(lines, l) - |lines[l]|;
  }

  lemma {:induction false} OpeningFlat(lines: seq<string>, l: nat, n: nat, o: Open, at: nat)
    requires (forall line :: line in lines ==> Clear(line)) && l < |lines| && n <= |lines[l]| && o.angles > 0
    requires at == |Flatten(lines)| - Base(lines, l) - n
    ensures match AngleOpening(lines, l, n, o) case None => true case Some((m, e)) => m < |lines| && e < |lines[m]|
    ensures Close4(Flip4(Flatten(lines)), at, Around(o))
         == match AngleOpening(lines, l, n, o)
            case None => None
            case Some((m, e)) => Some(FromEnd(lines, m, e))
    decreases l
  {
    hide AngleStart, Base, Flatten, Clear, Step4, Flip4, Around;
    var base := LineFromEnd4(lines, l);
    ClearBackward(lines[l], n, o, Flip4(Flatten(lines)), base);
    match AngleStart(lines[l], n, o)
    case Ends(e) =>
    case Hopeless =>
    case Goes(next) =>
      if l > 0 {
        var before := LineFromEnd4(lines, l - 1);
        OpeningFlat(lines, l - 1, |lines[l - 1]|, next, before);
      }
  }

  /** Where nothing is taken for an operator, one search maps a '<' to just past a '>' exactly if the
      other maps that '>' to the '<'. */
  lemma AnglesAreInverse(lines: seq<string>, l: nat, p: nat, m: nat, q: nat)
    requires forall line :: line in lines ==> Clear(line)
    requires l < |lines| && p < |lines[l]| && m < |lines| && q < |lines[m]|
    requires lines[l][p] == '<' && lines[m][q] == '>'
    ensures Closing(lines, l, p, "") == Some((m, q + 1)) <==> Opening(lines, m, q + 1, "") == Some((l, p))
  {
    hide *;
    ForwardFindsAngle(lines, l, p, m, q);
    BackwardFindsAngle(lines, l, p, m, q);
    CharAt(lines, l, p);
    CharAt(lines, m, q);
    ClosesBothWays(Flatten(lines), Flip4(Flatten(lines)), Base(lines, l) + p, Base(lines, m) + q);
  }

  lemma ForwardFindsAngle(lines: seq<string>, l: nat, p: nat, m: nat, q: nat)
    requires forall line :: line in lines ==> Clear(line)
    requires l < |lines| && p < |lines[l]| && m < |lines| && q < |lines[m]| && lines[l][p] == '<'
    ensures Closing(lines, l, p, "") == Some((m, q + 1))
        <==> Close4(Flatten(lines), Base(lines, l) + p + 1, Open(1, "")) == Some(Base(lines, m) + q)
  {
    hide *;
    assert lines[l] in lines;
    ClearAt(lines[l], p);
    ClosingOfAngle(lines, l, p);
    ClosingFlat(lines, l, p + 1, Open(1, ""));
    CharAt(lines, m, q);
    match AngleClosing(lines, l, p + 1, Open(1, ""))
    case None =>
    case Some((m2, e)) =>
      if Base(lines, m2) + e - 1 == Base(lines, m) + q {
        PositionUnique(lines, m2, e - 1, m, q);
      }
  }

  lemma BackwardFindsAngle(lines: seq<string>, l: nat, p: nat, m: nat, q: nat)
    requires forall line :: line in lines ==> Clear(line)
    requires l < |lines| && p < |lines[l]| && m < |lines| && q < |lines[m]| && lines[m][q] == '>'
    ensures var n := |Flatten(lines)|;
            && Base(lines, l) + p < n && Base(lines, m) + q < n
            && (Opening(lines, m, q + 1, "") == Some((l, p))
                <==> Close4(Flip4(Flatten(lines)), n - (Base(lines, m) + q), Open(1, ""))
                     == Some(n - 1 - (Base(lines, l) + p)))
  {
    hide *;
    assert lines[m] in lines;
    ClearAt(lines[m], q);
    OpeningOfAngle(lines, m, q);
    OneAround();
    CharAt(lines, l, p);
    CharAt(lines, m, q);
    OpeningFlat(lines, m, q, Open(1, ""), |Flatten(lines)| - Base(lines, m) - q);
    match AngleOpening(lines, m, q, Open(1, ""))
    case None =>
    case Some((l2, e)) =>
      if FromEnd(lines, l2, e) == FromEnd(lines, l, p) {
        PositionUnique(lines, l2, e, l, p);
      }
  }

  // ---------------------------------------------------------------- and lines with them

  predicate Plain(c: char) {
    !Bracket(c) && c != '<' && c != '>' && c != ';'
  }

  lemma {:induction false} PlainSkipped(line: string, i: nat, j: nat, o: Open)
    requires i <= j <= |line| && o.angles > 0 && forall k :: i <= k < j ==> Plain(line[k])
    ensures AngleEnd(line, i, o) == AngleEnd(line, j, o)
    decreases j - i
  {
    hide AfterOperator;
    if i < j {
      PlainSkipped(line, i + 1, j, o);
    }
  }

  lemma {:induction false} PlainSkippedBack(line: string, n: nat, m: nat, stack: string)
    requires m <= n <= |line| && forall k :: m <= k < n ==> Plain(line[k])
    ensures Backward(line, n, stack) == Backward(line, m, stack)
    decreases n
  {
    hide EndsWithOperator;
    if m < n {
      PlainSkippedBack(line, n - 1, m, stack);
    }
  }

  const NAME := "<operator>"

  /** Here the forward search takes the '>' for a bracket and the backward search does not. */
  lemma OperatorSeenDifferently()
    ensures Closing([NAME], 0, 0, "") == Some((0, 10)) && Opening([NAME], 0, 10, "") == None
  {
    OperatorForward();
    OperatorBackward();
  }

  lemma OperatorForward()
    ensures Closing([NAME], 0, 0, "") == Some((0, 10))
  {
    hide Seen, Closing, AngleEnd;
    NameSigns();
    ClosingOfAngle([NAME], 0, 0);
    NameCounted();
  }

  lemma NameSigns()
    ensures Seen(NAME, 0) == Less && Seen(NAME, 9) == Greater
  {
    OperatorNeedsRoom(NAME, 0);
    assert NAME[0..8][0] != "operator"[0];
    assert forall k: nat :: OperatorAt(NAME, k, 8) ==> k == 0;
  }

  lemma NameCounted()
    ensures AngleEnd(NAME, 1, Open(1, "")) == Ends(10)
  {
    hide Seen;
    NameSigns();
    PlainSkipped(NAME, 1, 9, Open(1, ""));
  }

  lemma OperatorBackward()
    ensures Opening([NAME], 0, 10, "") == None
  {
    hide EndsWithOperator;
    assert NAME[1..9] == "operator";
    assert OperatorAt(NAME, 1, 9);
    OperatorBefore(NAME, 9);
    assert SkipsTwo(NAME, 9);
    PlainSkippedBack(NAME, 8, 1, "");
    assert Backward(NAME, 10, "") == Backward(NAME, 8, "");
    assert Backward(NAME, 1, "") == Backward(NAME, 0, "");
  }
}
