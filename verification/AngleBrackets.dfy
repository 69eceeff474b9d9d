/**
 What cpplint's bracket scanners make of '<' and '>', on its own terms: a count of the angle brackets
 open outside all other brackets, and the other brackets opened inside them. Angle brackets inside a
 '(', '[' or '{' never count. Both scanners are proved to compute this from any '<' or '>' they start at.
 */
module AngleBrackets {
  import opened Utils
  import opened Brackets

  // ---------------------------------------------------------------- what a scanner sees at one place

  /** `Shift` is the second '<' of "<<" read forwards, `Pair` a place whose left neighbour is skipped. */
  datatype Sign = Opens(c: char) | Closes(c: char) | Less | Greater | Shift | Pair | Stop | Nothing

  /** The word "operator" and then only blanks lie right before position n. */
  ghost predicate AfterOperator(line: string, n: nat)
    requires n <= |line|
  {
    exists k: nat :: OperatorAt(line, k, n)
  }

  predicate OperatorAt(line: string, k: nat, n: nat)
    requires n <= |line|
  {
    && k + 8 <= n && line[k..k + 8] == "operator" && (k == 0 || !WordChar(line[k - 1]))
    && forall j :: k + 8 <= j < n ==> Space(line[j])
  }

  lemma NoBlankInside(line: string, k: nat, n: nat)
    requires n <= |line| && OperatorAt(line, k, n)
    ensures Space(line[n - 1]) <==> k + 8 < n
  {
    assert k + 8 == n ==> line[n - 1] == line[k..k + 8][7];
  }

  lemma OperatorNeedsRoom(line: string, n: nat)
    requires n <= |line|
    ensures AfterOperator(line, n) ==> n >= 8
  {
  }

  /** The source's test by its recursion over trailing blanks is the one by position. */
  lemma {:induction false} OperatorBefore(line: string, n: nat)
    requires n <= |line|
    ensures EndsWithOperator(line[..n]) <==> AfterOperator(line, n)
    ensures AfterOperator(line, n) ==> n >= 8
  {
    hide OperatorAt, AfterOperator;
    OperatorNeedsRoom(line, n);
    var s := line[..n];
    if n > 0 && Space(Last(s)) {
      OperatorBefore(line, n - 1);
      assert Init(s) == line[..n - 1];
      BlankBefore(line, n);
    } else {
      WordBefore(line, n);
    }
  }

  lemma BlankBefore(line: string, n: nat)
    requires 0 < n <= |line| && Space(line[n - 1])
    ensures AfterOperator(line, n) <==> AfterOperator(line, n - 1)
  {
    if AfterOperator(line, n) {
      var k: nat :| OperatorAt(line, k, n);
      NoBlankInside(line, k, n);
      assert OperatorAt(line, k, n - 1);
    }
    if AfterOperator(line, n - 1) {
      var k: nat :| OperatorAt(line, k, n - 1);
      assert OperatorAt(line, k, n);
    }
  }

  lemma WordBefore(line: string, n: nat)
    requires n <= |line| && (n == 0 || !Space(line[n - 1]))
    ensures AfterOperator(line, n)
        <==> n >= 8 && line[..n][n - 8..] == "operator" && (n == 8 || !WordChar(line[n - 9]))
  {
    assert n >= 8 ==> line[..n][n - 8..] == line[n - 8..n];
    if AfterOperator(line, n) {
      var k: nat :| OperatorAt(line, k, n);
      NoBlankInside(line, k, n);
    }
    if n >= 8 && line[n - 8..n] == "operator" && (n == 8 || !WordChar(line[n - 9])) {
      assert OperatorAt(line, n - 8, n);
    }
  }

  /** Read forwards. The word is looked for one place early before a '>', as the source does. */
  ghost function Seen(line: string, i: nat): Sign
    requires i < |line|
  {
    var c := line[i];
    if c in "([{" then Opens(c)
    else if c in ")]}" then Closes(c)
    else if c == '<' then
      if i > 0 && line[i - 1] == '<' then Shift else if AfterOperator(line, i) then Nothing else Less
    else if c == '>' then
      if i > 0 && (line[i - 1] == '-' || AfterOperator(line, i - 1)) then Nothing else Greater
    else if c == ';' then Stop
    else Nothing
  }

  /** Read backwards. */
  ghost function SeenBack(line: string, i: nat): Sign
    requires i < |line|
  {
    var c := line[i];
    if c in "([{" then Opens(c)
    else if c in ")]}" then Closes(c)
    else if c == '<' then
      if i > 0 && line[i - 1] == '<' then Pair else Less
    else if c == '>' then
      if i > 0 && (line[i - 1] == '-' || AfterOperator(line, i)) then Pair
      else if 0 < i < |line| - 2 && Space(line[i - 1]) && line[i + 1] == '=' && Space(line[i + 2]) then Pair
      else Greater
    else if c == ';' then Stop
    else Nothing
  }

  // ---------------------------------------------------------------- counting

  /** The angle brackets open at the outermost level, and the other brackets opened since. */
  datatype Open = Open(angles: nat, inner: string)

  datatype Reading = At(open: Open) | Shut | Bad

  datatype Ending = Ends(pos: nat) | Hopeless | Goes(open: Open)

  function Outer(o: Open, more: bool, onEmpty: Reading): Reading
    requires o.angles > 0
  {
    if o.inner != "" then At(o)
    else if more then At(o.(angles := o.angles + 1))
    else if o.angles == 1 then onEmpty
    else At(o.(angles := o.angles - 1))
  }

  function Read(o: Open, sign: Sign): Reading
    requires o.angles > 0
  {
    match sign
    case Opens(c) => At(o.(inner := o.inner + [c]))
    case Closes(c) => if o.inner != "" && Last(o.inner) == Mirror(c) then At(o.(inner := Init(o.inner))) else Bad
    case Less => Outer(o, true, Shut)
    case Greater => Outer(o, false, Shut)
    case Shift => Outer(o, false, Bad)
    case Stop => if o.inner == "" then Bad else At(o)
    case Pair => At(o)
    case Nothing => At(o)
  }

  /** The same with the roles of the two directions exchanged. */
  function Turned(sign: Sign): Sign {
    match sign
    case Opens(c) => Closes(c)
    case Closes(c) => Opens(c)
    case Less => Greater
    case Greater => Less
    case _ => sign
  }

  ghost function AngleEnd(line: string, i: nat, o: Open): (r: Ending)
    requires o.angles > 0
    ensures r.Ends? ==> i < r.pos <= |line|
    ensures r.Goes? ==> r.open.angles > 0
    decreases |line| - i
  {
    if i >= |line| then Goes(o)
    else
      match Read(o, Seen(line, i))
      case Shut => Ends(i + 1)
      case Bad => Hopeless
      case At(next) => AngleEnd(line, i + 1, next)
  }

  ghost function AngleStart(line: string, n: nat, o: Open): (r: Ending)
    requires n <= |line| && o.angles > 0
    ensures r.Ends? ==> r.pos < n
    ensures r.Goes? ==> r.open.angles > 0
  {
    if n == 0 then Goes(o)
    else
      match Read(o, Turned(SeenBack(line, n - 1)))
      case Shut => Ends(n - 1)
      case Bad => Hopeless
      case At(next) => AngleStart(line, if SeenBack(line, n - 1).Pair? then n - 2 else n - 1, next)
  }

  // ---------------------------------------------------------------- the scanners compute it

  /** A scanner's stack: `t` for each angle bracket, and above them, from the first other bracket on,
      those brackets with tentative ones between. */
  ghost predicate Tracks(stack: string, t: char, o: Open) {
    && 0 < o.angles <= |stack| && (forall k :: 0 <= k < o.angles ==> stack[k] == t)
    && (o.angles < |stack| ==> stack[o.angles] != t) && o.inner == Solid(stack[o.angles..], t)
  }

  lemma {:induction false} DropAbove(low: string, high: string, t: char)
    requires Grounded(high, t)
    ensures Drop(low + high, t) == low + Drop(high, t)
    decreases |high|
  {
    DropSolid(high, t);
    assert Last(low + high) == Last(high) && Init(low + high) == low + Init(high);
    if Last(high) == t {
      DropAbove(low, Init(high), t);
    }
  }

  lemma {:induction false} DropAll(st: string, t: char)
    requires forall k :: 0 <= k < |st| ==> st[k] == t
    ensures Drop(st, t) == ""
  {
    if st != "" {
      DropAll(Init(st), t);
    }
  }

  lemma Splice(low: string, high: string, t: char, o: Open)
    requires |low| == o.angles > 0 && (forall k :: 0 <= k < |low| ==> low[k] == t)
    requires (high == "" || Grounded(high, t)) && o.inner == Solid(high, t)
    ensures Tracks(low + high, t, o)
  {
    assert (low + high)[o.angles..] == high;
  }

  /** One character met above the angle brackets: nothing below them changes. */
  lemma AboveAngles(low: string, high: string, c: char, t: char)
    requires Grounded(high, t) && low != ""
    ensures Last(low + high) == Last(high) && (low + high) + [c] == low + (high + [c])
    ensures Init(low + high) == low + Init(high)
    ensures var st := Drop(high, t);
            && Drop(low + high, t) == low + st && st != ""
            && Last(low + st) == Last(st) && Init(low + st) == low + Init(st) && |low + st| > 1
  {
    DropAbove(low, high, t);
    DropSolid(high, t);
    var st := Drop(high, t);
    assert Init(low + st) == low + Init(st);
  }

  /** A step of the scanner above the angle brackets is the same step without them. */
  lemma ForwardAbove(line: string, i: nat, low: string, high: string)
    requires i < |line| && Grounded(high, '<') && low != ""
    ensures ForwardStep(line, i, low + high)
         == match ForwardStep(line, i, high)
            case Hit => Go(low)
            case Miss => Miss
            case Go(next) => Go(low + next)
  {
    hide EndsWithOperator, Solid, Drop;
    AboveAngles(low, high, line[i], '<');
    DropSolid(high, '<');
    assert low + "" == low;
  }

  lemma SolidEmpty(t: char)
    ensures Solid("", t) == ""
  {
  }

  /** What the brackets above the angle brackets become. */
  lemma ForwardInner(line: string, i: nat, high: string)
    requires i < |line| && Grounded(high, '<')
    ensures var (c, inner) := (line[i], Solid(high, '<'));
            match ForwardStep(line, i, high)
            case Hit => c in ")]}" && inner != "" && Last(inner) == Mirror(c) && Init(inner) == ""
            case Miss => c in ")]}" && (inner == "" || Last(inner) != Mirror(c))
            case Go(next) =>
              && Grounded(next, '<')
              && (c in ")]}" ==> inner != "" && Last(inner) == Mirror(c))
              && Solid(next, '<') == if c in "([{" then inner + [c] else if c in ")]}" then Init(inner) else inner
  {
    hide EndsWithOperator;
    ForwardStepPlain(line, i, high);
    GroundedSolid(high, '<');
  }

  /** One step of the forward scanner counts one sign. */
  lemma ForwardCounts(line: string, i: nat, stack: string, o: Open)
    requires i < |line| && Tracks(stack, '<', o)
    ensures match ForwardStep(line, i, stack)
            case Hit => Read(o, Seen(line, i)) == Shut
            case Miss => Read(o, Seen(line, i)) == Bad
            case Go(next) => Read(o, Seen(line, i)).At? && Tracks(next, '<', Read(o, Seen(line, i)).open)
  {
    hide EndsWithOperator, AfterOperator, Drop, Solid;
    var c, low, high := line[i], stack[..o.angles], stack[o.angles..];
    assert stack == low + high;
    OperatorBefore(line, i);
    if i > 0 {
      OperatorBefore(line, i - 1);
    }
    if high == "" {
      assert stack == low && AllAngles(stack, '<') && o == Open(|stack|, Solid(high, '<'));
      SolidEmpty('<');
      OnlyAngles(line, i, stack);
    } else {
      ForwardAbove(line, i, low, high);
      ForwardInner(line, i, high);
      GroundedSolid(high, '<');
      assert low + "" == low;
      SolidEmpty('<');
      match ForwardStep(line, i, high)
      case Hit => Splice(low, "", '<', o.(inner := ""));
      case Miss =>
      case Go(next) => Splice(low, next, '<', o.(inner := Solid(next, '<')));
    }
  }

  ghost predicate AllAngles(st: string, t: char) {
    st != "" && forall k :: 0 <= k < |st| ==> st[k] == t
  }

  lemma AngleTracks(st: string, t: char)
    requires AllAngles(st, t)
    ensures Tracks(st, t, Open(|st|, "")) && Last(st) == t && AllAngles(st + [t], t) && Drop(st, t) == ""
    ensures |st| > 1 ==> AllAngles(Init(st), t)
  {
    DropAll(st, t);
    assert st[|st|..] == "";
  }

  lemma AngleThenBracket(st: string, c: char, t: char)
    requires AllAngles(st, t) && c != t
    ensures Tracks(st + [c], t, Open(|st|, [c]))
  {
    SolidPush("", c, t);
    assert "" + [c] == [c];
    Splice(st, [c], t, Open(|st|, [c]));
  }

  lemma OnlyAngles(line: string, i: nat, stack: string)
    requires i < |line| && AllAngles(stack, '<')
    requires (EndsWithOperator(line[..i]) <==> AfterOperator(line, i)) && (AfterOperator(line, i) ==> i > 0)
    requires i > 0 ==> (EndsWithOperator(line[..i - 1]) <==> AfterOperator(line, i - 1))
    ensures var r := Read(Open(|stack|, ""), Seen(line, i));
            match ForwardStep(line, i, stack)
            case Hit => r == Shut
            case Miss => r == Bad
            case Go(next) => r.At? && Tracks(next, '<', r.open)
  {
    hide EndsWithOperator, AfterOperator, Drop, AllAngles, Tracks;
    var c := line[i];
    AngleTracks(stack, '<');
    AngleTracks(stack + ['<'], '<');
    if |stack| > 1 {
      AngleTracks(Init(stack), '<');
    }
    if Opener(c) {
      assert "" + [c] == [c];
      AngleThenBracket(stack, c, '<');
    }
  }

  /** From a '<' on, a line is read as the count reads it. */
  lemma {:induction false} ForwardAngles(line: string, i: nat, stack: string, o: Open)
    requires Tracks(stack, '<', o)
    ensures match Forward(line, i, stack)
            case Found(e) => AngleEnd(line, i, o) == Ends(e)
            case GaveUp => AngleEnd(line, i, o) == Hopeless
            case More(st) => AngleEnd(line, i, o).Goes? && Tracks(st, '<', AngleEnd(line, i, o).open)
    decreases |line| - i
  {
    hide ForwardStep, Tracks, Read, Seen;
    if i < |line| {
      TracksSome(stack, '<', o);
      ForwardCounts(line, i, stack, o);
      match ForwardStep(line, i, stack)
      case Hit =>
      case Miss =>
      case Go(next) => ForwardAngles(line, i + 1, next, Read(o, Seen(line, i)).open);
    }
  }

  lemma TracksSome(stack: string, t: char, o: Open)
    requires Tracks(stack, t, o)
    ensures stack != "" && o.angles > 0
  {
  }

  // ---------------------------------------------------------------- backwards

  ghost function Count(o: Open, line: string, i: nat): Reading
    requires i < |line| && o.angles > 0
  {
    Read(o, Turned(SeenBack(line, i)))
  }

  lemma SkipsPairs(line: string, i: nat)
    requires i < |line|
    ensures SkipsTwo(line, i) <==> SeenBack(line, i).Pair?
    ensures SkipsTwo(line, i) ==> i > 0
  {
    hide EndsWithOperator, AfterOperator;
    OperatorBefore(line, i);
  }

  lemma BackwardAbove(line: string, i: nat, low: string, high: string)
    requires i < |line| && Grounded(high, '>') && low != ""
    ensures BackwardStep(line, i, low + high)
         == match BackwardStep(line, i, high)
            case Hit => Go(low)
            case Miss => Miss
            case Go(next) => Go(low + next)
  {
    hide SkipsTwo, Solid, Drop;
    AboveAngles(low, high, line[i], '>');
    DropSolid(high, '>');
    assert low + "" == low;
  }

  lemma BackwardInner(line: string, i: nat, high: string)
    requires i < |line| && Grounded(high, '>')
    ensures var (c, inner) := (line[i], Solid(high, '>'));
            match BackwardStep(line, i, high)
            case Hit => c in "([{" && inner != "" && Last(inner) == Mirror(c) && Init(inner) == ""
            case Miss => c in "([{" && (inner == "" || Last(inner) != Mirror(c))
            case Go(next) =>
              && Grounded(next, '>')
              && (c in "([{" ==> inner != "" && Last(inner) == Mirror(c))
              && Solid(next, '>') == if c in ")]}" then inner + [c] else if c in "([{" then Init(inner) else inner
  {
    hide SkipsTwo, Solid, Drop;
    var c := line[i];
    if SkipsTwo(line, i) {
      SkippedIsNoBracket(line, i);
    }
    SolidPush(high, c, '>');
    MeetPlain(high, c, '>');
    if Last(high) == '>' {
      PopTentative(high, '>');
    }
  }

  lemma OnlyAnglesBack(line: string, i: nat, stack: string)
    requires i < |line| && AllAngles(stack, '>')
    ensures var r := Count(Open(|stack|, ""), line, i);
            match BackwardStep(line, i, stack)
            case Hit => r == Shut
            case Miss => r == Bad
            case Go(next) => r.At? && Tracks(next, '>', r.open)
  {
    hide EndsWithOperator, AfterOperator, Drop, AllAngles, Tracks, SkipsTwo;
    var c := line[i];
    SkipsPairs(line, i);
    AngleTracks(stack, '>');
    AngleTracks(stack + ['>'], '>');
    if |stack| > 1 {
      AngleTracks(Init(stack), '>');
    }
    if SkipsTwo(line, i) {
      SkippedIsNoBracket(line, i);
    }
    if Closer(c) {
      assert "" + [c] == [c];
      AngleThenBracket(stack, c, '>');
    }
  }

  /** One step of the backward scanner counts one sign too. */
  lemma BackwardCounts(line: string, i: nat, stack: string, o: Open)
    requires i < |line| && Tracks(stack, '>', o)
    ensures var r := Count(o, line, i);
            match BackwardStep(line, i, stack)
            case Hit => r == Shut
            case Miss => r == Bad
            case Go(next) => r.At? && Tracks(next, '>', r.open)
  {
    hide EndsWithOperator, AfterOperator, Drop, Solid, SkipsTwo;
    var c, low, high := line[i], stack[..o.angles], stack[o.angles..];
    assert stack == low + high;
    SolidEmpty('>');
    if high == "" {
      assert stack == low && AllAngles(stack, '>') && o == Open(|stack|, Solid(high, '>'));
      OnlyAnglesBack(line, i, stack);
    } else {
      BackwardAbove(line, i, low, high);
      BackwardInner(line, i, high);
      GroundedSolid(high, '>');
      assert low + "" == low;
      match BackwardStep(line, i, high)
      case Hit => Splice(low, "", '>', o.(inner := ""));
      case Miss =>
      case Go(next) => Splice(low, next, '>', o.(inner := Solid(next, '>')));
    }
  }

  /** From a '>' back, a line is read as the count reads it. */
  lemma {:induction false} BackwardAngles(line: string, n: nat, stack: string, o: Open)
    requires n <= |line| && Tracks(stack, '>', o)
    ensures match Backward(line, n, stack)
            case Found(e) => AngleStart(line, n, o) == Ends(e)
            case GaveUp => AngleStart(line, n, o) == Hopeless
            case More(st) => AngleStart(line, n, o).Goes? && Tracks(st, '>', AngleStart(line, n, o).open)
    decreases n
  {
    hide BackwardStep, Tracks, Read, SeenBack, SkipsTwo;
    if n > 0 {
      TracksSome(stack, '>', o);
      BackwardCounts(line, n - 1, stack, o);
      SkipsPairs(line, n - 1);
      match BackwardStep(line, n - 1, stack)
      case Hit =>
      case Miss =>
      case Go(next) =>
        BackwardAngles(line, if SkipsTwo(line, n - 1) then n - 2 else n - 1, next, Count(o, line, n - 1).open);
    }
  }

  // ---------------------------------------------------------------- many lines

  ghost function AngleClosing(lines: seq<string>, l: nat, i: nat, o: Open): Option<(nat, nat)>
    requires l < |lines| && o.angles > 0
    decreases |lines| - l
  {
    match AngleEnd(lines[l], i, o)
    case Ends(e) => Some((l, e))
    case Hopeless => None
    case Goes(next) => if l + 1 < |lines| then AngleClosing(lines, l + 1, 0, next) else None
  }

  ghost function AngleOpening(lines: seq<string>, l: nat, n: nat, o: Open): Option<(nat, nat)>
    requires l < |lines| && n <= |lines[l]| && o.angles > 0
    decreases l
  {
    match AngleStart(lines[l], n, o)
    case Ends(e) => Some((l, e))
    case Hopeless => None
    case Goes(next) => if l > 0 then AngleOpening(lines, l - 1, |lines[l - 1]|, next) else None
  }

  lemma {:induction false} ClosingCounts(lines: seq<string>, l: nat, i: nat, stack: string, o: Open)
    requires l < |lines| && Tracks(stack, '<', o)
    ensures Closing(lines, l, i, stack) == AngleClosing(lines, l, i, o)
    decreases |lines| - l
  {
    hide Tracks, Forward, AngleEnd;
    TracksSome(stack, '<', o);
    ForwardAngles(lines[l], i, stack, o);
    match Forward(lines[l], i, stack)
    case Found(e) =>
    case GaveUp =>
    case More(st) =>
      TracksSome(st, '<', AngleEnd(lines[l], i, o).open);
      if l + 1 < |lines| {
        ClosingCounts(lines, l + 1, 0, st, AngleEnd(lines[l], i, o).open);
      }
  }

  lemma {:induction false} OpeningCounts(lines: seq<string>, l: nat, n: nat, stack: string, o: Open)
    requires l < |lines| && n <= |lines[l]| && Tracks(stack, '>', o)
    ensures Opening(lines, l, n, stack) == AngleOpening(lines, l, n, o)
    decreases l
  {
    hide Tracks, Backward, AngleStart;
    TracksSome(stack, '>', o);
    BackwardAngles(lines[l], n, stack, o);
    match Backward(lines[l], n, stack)
    case Found(e) =>
    case GaveUp =>
    case More(st) =>
      TracksSome(st, '>', AngleStart(lines[l], n, o).open);
      if l > 0 {
        OpeningCounts(lines, l - 1, |lines[l - 1]|, st, AngleStart(lines[l], n, o).open);
      }
  }

  /** The forward search from a '<' that is no operator finds what the count finds. */
  lemma ClosingOfAngle(lines: seq<string>, l: nat, p: nat)
    requires l < |lines| && p < |lines[l]| && Seen(lines[l], p) == Less
    ensures Closing(lines, l, p, "") == AngleClosing(lines, l, p + 1, Open(1, ""))
  {
    hide Tracks, Forward, AngleEnd, AfterOperator, EndsWithOperator, Closing, AngleClosing;
    OperatorBefore(lines[l], p);
    AngleTracks("<", '<');
    assert "" + ['<'] == "<";
    FirstAngle(lines, l, p);
    ClosingCounts(lines, l, p + 1, "<", Open(1, ""));
  }

  lemma FirstAngle(lines: seq<string>, l: nat, p: nat)
    requires l < |lines| && p < |lines[l]| && ForwardStep(lines[l], p, "") == Go("<")
    ensures Closing(lines, l, p, "") == Closing(lines, l, p + 1, "<")
  {
    hide ForwardStep;
  }

  /** The backward search from a '>' that is no operator finds what the count finds. */
  lemma OpeningOfAngle(lines: seq<string>, m: nat, q: nat)
    requires m < |lines| && q < |lines[m]| && lines[m][q] == '>' && SeenBack(lines[m], q) == Greater
    ensures Opening(lines, m, q + 1, "") == AngleOpening(lines, m, q, Open(1, ""))
  {
    hide Tracks, Backward, AngleStart, AfterOperator, EndsWithOperator, SkipsTwo, Opening, AngleOpening;
    SkipsPairs(lines[m], q);
    AngleTracks(">", '>');
    assert "" + ['>'] == ">";
    LastAngle(lines, m, q);
    OpeningCounts(lines, m, q, ">", Open(1, ""));
  }

  lemma LastAngle(lines: seq<string>, m: nat, q: nat)
    requires m < |lines| && q < |lines[m]| && BackwardStep(lines[m], q, "") == Go(">") && !SkipsTwo(lines[m], q)
    ensures Opening(lines, m, q + 1, "") == Opening(lines, m, q, ">")
  {
    hide BackwardStep, SkipsTwo;
  }
}
