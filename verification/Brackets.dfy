/**
 cpplint's two bracket scanners. They guess at '<' and '>' with a stack of tentative brackets, and for
 a '(', '[' or '{' the guessing is proved to make no difference: both scanners find what a plain
 matcher of three bracket kinds finds on the whole text, and they are each other's inverse.
 */
module Brackets {
  import opened Utils

  // ---------------------------------------------------------------- plain matching

  predicate Opener(c: char) { c == '(' || c == '[' || c == '{' }
  predicate Closer(c: char) { c == ')' || c == ']' || c == '}' }
  predicate Bracket(c: char) { Opener(c) || Closer(c) }

  /** The bracket of the same kind that points the other way. */
  function Mirror(c: char): char {
    if c == '(' then ')' else if c == ')' then '('
    else if c == '[' then ']' else if c == ']' then '['
    else if c == '{' then '}' else if c == '}' then '{' else c
  }

  lemma BracketsAre(c: char)
    ensures (Opener(c) <==> c in "([{") && (Closer(c) <==> c in ")]}")
    ensures [c, Mirror(c)] in ["()", ")(", "[]", "][", "{}", "}{"] || (Mirror(c) == c && c !in "()[]{}")
  {
    assert ['(', ')'] == "()" && [')', '('] == ")(" && ['[', ']'] == "[]" && [']', '['] == "][";
    assert ['{', '}'] == "{}" && ['}', '{'] == "}{";
  }

  lemma MirrorTwice(c: char)
    ensures Mirror(Mirror(c)) == c && (Opener(c) <==> Closer(Mirror(c))) && (Closer(c) <==> Opener(Mirror(c)))
  {
  }

  function Last(st: string): char
    requires st != ""
  {
    st[|st| - 1]
  }

  function Init(st: string): string
    requires st != ""
  {
    st[..|st| - 1]
  }

  /** Reading one character with the given brackets open; None on a mismatch. */
  function Step(st: string, c: char): Option<string> {
    if Opener(c) then Some(st + [c])
    else if !Closer(c) then Some(st)
    else if st != "" && Last(st) == Mirror(c) then Some(Init(st))
    else None
  }

  function Run(st: string, w: string): Option<string>
    decreases |w|
  {
    if w == "" then Some(st)
    else match Step(st, w[0]) case None => None case Some(next) => Run(next, w[1..])
  }

  /** The index of the closing bracket that leaves nothing open, reading from index i. */
  function Close(s: string, i: nat, st: string): Option<nat>
    decreases |s| - i
  {
    if i >= |s| then None
    else
      match Step(st, s[i])
      case None => None
      case Some(next) => if next == "" && Closer(s[i]) then Some(i) else Close(s, i + 1, next)
  }

  // ---------------------------------------------------------------- matching read backwards

  /** The text as seen from its end. */
  function Flip(s: string): (r: string)
    ensures |r| == |s| && forall k :: 0 <= k < |s| ==> r[k] == Mirror(s[|s| - 1 - k])
  {
    seq(|s|, k requires 0 <= k < |s| => Mirror(s[|s| - 1 - k]))
  }

  lemma FlipTwice(s: string)
    ensures Flip(Flip(s)) == s
  {
  }

  lemma FlipSlice(s: string, i: nat, j: nat)
    requires i <= j <= |s|
    ensures Flip(s[i..j]) == Flip(s)[|s| - j..|s| - i]
  {
  }

  lemma StepBack(a: string, c: char, b: string)
    requires Step(a, c) == Some(b)
    ensures Step(b, Mirror(c)) == Some(a)
  {
    if Opener(c) {
      assert b[..|b| - 1] == a;
    } else if Closer(c) {
      assert b + [Mirror(c)] == a;
    }
  }

  lemma {:induction false} RunConcat(st: string, u: string, v: string)
    ensures Run(st, u + v) == match Run(st, u) case None => None case Some(mid) => Run(mid, v)
    decreases |u|
  {
    if u == "" {
      assert u + v == v;
    } else {
      assert (u + v)[0] == u[0] && (u + v)[1..] == u[1..] + v;
      if Step(st, u[0]).Some? {
        RunConcat(Step(st, u[0]).value, u[1..], v);
      }
    }
  }

  /** What a text opens when read forwards it closes when read backwards. */
  lemma {:induction false} RunBack(a: string, w: string, b: string)
    requires Run(a, w) == Some(b)
    ensures Run(b, Flip(w)) == Some(a)
    decreases |w|
  {
    if w != "" {
      var mid := Step(a, w[0]).value;
      RunBack(mid, w[1..], b);
      StepBack(a, w[0], mid);
      var last := [Mirror(w[0])];
      assert last[1..] == "" && Run(a, "") == Some(a);
      RunConcat(b, Flip(w[1..]), last);
      assert Flip(w) == Flip(w[1..]) + last;
    } else {
      assert Flip(w) == "";
    }
  }

  /** A search with o at the bottom stops at q: the text up to q closes exactly what lies above o. */
  lemma {:induction false} CloseIsBalanced(s: string, i: nat, o: char, st: string, q: nat)
    requires Opener(o)
    ensures Close(s, i, [o] + st) == Some(q)
        <==> i <= q < |s| && Run(st, s[i..q]) == Some("") && s[q] == Mirror(o)
    decreases |s| - i
  {
    var full := [o] + st;
    if i >= |s| {
    } else if st == "" && Closer(s[i]) {
      CloseAtOnce(s, i, o, q);
    } else {
      var c := s[i];
      assert st != "" ==> Last(full) == Last(st) && Init(full) == [o] + Init(st);
      assert full + [c] == [o] + (st + [c]);
      assert i < q < |s| ==> s[i..q][0] == c && s[i..q][1..] == s[i + 1..q];
      assert q == i ==> s[i..q] == "";
      if Step(st, c).Some? {
        assert Step(full, c) == Some([o] + Step(st, c).value);
        CloseIsBalanced(s, i + 1, o, Step(st, c).value, q);
      }
    }
  }

  lemma CloseAtOnce(s: string, i: nat, o: char, q: nat)
    requires Opener(o) && i < |s| && Closer(s[i])
    ensures Close(s, i, [o]) == Some(q)
        <==> i <= q < |s| && Run("", s[i..q]) == Some("") && s[q] == Mirror(o)
  {
    assert Init([o]) == "";
    assert i < q < |s| ==> s[i..q][0] == s[i];
    assert q == i ==> s[i..q] == "";
  }

  /** Matching is symmetric: the bracket at q closes the one at p exactly when, seen from the end,
      the one at p closes the one at q. */
  lemma CloseFlip(s: string, p: nat, q: nat)
    requires p < |s| && q < |s| && Opener(s[p])
    requires Close(s, p, "") == Some(q)
    ensures Closer(s[q]) && Close(Flip(s), |s| - 1 - q, "") == Some(|s| - 1 - p)
  {
    hide Run, Close;
    var r, n := Flip(s), |s|;
    FirstStep(s, p);
    CloseIsBalanced(s, p + 1, s[p], "", q);
    RunBack("", s[p + 1..q], "");
    FlipSlice(s, p + 1, q);
    MirrorTwice(s[p]);
    assert r[n - 1 - q] == s[p];
    CloseIsBalanced(r, n - q, r[n - 1 - q], "", n - 1 - p);
    FirstStep(r, n - 1 - q);
  }

  lemma FirstStep(s: string, p: nat)
    requires p < |s| && Opener(s[p])
    ensures Close(s, p, "") == Close(s, p + 1, [s[p]] + "")
  {
    assert "" + [s[p]] == [s[p]] + "";
  }

  // ---------------------------------------------------------------- the source's tests

  /** The regular expression \boperator\s*$ finds a match in s. */
  predicate EndsWithOperator(s: string) {
    if s != "" && Space(Last(s)) then EndsWithOperator(Init(s))
    else |s| >= 8 && s[|s| - 8..] == "operator" && (|s| == 8 || !WordChar(s[|s| - 9]))
  }

  /** The character before a match of "operator" is a blank or an r, never a bracket. */
  lemma OperatorEnd(s: string)
    ensures EndsWithOperator(s) ==> s != "" && !Bracket(Last(s))
  {
    if s != "" && !Space(Last(s)) && EndsWithOperator(s) {
      assert Last(s) == s[|s| - 8..][7];
    }
  }

  /** The regular expression \s>=\s matches at the beginning of s. */
  predicate SpacedGreaterEqual(s: string) {
    |s| >= 4 && Space(s[0]) && s[1] == '>' && s[2] == '=' && Space(s[3])
  }

  // ---------------------------------------------------------------- scanning one line forwards

  /** How a scan of one line ends: at a bracket, with no hope, or with a stack for the next line. */
  datatype Outcome = Found(pos: nat) | GaveUp | More(stack: string)

  datatype Verdict = Go(stack: string) | Hit | Miss

  function Drop(st: string, c: char): string {
    if st != "" && Last(st) == c then Drop(Init(st), c) else st
  }

  function PopTo(st: string, onEmpty: Verdict): Verdict
    requires st != ""
  {
    if |st| == 1 then onEmpty else Go(Init(st))
  }

  function ForwardStep(line: string, i: nat, stack: string): Verdict
    requires i < |line|
  {
    var c := line[i];
    if Opener(c) then Go(stack + [c])
    else if c == '<' then
      if i > 0 && line[i - 1] == '<' then
        if stack != "" && Last(stack) == '<' then PopTo(stack, Miss) else Go(stack)
      else if i > 0 && EndsWithOperator(line[..i]) then Go(stack)
      else Go(stack + ['<'])
    else if Closer(c) then
      var st := Drop(stack, '<');
      if st != "" && Last(st) == Mirror(c) then PopTo(st, Hit) else Miss
    else if c == '>' then
      if i > 0 && (line[i - 1] == '-' || EndsWithOperator(line[..i - 1])) then Go(stack)
      else if stack != "" && Last(stack) == '<' then PopTo(stack, Hit)
      else Go(stack)
    else if c == ';' then
      var st := Drop(stack, '<');
      if st == "" then Miss else Go(st)
    else Go(stack)
  }

  function Forward(line: string, i: nat, stack: string): Outcome
    decreases |line| - i
  {
    if i >= |line| then More(stack)
    else
      match ForwardStep(line, i, stack)
      case Hit => Found(i + 1)
      case Miss => GaveUp
      case Go(next) => Forward(line, i + 1, next)
  }

  /** The pair of results by which the source reports an outcome. */
  function Report(o: Outcome): (int, Option<string>) {
    (if o.Found? then o.pos else -1, if o.More? then Some(o.stack) else None)
  }

  method DropTop(stack: string, c: char) returns (rest: string)
    ensures rest == Drop(stack, c)
  {
    rest := stack;
    while rest != "" && Last(rest) == c
      invariant Drop(rest, c) == Drop(stack, c)
      decreases |rest|
    {
      rest := Init(rest);
    }
  }

  method FindEndOfExpressionInLine(line: string, startpos: nat, stack0: string)
      returns (end: int, rest: Option<string>)
    ensures (end, rest) == Report(Forward(line, startpos, stack0))
  {
    hide EndsWithOperator, Drop;
    var stack, i := stack0, startpos;
    while i < |line|
      invariant Forward(line, i, stack) == Forward(line, startpos, stack0)
      decreases |line| - i
    {
      var c := line[i];
      if Opener(c) {
        stack := stack + [c];
      } else if c == '<' {
        if i > 0 && line[i - 1] == '<' {
          if stack != "" && Last(stack) == '<' {
            stack := Init(stack);
            if stack == "" {
              return -1, None;
            }
          }
        } else if i > 0 && EndsWithOperator(line[..i]) {
          // operator<: not a bracket
        } else {
          stack := stack + ['<'];
        }
      } else if Closer(c) {
        stack := DropTop(stack, '<');
        if stack == "" {
          return -1, None;
        }
        if (Last(stack) == '(' && c == ')') || (Last(stack) == '[' && c == ']') || (Last(stack) == '{' && c == '}') {
          stack := Init(stack);
          if stack == "" {
            return i + 1, None;
          }
        } else {
          return -1, None;
        }
      } else if c == '>' {
        if i > 0 && (line[i - 1] == '-' || EndsWithOperator(line[..i - 1])) {
          // -> or operator>: not a bracket
        } else if stack != "" && Last(stack) == '<' {
          stack := Init(stack);
          if stack == "" {
            return i + 1, None;
          }
        }
      } else if c == ';' {
        stack := DropTop(stack, '<');
        if stack == "" {
          return -1, None;
        }
      }
      i := i + 1;
    }
    return -1, Some(stack);
  }

  // ---------------------------------------------------------------- scanning one line backwards

  /** The '>' at i belongs to "->", ">=" or "operator>", or the '<' at i to "<<": the character before
      it is passed over too. */
  predicate SkipsTwo(line: string, i: nat)
    requires i < |line|
  {
    i > 0 &&
    (|| (line[i] == '>' && (line[i - 1] == '-' || SpacedGreaterEqual(line[i - 1..]) || EndsWithOperator(line[..i])))
     || (line[i] == '<' && line[i - 1] == '<'))
  }

  function BackwardStep(line: string, i: nat, stack: string): Verdict
    requires i < |line|
  {
    var c := line[i];
    if Closer(c) then Go(stack + [c])
    else if SkipsTwo(line, i) then Go(stack)
    else if c == '>' then Go(stack + ['>'])
    else if c == '<' then
      if stack != "" && Last(stack) == '>' then PopTo(stack, Hit) else Go(stack)
    else if Opener(c) then
      var st := Drop(stack, '>');
      if st != "" && Last(st) == Mirror(c) then PopTo(st, Hit) else Miss
    else if c == ';' then
      var st := Drop(stack, '>');
      if st == "" then Miss else Go(st)
    else Go(stack)
  }

  /** Scans line[..n] from its right end. */
  function Backward(line: string, n: nat, stack: string): Outcome
    requires n <= |line|
  {
    if n == 0 then More(stack)
    else
      match BackwardStep(line, n - 1, stack)
      case Hit => Found(n - 1)
      case Miss => GaveUp
      case Go(next) => Backward(line, if SkipsTwo(line, n - 1) then n - 2 else n - 1, next)
  }

  method FindStartOfExpressionInLine(line: string, endpos: int, stack0: string)
      returns (start: int, rest: Option<string>)
    requires -1 <= endpos < |line|
    ensures (start, rest) == Report(Backward(line, endpos + 1, stack0))
  {
    hide EndsWithOperator, SpacedGreaterEqual, Drop;
    var stack, i := stack0, endpos;
    while i >= 0
      invariant -1 <= i < |line|
      invariant Backward(line, i + 1, stack) == Backward(line, endpos + 1, stack0)
      decreases i
    {
      var c := line[i];
      if Closer(c) {
        stack := stack + [c];
      } else if c == '>' {
        if i > 0 && (line[i - 1] == '-' || SpacedGreaterEqual(line[i - 1..]) || EndsWithOperator(line[..i])) {
          i := i - 1;
        } else {
          stack := stack + ['>'];
        }
      } else if c == '<' {
        if i > 0 && line[i - 1] == '<' {
          i := i - 1;
        } else if stack != "" && Last(stack) == '>' {
          stack := Init(stack);
          if stack == "" {
            return i, None;
          }
        }
      } else if Opener(c) {
        stack := DropTop(stack, '>');
        if stack == "" {
          return -1, None;
        }
        if (c == '(' && Last(stack) == ')') || (c == '[' && Last(stack) == ']') || (c == '{' && Last(stack) == '}') {
          stack := Init(stack);
          if stack == "" {
            return i, None;
          }
        } else {
          return -1, None;
        }
      } else if c == ';' {
        stack := DropTop(stack, '>');
        if stack == "" {
          return -1, None;
        }
      }
      i := i - 1;
    }
    return -1, Some(stack);
  }

  // ---------------------------------------------------------------- many lines

  /** Where the search for a closing bracket ends, from position i of line l on. */
  function Closing(lines: seq<string>, l: nat, i: nat, stack: string): Option<(nat, nat)>
    requires l < |lines|
    decreases |lines| - l
  {
    match Forward(lines[l], i, stack)
    case Found(e) => Some((l, e))
    case GaveUp => None
    case More(st) => if st != "" && l + 1 < |lines| then Closing(lines, l + 1, 0, st) else None
  }

  /** Where the search for an opening bracket ends, from position n - 1 of line l back. */
  function Opening(lines: seq<string>, l: nat, n: nat, stack: string): Option<(nat, nat)>
    requires l < |lines| && n <= |lines[l]|
    decreases l
  {
    match Backward(lines[l], n, stack)
    case Found(e) => Some((l, e))
    case GaveUp => None
    case More(st) => if st != "" && l > 0 then Opening(lines, l - 1, |lines[l - 1]|, st) else None
  }

  /** The line on which the search for a closing bracket ends, whether it finds one or not. */
  function ClosingLine(lines: seq<string>, l: nat, i: nat, stack: string): (m: nat)
    requires l < |lines|
    ensures l <= m < |lines|
    decreases |lines| - l
  {
    match Forward(lines[l], i, stack)
    case More(st) => if st != "" && l + 1 < |lines| then ClosingLine(lines, l + 1, 0, st) else l
    case _ => l
  }

  function OpeningLine(lines: seq<string>, l: nat, n: nat, stack: string): (m: nat)
    requires l < |lines| && n <= |lines[l]|
    ensures m <= l
    decreases l
  {
    match Backward(lines[l], n, stack)
    case More(st) => if st != "" && l > 0 then OpeningLine(lines, l - 1, |lines[l - 1]|, st) else l
    case _ => l
  }

  /** An opening bracket, or a '<' that does not begin "<<" or "<=". */
  predicate Opens(line: string, pos: nat)
    requires pos < |line|
  {
    line[pos] in "([{" || (line[pos] == '<' && !(pos + 1 < |line| && line[pos + 1] in "<="))
  }

  /** The position just past the closing bracket, or (number of lines, -1), and the last line looked at. */
  method CloseExpression(lines: seq<string>, linenum0: nat, pos: nat) returns (line: string, linenum: nat, end: int)
    requires linenum0 < |lines| && pos < |lines[linenum0]|
    ensures Opens(lines[linenum0], pos) ==>
      match Closing(lines, linenum0, pos, "")
      case Some((l, e)) => (linenum, end) == (l, e as int) && l < |lines| && line == lines[l]
      case None => (line, linenum, end) == (lines[ClosingLine(lines, linenum0, pos, "")], |lines|, -1)
    ensures !Opens(lines[linenum0], pos) ==>
      (line, linenum, end) == (lines[linenum0], |lines|, -1)
  {
    linenum := linenum0;
    line := lines[linenum];
    if !(line[pos] == '(' || line[pos] == '{' || line[pos] == '[' || line[pos] == '<') || ShiftOrLess(line[pos..]) {
      return line, |lines|, -1;
    }
    var stack: Option<string>;
    end, stack := FindEndOfExpressionInLine(line, pos, "");
    if end > -1 {
      return line, linenum, end;
    }
    while stack.Some? && stack.value != "" && linenum < |lines| - 1
      invariant linenum < |lines|
      invariant Closing(lines, linenum0, pos, "")
             == if stack.None? || stack.value == "" || linenum + 1 >= |lines| then None
                else Closing(lines, linenum + 1, 0, stack.value)
      invariant line == lines[linenum] && ClosingLine(lines, linenum0, pos, "")
             == if stack.None? || stack.value == "" || linenum + 1 >= |lines| then linenum
                else ClosingLine(lines, linenum + 1, 0, stack.value)
      decreases |lines| - linenum
    {
      linenum := linenum + 1;
      line := lines[linenum];
      end, stack := FindEndOfExpressionInLine(line, 0, stack.value);
      if end > -1 {
        return line, linenum, end;
      }
    }
    return line, |lines|, -1;
  }

  /** The regular expression <[<=] matches at the beginning of s. */
  predicate ShiftOrLess(s: string) {
    |s| >= 2 && s[0] == '<' && (s[1] == '<' || s[1] == '=')
  }

  /** The position of the opening bracket, or (0, -1), and the last line looked at. */
  method ReverseCloseExpression(lines: seq<string>, linenum0: nat, pos: nat)
      returns (line: string, linenum: nat, start: int)
    requires linenum0 < |lines| && pos < |lines[linenum0]|
    ensures lines[linenum0][pos] in ")]}>" ==>
      match Opening(lines, linenum0, pos + 1, "")
      case Some((l, e)) => (linenum, start) == (l, e as int) && l < |lines| && line == lines[l]
      case None => (line, linenum, start) == (lines[OpeningLine(lines, linenum0, pos + 1, "")], 0, -1)
    ensures lines[linenum0][pos] !in ")]}>" ==>
      (line, linenum, start) == (lines[linenum0], 0, -1)
  {
    linenum := linenum0;
    line := lines[linenum];
    if !(line[pos] == ')' || line[pos] == '}' || line[pos] == ']' || line[pos] == '>') {
      return line, 0, -1;
    }
    var stack: Option<string>;
    start, stack := FindStartOfExpressionInLine(line, pos, "");
    if start > -1 {
      return line, linenum, start;
    }
    while stack.Some? && stack.value != "" && linenum > 0
      invariant linenum < |lines|
      invariant Opening(lines, linenum0, pos + 1, "")
             == if stack.None? || stack.value == "" || linenum == 0 then None
                else Opening(lines, linenum - 1, |lines[linenum - 1]|, stack.value)
      invariant line == lines[linenum] && OpeningLine(lines, linenum0, pos + 1, "")
             == if stack.None? || stack.value == "" || linenum == 0 then linenum
                else OpeningLine(lines, linenum - 1, |lines[linenum - 1]|, stack.value)
      decreases linenum
    {
      linenum := linenum - 1;
      line := lines[linenum];
      start, stack := FindStartOfExpressionInLine(line, |line| - 1, stack.value);
      if start > -1 {
        return line, linenum, start;
      }
    }
    return line, 0, -1;
  }

  // ---------------------------------------------------------------- the guesses change nothing

  /** The stack without its tentative brackets t. */
  function Solid(st: string, t: char): string {
    if st == "" then ""
    else if Last(st) == t then Solid(Init(st), t)
    else Solid(Init(st), t) + [Last(st)]
  }

  /** A real bracket lies at the bottom. */
  predicate Grounded(st: string, t: char) {
    st != "" && st[0] != t
  }

  lemma {:induction false} GroundedSolid(st: string, t: char)
    requires Grounded(st, t)
    ensures Solid(st, t) != ""
  {
    if |st| > 1 {
      GroundedSolid(Init(st), t);
    }
  }

  lemma SolidPush(st: string, c: char, t: char)
    ensures Solid(st + [c], t) == if c == t then Solid(st, t) else Solid(st, t) + [c]
  {
    assert Init(st + [c]) == st;
  }

  lemma {:induction false} DropSolid(st: string, t: char)
    requires Grounded(st, t)
    ensures Grounded(Drop(st, t), t) && Last(Drop(st, t)) != t
    ensures Solid(Drop(st, t), t) == Solid(st, t)
  {
    if Last(st) == t {
      DropSolid(Init(st), t);
    }
  }

  lemma PopSolid(st: string, t: char)
    requires Grounded(st, t) && Last(st) != t
    ensures Solid(st, t) != "" && Last(Solid(st, t)) == Last(st) && Init(Solid(st, t)) == Solid(Init(st), t)
    ensures |st| == 1 ==> Init(Solid(st, t)) == ""
  {
  }

  predicate Starting(line: string, i: nat, stack: string) {
    stack == "" && i < |line| && Opener(line[i])
  }

  /** Removing a tentative bracket from the top changes nothing that counts. */
  lemma PopTentative(st: string, t: char)
    requires Grounded(st, t) && Last(st) == t
    ensures |st| > 1 && Grounded(Init(st), t) && Solid(Init(st), t) == Solid(st, t)
  {
  }

  /** Meeting a bracket that points the other way, below the tentative ones. */
  lemma MeetPlain(stack: string, c: char, t: char)
    requires Grounded(stack, t)
    ensures var (st, solid) := (Drop(stack, t), Solid(stack, t));
            && st != "" && solid != "" && Last(solid) == Last(st) && Grounded(st, t)
            && (|st| == 1 ==> Init(solid) == "")
            && (|st| > 1 ==> Grounded(Init(st), t) && Init(solid) == Solid(Init(st), t))
            && Solid(st, t) == solid
  {
    DropSolid(stack, t);
    PopSolid(Drop(stack, t), t);
  }

  /** One step of the guessing scanner is one step of the plain one. */
  lemma ForwardStepPlain(line: string, i: nat, stack: string)
    requires i < |line| && (Grounded(stack, '<') || Starting(line, i, stack))
    ensures match ForwardStep(line, i, stack)
            case Hit => Closer(line[i]) && Step(Solid(stack, '<'), line[i]) == Some("")
            case Miss => Step(Solid(stack, '<'), line[i]) == None
            case Go(next) => Grounded(next, '<') && Step(Solid(stack, '<'), line[i]) == Some(Solid(next, '<'))
  {
    hide EndsWithOperator, Solid, Drop;
    var c := line[i];
    if Opener(c) || c == '<' {
      SolidPush(stack, c, '<');
    }
    if Grounded(stack, '<') {
      if Last(stack) == '<' {
        PopTentative(stack, '<');
      }
      MeetPlain(stack, c, '<');
    }
  }

  lemma {:induction false} ForwardPlain(line: string, i: nat, stack: string, s: string, base: nat)
    requires i <= |line| && (Grounded(stack, '<') || Starting(line, i, stack))
    requires base + |line| <= |s| && s[base..base + |line|] == line
    ensures match Forward(line, i, stack)
            case Found(e) => 0 < e <= |line| && Close(s, base + i, Solid(stack, '<')) == Some(base + e - 1)
            case GaveUp => Close(s, base + i, Solid(stack, '<')) == None
            case More(st) =>
              (Grounded(st, '<') && Close(s, base + i, Solid(stack, '<')) == Close(s, base + |line|, Solid(st, '<')))
    decreases |line| - i
  {
    hide ForwardStep, Solid, Step, Grounded;
    if i < |line| {
      assert s[base + i] == s[base..base + |line|][i];
      ForwardStepPlain(line, i, stack);
      match ForwardStep(line, i, stack)
      case Hit =>
      case Miss =>
      case Go(next) =>
        GroundedSolid(next, '<');
        ForwardPlain(line, i + 1, next, s, base);
    }
  }

  /** Closing brackets on the stack of the backward scan are openers in the flipped text. */
  function Turn(st: string): (r: string)
    ensures |r| == |st| && forall k :: 0 <= k < |st| ==> r[k] == Mirror(st[k])
  {
    seq(|st|, k requires 0 <= k < |st| => Mirror(st[k]))
  }

  lemma TurnPush(st: string, c: char)
    ensures Turn(st + [c]) == Turn(st) + [Mirror(c)]
  {
  }

  lemma TurnPop(st: string)
    requires st != ""
    ensures Turn(st) != "" && Last(Turn(st)) == Mirror(Last(st)) && Init(Turn(st)) == Turn(Init(st))
  {
  }

  lemma BackwardStepPlain(line: string, i: nat, stack: string)
    requires i < |line| && (Grounded(stack, '>') || (stack == "" && Closer(line[i])))
    ensures var st := Turn(Solid(stack, '>'));
            match BackwardStep(line, i, stack)
            case Hit => Opener(line[i]) && Step(st, Mirror(line[i])) == Some("")
            case Miss => Step(st, Mirror(line[i])) == None
            case Go(next) => Grounded(next, '>') && Step(st, Mirror(line[i])) == Some(Turn(Solid(next, '>')))
  {
    hide SkipsTwo, Solid, Drop, Turn;
    var c := line[i];
    MirrorTwice(c);
    if SkipsTwo(line, i) {
      SkippedIsNoBracket(line, i);
    }
    if Closer(c) || c == '>' {
      SolidPush(stack, c, '>');
      TurnPush(Solid(stack, '>'), c);
    }
    if Grounded(stack, '>') {
      if Last(stack) == '>' {
        PopTentative(stack, '>');
      }
      MeetPlain(stack, c, '>');
      TurnPop(Solid(stack, '>'));
      MirrorTwice(Last(Solid(stack, '>')));
    }
  }

  lemma SkippedIsNoBracket(line: string, i: nat)
    requires i < |line| && SkipsTwo(line, i)
    ensures i > 0 && !Bracket(line[i]) && !Bracket(line[i - 1])
  {
    OperatorEnd(line[..i]);
    assert Last(line[..i]) == line[i - 1];
    assert SpacedGreaterEqual(line[i - 1..]) ==> Space(line[i - 1]);
  }

  lemma {:induction false} BackwardPlain(line: string, n: nat, stack: string, r: string, base: nat)
    requires n <= |line| && (Grounded(stack, '>') || (stack == "" && n > 0 && Closer(line[n - 1])))
    requires base + |line| <= |r| && r[base..base + |line|] == Flip(line)
    ensures var st, from := Turn(Solid(stack, '>')), base + |line| - n;
            match Backward(line, n, stack)
            case Found(e) => e < |line| && Close(r, from, st) == Some(base + |line| - 1 - e)
            case GaveUp => Close(r, from, st) == None
            case More(left) =>
              (Grounded(left, '>') && Close(r, from, st) == Close(r, base + |line|, Turn(Solid(left, '>'))))
    decreases n
  {
    hide BackwardStep, SkipsTwo, Solid;
    if n > 0 {
      var from := base + |line| - n;
      assert r[from] == r[base..base + |line|][|line| - n] == Mirror(line[n - 1]);
      MirrorTwice(line[n - 1]);
      BackwardStepPlain(line, n - 1, stack);
      match BackwardStep(line, n - 1, stack)
      case Hit =>
      case Miss =>
      case Go(next) =>
        GroundedSolid(next, '>');
        if SkipsTwo(line, n - 1) {
          SkippedIsNoBracket(line, n - 1);
          assert r[from + 1] == r[base..base + |line|][|line| - n + 1] == Mirror(line[n - 2]);
          BackwardPlain(line, n - 2, next, r, base);
        } else {
          BackwardPlain(line, n - 1, next, r, base);
        }
    }
  }

  // ---------------------------------------------------------------- positions in the whole text

  /** The index in the whole text at which line l begins. */
  function Base(lines: seq<string>, l: nat): nat
    requires l <= |lines|
  {
    |Flatten(lines[..l])|
  }

  lemma LineInText(lines: seq<string>, l: nat)
    requires l < |lines|
    ensures Base(lines, l + 1) == Base(lines, l) + |lines[l]| <= |Flatten(lines)|
    ensures Flatten(lines)[Base(lines, l)..Base(lines, l) + |lines[l]|] == lines[l]
    ensures Base(lines, 0) == 0 && Base(lines, |lines|) == |Flatten(lines)|
  {
    hide Flatten;
    FlattenConcat(lines[..l + 1], lines[l + 1..]);
    assert lines == lines[..l + 1] + lines[l + 1..];
    FlattenConcat(lines[..l], [lines[l]]);
    assert lines[..l + 1] == lines[..l] + [lines[l]];
    FlattenOne(lines[l]);
    assert lines[..|lines|] == lines;
    FlattenNone();
    assert lines[..0] == [];
  }

  lemma FlattenNone()
    ensures Flatten<char>([]) == []
  {
  }

  lemma {:induction false} BaseMonotone(lines: seq<string>, l: nat, m: nat)
    requires l < m <= |lines|
    ensures Base(lines, l) + |lines[l]| <= Base(lines, m)
    decreases m
  {
    LineInText(lines, m - 1);
    if l < m - 1 {
      BaseMonotone(lines, l, m - 1);
    }
  }

  /** An index in the text belongs to one position only. */
  lemma PositionUnique(lines: seq<string>, l: nat, p: nat, m: nat, q: nat)
    requires l < |lines| && p < |lines[l]| && m < |lines| && q < |lines[m]|
    requires Base(lines, l) + p == Base(lines, m) + q
    ensures l == m && p == q
  {
    if l < m {
      BaseMonotone(lines, l, m);
    } else if m < l {
      BaseMonotone(lines, m, l);
    }
  }

  lemma CharAt(lines: seq<string>, l: nat, p: nat)
    requires l < |lines| && p < |lines[l]|
    ensures Base(lines, l) + p < |Flatten(lines)| && Flatten(lines)[Base(lines, l) + p] == lines[l][p]
  {
    LineInText(lines, l);
    var b := Base(lines, l);
    assert Flatten(lines)[b + p] == Flatten(lines)[b..b + |lines[l]|][p];
  }

  /** Over any lines, the forward search from a bracket finds what the plain matcher finds in the text. */
  lemma {:induction false} ClosingIsPlain(lines: seq<string>, l: nat, i: nat, stack: string)
    requires l < |lines| && i <= |lines[l]| && (Grounded(stack, '<') || Starting(lines[l], i, stack))
    ensures match Closing(lines, l, i, stack) case None => true case Some((m, e)) => m < |lines| && 0 < e <= |lines[m]|
    ensures Close(Flatten(lines), Base(lines, l) + i, Solid(stack, '<'))
         == match Closing(lines, l, i, stack)
            case None => None
            case Some((m, e)) => Some(Base(lines, m) + e - 1)
    decreases |lines| - l
  {
    hide Forward, Base, Solid, Flatten;
    LineInText(lines, l);
    ForwardPlain(lines[l], i, stack, Flatten(lines), Base(lines, l));
    match Forward(lines[l], i, stack)
    case Found(e) =>
    case GaveUp =>
    case More(st) =>
      if l + 1 < |lines| {
        ClosingIsPlain(lines, l + 1, 0, st);
      }
  }

  /** The index of a position counted from the end of the text. */
  ghost function FromEnd(lines: seq<string>, m: nat, e: nat): (k: nat)
    requires m < |lines| && e < |lines[m]|
    ensures k == |Flatten(lines)| - 1 - (Base(lines, m) + e)
  {
    CharAt(lines, m, e);
    |Flatten(lines)| - 1 - (Base(lines, m) + e)
  }

  lemma LineFromEnd(lines: seq<string>, l: nat) returns (base: nat)
    requires l < |lines|
    ensures base == |Flatten(lines)| - Base(lines, l) - |lines[l]|
    ensures Flip(Flatten(lines))[base..base + |lines[l]|] == Flip(lines[l])
    ensures Base(lines, l) + |lines[l]| == Base(lines, l + 1) && Base(lines, 0) == 0
  {
    LineInText(lines, l);
    FlipSlice(Flatten(lines), Base(lines, l), Base(lines, l) + |lines[l]|);
    base := |Flatten(lines)| - Base(lines, l) - |lines[l]|;
  }

  /** The backward search finds what the plain matcher finds in the text seen from its end. */
  lemma {:induction false} OpeningIsPlain(lines: seq<string>, l: nat, n: nat, stack: string, at: nat)
    requires l < |lines| && n <= |lines[l]| && at == |Flatten(lines)| - Base(lines, l) - n
    requires Grounded(stack, '>') || (stack == "" && n > 0 && Closer(lines[l][n - 1]))
    ensures match Opening(lines, l, n, stack) case None => true case Some((m, e)) => m < |lines| && e < |lines[m]|
    ensures Close(Flip(Flatten(lines)), at, Turn(Solid(stack, '>')))
         == match Opening(lines, l, n, stack)
            case None => None
            case Some((m, e)) => Some(FromEnd(lines, m, e))
    decreases l
  {
    hide Backward, Base, Solid, Turn, Flip;
    var r := Flip(Flatten(lines));
    var base := LineFromEnd(lines, l);
    BackwardPlain(lines[l], n, stack, r, base);
    match Backward(lines[l], n, stack)
    case Found(e) =>
    case GaveUp =>
    case More(st) =>
      if l > 0 {
        var before := LineFromEnd(lines, l - 1);
        OpeningIsPlain(lines, l - 1, |lines[l - 1]|, st, before);
      }
  }

  /** The closing bracket of the bracket at (l, p), by the plain matcher. */
  ghost predicate Matches(lines: seq<string>, l: nat, p: nat, m: nat, q: nat)
    requires l < |lines| && p < |lines[l]| && m < |lines| && q < |lines[m]|
  {
    Close(Flatten(lines), Base(lines, l) + p, "") == Some(Base(lines, m) + q)
  }

  lemma ForwardFindsMatch(lines: seq<string>, l: nat, p: nat, m: nat, q: nat)
    requires l < |lines| && p < |lines[l]| && m < |lines| && q < |lines[m]| && Opener(lines[l][p])
    ensures Closing(lines, l, p, "") == Some((m, q + 1)) <==> Matches(lines, l, p, m, q)
  {
    hide Close, Closing;
    ClosingIsPlain(lines, l, p, "");
    CharAt(lines, m, q);
    match Closing(lines, l, p, "")
    case None =>
    case Some((m2, e)) =>
      if Base(lines, m2) + e - 1 == Base(lines, m) + q {
        PositionUnique(lines, m2, e - 1, m, q);
      }
  }

  lemma BackwardFindsMatch(lines: seq<string>, l: nat, p: nat, m: nat, q: nat)
    requires l < |lines| && p < |lines[l]| && m < |lines| && q < |lines[m]| && Closer(lines[m][q])
    ensures Opening(lines, m, q + 1, "") == Some((l, p))
        <==> Close(Flip(Flatten(lines)), FromEnd(lines, m, q), "") == Some(FromEnd(lines, l, p))
  {
    hide Close, Opening, Flip, Base;
    OpeningIsPlain(lines, m, q + 1, "", FromEnd(lines, m, q));
    assert Turn(Solid("", '>')) == "";
    match Opening(lines, m, q + 1, "")
    case None =>
    case Some((l2, e)) =>
      if FromEnd(lines, l2, e) == FromEnd(lines, l, p) {
        PositionUnique(lines, l2, e, l, p);
      }
  }

  lemma CloseUnflip(s: string, r: string, i: nat, j: nat, from: nat, to: nat)
    requires Flip(r) == s && |r| == |s| && i < |s| && j < |s|
    requires from == |s| - 1 - j && to == |s| - 1 - i
    requires Opener(r[from]) && Close(r, from, "") == Some(to)
    ensures Close(s, i, "") == Some(j)
  {
    hide *;
    CloseFlip(r, from, to);
  }

  lemma MatchFlipped(s: string, r: string, i: nat, j: nat, from: nat, to: nat)
    requires Flip(s) == r && Flip(r) == s && |r| == |s| && i < |s| && j < |s|
    requires from == |s| - 1 - j && to == |s| - 1 - i && Opener(s[i]) && Opener(r[from])
    ensures Close(s, i, "") == Some(j) <==> Close(r, from, "") == Some(to)
  {
    hide *;
    if Close(s, i, "") == Some(j) {
      CloseUnflip(r, s, from, to, i, j);
    }
    if Close(r, from, "") == Some(to) {
      CloseUnflip(s, r, i, j, from, to);
    }
  }

  /** Plain matching in the text and in the flipped text are the same relation. */
  lemma MatchBothWays(s: string, i: nat, j: nat)
    requires i < |s| && j < |s| && Opener(s[i]) && Closer(s[j])
    ensures Close(s, i, "") == Some(j) <==> Close(Flip(s), |s| - 1 - j, "") == Some(|s| - 1 - i)
  {
    hide Close, Mirror, Opener, Closer;
    var r := Flip(s);
    FlipTwice(s);
    MirrorTwice(s[j]);
    assert r[|s| - 1 - j] == Mirror(s[j]);
    MatchFlipped(s, r, i, j, |s| - 1 - j, |s| - 1 - i);
  }

  /** The two searches are inverse: one maps an opening bracket to just past its closing bracket exactly
      when the other maps that closing bracket to the opening one. */
  lemma SearchesAreInverse(lines: seq<string>, l: nat, p: nat, m: nat, q: nat)
    requires l < |lines| && p < |lines[l]| && m < |lines| && q < |lines[m]|
    requires Opener(lines[l][p]) && Closer(lines[m][q])
    ensures Closing(lines, l, p, "") == Some((m, q + 1)) <==> Opening(lines, m, q + 1, "") == Some((l, p))
  {
    hide Close, Closing, Opening, Flip, Base, Flatten;
    CharAt(lines, l, p);
    CharAt(lines, m, q);
    ForwardFindsMatch(lines, l, p, m, q);
    BackwardFindsMatch(lines, l, p, m, q);
    MatchBothWays(Flatten(lines), Base(lines, l) + p, Base(lines, m) + q);
  }

  /** What the forward search finds is a closing bracket of the right kind, so the search can be undone. */
  lemma ClosingFindsCloser(lines: seq<string>, l: nat, p: nat)
    requires l < |lines| && p < |lines[l]| && Opener(lines[l][p]) && Closing(lines, l, p, "").Some?
    ensures var (m, e) := Closing(lines, l, p, "").value;
            m < |lines| && 0 < e <= |lines[m]| && lines[m][e - 1] == Mirror(lines[l][p])
            && Opening(lines, m, e, "") == Some((l, p))
  {
    hide Close, Closing, Opening;
    var (m, e) := Closing(lines, l, p, "").value;
    ClosingIsPlain(lines, l, p, "");
    ForwardFindsMatch(lines, l, p, m, e - 1);
    CharAt(lines, l, p);
    CharAt(lines, m, e - 1);
    FirstStep(Flatten(lines), Base(lines, l) + p);
    CloseIsBalanced(Flatten(lines), Base(lines, l) + p + 1, lines[l][p], "", Base(lines, m) + e - 1);
    MirrorTwice(lines[l][p]);
    SearchesAreInverse(lines, l, p, m, e - 1);
  }

  /** What the backward search finds is an opening bracket of the right kind, so it can be undone too. */
  lemma OpeningFindsOpener(lines: seq<string>, m: nat, q: nat)
    requires m < |lines| && q < |lines[m]| && Closer(lines[m][q]) && Opening(lines, m, q + 1, "").Some?
    ensures var (l, p) := Opening(lines, m, q + 1, "").value;
            l < |lines| && p < |lines[l]| && lines[l][p] == Mirror(lines[m][q])
            && Closing(lines, l, p, "") == Some((m, q + 1))
  {
    hide Close, Closing, Opening, Base, Flatten;
    var (l, p) := Opening(lines, m, q + 1, "").value;
    var s, i := Flatten(lines), FromEnd(lines, m, q);
    OpeningIsPlain(lines, m, q + 1, "", FromEnd(lines, m, q));
    BackwardFindsMatch(lines, l, p, m, q);
    CharAt(lines, l, p);
    CharAt(lines, m, q);
    MirrorTwice(lines[m][q]);
    MirrorTwice(lines[l][p]);
    FirstStep(Flip(s), i);
    CloseIsBalanced(Flip(s), i + 1, Flip(s)[i], "", FromEnd(lines, l, p));
    assert Flip(s)[FromEnd(lines, l, p)] == Mirror(lines[l][p]);
    SearchesAreInverse(lines, l, p, m, q);
  }
}
