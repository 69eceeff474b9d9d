/**
 cpplint's nesting state under preprocessor directives. Blocks are objects that are changed in place,
 so the saved stacks are deep copies; on top of that, whole #if structures are proved to leave behind
 exactly what their first arms alone would.
 */
module Preprocessor {
  import opened Utils

  // ---------------------------------------------------------------- directives

  function SkipSpace(s: string): string {
    if s != "" && Space(s[0]) then SkipSpace(s[1..]) else s
  }

  function FirstWord(s: string): string {
    if s != "" && WordChar(s[0]) then [s[0]] + FirstWord(s[1..]) else ""
  }

  datatype Directive = IfDirective | ElseDirective | EndifDirective | NoDirective

  /** The three patterns, each a blank-tolerant '#' and a whole word. */
  function DirectiveOf(line: string): Directive {
    var s := SkipSpace(line);
    if s == "" || s[0] != '#' then NoDirective
    else
      var word := FirstWord(SkipSpace(s[1..]));
      if word == "if" || word == "ifdef" || word == "ifndef" then IfDirective
      else if word == "else" || word == "elif" then ElseDirective
      else if word == "endif" then EndifDirective
      else NoDirective
  }

  predicate Spaces(w: string) {
    forall i :: 0 <= i < |w| ==> Space(w[i])
  }

  /** The word that ends here: nothing follows, or a character that is in no word. */
  predicate WordEnds(tail: string) {
    tail == "" || !WordChar(tail[0])
  }

  predicate Word(w: string) {
    w != "" && forall i :: 0 <= i < |w| ==> WordChar(w[i])
  }

  /** The line is blanks, a '#', blanks, the word, and anything that does not prolong it. */
  ghost predicate Spells(line: string, word: string) {
    exists u, v, tail :: Spaces(u) && Spaces(v) && WordEnds(tail) && line == u + (['#'] + (v + (word + tail)))
  }

  ghost predicate SpellsIf(line: string) {
    Spells(line, "if") || Spells(line, "ifdef") || Spells(line, "ifndef")
  }

  ghost predicate SpellsElse(line: string) {
    Spells(line, "else") || Spells(line, "elif")
  }

  lemma {:induction false} SkipSpaces(u: string, s: string)
    requires Spaces(u) && (s == "" || !Space(s[0]))
    ensures SkipSpace(u + s) == s
    decreases |u|
  {
    if u == "" {
      assert u + s == s;
    } else {
      SkipSpaces(u[1..], s);
      assert (u + s)[1..] == u[1..] + s;
    }
  }

  lemma {:induction false} WordFound(w: string, tail: string)
    requires (forall i :: 0 <= i < |w| ==> WordChar(w[i])) && WordEnds(tail)
    ensures FirstWord(w + tail) == w
    decreases |w|
  {
    if w == "" {
      assert w + tail == tail;
    } else {
      WordFound(w[1..], tail);
      assert (w + tail)[1..] == w[1..] + tail;
    }
  }

  lemma {:induction false} SkippedSpaces(s: string) returns (u: string)
    ensures Spaces(u) && s == u + SkipSpace(s) && (SkipSpace(s) == "" || !Space(SkipSpace(s)[0]))
    decreases |s|
  {
    if s != "" && Space(s[0]) {
      var rest := SkippedSpaces(s[1..]);
      u := [s[0]] + rest;
      HeadTail(s, "");
      Assoc([s[0]], rest, SkipSpace(s));
      assert s == [s[0]] + s[1..];
    } else {
      u := "";
    }
  }

  lemma {:induction false} FoundWord(s: string) returns (tail: string)
    ensures s == FirstWord(s) + tail && WordEnds(tail)
    ensures forall i :: 0 <= i < |FirstWord(s)| ==> WordChar(FirstWord(s)[i])
    decreases |s|
  {
    if s != "" && WordChar(s[0]) {
      tail := FoundWord(s[1..]);
      Assoc([s[0]], FirstWord(s[1..]), tail);
      assert s == [s[0]] + s[1..];
    } else {
      tail := s;
    }
  }

  /** The word that the scan finds is the word that the line spells. */
  lemma SpelledIsFound(line: string, word: string)
    requires Word(word)
    ensures Spells(line, word) <==>
            var s := SkipSpace(line); s != "" && s[0] == '#' && FirstWord(SkipSpace(s[1..])) == word
  {
    var s := SkipSpace(line);
    if Spells(line, word) {
      var u, v, tail :| Spaces(u) && Spaces(v) && WordEnds(tail) && line == u + (['#'] + (v + (word + tail)));
      SpelledScan(u, v, word, tail);
    }
    if s != "" && s[0] == '#' && FirstWord(SkipSpace(s[1..])) == word {
      var u := SkippedSpaces(line);
      var v := SkippedSpaces(s[1..]);
      var tail := FoundWord(SkipSpace(s[1..]));
      assert s == ['#'] + s[1..];
      assert line == u + (['#'] + (v + (word + tail)));
    }
  }

  lemma SpelledScan(u: string, v: string, word: string, tail: string)
    requires Spaces(u) && Spaces(v) && Word(word) && WordEnds(tail)
    ensures var s := SkipSpace(u + (['#'] + (v + (word + tail))));
            s != "" && s[0] == '#' && FirstWord(SkipSpace(s[1..])) == word
  {
    var rest := v + (word + tail);
    SkipSpaces(u, ['#'] + rest);
    assert (['#'] + rest)[1..] == rest;
    assert (word + tail)[0] == word[0] && WordChar(word[0]) && !Space(word[0]);
    SkipSpaces(v, word + tail);
    WordFound(word, tail);
  }

  lemma DirectiveWords()
    ensures Word("if") && Word("ifdef") && Word("ifndef") && Word("else") && Word("elif") && Word("endif")
  {
  }

  /** Each line is taken for what it spells. */
  lemma DirectiveIsSpelled(line: string)
    ensures DirectiveOf(line) == IfDirective <==> SpellsIf(line)
    ensures DirectiveOf(line) == ElseDirective <==> SpellsElse(line)
    ensures DirectiveOf(line) == EndifDirective <==> Spells(line, "endif")
  {
    hide Spells, Word;
    DirectiveWords();
    SpelledIsFound(line, "if");
    SpelledIsFound(line, "ifdef");
    SpelledIsFound(line, "ifndef");
    SpelledIsFound(line, "else");
    SpelledIsFound(line, "elif");
    SpelledIsFound(line, "endif");
  }

  // ---------------------------------------------------------------- the state as a value

  /** What only some kinds of block have. */
  datatype Kind =
    | Block | ExternC | Namespace(name: string)
    | Class(name: string, isStruct: bool, derived: bool, access: string, indent: nat, lastLine: nat)

  datatype Info = Info(line: nat, seenBrace: bool, parentheses: int, asm: nat, indentation: bool, kind: Kind)

  /** What the rest of Update does to the stack: every change is to its top. */
  datatype Edit = Push(info: Info) | Pop | Alter(info: Info)

  datatype Event = Directed(d: Directive) | Edited(e: Edit)

  datatype Saved = Saved(beforeIf: seq<Info>, beforeElse: seq<Info>, seenElse: bool)

  datatype Nest = Nest(stack: seq<Info>, pp: seq<Saved>)

  function AfterEdit(stack: seq<Info>, e: Edit): seq<Info> {
    match e
    case Push(info) => stack + [info]
    case Pop => if stack == [] then stack else stack[..|stack| - 1]
    case Alter(info) => if stack == [] then stack else stack[|stack| - 1 := info.(line := stack[|stack| - 1].line)]
  }

  function AfterDirective(n: Nest, d: Directive): Nest {
    var top := |n.pp| - 1;
    match d
    case NoDirective => n
    case IfDirective => n.(pp := n.pp + [Saved(n.stack, [], false)])
    case ElseDirective =>
      if n.pp == [] then n
      else
        var s := n.pp[top];
        Nest(s.beforeIf, if s.seenElse then n.pp else n.pp[top := Saved(s.beforeIf, n.stack, true)])
    case EndifDirective =>
      if n.pp == [] then n
      else Nest(if n.pp[top].seenElse then n.pp[top].beforeElse else n.stack, n.pp[..top])
  }

  function After(n: Nest, ev: Event): Nest {
    match ev
    case Directed(d) => AfterDirective(n, d)
    case Edited(e) => n.(stack := AfterEdit(n.stack, e))
  }

  function AfterAll(n: Nest, evs: seq<Event>): Nest
    decreases |evs|
  {
    if evs == [] then n else AfterAll(After(n, evs[0]), evs[1..])
  }

  lemma {:induction false} AfterConcat(n: Nest, a: seq<Event>, b: seq<Event>)
    ensures AfterAll(n, a + b) == AfterAll(AfterAll(n, a), b)
    decreases |a|
  {
    if a == [] {
      assert a + b == b;
    } else {
      assert (a + b)[0] == a[0] && (a + b)[1..] == a[1..] + b;
      AfterConcat(After(n, a[0]), a[1..], b);
    }
  }

  // ---------------------------------------------------------------- well-nested text

  /** Well-nested text: edits and #if structures, each with at least one arm. */
  datatype Text = End | One(edit: Edit, rest: Text) | If(arms: Arms, after: Text)
  datatype Arms = LastArm(text: Text) | Arm(text: Text, more: Arms)

  function Events(t: Text): seq<Event> {
    match t
    case End => []
    case One(e, rest) => [Edited(e)] + Events(rest)
    case If(arms, after) => [Directed(IfDirective)] + (ArmEvents(arms) + ([Directed(EndifDirective)] + Events(after)))
  }

  function ArmEvents(arms: Arms): seq<Event> {
    match arms
    case LastArm(t) => Events(t)
    case Arm(t, more) => Events(t) + ([Directed(ElseDirective)] + ArmEvents(more))
  }

  function FirstArm(arms: Arms): Text {
    arms.text
  }

  /** The stack when every #if structure is replaced by its first arm. */
  function FirstArmsOnly(stack: seq<Info>, t: Text): seq<Info>
    decreases t
  {
    match t
    case End => stack
    case One(e, rest) => FirstArmsOnly(AfterEdit(stack, e), rest)
    case If(arms, after) => FirstArmsOnly(FirstArmsOnly(stack, FirstArm(arms)), after)
  }

  lemma AfterOne(n: Nest, ev: Event, evs: seq<Event>)
    ensures AfterAll(n, [ev] + evs) == AfterAll(After(n, ev), evs)
  {
    assert ([ev] + evs)[1..] == evs;
  }

  /** Well-nested text leaves the stack of its first arms, and the saved states as they were. */
  lemma {:induction false} OnlyFirstArmsCount(stack: seq<Info>, pp: seq<Saved>, t: Text)
    ensures AfterAll(Nest(stack, pp), Events(t)) == Nest(FirstArmsOnly(stack, t), pp)
    decreases t
  {
    var n := Nest(stack, pp);
    match t
    case End =>
    case One(e, rest) =>
      AfterOne(n, Edited(e), Events(rest));
      OnlyFirstArmsCount(AfterEdit(stack, e), pp, rest);
    case If(arms, after) =>
      var inner := FirstArmsOnly(stack, FirstArm(arms));
      var inIf := Nest(stack, pp + [Saved(stack, [], false)]);
      var tail := [Directed(EndifDirective)] + Events(after);
      AfterOne(n, Directed(IfDirective), ArmEvents(arms) + tail);
      AfterConcat(inIf, ArmEvents(arms), tail);
      ArmsKeepFirst(stack, [], false, stack, pp, arms);
      AfterOne(AfterAll(inIf, ArmEvents(arms)), Directed(EndifDirective), Events(after));
      ClosesTo(AfterAll(inIf, ArmEvents(arms)), pp, inner);
      OnlyFirstArmsCount(inner, pp, after);
  }

  /** The state before an #endif that will leave the given stack and saved states. */
  predicate WillLeave(n: Nest, pp: seq<Saved>, stack: seq<Info>) {
    |n.pp| == |pp| + 1 && n.pp[..|pp|] == pp
    && stack == if n.pp[|pp|].seenElse then n.pp[|pp|].beforeElse else n.stack
  }

  lemma ClosesTo(n: Nest, pp: seq<Saved>, stack: seq<Info>)
    requires WillLeave(n, pp, stack)
    ensures After(n, Directed(EndifDirective)) == Nest(stack, pp)
  {
  }

  /** Running arms behind an #if: the first arm decides, whatever the others do. */
  lemma {:induction false} ArmsKeepFirst(saved: seq<Info>, kept: seq<Info>, seen: bool, stack: seq<Info>,
                                         pp: seq<Saved>, arms: Arms)
    ensures WillLeave(AfterAll(Nest(stack, pp + [Saved(saved, kept, seen)]), ArmEvents(arms)), pp,
                      if seen then kept else FirstArmsOnly(stack, FirstArm(arms)))
    decreases arms
  {
    var top := Saved(saved, kept, seen);
    var n := Nest(stack, pp + [top]);
    OnlyFirstArmsCount(stack, pp + [top], arms.text);
    if arms.Arm? {
      var mid := Nest(FirstArmsOnly(stack, arms.text), pp + [top]);
      var tail := [Directed(ElseDirective)] + ArmEvents(arms.more);
      AfterConcat(n, Events(arms.text), tail);
      AfterOne(mid, Directed(ElseDirective), ArmEvents(arms.more));
      var next := if seen then top else Saved(saved, mid.stack, true);
      assert After(mid, Directed(ElseDirective)) == Nest(saved, pp + [next]);
      ArmsKeepFirst(next.beforeIf, next.beforeElse, true, saved, pp, arms.more);
    }
  }

  /** The events of arms that are each followed by another #elif or #else. */
  function Earlier(arms: seq<Text>): seq<Event> {
    if arms == [] then [] else Earlier(arms[..|arms| - 1]) + (Events(arms[|arms| - 1]) + [Directed(ElseDirective)])
  }

  /** Every later arm begins with the stack as it was at the #if, and with the first arm's result saved. */
  lemma {:induction false} LaterArmsStartAtIf(stack: seq<Info>, pp: seq<Saved>, arms: seq<Text>)
    requires arms != []
    ensures AfterAll(Nest(stack, pp), [Directed(IfDirective)] + Earlier(arms))
         == Nest(stack, pp + [Saved(stack, FirstArmsOnly(stack, arms[0]), true)])
    decreases |arms|
  {
    var n := Nest(stack, pp);
    var before, last := arms[..|arms| - 1], arms[|arms| - 1];
    var inIf := [Directed(IfDirective)];
    var closing := Events(last) + [Directed(ElseDirective)];
    Assoc(inIf, Earlier(before), closing);
    AfterConcat(n, inIf + Earlier(before), closing);
    if before == [] {
      assert inIf + Earlier(before) == inIf + [];
      AfterOne(n, Directed(IfDirective), []);
    } else {
      LaterArmsStartAtIf(stack, pp, before);
    }
    var mid := AfterAll(n, inIf + Earlier(before));
    assert mid.stack == stack;
    AfterConcat(mid, Events(last), [Directed(ElseDirective)]);
    OnlyFirstArmsCount(mid.stack, mid.pp, last);
    AfterOne(AfterAll(mid, Events(last)), Directed(ElseDirective), []);
    assert [Directed(ElseDirective)] + [] == [Directed(ElseDirective)];
  }

  // ---------------------------------------------------------------- lines of source text

  /** A line, and what the rest of Update makes of it: the changes to the stack. */
  datatype Line = Line(text: string, edits: seq<Edit>)

  function EditEvents(edits: seq<Edit>): seq<Event> {
    if edits == [] then [] else [Edited(edits[0])] + EditEvents(edits[1..])
  }

  function AfterEdits(stack: seq<Info>, edits: seq<Edit>): seq<Info>
    decreases |edits|
  {
    if edits == [] then stack else AfterEdits(AfterEdit(stack, edits[0]), edits[1..])
  }

  /** A line is looked at for a directive first, and then changes the stack. */
  function AfterLine(n: Nest, line: Line): Nest {
    var m := AfterDirective(n, DirectiveOf(line.text));
    m.(stack := AfterEdits(m.stack, line.edits))
  }

  function AfterLines(n: Nest, lines: seq<Line>): Nest
    decreases |lines|
  {
    if lines == [] then n else AfterLines(AfterLine(n, lines[0]), lines[1..])
  }

  /** Source text whose conditional sections are well nested. */
  datatype Code = Done | Ordinary(line: Line, rest: Code) | Section(start: Line, arms: CodeArms, end: Line, after: Code)
  datatype CodeArms = FinalArm(code: Code) | NextArm(code: Code, otherwise: Line, more: CodeArms)

  ghost predicate Nested(c: Code) {
    match c
    case Done => true
    case Ordinary(line, rest) =>
      !SpellsIf(line.text) && !SpellsElse(line.text) && !Spells(line.text, "endif") && Nested(rest)
    case Section(start, arms, end, after) =>
      SpellsIf(start.text) && NestedArms(arms) && Spells(end.text, "endif") && Nested(after)
  }

  ghost predicate NestedArms(arms: CodeArms) {
    match arms
    case FinalArm(code) => Nested(code)
    case NextArm(code, otherwise, more) => Nested(code) && SpellsElse(otherwise.text) && NestedArms(more)
  }

  function Lines(c: Code): seq<Line> {
    match c
    case Done => []
    case Ordinary(line, rest) => [line] + Lines(rest)
    case Section(start, arms, end, after) => [start] + (ArmLines(arms) + ([end] + Lines(after)))
  }

  function ArmLines(arms: CodeArms): seq<Line> {
    match arms
    case FinalArm(code) => Lines(code)
    case NextArm(code, otherwise, more) => Lines(code) + ([otherwise] + ArmLines(more))
  }

  /** The changes made by the lines outside later arms; an arm has the changes of the line above it. */
  function KeptEdits(c: Code): seq<Edit>
    decreases c
  {
    match c
    case Done => []
    case Ordinary(line, rest) => line.edits + KeptEdits(rest)
    case Section(start, arms, end, after) =>
      start.edits + (KeptEdits(arms.code) + (end.edits + KeptEdits(after)))
  }

  function WithEdits(edits: seq<Edit>, t: Text): Text {
    if edits == [] then t else One(edits[0], WithEdits(edits[1..], t))
  }

  function TextOf(c: Code): Text
    decreases c
  {
    match c
    case Done => End
    case Ordinary(line, rest) => WithEdits(line.edits, TextOf(rest))
    case Section(start, arms, end, after) => If(ArmsOf(start.edits, arms), WithEdits(end.edits, TextOf(after)))
  }

  function ArmsOf(edits: seq<Edit>, arms: CodeArms): Arms
    decreases arms
  {
    match arms
    case FinalArm(code) => LastArm(WithEdits(edits, TextOf(code)))
    case NextArm(code, otherwise, more) => Arm(WithEdits(edits, TextOf(code)), ArmsOf(otherwise.edits, more))
  }

  lemma {:induction false} AfterEditEvents(n: Nest, edits: seq<Edit>)
    ensures AfterAll(n, EditEvents(edits)) == n.(stack := AfterEdits(n.stack, edits))
    decreases |edits|
  {
    if edits != [] {
      AfterOne(n, Edited(edits[0]), EditEvents(edits[1..]));
      AfterEditEvents(n.(stack := AfterEdit(n.stack, edits[0])), edits[1..]);
    }
  }

  lemma {:induction false} WithEditsEvents(n: Nest, edits: seq<Edit>, t: Text)
    ensures AfterAll(n, Events(WithEdits(edits, t))) == AfterAll(n.(stack := AfterEdits(n.stack, edits)), Events(t))
    decreases |edits|
  {
    if edits != [] {
      AfterOne(n, Edited(edits[0]), Events(WithEdits(edits[1..], t)));
      WithEditsEvents(n.(stack := AfterEdit(n.stack, edits[0])), edits[1..], t);
    }
  }

  lemma {:induction false} LinesConcat(n: Nest, a: seq<Line>, b: seq<Line>)
    ensures AfterLines(n, a + b) == AfterLines(AfterLines(n, a), b)
    decreases |a|
  {
    if a == [] {
      assert a + b == b;
    } else {
      assert (a + b)[0] == a[0] && (a + b)[1..] == a[1..] + b;
      LinesConcat(AfterLine(n, a[0]), a[1..], b);
    }
  }

  lemma OneLine(n: Nest, line: Line, more: seq<Line>)
    ensures AfterLines(n, [line] + more) == AfterLines(AfterLine(n, line), more)
  {
    assert ([line] + more)[1..] == more;
  }

  /** Lines do what the events of their text do. */
  lemma {:induction false} CodeIsText(n: Nest, c: Code)
    requires Nested(c)
    ensures AfterLines(n, Lines(c)) == AfterAll(n, Events(TextOf(c)))
    decreases c, 1
  {
    hide Spells, SpellsIf, SpellsElse, DirectiveOf;
    match c
    case Done =>
    case Ordinary(line, rest) =>
      DirectiveIsSpelled(line.text);
      OneLine(n, line, Lines(rest));
      CodeIsText(AfterLine(n, line), rest);
      WithEditsEvents(n, line.edits, TextOf(rest));
    case Section(start, arms, end, after) =>
      SectionIsText(n, c);
  }

  lemma {:induction false} SectionIsText(n: Nest, c: Code)
    requires Nested(c) && c.Section?
    ensures AfterLines(n, Lines(c)) == AfterAll(n, Events(TextOf(c)))
    decreases c, 0
  {
    var Section(start, arms, end, after) := c;
    hide Spells, SpellsIf, SpellsElse, DirectiveOf;
    DirectiveIsSpelled(start.text);
    DirectiveIsSpelled(end.text);
    var inner := AfterDirective(n, IfDirective);
    OneLine(n, start, ArmLines(arms) + ([end] + Lines(after)));
    LinesConcat(AfterLine(n, start), ArmLines(arms), [end] + Lines(after));
    ArmsAreText(inner, start.edits, arms);
    var m := AfterAll(inner, ArmEvents(ArmsOf(start.edits, arms)));
    OneLine(m, end, Lines(after));
    CodeIsText(AfterLine(m, end), after);
    var t := WithEdits(end.edits, TextOf(after));
    AfterOne(n, Directed(IfDirective), ArmEvents(ArmsOf(start.edits, arms)) + ([Directed(EndifDirective)] + Events(t)));
    AfterConcat(inner, ArmEvents(ArmsOf(start.edits, arms)), [Directed(EndifDirective)] + Events(t));
    AfterOne(m, Directed(EndifDirective), Events(t));
    WithEditsEvents(AfterDirective(m, EndifDirective), end.edits, TextOf(after));
  }

  lemma {:induction false} ArmsAreText(n: Nest, edits: seq<Edit>, arms: CodeArms)
    requires NestedArms(arms)
    ensures AfterLines(n.(stack := AfterEdits(n.stack, edits)), ArmLines(arms)) == AfterAll(n, ArmEvents(ArmsOf(edits, arms)))
    decreases arms
  {
    hide Spells, SpellsIf, SpellsElse, DirectiveOf;
    var begun := n.(stack := AfterEdits(n.stack, edits));
    CodeIsText(begun, arms.code);
    WithEditsEvents(n, edits, TextOf(arms.code));
    if arms.NextArm? {
      DirectiveIsSpelled(arms.otherwise.text);
      var m := AfterLines(begun, Lines(arms.code));
      LinesConcat(begun, Lines(arms.code), [arms.otherwise] + ArmLines(arms.more));
      OneLine(m, arms.otherwise, ArmLines(arms.more));
      ArmsAreText(AfterDirective(m, ElseDirective), arms.otherwise.edits, arms.more);
      var tail := [Directed(ElseDirective)] + ArmEvents(ArmsOf(arms.otherwise.edits, arms.more));
      AfterConcat(n, Events(WithEdits(edits, TextOf(arms.code))), tail);
      AfterOne(m, Directed(ElseDirective), ArmEvents(ArmsOf(arms.otherwise.edits, arms.more)));
    }
  }

  lemma {:induction false} EditsConcat(stack: seq<Info>, a: seq<Edit>, b: seq<Edit>)
    ensures AfterEdits(stack, a + b) == AfterEdits(AfterEdits(stack, a), b)
    decreases |a|
  {
    if a == [] {
      assert a + b == b;
    } else {
      assert (a + b)[0] == a[0] && (a + b)[1..] == a[1..] + b;
      EditsConcat(AfterEdit(stack, a[0]), a[1..], b);
    }
  }

  lemma {:induction false} FirstArmsWithEdits(stack: seq<Info>, edits: seq<Edit>, t: Text)
    ensures FirstArmsOnly(stack, WithEdits(edits, t)) == FirstArmsOnly(AfterEdits(stack, edits), t)
    decreases |edits|
  {
    if edits != [] {
      FirstArmsWithEdits(AfterEdit(stack, edits[0]), edits[1..], t);
    }
  }

  lemma {:induction false} KeptAreFirst(stack: seq<Info>, c: Code)
    ensures FirstArmsOnly(stack, TextOf(c)) == AfterEdits(stack, KeptEdits(c))
    decreases c
  {
    match c
    case Done =>
    case Ordinary(line, rest) =>
      FirstArmsWithEdits(stack, line.edits, TextOf(rest));
      KeptAreFirst(AfterEdits(stack, line.edits), rest);
      EditsConcat(stack, line.edits, KeptEdits(rest));
    case Section(start, arms, end, after) =>
      var s1 := AfterEdits(stack, start.edits);
      var s2 := AfterEdits(s1, KeptEdits(arms.code));
      FirstArmsWithEdits(stack, start.edits, TextOf(arms.code));
      KeptAreFirst(s1, arms.code);
      FirstArmsWithEdits(s2, end.edits, TextOf(after));
      KeptAreFirst(AfterEdits(s2, end.edits), after);
      EditsConcat(stack, start.edits, KeptEdits(arms.code) + (end.edits + KeptEdits(after)));
      EditsConcat(s1, KeptEdits(arms.code), end.edits + KeptEdits(after));
      EditsConcat(s2, end.edits, KeptEdits(after));
  }

  /** Lines of well-nested source text leave the stack that the lines outside later arms make, and the
      saved stacks as they were. */
  lemma LaterArmsErased(n: Nest, c: Code)
    requires Nested(c)
    ensures AfterLines(n, Lines(c)) == Nest(AfterEdits(n.stack, KeptEdits(c)), n.pp)
  {
    CodeIsText(n, c);
    OnlyFirstArmsCount(n.stack, n.pp, TextOf(c));
    KeptAreFirst(n.stack, c);
  }

  // ---------------------------------------------------------------- the objects

  class BlockInfo {
    const startingLine: nat
    var seenOpenBrace: bool
    var openParentheses: int
    var inlineAsm: nat
    var checkIndentation: bool
    var kind: Kind
    ghost const home: nat  // which stack, current or saved, the block was made for
    ghost const place: nat  // and where in it

    constructor (info: Info, ghost home: nat, ghost place: nat)
      ensures Value() == info && this.home == home && this.place == place
    {
      startingLine, seenOpenBrace, openParentheses := info.line, info.seenBrace, info.parentheses;
      inlineAsm, checkIndentation, kind := info.asm, info.indentation, info.kind;
      this.home, this.place := home, place;
    }

    /** Any changes in place; the line a block starts on stays. */
    method Overwrite(info: Info)
      modifies this
      ensures Value() == info.(line := startingLine)
    {
      seenOpenBrace, openParentheses, inlineAsm := info.seenBrace, info.parentheses, info.asm;
      checkIndentation, kind := info.indentation, info.kind;
    }

    function Value(): Info
      reads this
    {
      Info(startingLine, seenOpenBrace, openParentheses, inlineAsm, checkIndentation, kind)
    }
  }

  /** The blocks are made for the given stack and hold the given contents. */
  ghost predicate Holds(blocks: seq<BlockInfo>, home: nat, infos: seq<Info>)
    reads blocks
  {
    && |blocks| == |infos|
    && forall i :: 0 <= i < |blocks| ==>
         blocks[i].home == home && blocks[i].place == i && blocks[i].Value() == infos[i]
  }

  /** copy.deepcopy of a stack: new objects with the same contents. */
  method DeepCopy(blocks: seq<BlockInfo>, ghost home: nat) returns (copy: seq<BlockInfo>)
    ensures fresh(copy) && |copy| == |blocks|
    ensures forall i :: 0 <= i < |blocks| ==>
      copy[i].home == home && copy[i].place == i && copy[i].Value() == blocks[i].Value()
  {
    copy := [];
    for i := 0 to |blocks|
      invariant fresh(copy) && |copy| == i
      invariant forall k :: 0 <= k < i ==>
        copy[k].home == home && copy[k].place == k && copy[k].Value() == blocks[k].Value()
    {
      var block := new BlockInfo(blocks[i].Value(), home, i);
      copy := copy + [block];
    }
  }

  ghost function Objects(blocks: seq<BlockInfo>): set<object> {
    set b | b in blocks
  }

  class PreprocessorInfo {
    var stackBeforeIf: seq<BlockInfo>
    var stackBeforeElse: seq<BlockInfo>
    var seenElse: bool
    ghost const home: nat

    constructor (stack: seq<BlockInfo>, ghost home: nat)
      ensures stackBeforeIf == stack && stackBeforeElse == [] && !seenElse && this.home == home
    {
      stackBeforeIf, stackBeforeElse, seenElse := stack, [], false;
      this.home := home;
    }
  }

  ghost function Owned(p: PreprocessorInfo): set<object>
    reads p
  {
    Objects(p.stackBeforeIf) + Objects(p.stackBeforeElse)
  }

  ghost predicate Keeps(p: PreprocessorInfo, s: Saved)
    reads p, p.stackBeforeIf, p.stackBeforeElse
  {
    && Holds(p.stackBeforeIf, p.home, s.beforeIf) && Holds(p.stackBeforeElse, p.home, s.beforeElse)
    && p.seenElse == s.seenElse
  }

  /** No two stacks have the same mark. */
  ghost predicate Apart(pp: seq<PreprocessorInfo>, home: nat, next: nat) {
    && (forall i :: 0 <= i < |pp| ==> pp[i].home < next && pp[i].home != home)
    && (forall i, j :: 0 <= i < j < |pp| ==> pp[i].home != pp[j].home)
  }

  lemma ApartFromTop(pp: seq<PreprocessorInfo>, home: nat, next: nat)
    requires Apart(pp, home, next) && pp != []
    ensures forall i :: 0 <= i < |pp| - 1 ==> pp[i] != pp[|pp| - 1]
  {
  }

  class NestingState {
    var stack: seq<BlockInfo>
    var ppStack: seq<PreprocessorInfo>
    ghost var view: Nest  // the contents of all stacks, as a value
    ghost var home: nat  // the mark of the blocks in the current stack
    ghost var next: nat  // a bound of the marks in use
    ghost var repr: set<object>

    /** The objects hold what `view` says; the current stack and the saved ones share no block. */
    ghost predicate Valid()
      reads this, repr
    {
      && Objects(stack) <= repr && home < next && Holds(stack, home, view.stack)
      && |ppStack| == |view.pp|
      && (forall i :: 0 <= i < |ppStack| ==> ppStack[i] in repr && Owned(ppStack[i]) <= repr)
      && (forall i :: 0 <= i < |ppStack| ==> Keeps(ppStack[i], view.pp[i]))
      && Apart(ppStack, home, next)
    }

    constructor ()
      ensures Valid() && view == Nest([], [])
    {
      stack, ppStack, view, home, next, repr := [], [], Nest([], []), 0, 1, {};
    }

    method PushBlock(info: Info)
      requires Valid()
      modifies this`stack, this`view, this`repr
      ensures Valid() && view == After(old(view), Edited(Push(info))) && fresh(repr - old(repr))
      ensures view == Nest(old(view).stack + [info], old(view).pp)
    {
      hide Keeps, Owned;
      var block := new BlockInfo(info, home, |stack|);
      stack, repr := stack + [block], repr + {block};
      view := After(view, Edited(Push(info)));
    }

    method PopBlock()
      requires Valid()
      modifies this`stack, this`view
      ensures Valid() && view == After(old(view), Edited(Pop))
      ensures old(view).stack != [] ==> view == Nest(old(view).stack[..|old(view).stack| - 1], old(view).pp)
      ensures old(view).stack == [] ==> view == old(view)
    {
      hide Keeps, Owned;
      if stack != [] {
        stack := stack[..|stack| - 1];
      }
      view := After(view, Edited(Pop));
    }

    /** The innermost block is changed in place; the saved stacks do not notice. */
    method AlterTop(info: Info)
      requires Valid()
      modifies this`view, stack
      ensures Valid() && view == After(old(view), Edited(Alter(info)))
      ensures old(view).stack != [] ==>
        var top := |old(view).stack| - 1;
        view == Nest(old(view).stack[top := info.(line := old(view).stack[top].line)], old(view).pp)
      ensures old(view).stack == [] ==> view == old(view)
    {
      hide Keeps, Owned;
      if stack != [] {
        var top := stack[|stack| - 1];
        forall i | 0 <= i < |ppStack| ensures top !in ppStack[i].stackBeforeIf && top !in ppStack[i].stackBeforeElse {
          KeepsBoth(ppStack[i], view.pp[i]);
        }
        top.Overwrite(info);
      }
      view := After(view, Edited(Alter(info)));
    }

    method StartIf()
      requires Valid()
      modifies this`ppStack, this`view, this`next, this`repr
      ensures Valid() && view == After(old(view), Directed(IfDirective)) && fresh(repr - old(repr))
    {
      hide Keeps, Owned, Holds, Objects;
      var copy := CopyHeld(stack, home, next, view.stack);
      var info := new PreprocessorInfo(copy, next);
      NewEntry(info, view.stack);
      ppStack, repr := ppStack + [info], repr + {info} + Objects(copy);
      view, next := After(view, Directed(IfDirective)), next + 1;
    }

    /** At the first #elif or #else the stack is kept for the #endif. */
    method KeepFirstArm()
      requires Valid() && ppStack != []
      modifies this`view, this`repr, ppStack[|ppStack| - 1]
      ensures Valid() && fresh(repr - old(repr))
      ensures var (top, pp) := (|ppStack| - 1, old(view).pp);
              view == old(view).(pp := if pp[top].seenElse then pp
                                       else pp[top := Saved(pp[top].beforeIf, old(view).stack, true)])
      ensures ppStack[|ppStack| - 1].stackBeforeIf == old(ppStack[|ppStack| - 1].stackBeforeIf)
    {
      hide Owned, Holds, Objects, Keeps, Apart;
      var top := ppStack[|ppStack| - 1];
      ApartFromTop(ppStack, home, next);
      KeepsBoth(top, view.pp[|ppStack| - 1]);
      if !top.seenElse {
        var copy := CopyHeld(stack, home, top.home, view.stack);
        OwnedIs(top);
        top.seenElse := true;
        top.stackBeforeElse, repr := copy, repr + Objects(copy);
        OwnedIs(top);
        var i := |ppStack| - 1;
        NowKeeps(top, view.pp[i].beforeIf, view.stack);
        view := view.(pp := view.pp[i := Saved(view.pp[i].beforeIf, view.stack, true)]);
      }
    }

    method StartElse()
      requires Valid()
      modifies this`stack, this`view, this`home, this`next, this`repr, ppStack
      ensures Valid() && view == After(old(view), Directed(ElseDirective)) && fresh(repr - old(repr))
    {
      hide Keeps, Owned;
      if ppStack != [] {
        var top := ppStack[|ppStack| - 1];
        KeepFirstArm();
        Restore(top);
      }
    }

    method Restore(top: PreprocessorInfo)
      requires Valid() && ppStack != [] && top == ppStack[|ppStack| - 1]
      modifies this`stack, this`view, this`home, this`next, this`repr
      ensures Valid() && view == old(view).(stack := old(view).pp[|ppStack| - 1].beforeIf) && fresh(repr - old(repr))
    {
      hide Keeps, Owned, Holds, Objects;
      KeepsBoth(top, view.pp[|ppStack| - 1]);
      var copy := CopyHeld(top.stackBeforeIf, top.home, next, view.pp[|ppStack| - 1].beforeIf);
      stack, repr := copy, repr + Objects(copy);
      home, next := next, next + 1;
      view := view.(stack := view.pp[|view.pp| - 1].beforeIf);
    }

    method EndIf()
      requires Valid()
      modifies this`stack, this`home, this`ppStack, this`view
      ensures Valid() && view == After(old(view), Directed(EndifDirective))
    {
      if ppStack != [] {
        var top := ppStack[|ppStack| - 1];
        if top.seenElse {
          stack, home := top.stackBeforeElse, top.home;
        }
        ppStack := ppStack[..|ppStack| - 1];
      }
      view := After(view, Directed(EndifDirective));
    }

    /** `#if`, `#ifdef` and `#ifndef` save the stack; `#else` and `#elif` restore it, the first of them
        keeping the present one; `#endif` brings the kept one back, if any, and forgets the rest; any
        other line, and a stray `#else`, `#elif` or `#endif`, changes nothing. */
    method UpdatePreprocessor(line: string)
      requires Valid()
      modifies this, ppStack
      ensures Valid() && view == After(old(view), Directed(DirectiveOf(line))) && fresh(repr - old(repr))
      ensures SpellsIf(line) ==> view == Nest(old(view).stack, old(view).pp + [Saved(old(view).stack, [], false)])
      ensures SpellsElse(line) && old(view).pp != [] ==>
        var top := |old(view).pp| - 1;
        var s := old(view).pp[top];
        view == Nest(s.beforeIf,
                     old(view).pp[top := Saved(s.beforeIf, if s.seenElse then s.beforeElse else old(view).stack, true)])
      ensures Spells(line, "endif") && old(view).pp != [] ==>
        var top := |old(view).pp| - 1;
        var s := old(view).pp[top];
        view == Nest(if s.seenElse then s.beforeElse else old(view).stack, old(view).pp[..top])
      ensures
        (!SpellsIf(line) && old(view).pp == []) || (!SpellsIf(line) && !SpellsElse(line) && !Spells(line, "endif"))
        ==> view == old(view)
    {
      hide SpellsIf, SpellsElse, Spells, DirectiveOf;
      DirectiveIsSpelled(line);
      match DirectiveOf(line)
      case IfDirective => StartIf();
      case ElseDirective => StartElse();
      case EndifDirective => EndIf();
      case NoDirective =>
    }

    method Change(e: Edit)
      requires Valid()
      modifies this`stack, this`view, this`repr, repr
      ensures Valid() && view == After(old(view), Edited(e)) && fresh(repr - old(repr))
    {
      assert forall b :: b in stack ==> b in repr by {
        assert forall b :: b in stack ==> b in Objects(stack);
      }
      match e
      case Push(info) => PushBlock(info);
      case Pop => PopBlock();
      case Alter(info) => AlterTop(info);
    }

    /** One line of Update, given the changes it makes to the stack after the directive is dealt with. */
    method Update(line: Line)
      requires Valid()
      modifies this, repr
      ensures Valid() && view == AfterLine(old(view), line) && fresh(repr - old(repr))
    {
      hide Keeps, Owned, Holds, Objects, Apart, DirectiveOf, AfterDirective;
      UpdatePreprocessor(line.text);
      ghost var n := view;
      for i := 0 to |line.edits|
        invariant Valid() && fresh(repr - old(repr))
        invariant view.pp == n.pp && AfterEdits(view.stack, line.edits[i..]) == AfterEdits(n.stack, line.edits)
      {
        assert line.edits[i..][1..] == line.edits[i + 1..];
        Change(line.edits[i]);
      }
      assert line.edits[|line.edits|..] == [];
    }

    method UpdateAll(lines: seq<Line>)
      requires Valid()
      modifies this, repr
      ensures Valid() && view == AfterLines(old(view), lines) && fresh(repr - old(repr))
    {
      hide Keeps, Owned, Holds, Objects, Apart, AfterLine;
      for i := 0 to |lines|
        invariant Valid() && fresh(repr - old(repr))
        invariant AfterLines(view, lines[i..]) == AfterLines(old(view), lines)
      {
        assert lines[i..][1..] == lines[i + 1..];
        Update(lines[i]);
      }
      assert lines[|lines|..] == [];
    }
  }

  lemma KeepsBoth(p: PreprocessorInfo, s: Saved)
    requires Keeps(p, s)
    ensures Holds(p.stackBeforeIf, p.home, s.beforeIf) && Holds(p.stackBeforeElse, p.home, s.beforeElse)
    ensures p.seenElse == s.seenElse
  {
  }

  lemma NowKeeps(p: PreprocessorInfo, beforeIf: seq<Info>, beforeElse: seq<Info>)
    requires Holds(p.stackBeforeIf, p.home, beforeIf) && Holds(p.stackBeforeElse, p.home, beforeElse) && p.seenElse
    ensures Keeps(p, Saved(beforeIf, beforeElse, true))
  {
  }

  /** A deep copy, in terms of what the blocks hold. */
  method CopyHeld(blocks: seq<BlockInfo>, ghost home: nat, ghost mark: nat, ghost infos: seq<Info>)
      returns (copy: seq<BlockInfo>)
    requires Holds(blocks, home, infos)
    ensures fresh(copy) && fresh(Objects(copy)) && Holds(copy, mark, infos)
  {
    copy := DeepCopy(blocks, mark);
  }

  lemma OwnedIs(p: PreprocessorInfo)
    ensures Owned(p) == Objects(p.stackBeforeIf) + Objects(p.stackBeforeElse)
  {
  }

  lemma NewEntry(p: PreprocessorInfo, infos: seq<Info>)
    requires p.stackBeforeElse == [] && !p.seenElse && Holds(p.stackBeforeIf, p.home, infos)
    ensures Keeps(p, Saved(infos, [], false)) && Owned(p) == Objects(p.stackBeforeIf)
  {
  }
}
