/**
 What the Content-Length header decides, in terms of the characters of its value: blanks, a sign, a
 numeral and whatever follows. The parser stores the value with the blank behind the colon.
 */
module HttpLengths {
  import opened Utils
  import opened Decimal
  import opened HttpGrammar
  import opened HttpParser

  predicate Spaces(w: string) {
    forall i :: 0 <= i < |w| ==> Space(w[i])
  }

  predicate Zeros(z: string) {
    forall i :: 0 <= i < |z| ==> z[i] == '0'
  }

  /** What does not prolong a numeral. */
  predicate NoDigitFirst(tail: string) {
    tail == "" || tail[0] !in "0123456789"
  }

  lemma {:induction false} LeadingDigitsAre(d: string, tail: string)
    requires AllDigits(d) && NoDigitFirst(tail)
    ensures LeadingDigits(d + tail) == d
    decreases |d|
  {
    if d == "" {
      assert d + tail == tail;
      if tail != "" && IsDigit(tail[0]) {
        NumeralsAre(tail[0]);
      }
    } else {
      LeadingDigitsAre(d[1..], tail);
      assert (d + tail)[1..] == d[1..] + tail;
    }
  }

  lemma {:induction false} SpacesSkipped(w: string, s: string)
    requires Spaces(w)
    ensures Atoi(w + s) == Atoi(s)
    decreases |w|
  {
    if w == "" {
      assert w + s == s;
    } else {
      SpacesSkipped(w[1..], s);
      assert (w + s)[1..] == w[1..] + s;
    }
  }

  lemma NumberRead(zeros: string, n: nat, tail: string)
    requires Zeros(zeros) && NoDigitFirst(tail)
    ensures Value(LeadingDigits(zeros + (Digits(n) + tail))) == n
    ensures zeros + (Digits(n) + tail) != "" && IsDigit((zeros + (Digits(n) + tail))[0])
  {
    ValueOfDigits(n);
    ValueOfPadded(zeros, Digits(n));
    Assoc(zeros, Digits(n), tail);
    LeadingDigitsAre(zeros + Digits(n), tail);
    var s := zeros + Digits(n);
    assert s[0] == if zeros != "" then zeros[0] else Digits(n)[0];
  }

  /** The value of the last Content-Length header is the one that counts. */
  ghost predicate LengthIs(t: Tree, value: string) {
    exists before, after :: (
      && t.headers == before + ([Pair("Content-Length", value)] + after)
      && forall h :: h in after ==> h.key != "Content-Length")
  }

  lemma {:induction false} UpdatedConcat(m: map<string, string>, a: seq<Pair>, b: seq<Pair>)
    ensures Updated(m, a + b) == Updated(Updated(m, a), b)
    decreases |a|
  {
    if a == [] {
      assert a + b == b;
    } else {
      UpdatedConcat(m[a[0].key := a[0].value], a[1..], b);
      assert (a + b)[0] == a[0] && (a + b)[1..] == a[1..] + b;
    }
  }

  lemma LengthStored(r: Request, t: Tree, value: string)
    requires LengthIs(t, value)
    ensures HasLength(HeadOf(r, t)) && HeadOf(r, t).headers["Content-Length"] == value
  {
    var before, after :| (
      && t.headers == before + ([Pair("Content-Length", value)] + after)
      && forall h :: h in after ==> h.key != "Content-Length");
    var m := Updated(r.headers, before);
    UpdatedConcat(r.headers, before, [Pair("Content-Length", value)] + after);
    UpdatedConcat(m, [Pair("Content-Length", value)], after);
    assert [Pair("Content-Length", value)][1..] == [];
    UpdatedKeeps(m["Content-Length" := value], after, "Content-Length");
  }

  lemma LengthDecides(r: Request, t: Tree, value: string)
    requires WellFormed(t) && LengthIs(t, value)
    ensures var c := Run(Next(Start, r), Text(t));
            if Atoi(value) <= 0 then c.state == Complete && c.request.body == r.body
            else if t.rest == "" then c.state == Body
            else c.state == Complete && c.request.body == t.rest
  {
    hide Run, Text, WellFormed, Atoi, LengthIs, Updated;
    LengthStored(r, t, value);
    TreeParses(r, t);
  }

  /** Blanks, perhaps a plus, a numeral with any leading zeros, and anything that does not prolong it:
      a positive number takes all that follows the blank line as the body and waits if there is nothing,
      zero completes the request and takes none. */
  lemma LengthRead(r: Request, t: Tree, w: string, sign: string, zeros: string, n: nat, tail: string)
    requires WellFormed(t) && LengthIs(t, w + (sign + (zeros + (Digits(n) + tail))))
    requires Spaces(w) && (sign == "" || sign == "+") && Zeros(zeros) && NoDigitFirst(tail)
    ensures var c := Run(Next(Start, r), Text(t));
            if n == 0 then c.state == Complete && c.request.body == r.body
            else if t.rest == "" then c.state == Body
            else c.state == Complete && c.request.body == t.rest
  {
    hide Run, Text, WellFormed, LengthIs;
    var number := zeros + (Digits(n) + tail);
    LengthDecides(r, t, w + (sign + number));
    SpacesSkipped(w, sign + number);
    NumberRead(zeros, n, tail);
    assert sign == "" ==> sign + number == number;
    assert sign == "+" ==> (sign + number)[1..] == number;
  }

  /** A minus before the numeral: never a body. */
  lemma NegativeLength(r: Request, t: Tree, w: string, zeros: string, n: nat, tail: string)
    requires WellFormed(t) && LengthIs(t, w + ("-" + (zeros + (Digits(n) + tail))))
    requires Spaces(w) && Zeros(zeros) && NoDigitFirst(tail)
    ensures var c := Run(Next(Start, r), Text(t)); c.state == Complete && c.request.body == r.body
  {
    hide Run, Text, WellFormed, LengthIs;
    var number := zeros + (Digits(n) + tail);
    LengthDecides(r, t, w + ("-" + number));
    SpacesSkipped(w, "-" + number);
    NumberRead(zeros, n, tail);
    assert ("-" + number)[1..] == number;
  }

  /** No numeral where one is looked for, behind blanks and at most one sign: no body either. */
  lemma NoNumeral(r: Request, t: Tree, w: string, sign: string, tail: string)
    requires WellFormed(t) && LengthIs(t, w + (sign + tail))
    requires Spaces(w) && (sign == "" || sign == "+" || sign == "-") && NoDigitFirst(tail)
    requires sign == "" && tail != "" ==> !Space(tail[0]) && tail[0] != '+' && tail[0] != '-'
    ensures var c := Run(Next(Start, r), Text(t)); c.state == Complete && c.request.body == r.body
  {
    hide Run, Text, WellFormed, LengthIs;
    LengthDecides(r, t, w + (sign + tail));
    SpacesSkipped(w, sign + tail);
    LeadingDigitsAre("", tail);
    assert "" + tail == tail;
    assert sign != "" ==> (sign + tail)[1..] == tail;
  }
}
