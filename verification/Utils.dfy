/** Small shared vocabulary: optional values, character classes, duplicate-free sequences and flattening. */
module Utils {

  datatype Option<+T> = None | Some(value: T)

  /** What isspace and the regular expression \s accept in ASCII. */
  predicate Space(c: char) {
    c == ' ' || 9 as char <= c <= 13 as char
  }

  /** What the regular expression \w accepts in ASCII. */
  predicate WordChar(c: char) {
    'a' <= c <= 'z' || 'A' <= c <= 'Z' || '0' <= c <= '9' || c == '_'
  }

  const LETTERS := "abcdefghijklmnopqrstuvwxyz"
  const CAPITALS := "ABCDEFGHIJKLMNOPQRSTUVWXYZ"
  const NUMERALS := "0123456789"

  /** The classes, character by character: blank, tab, line feed, vertical tab, form feed, carriage return. */
  lemma SpacesAre(c: char)
    ensures Space(c) <==> c in [' ', '\t', '\n', 11 as char, 12 as char, '\r']
  {
  }

  lemma NumeralsAre(c: char)
    ensures c in NUMERALS <==> '0' <= c <= '9'
  {
    assert '0' <= c <= '9' ==> NUMERALS[c as int - '0' as int] == c;
  }

  lemma LettersAre(c: char)
    ensures c in LETTERS <==> 'a' <= c <= 'z'
  {
    assert 'a' <= c <= 'z' ==> LETTERS[c as int - 'a' as int] == c;
  }

  lemma CapitalsAre(c: char)
    ensures c in CAPITALS <==> 'A' <= c <= 'Z'
  {
    assert 'A' <= c <= 'Z' ==> CAPITALS[c as int - 'A' as int] == c;
  }

  lemma WordCharsAre(c: char)
    ensures WordChar(c) <==> c in LETTERS || c in CAPITALS || c in NUMERALS || c == '_'
  {
    LettersAre(c);
    CapitalsAre(c);
    NumeralsAre(c);
    hide LETTERS, CAPITALS, NUMERALS;
  }

  ghost predicate NoDup<T>(s: seq<T>) {
    forall i, j :: 0 <= i < j < |s| ==> s[i] != s[j]
  }

  lemma Assoc<T>(a: seq<T>, b: seq<T>, c: seq<T>)
    ensures (a + b) + c == a + (b + c)
  {
  }

  lemma HeadTail<T>(w: seq<T>, rest: seq<T>)
    requires w != []
    ensures w + rest == [w[0]] + (w[1..] + rest)
  {
  }

  /** The elements of a list of lists, in order. */
  function Flatten<T>(parts: seq<seq<T>>): seq<T> {
    if parts == [] then [] else parts[0] + Flatten(parts[1..])
  }

  lemma {:induction false} FlattenConcat<T>(a: seq<seq<T>>, b: seq<seq<T>>)
    ensures Flatten(a + b) == Flatten(a) + Flatten(b)
  {
    if a == [] {
      assert a + b == b;
    } else {
      FlattenConcat(a[1..], b);
      assert (a + b)[1..] == a[1..] + b;
      Assoc(a[0], Flatten(a[1..]), Flatten(b));
    }
  }

  lemma FlattenOne<T>(x: seq<T>)
    ensures Flatten([x]) == x
  {
    assert Flatten([x]) == x + Flatten([]);
  }
}
