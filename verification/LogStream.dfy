/**
 The fixed-size buffer behind the log stream and the asynchronous log, and the integer formatter
 that writes digits into it from the low end and reverses them in place.
 */
module LogStreams {
  import opened Decimal

  const FIXED_BUFFER_SIZE: nat := 4096
  const MAX_NUMERIC_SIZE: nat := 48

  /** What a buffer of the given capacity holds after Append: a message must leave one byte free. */
  function Appended(capacity: nat, content: string, msg: string): string {
    if |msg| < capacity - |content| then content + msg else content
  }

  class FixedBuffer {
    const data: array<char>
    var cur: nat

    ghost predicate Valid()
      reads this
    {
      cur <= data.Length
    }

    ghost function Contents(): string
      requires Valid()
      reads this, data
    {
      data[..cur]
    }

    constructor (size: nat)
      ensures Valid() && data.Length == size && Contents() == [] && fresh(data)
    {
      data, cur := new char[size], 0;
    }

    function Available(): nat
      requires Valid()
      reads this
    {
      data.Length - cur
    }

    method Append(buf: string)
      requires Valid()
      modifies this, data
      ensures Valid() && Contents() == Appended(data.Length, old(Contents()), buf)
      ensures Contents() == if |buf| < data.Length - old(cur) then old(Contents()) + buf else old(Contents())
    {
      if Available() > |buf| {
        for i := 0 to |buf|
          invariant cur == old(cur) && data[..cur + i] == old(data[..cur]) + buf[..i]
        {
          data[cur + i] := buf[i];
        }
        assert buf[..|buf|] == buf;
        cur := cur + |buf|;
      }
    }

    /** Zeroes the bytes and rewinds, which makes a used buffer an empty one. */
    method Bzero()
      modifies this, data
      ensures Valid() && Contents() == [] && forall i :: 0 <= i < data.Length ==> data[i] == '\0'
    {
      for i := 0 to data.Length
        invariant forall j :: 0 <= j < i ==> data[j] == '\0'
      {
        data[i] := '\0';
      }
      cur := 0;
    }
  }

  // ---------------------------------------------------------------- formatInteger

  /** Division and remainder of C++, which truncate toward zero. */
  function Quot(v: int): int {
    if v >= 0 then v / 10 else -(-v / 10)
  }

  function Rem(v: int): (r: int)
    ensures v == 10 * Quot(v) + r && -10 < r < 10
  {
    v - 10 * Quot(v)
  }

  /** The character the code stores for one remainder, negative remainders included. */
  function RemChar(v: int): char {
    ('0' as int + Rem(v)) as char
  }

  /** The characters in the order in which the loop produces them, lowest first. */
  function Raw(v: int): string
    decreases if v < 0 then -v else v
  {
    [RemChar(v)] + if Quot(v) == 0 then [] else Raw(Quot(v))
  }

  /** What is still to come once the value has been divided down to v. */
  function RawRest(v: int): string {
    if v == 0 then [] else Raw(v)
  }

  lemma RawStep(v: int)
    ensures Raw(v)[0] == RemChar(v) && Raw(v)[1..] == RawRest(Quot(v))
  {
  }

  function Reversed(s: string): (r: string)
    ensures |r| == |s|
  {
    if s == [] then [] else Reversed(s[1..]) + [s[0]]
  }

  lemma {:induction false} ReversedAt(s: string, k: nat)
    requires k < |s|
    ensures Reversed(s)[k] == s[|s| - 1 - k]
  {
    if k < |s| - 1 {
      ReversedAt(s[1..], k);
    }
  }

  function Formatted(v: int): string {
    Reversed(Raw(v))
  }

  /** What an integer should print as. */
  function Printed(v: int): string {
    if v < 0 then "-" + Digits(-v) else Digits(v)
  }

  lemma {:induction false} FormattedNonNegative(v: nat)
    ensures Formatted(v) == Digits(v)
  {
    if v < 10 {
      assert Raw(v) == [DigitChar(v)] && Raw(v)[1..] == [];
      assert Reversed(Raw(v)) == Reversed([]) + [DigitChar(v)];
    } else {
      FormattedNonNegative(v / 10);
      assert Raw(v)[1..] == Raw(v / 10) && Raw(v)[0] == DigitChar(v % 10);
    }
  }

  lemma {:induction false} RawLength(v: int)
    ensures |Raw(v)| == |Digits(if v < 0 then -v else v)|
    decreases if v < 0 then -v else v
  {
    if Quot(v) != 0 {
      RawLength(Quot(v));
    }
  }

  /** The formatter prints the number exactly when it is not negative: the sign is tested after the
      value has been divided down to zero, so it never appears. */
  lemma FormatCorrectIff(v: int)
    ensures Formatted(v) == Printed(v) <==> v >= 0
  {
    if v >= 0 {
      FormattedNonNegative(v);
    } else {
      RawLength(v);
      assert |Formatted(v)| < |Printed(v)|;
    }
  }

  /** Twice the code of '0': what a digit and its mirror image below '0' add up to. */
  const MIRROR := 2 * '0' as int

  lemma {:induction false} RawMirrored(v: int)
    requires v >= 0
    ensures |Raw(-v)| == |Raw(v)|
    ensures forall k :: 0 <= k < |Raw(v)| ==> Raw(-v)[k] as int + Raw(v)[k] as int == MIRROR
  {
    if v >= 10 {
      RawMirrored(v / 10);
      assert Quot(-v) == -Quot(v);
    }
  }

  /** What a negative number prints as: the digits of its absolute value, each mirrored at '0', without
      a sign. */
  lemma NegativeIsMirrored(v: int)
    requires v >= 0
    ensures |Formatted(-v)| == |Digits(v)|
    ensures forall k :: 0 <= k < |Digits(v)| ==> Formatted(-v)[k] as int - 48 == 48 - Digits(v)[k] as int
  {
    hide Raw, Digits, Reversed;
    RawMirrored(v);
    FormattedNonNegative(v);
    forall k | 0 <= k < |Digits(v)| ensures Formatted(-v)[k] as int - 48 == 48 - Digits(v)[k] as int {
      ReversedAt(Raw(v), k);
      ReversedAt(Raw(-v), k);
    }
  }

  lemma FormattedFits(v: int)
    requires -0x8000_0000_0000_0000 <= v < 0x1_0000_0000_0000_0000
    ensures |Raw(v)| <= 20 < MAX_NUMERIC_SIZE
  {
    RawLength(v);
    assert Pow10(10) == 10_000_000_000;
    assert Pow10(20) == 100_000_000_000_000_000_000 by {
      assert Pow10(15) == 100_000 * Pow10(10);
      assert Pow10(20) == 100_000 * Pow10(15);
    }
    DigitsLength(if v < 0 then -v else v, 20);
  }

  class LogStream {
    const buffer: FixedBuffer

    constructor ()
      ensures buffer.Valid() && buffer.data.Length == 4096 && buffer.Contents() == []
    {
      buffer := new FixedBuffer(FIXED_BUFFER_SIZE);
    }

    /** Appends the number, or nothing when fewer than 48 bytes are free; never writes past the end. */
    method FormatInteger(value: int)
      requires -0x8000_0000_0000_0000 <= value < 0x1_0000_0000_0000_0000
      requires buffer.Valid()
      modifies buffer, buffer.data
      ensures buffer.Valid()
      ensures buffer.Contents() == old(buffer.Contents())
                                   + if old(buffer.Available()) >= 48 then Formatted(value) else []
      ensures value >= 0 && old(buffer.Available()) >= 48 ==>
        buffer.Contents() == old(buffer.Contents()) + Digits(value)
    {
      if buffer.Available() >= MAX_NUMERIC_SIZE {
        FormattedFits(value);
        if value >= 0 {
          FormattedNonNegative(value);
        }
        var len := FormatInto(buffer.data, buffer.cur, value);
        buffer.cur := len;
      }
    }
  }

  /** Stores one character behind the first `len`. */
  method Put(data: array<char>, len: nat, c: char)
    requires len < data.Length
    modifies data
    ensures data[..len + 1] == old(data[..len]) + [c]
  {
    data[len] := c;
  }

  lemma ShiftOne(pre: string, acc: string, rest: string)
    requires rest != []
    ensures (pre + acc) + [rest[0]] == pre + (acc + [rest[0]])
    ensures (acc + [rest[0]]) + rest[1..] == acc + rest
  {
  }

  /** The digit loop: the characters of the value, from the low end, behind the first `start`. */
  method WriteRaw(data: array<char>, start: nat, value: int) returns (len: nat)
    requires start + |Raw(value)| <= data.Length
    modifies data
    ensures len == start + |Raw(value)| && data[..len] == old(data[..start]) + Raw(value)
  {
    ghost var pre, acc, rest := data[..start], "", Raw(value);
    var v := value;
    len := start;
    while true
      invariant |pre| == start && len == start + |acc| && rest == Raw(v) && acc + rest == Raw(value)
      invariant data[..len] == pre + acc
      decreases |rest|
    {
      assert len < data.Length by { assert |acc + rest| == |Raw(value)|; }
      Put(data, len, RemChar(v));
      RawStep(v);
      ShiftOne(pre, acc, rest);
      acc, rest := acc + [rest[0]], rest[1..];
      len := len + 1;
      v := Quot(v);
      if v == 0 {
        assert acc + [] == acc;
        break;
      }
    }
  }

  /** std::reverse on data[lo..hi]. */
  method Reverse(data: array<char>, lo: nat, hi: nat)
    requires lo <= hi <= data.Length
    modifies data
    ensures forall k :: 0 <= k < lo ==> data[k] == old(data[k])
    ensures forall k :: lo <= k < hi ==> data[k] == old(data[lo + hi - 1 - k])
  {
    var i, j := lo, hi;
    while i + 1 < j
      invariant lo <= i <= j <= hi && i - lo == hi - j
      invariant forall k :: lo <= k < i ==> data[k] == old(data[lo + hi - 1 - k])
      invariant forall k :: j <= k < hi ==> data[k] == old(data[lo + hi - 1 - k])
      invariant forall k :: i <= k < j ==> data[k] == old(data[k])
      invariant forall k :: 0 <= k < lo ==> data[k] == old(data[k])
      decreases j - i
    {
      j := j - 1;
      data[i], data[j] := data[j], data[i];
      i := i + 1;
    }
  }

  lemma MirroredIsReversed(s: string, r: string)
    requires |r| == |s| && forall k :: 0 <= k < |s| ==> r[k] == s[|s| - 1 - k]
    ensures r == Reversed(s)
  {
    forall k | 0 <= k < |s| ensures r[k] == Reversed(s)[k] {
      ReversedAt(s, k);
    }
  }

  method FormatInto(data: array<char>, start: nat, value: int) returns (len: nat)
    requires start + |Raw(value)| <= data.Length
    modifies data
    ensures len <= data.Length && data[..len] == old(data[..start]) + Formatted(value)
  {
    hide Raw, Reversed;
    len := WriteRaw(data, start, value);
    ghost var before := data[..len];
    Reverse(data, start, len);
    MirroredIsReversed(before[start..], data[start..len]);
    assert before[..start] == data[..start];
    assert data[..len] == data[..start] + data[start..len];
  }
}
