/**
 Buffer: a growing array with a read and a write cursor. As written, the branch that moves the readable
 bytes to the front recomputes the write cursor from the read cursor it has just overwritten, so it
 frees nothing; Append is proved to append exactly when that branch is not taken.
 */
module Buffers {
  import opened Utils

  const PREPEND := 8
  const INITIAL := 1024

  // ---------------------------------------------------------------- the buffer as a value

  datatype Buf = Buf(data: string, read: int, write: int)

  predicate Valid(b: Buf) {
    PREPEND <= b.read <= b.write <= |b.data|
  }

  function Content(b: Buf): string
    requires Valid(b)
  {
    b.data[b.read..b.write]
  }

  predicate HasRoom(b: Buf, len: nat) {
    |b.data| - b.write >= len
  }

  /** The guard of the branch that moves the readable bytes to the front. */
  predicate Compacts(b: Buf, len: nat) {
    !HasRoom(b, len) && |b.data| - b.write + b.read >= PREPEND + len
  }

  function Blanks(n: nat): (s: string)
    ensures |s| == n
  {
    seq(n, _ => 0 as char)
  }

  function EnsureRoom(b: Buf, len: nat): (c: Buf)
    requires Valid(b)
    ensures c.write == b.write <= |c.data| && Valid(c)
  {
    if HasRoom(b, len) then b
    else if Compacts(b, len) then
      b.(data := b.data[..PREPEND] + Content(b) + b.data[PREPEND + b.write - b.read..], read := PREPEND)
    else b.(data := b.data + Blanks(b.write + len - |b.data|))
  }

  /** None: the copy would run past the end of the vector. */
  function Put(b: Buf, msg: string): Option<Buf>
    requires Valid(b)
  {
    var c := EnsureRoom(b, |msg|);
    if HasRoom(c, |msg|) then
      Some(c.(data := c.data[..c.write] + msg + c.data[c.write + |msg|..], write := c.write + |msg|))
    else None
  }

  function Take(b: Buf, len: int): Buf {
    if len + b.read < b.write then b.(read := b.read + len) else b.(read := PREPEND, write := PREPEND)
  }

  /** Append does its work exactly when it does not move the readable bytes. */
  lemma PutAppends(b: Buf, msg: string)
    requires Valid(b)
    ensures Put(b, msg).Some? <==> !(|b.data| - b.write < |msg| <= |b.data| - b.write + b.read - 8)
    ensures Put(b, msg).Some? <==> !Compacts(b, |msg|)
    ensures match Put(b, msg) case None => true case Some(c) => Valid(c) && Content(c) == Content(b) + msg
  {
    var c := EnsureRoom(b, |msg|);
    if HasRoom(c, |msg|) {
      assert Content(c) == Content(b);
      var d := Put(b, msg).value;
      assert d.data[c.read..d.write] == c.data[c.read..c.write] + msg;
    }
  }

  /** What the branch does instead: the content gains bytes that had been retrieved before, the write
      cursor stays where it was, and there is still no room. */
  lemma CompactionEffect(b: Buf, len: nat)
    requires Valid(b) && |b.data| - b.write < len <= |b.data| - b.write + b.read - 8
    ensures var c := EnsureRoom(b, len);
            && c.read == 8 && c.write == b.write && |c.data| == |b.data| < c.write + len
            && Content(c) == Content(b) + b.data[b.write - (b.read - 8)..b.write]
            && Content(c) != Content(b)
  {
    var c := EnsureRoom(b, len);
    var n := b.write - b.read;
    assert c.data[PREPEND..b.write] == Content(b) + b.data[PREPEND + n..b.write];
    assert |Content(c)| > |Content(b)|;
  }

  /** With the readable count taken before the read cursor is overwritten, the branch would keep the
      content and make the room it promises. */
  lemma SavedCountWouldDo(b: Buf, len: nat)
    requires Valid(b) && |b.data| - b.write < len <= |b.data| - b.write + b.read - 8
    ensures var c := EnsureRoom(b, len).(write := 8 + |Content(b)|);
            Valid(c) && Content(c) == Content(b) && |c.data| - c.write >= len
  {
    var c := EnsureRoom(b, len).(write := PREPEND + |Content(b)|);
    assert c.data[PREPEND..c.write] == Content(b);
  }

  lemma TakeDrops(b: Buf, len: nat)
    requires Valid(b) && len <= |Content(b)|
    ensures Valid(Take(b, len)) && Content(Take(b, len)) == Content(b)[len..] && Take(b, len).data == b.data
    ensures Take(b, len).read == if len < b.write - b.read then b.read + len else 8
  {
  }

  /** RetrieveUntil does not reset the cursors, even when it retrieves everything. */
  function Until(b: Buf, len: nat): (c: Buf)
    requires Valid(b) && len <= |Content(b)|
    ensures Valid(c) && Content(c) == Content(b)[len..]
  {
    b.(read := b.read + len)
  }

  /** Growing stays within twice the new message plus what is unread. */
  lemma ResizeBound(b: Buf, len: nat)
    requires Valid(b) && |b.data| - b.write < len && |b.data| - b.write + b.read - 8 < len
    ensures var c := EnsureRoom(b, len);
            && c.read == b.read && Content(c) == Content(b)
            && |c.data| == b.write + len < 8 + |Content(b)| + 2 * len
  {
  }

  // ---------------------------------------------------------------- runs: a byte queue

  datatype Op = Add(msg: string) | Remove(len: nat) | RemoveUntil(len: nat)

  function Added(ops: seq<Op>): string {
    if ops == [] then "" else (if ops[0].Add? then ops[0].msg else "") + Added(ops[1..])
  }

  /** The buffer after the operations and all that they retrieved; None when the program has failed,
      by the assert on the length to retrieve or by overrunning the vector. */
  function Execute(b: Buf, ops: seq<Op>): Option<(Buf, string)>
    requires Valid(b)
    decreases |ops|
  {
    if ops == [] then Some((b, ""))
    else
      match ops[0]
      case Add(msg) =>
        PutAppends(b, msg);
        (match Put(b, msg) case None => None case Some(c) => Execute(c, ops[1..]))
      case Remove(len) =>
        if len > |Content(b)| then None
        else
          TakeDrops(b, len);
          (match Execute(Take(b, len), ops[1..])
           case None => None
           case Some((c, out)) => Some((c, Content(b)[..len] + out)))
      case RemoveUntil(len) =>
        if len > |Content(b)| then None
        else
          match Execute(Until(b, len), ops[1..])
          case None => None
          case Some((c, out)) => Some((c, Content(b)[..len] + out))
  }

  /** Over every run: what was retrieved, and then what is readable, is what was there and was appended. */
  lemma {:induction false} IsAQueue(b: Buf, ops: seq<Op>)
    requires Valid(b)
    ensures match Execute(b, ops)
            case None => true
            case Some((c, out)) => Valid(c) && out + Content(c) == Content(b) + Added(ops)
    decreases |ops|
  {
    hide Content, Put, Take, Compacts;
    if ops != [] && Execute(b, ops).Some? {
      match ops[0]
      case Add(msg) =>
        PutAppends(b, msg);
        IsAQueue(Put(b, msg).value, ops[1..]);
        Assoc(Content(b), msg, Added(ops[1..]));
      case Remove(len) =>
        TakeDrops(b, len);
        IsAQueue(Take(b, len), ops[1..]);
        var (c, out) := Execute(Take(b, len), ops[1..]).value;
        Assoc(Content(b)[..len], out, Content(c));
        Assoc(Content(b)[..len], Content(b)[len..], Added(ops[1..]));
        assert Content(b) == Content(b)[..len] + Content(b)[len..];
      case RemoveUntil(len) =>
        IsAQueue(Until(b, len), ops[1..]);
        var (c, out) := Execute(Until(b, len), ops[1..]).value;
        Assoc(Content(b)[..len], out, Content(c));
        Assoc(Content(b)[..len], Content(b)[len..], Added(ops[1..]));
        assert Content(b) == Content(b)[..len] + Content(b)[len..];
    }
  }

  const EMPTY := Buf(Blanks(INITIAL), PREPEND, PREPEND)

  /** Three ordinary calls reach the branch: 1000 bytes in, 500 out, 100 more. */
  lemma OverrunReachable(a: string, c: string)
    requires |a| == 1000 && |c| == 100
    ensures Execute(EMPTY, [Add(a), Remove(500)]).Some?
    ensures Execute(EMPTY, [Add(a), Remove(500), Add(c)]) == None
  {
    var b := Put(EMPTY, a).value;
    PutAppends(EMPTY, a);
    TakeDrops(b, 500);
    PutAppends(Take(b, 500), c);
    assert [Add(a), Remove(500)][1..] == [Remove(500)];
    assert [Remove(500)][1..] == [];
    assert [Add(a), Remove(500), Add(c)][1..] == [Remove(500), Add(c)];
    assert [Remove(500), Add(c)][1..] == [Add(c)];
    assert Execute(Take(b, 500), [Add(c)]) == None;
    assert Execute(b, [Remove(500), Add(c)]) == None;
  }

  // ---------------------------------------------------------------- the class

  lemma Spliced(now: string, before: string, at: nat, part: string)
    requires |now| == |before| && at + |part| <= |before|
    requires forall k :: 0 <= k < |now| ==> now[k] == if at <= k < at + |part| then part[k - at] else before[k]
    ensures now == before[..at] + part + before[at + |part|..]
  {
  }

  class Buffer {
    var data: array<char>
    var read: int
    var write: int

    ghost predicate Valid()
      reads this
    {
      PREPEND <= read <= write <= data.Length
    }

    ghost function Value(): Buf
      reads this, data
    {
      Buf(data[..], read, write)
    }

    constructor ()
      ensures Valid() && Value() == EMPTY && fresh(data) && data.Length == 1024 && read == write == 8
    {
      data := new char[INITIAL](_ => 0 as char);
      read, write := PREPEND, PREPEND;
      new;
      assert data[..] == Blanks(INITIAL);
    }

    method Compact()
      requires Valid()
      modifies this`read, this`write, data
      ensures read == PREPEND && write == old(write)
      ensures data[..] == old(data[..PREPEND] + data[read..write] + data[PREPEND + write - read..])
    {
      ghost var before, n := data[..], write - read;
      var shift := read - PREPEND;
      forall k | PREPEND <= k < PREPEND + write - read {
        data[k] := data[k + shift];
      }
      assert forall k :: 0 <= k < data.Length ==>
        data[k] == if PREPEND <= k < PREPEND + n then before[k + shift] else before[k];
      Spliced(data[..], before, PREPEND, before[read..write]);
      read := PREPEND;
      write := PREPEND + (write - read);
    }

    method Resize(size: nat)
      requires Valid() && size >= data.Length
      modifies this`data
      ensures fresh(data) && data[..] == old(data[..]) + Blanks(size - old(data.Length))
    {
      var bigger := new char[size](_ => 0 as char);
      forall i | 0 <= i < data.Length {
        bigger[i] := data[i];
      }
      data := bigger;
    }

    method EnsureWriteAbleBytes(len: nat)
      requires Valid()
      modifies this, data
      ensures Valid() && Value() == EnsureRoom(old(Value()), len) && (data == old(data) || fresh(data))
      ensures data.Length - write >= len <==> !old(data.Length - write < len <= data.Length - write + read - 8)
    {
      if data.Length - write >= len {
        return;
      }
      if data.Length - write + read >= PREPEND + len {
        Compact();
      } else {
        Resize(write + len);
      }
    }

    /** False when the copy would leave the vector, from where on the program's behaviour is undefined. */
    method Append(msg: string) returns (inside: bool)
      requires Valid()
      modifies this, data
      ensures Valid() && (data == old(data) || fresh(data))
      ensures inside <==> !old(data.Length - write < |msg| <= data.Length - write + read - 8)
      ensures inside ==> Content(Value()) == old(Content(Value())) + msg
      ensures inside == Put(old(Value()), msg).Some?
      ensures Value() == if inside then Put(old(Value()), msg).value else EnsureRoom(old(Value()), |msg|)
    {
      EnsureWriteAbleBytes(|msg|);
      if write + |msg| > data.Length {
        return false;
      }
      PutAppends(old(Value()), msg);
      ghost var before := data[..];
      forall k | write <= k < write + |msg| {
        data[k] := msg[k - write];
      }
      assert forall k :: 0 <= k < data.Length ==>
        data[k] == if write <= k < write + |msg| then msg[k - write] else before[k];
      Spliced(data[..], before, write, msg);
      write := write + |msg|;
      inside := true;
    }

    function ReadAbleBytes(): int
      reads this
    {
      write - read
    }

    method PeekAllAsString() returns (s: string)
      requires Valid()
      ensures s == Content(Value())
    {
      s := data[read..write];
    }

    method PeekAsString(len: nat) returns (s: string)
      requires Valid()
      ensures s == if len < |Content(Value())| then Content(Value())[..len] else Content(Value())
    {
      if len >= ReadAbleBytes() {
        s := PeekAllAsString();
      } else {
        s := data[read..read + len];
        assert s == data[read..write][..len];
      }
    }

    method RetrieveAll()
      requires Valid()
      modifies this`read, this`write
      ensures Valid() && Content(Value()) == "" && read == write == 8
    {
      write := PREPEND;
      read := write;
    }

    /** The length is unchecked below: a negative one moves the read cursor back. */
    method Retrieve(len: int)
      requires Valid() && len <= ReadAbleBytes()
      modifies this`read, this`write
      ensures Value() == Take(old(Value()), len)
      ensures if len < old(write - read) then read == old(read) + len && write == old(write) else read == write == 8
      ensures len >= 0 ==> Valid() && Content(Value()) == old(Content(Value()))[len..]
    {
      if len + read < write {
        read := read + len;
      } else {
        write := PREPEND;
        read := write;
      }
    }

    method RetrieveAsString(len: nat) returns (s: string)
      requires Valid() && len <= ReadAbleBytes()
      modifies this`read, this`write
      ensures Valid() && s + Content(Value()) == old(Content(Value())) && |s| == len
    {
      s := PeekAsString(len);
      Retrieve(len);
    }

    method RetrieveAllAsString() returns (s: string)
      requires Valid() && ReadAbleBytes() > 0
      modifies this`read, this`write
      ensures Valid() && s == old(Content(Value())) && Content(Value()) == "" && read == write == 8
    {
      s := PeekAllAsString();
      RetrieveAll();
    }

    /** Up to an index into the readable bytes; the cursors are not reset when nothing is left. */
    method RetrieveUntilAsString(end: int) returns (s: string)
      requires Valid() && read <= end <= write
      modifies this`read
      ensures Valid() && s + Content(Value()) == old(Content(Value())) && |s| == end - old(read)
      ensures read == end && Value() == Until(old(Value()), |s|)
    {
      s := PeekAsString(end - read);
      read := end;
    }
  }
}
