/**
 The asynchronous log: producers append to a current buffer, one consumer thread swaps full buffers
 out, writes them to the log file and recycles them. The consumer holds the mutex for the whole of
 one pass, except while it waits with nothing moved, so a run is a sequence of whole appends and
 whole passes. Buffers are owned by exactly one pointer; each has a name, to follow its recycling.
 */
module AsyncLogs {
  import opened Utils
  import opened LogStreams

  const FILE_MAXIMUM_SIZE: nat := 1024 * 1024 * 1024
  const CAP: nat := FIXED_BUFFER_SIZE

  datatype Buf = Buf(id: nat, data: string)

  datatype Log = Log(
    current: Option<Buf>,        // current_
    next: Option<Buf>,           // next_
    buffers: seq<Buf>,           // buffers_
    newCurrent: Option<Buf>,     // the consumer's two spares
    newNext: Option<Buf>,
    files: seq<string>,          // bytes this log wrote to each file, the open one last
    written: nat,                // written_bytes_ of the open file
    created: nat,                // buffers allocated so far
    consumerCreated: nat,        // history: allocations made by the consumer's loop
    accepted: string)            // history: all messages not dropped, concatenated

  const INIT := Log(Some(Buf(0, "")), Some(Buf(1, "")), [], Some(Buf(2, "")), Some(Buf(3, "")), [""], 0, 4, 0, "")

  function Bytes(bs: seq<Buf>): string {
    if bs == [] then "" else bs[0].data + Bytes(bs[1..])
  }

  lemma {:induction false} BytesConcat(a: seq<Buf>, b: seq<Buf>)
    ensures Bytes(a + b) == Bytes(a) + Bytes(b)
  {
    if a == [] {
      assert a + b == b;
    } else {
      BytesConcat(a[1..], b);
      assert (a + b)[1..] == a[1..] + b;
      Assoc(a[0].data, Bytes(a[1..]), Bytes(b));
    }
  }

  lemma BytesOne(b: Buf)
    ensures Bytes([b]) == b.data
  {
    assert Bytes([b]) == b.data + Bytes([]);
  }

  // ---------------------------------------------------------------- the two kinds of step

  /** The message is stored: it leaves a byte free in the current buffer, or overflows it and
      leaves a byte free in an empty one. */
  predicate Accepts(content: string, msg: string) {
    |msg| < CAP - |content| || CAP - |content| < |msg| < CAP
  }

  function AppendStep(l: Log, msg: string): Log
    requires l.current.Some?
  {
    var b := l.current.value;
    var l := l.(accepted := l.accepted + if Accepts(b.data, msg) then msg else "");
    if CAP - |b.data| >= |msg| then
      l.(current := Some(b.(data := Appended(CAP, b.data, msg))))
    else
      var empty := if l.next.Some? then l.next.value else Buf(l.created, "");
      l.(buffers := l.buffers + [b], next := None,
         created := if l.next.Some? then l.created else l.created + 1,
         current := Some(empty.(data := Appended(CAP, empty.data, msg))))
  }

  /** One spare refilled from the back of the written buffers, or newly allocated. */
  datatype Refill = Refill(spare: Buf, kept: seq<Buf>, made: nat)

  function RefillFrom(spare: Option<Buf>, kept: seq<Buf>, created: nat): Refill {
    if spare.Some? then Refill(spare.value, kept, 0)
    else if kept != [] then Refill(kept[|kept| - 1].(data := ""), kept[..|kept| - 1], 0)
    else Refill(Buf(created, ""), kept, 1)
  }

  function WriteOut(l: Log, bytes: string): Log
    requires l.files != []
  {
    var last := |l.files| - 1;
    var files := l.files[last := l.files[last] + bytes];
    if l.written + |bytes| >= FILE_MAXIMUM_SIZE then l.(files := files + [""], written := 0)
    else l.(files := files, written := l.written + |bytes|)
  }

  /** The full buffers, with the current one behind them. */
  function Active(l: Log): seq<Buf>
    requires l.current.Some?
  {
    l.buffers + [l.current.value]
  }

  function Swapped(l: Log): Log {
    if l.next.Some? then l.(buffers := [], current := l.newCurrent, newCurrent := None)
    else l.(buffers := [], current := l.newCurrent, newCurrent := None, next := l.newNext, newNext := None)
  }

  function Refilled(l: Log, kept: seq<Buf>): Log {
    var r1 := RefillFrom(l.newCurrent, kept, l.created);
    var r2 := RefillFrom(l.newNext, r1.kept, l.created + r1.made);
    l.(newCurrent := Some(r1.spare), newNext := Some(r2.spare),
       created := l.created + r1.made + r2.made,
       consumerCreated := l.consumerCreated + r1.made + r2.made)
  }

  function AtMostTwo(bs: seq<Buf>): seq<Buf> {
    if |bs| > 2 then bs[..2] else bs
  }

  function PassStep(l: Log): Log
    requires l.current.Some? && l.files != []
  {
    Refilled(WriteOut(Swapped(l), Bytes(Active(l))), AtMostTwo(Active(l)))
  }

  // ---------------------------------------------------------------- invariant

  function CountIn(bs: seq<Buf>, id: nat): nat {
    if bs == [] then 0 else (if bs[0].id == id then 1 else 0) + CountIn(bs[1..], id)
  }

  function CountOpt(b: Option<Buf>, id: nat): nat {
    if b.Some? && b.value.id == id then 1 else 0
  }

  /** How many pointers own the buffer of this name. */
  function Owners(l: Log, id: nat): nat {
    CountOpt(l.current, id) + CountOpt(l.next, id) + CountIn(l.buffers, id)
    + CountOpt(l.newCurrent, id) + CountOpt(l.newNext, id)
  }

  ghost predicate Distinct(l: Log) {
    forall id: nat :: Owners(l, id) <= (if id < l.created then 1 else 0)
  }

  predicate SparesOk(l: Log) {
    && l.current.Some?
    && (l.next.Some? ==> l.next.value.data == "")
    && (l.next.None? ==> l.buffers != [])
    && l.newCurrent.Some? && l.newCurrent.value.data == ""
    && l.newNext.Some? && l.newNext.value.data == ""
    && l.consumerCreated == 0
    && |l.current.value.data| < CAP
  }

  predicate FilesOk(l: Log) {
    && l.files != [] && l.written == |l.files[|l.files| - 1]| < FILE_MAXIMUM_SIZE
    && forall i :: 0 <= i < |l.files| - 1 ==> |l.files[i]| >= FILE_MAXIMUM_SIZE
  }

  /** Nothing lost, doubled or reordered: files, then full buffers, then the current one. */
  predicate Conserved(l: Log) {
    l.current.Some? && Flatten(l.files) + Bytes(l.buffers) + l.current.value.data == l.accepted
  }

  ghost predicate Inv(l: Log) {
    SparesOk(l) && FilesOk(l) && Conserved(l) && Distinct(l)
  }

  lemma {:induction false} CountSnoc(bs: seq<Buf>, b: Buf, id: nat)
    ensures CountIn(bs + [b], id) == CountIn(bs, id) + CountOpt(Some(b), id)
  {
    if bs == [] {
      assert bs + [b] == [b] && [b][1..] == [];
    } else {
      CountSnoc(bs[1..], b, id);
      assert (bs + [b])[1..] == bs[1..] + [b];
    }
  }

  lemma AppendConserves(l: Log, msg: string)
    requires SparesOk(l) && FilesOk(l) && Conserved(l)
    ensures SparesOk(AppendStep(l, msg)) && FilesOk(AppendStep(l, msg)) && Conserved(AppendStep(l, msg))
  {
    var b := l.current.value;
    var m := AppendStep(l, msg);
    BytesConcat(l.buffers, [b]);
    BytesOne(b);
    Assoc(Flatten(l.files) + Bytes(l.buffers), b.data, msg);
    Assoc(Flatten(l.files), Bytes(l.buffers), b.data);
  }

  lemma AppendKeepsDistinct(l: Log, msg: string)
    requires SparesOk(l) && Distinct(l)
    ensures Distinct(AppendStep(l, msg))
  {
    var m := AppendStep(l, msg);
    forall id: nat ensures Owners(m, id) <= (if id < m.created then 1 else 0) {
      CountSnoc(l.buffers, l.current.value, id);
      assert Owners(l, id) <= (if id < l.created then 1 else 0);
    }
  }

  lemma AppendKeepsInv(l: Log, msg: string)
    requires Inv(l)
    ensures Inv(AppendStep(l, msg))
  {
    AppendConserves(l, msg);
    AppendKeepsDistinct(l, msg);
  }

  lemma FlattenGrow(front: seq<string>, last: string, bytes: string)
    ensures Flatten(front + [last + bytes]) == Flatten(front + [last]) + bytes
  {
    FlattenConcat(front, [last]);
    FlattenConcat(front, [last + bytes]);
    FlattenOne(last);
    FlattenOne(last + bytes);
    Assoc(Flatten(front), last, bytes);
  }

  lemma FlattenRotated(files: seq<string>)
    ensures Flatten(files + [""]) == Flatten(files)
  {
    FlattenConcat(files, [""]);
    FlattenOne("");
    assert Flatten(files) + "" == Flatten(files);
  }

  lemma WriteOutKeeps(l: Log, bytes: string)
    requires FilesOk(l)
    ensures FilesOk(WriteOut(l, bytes)) && Flatten(WriteOut(l, bytes).files) == Flatten(l.files) + bytes
  {
    var last := |l.files| - 1;
    var front := l.files[..last];
    var files := l.files[last := l.files[last] + bytes];
    assert l.files == front + [l.files[last]] && files == front + [l.files[last] + bytes];
    FlattenGrow(front, l.files[last], bytes);
    FlattenRotated(files);
  }

  /** A pass moves both spares in and refills them from buffers already written, never allocating. */
  lemma PassRecycles(l: Log)
    requires SparesOk(l) && l.files != []
    ensures SparesOk(PassStep(l)) && PassStep(l).created == l.created && PassStep(l).buffers == []
    ensures PassStep(l).current == l.newCurrent && PassStep(l).next.Some?
  {
  }

  lemma CountFront(bs: seq<Buf>, id: nat)
    ensures |bs| == 1 ==> CountIn(bs, id) == CountOpt(Some(bs[0]), id)
    ensures |bs| >= 2 ==> CountOpt(Some(bs[0]), id) + CountOpt(Some(bs[1]), id) <= CountIn(bs, id)
  {
    if |bs| == 1 {
      assert bs[1..] == [];
    } else if |bs| >= 2 {
      assert bs[1..][0] == bs[1];
    }
  }

  /** Which written buffers become the new spares. */
  lemma PassSpares(l: Log)
    requires SparesOk(l) && l.files != []
    ensures var (m, active) := (PassStep(l), Active(l));
            && m.newCurrent == Some((if |active| == 1 then active[0] else active[1]).(data := ""))
            && (l.next.Some? ==> m.next == l.next && m.newNext == l.newNext)
            && (l.next.None? ==> |active| >= 2 && m.next == l.newNext && m.newNext == Some(active[0].(data := "")))
  {
  }

  /** No buffer gains an owner in a pass: those it keeps as spares were owned before. */
  lemma PassReusesBuffers(l: Log, id: nat)
    requires SparesOk(l) && l.files != []
    ensures Owners(PassStep(l), id) <= Owners(l, id)
  {
    PassRecycles(l);
    PassSpares(l);
    var m := PassStep(l);
    var active := Active(l);
    CountSnoc(l.buffers, l.current.value, id);
    CountFront(active, id);
    var kept := CountOpt(m.newCurrent, id) + if l.next.Some? then 0 else CountOpt(m.newNext, id);
    assert kept <= CountIn(active, id);
    assert Owners(m, id) == kept + CountOpt(l.next, id) + CountOpt(l.newCurrent, id) + CountOpt(l.newNext, id);
  }

  /** Everything that was in memory is in the files. */
  lemma PassConserves(l: Log)
    requires SparesOk(l) && FilesOk(l) && Conserved(l)
    ensures FilesOk(PassStep(l)) && Conserved(PassStep(l)) && Flatten(PassStep(l).files) == l.accepted
  {
    var w := WriteOut(Swapped(l), Bytes(Active(l)));
    WriteOutKeeps(Swapped(l), Bytes(Active(l)));
    BytesConcat(l.buffers, [l.current.value]);
    BytesOne(l.current.value);
    Assoc(Flatten(l.files), Bytes(l.buffers), l.current.value.data);
    assert Flatten(w.files) == l.accepted;
    assert l.accepted + "" + "" == l.accepted;
  }

  lemma PassKeepsInv(l: Log)
    requires Inv(l)
    ensures Inv(PassStep(l))
  {
    PassRecycles(l);
    PassConserves(l);
    forall id: nat ensures Owners(PassStep(l), id) <= (if id < l.created then 1 else 0) {
      PassReusesBuffers(l, id);
      assert Owners(l, id) <= (if id < l.created then 1 else 0);
    }
  }

  // ---------------------------------------------------------------- whole runs

  datatype Action = Append(msg: string) | Pass

  function Step(l: Log, a: Action): Log
    requires l.current.Some? && l.files != []
  {
    if a.Append? then AppendStep(l, a.msg) else PassStep(l)
  }

  function RunAll(l: Log, run: seq<Action>): Log
    decreases |run|
  {
    if run == [] || l.current.None? || l.files == [] then l
    else RunAll(Step(l, run[0]), run[1..])
  }

  lemma StepKeepsInv(l: Log, a: Action)
    requires Inv(l)
    ensures Inv(Step(l, a))
  {
    if a.Append? { AppendKeepsInv(l, a.msg); } else { PassKeepsInv(l); }
  }

  lemma {:induction false} RunKeepsInv(l: Log, run: seq<Action>)
    requires Inv(l)
    ensures Inv(RunAll(l, run))
    decreases |run|
  {
    if run != [] {
      StepKeepsInv(l, run[0]);
      RunKeepsInv(Step(l, run[0]), run[1..]);
    }
  }

  lemma InitInv()
    ensures Inv(INIT)
  {
    FlattenOne("");
  }

  /** What was appended and not dropped, by the rule on the space left when each message arrives. */
  ghost function AcceptedOf(l: Log, run: seq<Action>): string
    decreases |run|
  {
    if run == [] || l.current.None? || l.files == [] then ""
    else if run[0].Append? then
      (if Accepts(l.current.value.data, run[0].msg) then run[0].msg else "")
      + AcceptedOf(AppendStep(l, run[0].msg), run[1..])
    else AcceptedOf(PassStep(l), run[1..])
  }

  lemma {:induction false} AcceptedIsHistory(l: Log, run: seq<Action>)
    ensures RunAll(l, run).accepted == l.accepted + AcceptedOf(l, run)
    decreases |run|
  {
    if run == [] || l.current.None? || l.files == [] {
    } else if run[0].Append? {
      var m := AppendStep(l, run[0].msg);
      var kept := if Accepts(l.current.value.data, run[0].msg) then run[0].msg else "";
      AcceptedIsHistory(m, run[1..]);
      Assoc(l.accepted, kept, AcceptedOf(m, run[1..]));
    } else {
      AcceptedIsHistory(PassStep(l), run[1..]);
    }
  }

  /** At any moment, through any appends, passes and rotations, the files hold an exact prefix of
      the accepted messages, and the buffers in order hold exactly the rest. */
  lemma FilesArePrefix(run: seq<Action>)
    ensures var l := RunAll(INIT, run);
            && l.current.Some?
            && Flatten(l.files) + Bytes(l.buffers) + l.current.value.data == AcceptedOf(INIT, run)
            && Flatten(l.files) <= AcceptedOf(INIT, run)
  {
    InitInv();
    RunKeepsInv(INIT, run);
    AcceptedIsHistory(INIT, run);
    var l := RunAll(INIT, run);
    assert l.accepted == AcceptedOf(INIT, run) by { assert "" + AcceptedOf(INIT, run) == AcceptedOf(INIT, run); }
    Assoc(Flatten(l.files), Bytes(l.buffers), l.current.value.data);
  }

  lemma {:induction false} RunSnoc(l: Log, run: seq<Action>)
    requires Inv(l)
    ensures Inv(RunAll(l, run))
    ensures RunAll(l, run + [Pass]) == PassStep(RunAll(l, run))
    decreases |run|
  {
    if run == [] {
      assert run + [Pass] == [Pass] && [Pass][1..] == [];
      assert RunAll(PassStep(l), []) == PassStep(l);
    } else {
      assert (run + [Pass])[1..] == run[1..] + [Pass];
      StepKeepsInv(l, run[0]);
      RunSnoc(Step(l, run[0]), run[1..]);
    }
  }

  predicate FourDistinct(l: Log) {
    && l.buffers == [] && l.current.Some? && l.next.Some? && l.newCurrent.Some? && l.newNext.Some?
    && var (a, b, c, d) := (l.current.value.id, l.next.value.id, l.newCurrent.value.id, l.newNext.value.id);
    a != b && a != c && a != d && b != c && b != d && c != d
  }

  lemma FourBuffers(l: Log)
    requires Inv(l) && l.buffers == [] && l.next.Some?
    ensures FourDistinct(l)
  {
    var (a, b, c, d) := (l.current.value.id, l.next.value.id, l.newCurrent.value.id, l.newNext.value.id);
    assert Owners(l, a) <= 1 && Owners(l, b) <= 1 && Owners(l, c) <= 1 && Owners(l, d) <= 1;
  }

  /** After a pass every accepted byte is in a file, and exactly four buffers exist, all distinct. */
  lemma PassFlushesEverything(run: seq<Action>)
    ensures var l := RunAll(INIT, run + [Pass]);
            && Flatten(l.files) == AcceptedOf(INIT, run)
            && FourDistinct(l) && l.consumerCreated == 0
  {
    InitInv();
    RunSnoc(INIT, run);
    AcceptedIsHistory(INIT, run);
    var l := RunAll(INIT, run);
    assert l.accepted == AcceptedOf(INIT, run) by { assert "" + AcceptedOf(INIT, run) == AcceptedOf(INIT, run); }
    PassRecycles(l);
    PassConserves(l);
    PassKeepsInv(l);
    FourBuffers(PassStep(l));
  }

  /** Every byte the log holds: files, then full buffers, then the current one. */
  function Held(l: Log): string
    requires l.current.Some?
  {
    Flatten(l.files) + Bytes(l.buffers) + l.current.value.data
  }

  /** A message either ends up, whole, behind everything held before, or is dropped and changes nothing
      of it. The dropped ones are those exactly filling the current buffer, because one test is `>=` and
      the other `>`, and those too long for any buffer. */
  lemma DroppedExactly(l: Log, msg: string)
    requires Inv(l)
    ensures AppendStep(l, msg).current.Some?
    ensures Held(AppendStep(l, msg))
         == Held(l) + if |msg| == 4096 - |l.current.value.data| || |msg| >= 4096 then "" else msg
  {
    AppendConserves(l, msg);
    assert Held(l) == l.accepted && Held(AppendStep(l, msg)) == AppendStep(l, msg).accepted;
    assert |l.current.value.data| < CAP;
    assert msg == "" ==> l.accepted + msg == l.accepted;
  }

  /** Two messages of ordinary size: the second would fill the buffer to its last byte, and is lost. */
  lemma ExactFillDropped(a: string, b: string)
    requires |a| == 4000 && |b| == 96
    ensures var l := AppendStep(AppendStep(INIT, a), b);
            l.current.Some? && Held(l) == a
  {
    InitInv();
    FlattenOne("");
    assert Held(INIT) == "";
    DroppedExactly(INIT, a);
    AppendKeepsInv(INIT, a);
    DroppedExactly(AppendStep(INIT, a), b);
    assert "" + a == a && a + "" == a;
  }

  // ---------------------------------------------------------------- the code

  const FLUSH_INTERVAL := 3

  class LogFile {
    var content: string
    var writtenBytes: nat
    var lastWrite: int
    var lastFlush: int
    var flushed: nat  // how much of the content the last flush has pushed out

    constructor ()
      ensures content == "" && writtenBytes == 0 && lastWrite == 0 && lastFlush == 0 && flushed == 0
    {
      content, writtenBytes, lastWrite, lastFlush, flushed := "", 0, 0, 0, 0;
    }

    /** fwrite may take any part of what is left each time round. */
    method Write(data: string, now: int)
      modifies this
      ensures content == old(content) + data && writtenBytes == old(writtenBytes) + |data|
      ensures lastWrite == if data == "" then old(lastWrite) else now
      ensures var due := lastWrite - old(lastFlush) > 3;
              lastFlush == (if due then now else old(lastFlush))
              && flushed == (if due then |content| else old(flushed))
    {
      var pos := 0;
      while pos != |data|
        invariant 0 <= pos <= |data| && content == old(content) + data[..pos]
        invariant writtenBytes == old(writtenBytes) && lastWrite == old(lastWrite)
        invariant lastFlush == old(lastFlush) && flushed == old(flushed)
        decreases |data| - pos
      {
        var n: nat :| 1 <= n <= |data| - pos;
        assert data[..pos] + data[pos..pos + n] == data[..pos + n];
        content := content + data[pos..pos + n];
        pos := pos + n;
      }
      assert data[..pos] == data;
      if |data| != 0 {
        lastWrite := now;
        writtenBytes := writtenBytes + |data|;
      }
      if lastWrite - lastFlush > FLUSH_INTERVAL {
        flushed := |content|;
        lastFlush := now;
      }
    }
  }

  class AsyncLogging {
    var current: Option<Buf>
    var next: Option<Buf>
    var buffers: seq<Buf>
    var newCurrent: Option<Buf>
    var newNext: Option<Buf>
    var closedFiles: seq<string>
    var logfile: LogFile
    var created: nat
    ghost var consumerCreated: nat
    ghost var accepted: string

    ghost function View(): Log
      reads this, logfile
    {
      Log(current, next, buffers, newCurrent, newNext, closedFiles + [logfile.content], logfile.writtenBytes,
          created, consumerCreated, accepted)
    }

    constructor ()
      ensures View() == INIT && Valid() && fresh(logfile)
    {
      current, next, buffers := Some(Buf(0, "")), Some(Buf(1, "")), [];
      newCurrent, newNext := Some(Buf(2, "")), Some(Buf(3, ""));
      logfile := new LogFile();
      closedFiles, created, consumerCreated, accepted := [], 4, 0, "";
      new;
      InitInv();
    }

    ghost predicate Valid()
      reads this, logfile
    {
      SparesOk(View()) && FilesOk(View()) && Conserved(View())
    }

    method Append(data: string)
      requires Valid()
      modifies this
      ensures View() == AppendStep(old(View()), data) && Valid() && logfile == old(logfile)
      ensures var room := 4096 - |old(current).value.data|;
              && accepted == old(accepted) + (if |data| == room || |data| >= 4096 then "" else data)
              && if |data| <= room then
                   && buffers == old(buffers) && next == old(next) && created == old(created)
                   && current == Some(Buf(old(current).value.id,
                                          old(current).value.data + if |data| < room then data else ""))
                 else
                   && buffers == old(buffers) + [old(current).value] && next == None
                   && created == old(created) + (if old(next).Some? then 0 else 1)
                   && current == Some(Buf(if old(next).Some? then old(next).value.id else old(created),
                                          if |data| < 4096 then data else ""))
    {
      AppendConserves(View(), data);
      assert current.value.data + "" == current.value.data && "" + data == data;
      accepted := accepted + if Accepts(current.value.data, data) then data else "";
      if CAP - |current.value.data| >= |data| {
        current := Some(Store(current.value, data));
      } else {
        buffers := buffers + [current.value];
        current := None;
        if next.Some? {
          current, next := next, None;
        } else {
          current, created := Some(Buf(created, "")), created + 1;
        }
        current := Some(Store(current.value, data));
      }
    }

    /** FixedBuffer::Append on the buffer an owner holds. */
    static function Store(b: Buf, data: string): Buf {
      b.(data := Appended(CAP, b.data, data))
    }

    method WriteAll(active: seq<Buf>)
      modifies logfile
      ensures logfile.content == old(logfile.content) + Bytes(active)
      ensures logfile.writtenBytes == old(logfile.writtenBytes) + |Bytes(active)|
    {
      for i := 0 to |active|
        invariant logfile.content == old(logfile.content) + Bytes(active[..i])
        invariant logfile.writtenBytes == old(logfile.writtenBytes) + |Bytes(active[..i])|
      {
        assert active[..i + 1] == active[..i] + [active[i]];
        BytesConcat(active[..i], [active[i]]);
        BytesOne(active[i]);
        var now: int := *;
        logfile.Write(active[i].data, now);
      }
      assert active[..|active|] == active;
    }

    /** The two refills at the end of a pass, with their allocating branches written out. */
    method RefillSpares(active0: seq<Buf>)
      modifies this`newCurrent, this`newNext, this`created, this`consumerCreated
      ensures View() == Refilled(old(View()), active0)
    {
      var active := active0;
      if newCurrent.None? {
        if active != [] {
          newCurrent, active := Some(active[|active| - 1]), active[..|active| - 1];
        } else {
          newCurrent, created, consumerCreated := Some(Buf(created, "")), created + 1, consumerCreated + 1;
        }
        newCurrent := Some(newCurrent.value.(data := ""));
      }
      if newNext.None? {
        if active != [] {
          newNext, active := Some(active[|active| - 1]), active[..|active| - 1];
        } else {
          newNext, created, consumerCreated := Some(Buf(created, "")), created + 1, consumerCreated + 1;
        }
        newNext := Some(newNext.value.(data := ""));
      }
    }

    method WriteAndRotate(active: seq<Buf>)
      requires FilesOk(View())
      modifies this`closedFiles, this`logfile, logfile
      ensures logfile == old(logfile) || fresh(logfile)
      ensures View() == WriteOut(old(View()), Bytes(active))
      ensures if old(logfile.writtenBytes) + |Bytes(active)| >= 1_073_741_824 then
                && closedFiles == old(closedFiles) + [old(logfile.content) + Bytes(active)]
                && fresh(logfile) && logfile.content == "" && logfile.writtenBytes == 0
              else
                && closedFiles == old(closedFiles) && logfile == old(logfile)
                && logfile.content == old(logfile.content) + Bytes(active)
                && logfile.writtenBytes == old(logfile.writtenBytes) + |Bytes(active)|
    {
      ghost var l := View();
      WriteAll(active);
      assert l.files[|l.files| - 1 := l.files[|l.files| - 1] + Bytes(active)] == closedFiles + [logfile.content];
      if logfile.writtenBytes >= FILE_MAXIMUM_SIZE {
        closedFiles := closedFiles + [logfile.content];
        logfile := new LogFile();
      }
    }

    method SwapOut() returns (active: seq<Buf>)
      requires current.Some?
      modifies this`buffers, this`current, this`next, this`newCurrent, this`newNext
      ensures active == old(buffers) + [old(current).value] && View() == Swapped(old(View()))
      ensures buffers == [] && current == old(newCurrent) && newCurrent == None
      ensures if old(next).Some? then next == old(next) && newNext == old(newNext)
              else next == old(newNext) && newNext == None
    {
      active := buffers + [current.value];
      buffers := [];
      current, newCurrent := newCurrent, None;
      if next.None? {
        next, newNext := newNext, None;
      }
    }

    /** One pass of the consumer's loop, from the moment it has the lock and stops waiting. */
    method Pass()
      requires Valid()
      modifies this, logfile
      ensures logfile == old(logfile) || fresh(logfile)
      ensures View() == PassStep(old(View())) && Valid()
      ensures Flatten(View().files) == accepted == old(accepted) && consumerCreated == 0
    {
      ghost var l := View();
      var active := SwapOut();
      WriteAndRotate(active);
      RefillSpares(if |active| > 2 then active[..2] else active);
      assert View() == PassStep(l);
      PassRecycles(l);
      PassConserves(l);
    }
  }
}
