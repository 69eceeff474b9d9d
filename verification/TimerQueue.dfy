/**
 The timer queue as a step system: an ordered index whose keys repeat a field of the timers, one kernel
 timer that must follow the index's minimum, and callbacks or other threads that add timers in between.
 Times are microseconds on one clock that does not run backwards.
 */
module TimerQueues {
  import opened Utils

  // ---------------------------------------------------------------- the ordered index

  /** std::set<pair<TimeStamp, Timer *>>: `id` is the timer's address. */
  datatype Entry = Entry(at: int, id: nat)

  predicate Less(a: Entry, b: Entry) {
    a.at < b.at || (a.at == b.at && a.id < b.id)
  }

  ghost predicate Sorted(ts: seq<Entry>) {
    forall i, j :: 0 <= i < j < |ts| ==> Less(ts[i], ts[j])
  }

  function Inserted(ts: seq<Entry>, e: Entry): seq<Entry> {
    if ts == [] || Less(e, ts[0]) then [e] + ts else [ts[0]] + Inserted(ts[1..], e)
  }

  lemma {:induction false} InsertMembers(ts: seq<Entry>, e: Entry)
    ensures forall x :: x in Inserted(ts, e) <==> x in ts || x == e
  {
    if ts != [] && !Less(e, ts[0]) {
      InsertMembers(ts[1..], e);
      assert forall x :: x in ts <==> x == ts[0] || x in ts[1..];
    }
  }

  lemma {:induction false} InsertSorted(ts: seq<Entry>, e: Entry)
    requires Sorted(ts) && e !in ts
    ensures Sorted(Inserted(ts, e))
    ensures Inserted(ts, e)[0] == if ts == [] || Less(e, ts[0]) then e else ts[0]
  {
    if ts != [] && !Less(e, ts[0]) {
      var rest := ts[1..];
      InsertSorted(rest, e);
      InsertMembers(rest, e);
      assert forall x :: x in rest ==> Less(ts[0], x);
    }
  }

  /** How many entries lie before (now, greatest address): the expired ones. */
  function Expired(ts: seq<Entry>, now: int): (n: nat)
    ensures n <= |ts|
  {
    if ts != [] && ts[0].at <= now then 1 + Expired(ts[1..], now) else 0
  }

  /** The expired batch is exactly the entries due by now. */
  lemma {:induction false} ExpiredExactly(ts: seq<Entry>, now: int)
    requires Sorted(ts)
    ensures forall i :: 0 <= i < |ts| ==> (ts[i].at <= now <==> i < Expired(ts, now))
  {
    if ts != [] && ts[0].at <= now {
      ExpiredExactly(ts[1..], now);
      assert forall i :: 0 < i < |ts| ==> ts[i] == ts[1..][i - 1];
    }
  }

  // ---------------------------------------------------------------- the state and its steps

  /** `serial` numbers the timers in the order of their creation; addresses are used again, serials not. */
  datatype Timer = Timer(expiration: int, interval: int, repeats: bool, serial: nat)

  datatype Fd = Disarmed | Armed(deadline: int)

  datatype Phase = Idle | FdRead | Running(batch: seq<Entry>, done: nat) | Resetting(batch: seq<Entry>, done: nat)

  datatype Ran = Ran(serial: nat, time: int, due: int, interval: int, repeats: bool)

  datatype Queue = Queue(
    timers: seq<Entry>, live: map<nat, Timer>, fd: Fd, phase: Phase,
    clock: int, armedAt: int, ran: seq<Ran>, freed: seq<nat>, serials: nat)

  datatype Act = Add(at: int, interval: int, repeats: bool, id: nat) | ReadFd | Collect | RunNext | ResetOne | Rearm

  function Deadline(expiration: int, now: int): int {
    now + Clamp(expiration - now)
  }

  function Clamp(diff: int): int {
    if diff < 100 then 100 else diff
  }

  predicate Enabled(q: Queue, a: Act, now: int) {
    && q.clock <= now
    && match a
       case Add(_, interval, repeats, id) => id !in q.live && (if repeats then interval >= 0 else interval <= 0)
       case ReadFd => q.phase == Idle
       case Collect => q.phase == FdRead
       case RunNext => q.phase.Running? && q.phase.done < |q.phase.batch| && q.phase.batch[q.phase.done].id in q.live
       case ResetOne => q.phase.Resetting? && q.phase.done < |q.phase.batch| && q.phase.batch[q.phase.done].id in q.live
       case Rearm =>
         q.phase.Resetting? && q.phase.done == |q.phase.batch| && (q.timers != [] ==> q.timers[0].id in q.live)
  }

  function Arm(q: Queue, expiration: int, now: int): Queue {
    q.(fd := Armed(Deadline(expiration, now)), armedAt := now)
  }

  function After(q0: Queue, a: Act, now: int): Queue
    requires Enabled(q0, a, now)
  {
    var q := q0.(clock := now);
    match a
    case Add(at, interval, repeats, id) =>
      var added := q.(timers := Inserted(q.timers, Entry(at, id)),
                      live := q.live[id := Timer(at, interval, repeats, q.serials)], serials := q.serials + 1);
      if q.timers == [] || at < q.timers[0].at then Arm(added, at, now) else added
    case ReadFd =>
      q.(phase := FdRead, fd := if q.fd.Armed? && q.fd.deadline <= now then Disarmed else q.fd)
    case Collect =>
      var n := Expired(q.timers, now);
      q.(phase := if n == 0 then Resetting([], 0) else Running(q.timers[..n], 0), timers := q.timers[n..])
    case RunNext =>
      var Running(batch, done) := q.phase;
      var t := q.live[batch[done].id];
      q.(ran := q.ran + [Ran(t.serial, now, t.expiration, t.interval, t.repeats)],
         phase := if done + 1 == |batch| then Resetting(batch, 0) else Running(batch, done + 1))
    case ResetOne =>
      var Resetting(batch, done) := q.phase;
      var id := batch[done].id;
      var t := q.live[id];
      var next := q.(phase := Resetting(batch, done + 1));
      if t.repeats then
        next.(live := q.live[id := t.(expiration := now + t.interval)],
              timers := Inserted(q.timers, Entry(now + t.interval, id)))
      else next.(live := q.live - {id}, freed := q.freed + [t.serial])
    case Rearm =>
      var idle := q.(phase := Idle);
      if q.timers == [] then idle else Arm(idle, q.live[q.timers[0].id].expiration, now)
  }

  // ---------------------------------------------------------------- invariants

  /** Entries that have been taken out of the index and not yet been put back or freed. */
  function Pending(q: Queue): seq<Entry> {
    match q.phase
    case Idle => []
    case FdRead => []
    case Running(batch, done) => batch
    case Resetting(batch, done) => if done <= |batch| then batch[done..] else []
  }

  /** The part of the batch whose callbacks are still to run. */
  function Unrun(q: Queue): seq<Entry> {
    if q.phase.Running? && q.phase.done <= |q.phase.batch| then q.phase.batch[q.phase.done..] else []
  }

  predicate InBounds(q: Queue) {
    && (q.phase.Running? ==> q.phase.done < |q.phase.batch|)
    && (q.phase.Resetting? ==> q.phase.done <= |q.phase.batch|)
  }

  /** Each entry's key is its timer's expiration. */
  ghost predicate Agree(es: seq<Entry>, live: map<nat, Timer>) {
    forall e :: e in es ==> e.id in live && live[e.id].expiration == e.at
  }

  /** The live timers are divided between the index and the batch, no timer occurs twice. */
  ghost predicate Divided(timers: seq<Entry>, pending: seq<Entry>, live: map<nat, Timer>) {
    && Sorted(timers) && Sorted(pending) && Agree(timers, live) && Agree(pending, live)
    && (forall p :: p in pending ==> forall e :: e in timers ==> e.id != p.id)
    && (forall id :: id in live ==>
          Entry(live[id].expiration, id) in timers || Entry(live[id].expiration, id) in pending)
  }

  ghost predicate Owned(q: Queue) {
    InBounds(q) && Divided(q.timers, Pending(q), q.live)
  }

  /** Outside HandleRead the kernel timer is set for the first entry, never less than 100 ahead. */
  predicate FdFollows(q: Queue) {
    && q.armedAt <= q.clock
    && (q.phase == Idle && q.timers != [] ==> q.fd == Armed(Deadline(q.timers[0].at, q.armedAt)))
  }

  predicate Tells(r: Ran, t: Timer) {
    r.serial == t.serial ==> r.interval == t.interval && r.repeats == t.repeats
  }

  /** Every serial number belongs to one live timer or to one freed one. */
  ghost predicate Serials(q: Queue) {
    && (forall id :: id in q.live ==> q.live[id].serial < q.serials && q.live[id].serial !in q.freed)
    && (forall a, b :: a in q.live && b in q.live && q.live[a].serial == q.live[b].serial ==> a == b)
    && NoDup(q.freed)
    && (forall n: nat :: n < q.serials ==> n in q.freed || HasSerial(q.live, n))
  }

  ghost predicate HasSerial(live: map<nat, Timer>, n: nat) {
    exists id :: id in live && live[id].serial == n
  }

  ghost predicate HasRun(ran: seq<Ran>, n: nat) {
    exists i :: 0 <= i < |ran| && ran[i].serial == n
  }

  /** Two runs of one timer: it repeats, and the second was due an interval after the first, or later. */
  ghost predicate Spaced(ran: seq<Ran>) {
    forall i, j :: 0 <= i < j < |ran| && ran[i].serial == ran[j].serial ==>
      ran[i].repeats && ran[i].time + ran[i].interval <= ran[j].due
  }

  /** No run is early. */
  ghost predicate NeverEarly(q: Queue) {
    forall i :: 0 <= i < |q.ran| ==> q.ran[i].due <= q.ran[i].time <= q.clock && q.ran[i].serial < q.serials
  }

  /** A waiting timer that has run before repeats, and is due an interval after each of its runs, or later. */
  ghost predicate WaitingSpaced(ran: seq<Ran>, live: map<nat, Timer>, es: seq<Entry>) {
    forall e, i :: e in es && e.id in live && 0 <= i < |ran| && ran[i].serial == live[e.id].serial ==>
      ran[i].repeats && ran[i].time + ran[i].interval <= e.at
  }

  /** What the runs say of interval and repetition is what the live timers say. */
  ghost predicate Told(ran: seq<Ran>, live: map<nat, Timer>) {
    forall id, i :: id in live && 0 <= i < |ran| ==> Tells(ran[i], live[id])
  }

  ghost predicate PendingHaveRun(ran: seq<Ran>, live: map<nat, Timer>, pending: seq<Entry>, unrun: seq<Entry>) {
    forall p :: p in pending && p !in unrun && p.id in live ==> HasRun(ran, live[p.id].serial)
  }

  ghost predicate History(q: Queue) {
    && Spaced(q.ran) && NeverEarly(q)
    && Told(q.ran, q.live)
    && WaitingSpaced(q.ran, q.live, q.timers) && WaitingSpaced(q.ran, q.live, Unrun(q))
    && (forall p :: p in Pending(q) ==> p.at <= q.clock)
    && PendingHaveRun(q.ran, q.live, Pending(q), Unrun(q))
    && FreedHaveRun(q.ran, q.freed)
  }

  /** A freed timer has run, and was no repeating one. */
  ghost predicate FreedHaveRun(ran: seq<Ran>, freed: seq<nat>) {
    forall n :: n in freed ==> HasRun(ran, n) && forall i :: 0 <= i < |ran| && ran[i].serial == n ==> !ran[i].repeats
  }

  ghost predicate Inv(q: Queue) {
    Owned(q) && FdFollows(q) && Serials(q) && History(q)
  }

  // ---------------------------------------------------------------- adding a timer

  lemma SortedIds(es: seq<Entry>, live: map<nat, Timer>)
    requires Sorted(es) && Agree(es, live)
    ensures forall i, j :: 0 <= i < j < |es| ==> es[i].id != es[j].id
  {
    forall i, j | 0 <= i < j < |es| ensures es[i].id != es[j].id {
      assert es[i] in es && es[j] in es && Less(es[i], es[j]);
    }
  }

  lemma InsertDivided(timers: seq<Entry>, pending: seq<Entry>, live: map<nat, Timer>, e: Entry, t: Timer)
    requires Divided(timers, pending, live) && e.id !in live && t.expiration == e.at
    ensures Divided(Inserted(timers, e), pending, live[e.id := t])
  {
    hide Sorted, Inserted;
    assert e !in timers;
    InsertMembers(timers, e);
    InsertSorted(timers, e);
  }

  lemma SplitDivided(timers: seq<Entry>, live: map<nat, Timer>, n: nat)
    requires Divided(timers, [], live) && n <= |timers|
    ensures Divided(timers[n..], timers[..n], live)
  {
    SortedIds(timers, live);
    assert timers == timers[..n] + timers[n..];
    SliceSorted(timers, n);
    hide Sorted;
  }

  lemma SliceSorted(es: seq<Entry>, n: nat)
    requires Sorted(es) && n <= |es|
    ensures Sorted(es[n..]) && Sorted(es[..n])
  {
  }

  lemma DropDivided(timers: seq<Entry>, pending: seq<Entry>, live: map<nat, Timer>)
    requires Divided(timers, pending, live) && pending != []
    ensures Divided(timers, pending[1..], live - {pending[0].id})
  {
    SortedIds(pending, live);
    SliceSorted(pending, 1);
    hide Sorted;
    assert forall x :: x in pending <==> x == pending[0] || x in pending[1..];
    assert forall x :: x in pending[1..] ==> x.id != pending[0].id;
  }

  lemma AddOwned(q: Queue, a: Act, now: int)
    requires Inv(q) && a.Add? && Enabled(q, a, now)
    ensures Owned(After(q, a, now))
  {
    hide Divided, Serials, History, FdFollows;
    InsertDivided(q.timers, Pending(q), q.live, Entry(a.at, a.id), Timer(a.at, a.interval, a.repeats, q.serials));
  }

  lemma AddArmed(q: Queue, a: Act, now: int)
    requires Inv(q) && a.Add? && Enabled(q, a, now)
    ensures FdFollows(After(q, a, now))
  {
    assert Entry(a.at, a.id) !in q.timers;
    InsertSorted(q.timers, Entry(a.at, a.id));
  }

  lemma AddSerials(q: Queue, a: Act, now: int)
    requires Inv(q) && a.Add? && Enabled(q, a, now)
    ensures Serials(After(q, a, now))
  {
    hide Owned, FdFollows, Inserted;
    var r := After(q, a, now);
    forall n: nat | n < r.serials && n !in r.freed ensures HasSerial(r.live, n) {
      if n == q.serials {
        assert r.live[a.id].serial == n;
      } else {
        var id :| id in q.live && q.live[id].serial == n;
        assert r.live[id].serial == n;
      }
    }
    forall n | n in q.freed ensures n < q.serials {
      assert HasRun(q.ran, n);
    }
  }

  /** A timer numbered like no run waits without constraint. */
  lemma NewTimerHistory(ran: seq<Ran>, live: map<nat, Timer>, timers: seq<Entry>, e: Entry, t: Timer)
    requires e.id !in live && Told(ran, live) && WaitingSpaced(ran, live, timers)
    requires forall x :: x in timers ==> x.id != e.id
    requires forall i :: 0 <= i < |ran| ==> ran[i].serial != t.serial
    ensures Told(ran, live[e.id := t]) && WaitingSpaced(ran, live[e.id := t], Inserted(timers, e))
  {
    hide Inserted;
    InsertMembers(timers, e);
  }

  /** The rest of the batch does not notice an added timer. */
  lemma OthersKeepHistory(ran: seq<Ran>, live: map<nat, Timer>, pending: seq<Entry>, unrun: seq<Entry>, id: nat, t: Timer)
    requires forall p :: p in pending ==> p.id != id
    requires forall p :: p in unrun ==> p in pending
    requires WaitingSpaced(ran, live, unrun) && PendingHaveRun(ran, live, pending, unrun)
    ensures WaitingSpaced(ran, live[id := t], unrun) && PendingHaveRun(ran, live[id := t], pending, unrun)
  {
    hide HasRun;
  }

  lemma UnrunIsPending(q: Queue)
    requires InBounds(q)
    ensures forall p :: p in Unrun(q) ==> p in Pending(q)
  {
  }

  lemma AddHistory(q: Queue, a: Act, now: int)
    requires Inv(q) && a.Add? && Enabled(q, a, now)
    ensures History(After(q, a, now))
  {
    hide FdFollows, Inserted, Told, WaitingSpaced, PendingHaveRun, HasRun, Spaced;
    var t := Timer(a.at, a.interval, a.repeats, q.serials);
    UnrunIsPending(q);
    NewTimerHistory(q.ran, q.live, q.timers, Entry(a.at, a.id), t);
    OthersKeepHistory(q.ran, q.live, Pending(q), Unrun(q), a.id, t);
  }

  // ---------------------------------------------------------------- taking the expired timers out

  lemma CollectOwned(q: Queue, now: int)
    requires Inv(q) && Enabled(q, Collect, now)
    ensures Owned(After(q, Collect, now))
  {
    hide History, Serials, FdFollows, Divided;
    var n := Expired(q.timers, now);
    SplitDivided(q.timers, q.live, n);
    assert q.timers[..n][0..] == q.timers[..n];
    assert n == 0 ==> q.timers[..n] == [] && q.timers[n..] == q.timers;
  }

  lemma SubsetSpaced(ran: seq<Ran>, live: map<nat, Timer>, es: seq<Entry>, part: seq<Entry>)
    requires WaitingSpaced(ran, live, es) && forall e :: e in part ==> e in es
    ensures WaitingSpaced(ran, live, part)
  {
  }

  lemma CollectHistory(q: Queue, now: int)
    requires Inv(q) && Enabled(q, Collect, now)
    ensures History(After(q, Collect, now))
  {
    hide Serials, FdFollows, Told, WaitingSpaced, HasRun, Spaced, Divided;
    var n := Expired(q.timers, now);
    CollectedDue(q, now);
    assert q.timers[..n][0..] == q.timers[..n];
    SubsetSpaced(q.ran, q.live, q.timers, q.timers[..n]);
    SubsetSpaced(q.ran, q.live, q.timers, q.timers[n..]);
    SubsetSpaced(q.ran, q.live, q.timers, []);
  }

  lemma CollectedDue(q: Queue, now: int)
    requires Inv(q)
    ensures forall e :: e in q.timers[..Expired(q.timers, now)] ==> e.at <= now
  {
    hide Serials, FdFollows, History, Agree;
    ExpiredExactly(q.timers, now);
  }

  // ---------------------------------------------------------------- running a callback

  lemma RunOwned(q: Queue, now: int)
    requires Inv(q) && Enabled(q, RunNext, now)
    ensures Owned(After(q, RunNext, now)) && FdFollows(After(q, RunNext, now)) && Serials(After(q, RunNext, now))
    ensures Pending(After(q, RunNext, now)) == Pending(q)
  {
    var r := After(q, RunNext, now);
    assert r.phase.batch[0..] == r.phase.batch;
  }

  lemma RunPending(q: Queue, now: int)
    requires Inv(q) && Enabled(q, RunNext, now)
    ensures var r := After(q, RunNext, now); PendingHaveRun(r.ran, r.live, Pending(r), Unrun(r))
  {
    hide Told, WaitingSpaced, Spaced, NeverEarly, FreedHaveRun, Divided, Serials, FdFollows;
    var r := After(q, RunNext, now);
    var e := q.phase.batch[q.phase.done];
    RunOwned(q, now);
    SerialsStillRun(q.ran, r.ran);
    assert r.ran[|q.ran|].serial == q.live[e.id].serial;
    assert HasRun(r.ran, q.live[e.id].serial);
    hide HasRun;
    assert q.phase.batch[q.phase.done..] == [e] + q.phase.batch[q.phase.done + 1..];
    assert forall p :: p in Unrun(q) ==> p == e || p in Unrun(r);
  }

  lemma RunFreed(q: Queue, now: int)
    requires Inv(q) && Enabled(q, RunNext, now)
    ensures FreedHaveRun(After(q, RunNext, now).ran, q.freed)
  {
    hide Told, WaitingSpaced, Spaced, NeverEarly, PendingHaveRun, Divided, FdFollows;
    SerialsStillRun(q.ran, After(q, RunNext, now).ran);
    hide HasRun;
  }

  lemma RunHistory(q: Queue, now: int)
    requires Inv(q) && Enabled(q, RunNext, now)
    ensures History(After(q, RunNext, now))
  {
    hide Told, WaitingSpaced, Spaced, PendingHaveRun, FreedHaveRun, Divided, Serials, FdFollows;
    RunOwned(q, now);
    RunSpaced(q, now);
    RunWaiting(q, now);
    RunPending(q, now);
    RunFreed(q, now);
  }

  lemma SerialsStillRun(before: seq<Ran>, now: seq<Ran>)
    requires before <= now
    ensures forall n :: HasRun(before, n) ==> HasRun(now, n)
  {
    forall n | HasRun(before, n) ensures HasRun(now, n) {
      var i :| 0 <= i < |before| && before[i].serial == n;
      assert now[i].serial == n;
    }
  }

  lemma RunSpaced(q: Queue, now: int)
    requires Inv(q) && Enabled(q, RunNext, now)
    ensures Spaced(After(q, RunNext, now).ran) && NeverEarly(After(q, RunNext, now))
  {
    var e := q.phase.batch[q.phase.done];
    assert e in Unrun(q) by {
      assert Unrun(q)[0] == e;
    }
    assert e in Pending(q);
  }

  lemma RunWaiting(q: Queue, now: int)
    requires Inv(q) && Enabled(q, RunNext, now)
    ensures WaitingSpaced(After(q, RunNext, now).ran, q.live, q.timers)
    ensures WaitingSpaced(After(q, RunNext, now).ran, q.live, Unrun(After(q, RunNext, now)))
    ensures Told(After(q, RunNext, now).ran, q.live)
  {
    hide FdFollows, Told, WaitingSpaced, HasRun, Spaced, Sorted;
    var r := After(q, RunNext, now);
    var e := q.phase.batch[q.phase.done];
    SortedIds(q.phase.batch, q.live);
    assert e in Pending(q);
    RunRest(q.phase.batch, q.phase.done);
    OneMoreRun(q.ran, r.ran[|q.ran|], q.live, q.timers);
    SubsetSpaced(q.ran, q.live, Unrun(q), Unrun(q)[1..]);
    OneMoreRun(q.ran, r.ran[|q.ran|], q.live, Unrun(q)[1..]);
    SubsetSpaced(r.ran, q.live, Unrun(q)[1..], Unrun(r));
  }

  lemma RunRest(batch: seq<Entry>, done: nat)
    requires done < |batch| && forall i, j :: 0 <= i < j < |batch| ==> batch[i].id != batch[j].id
    ensures batch[done..][1..] == batch[done + 1..]
    ensures forall x :: x in batch[done + 1..] ==> x in batch[done..] && x in batch && x.id != batch[done].id
  {
  }

  lemma OneMoreRun(ran: seq<Ran>, r: Ran, live: map<nat, Timer>, es: seq<Entry>)
    requires WaitingSpaced(ran, live, es) && Told(ran, live)
    requires forall e :: e in es && e.id in live ==> live[e.id].serial != r.serial
    requires forall id :: id in live ==> Tells(r, live[id])
    ensures WaitingSpaced(ran + [r], live, es) && Told(ran + [r], live)
  {
  }

  // ---------------------------------------------------------------- putting a timer back or freeing it

  lemma ResetOwned(q: Queue, now: int)
    requires Inv(q) && Enabled(q, ResetOne, now)
    ensures Owned(After(q, ResetOne, now))
  {
    hide Serials, History, FdFollows, Divided;
    var r := After(q, ResetOne, now);
    var p := q.phase.batch[q.phase.done];
    assert Pending(q)[0] == p && Pending(q)[1..] == Pending(r);
    DropDivided(q.timers, Pending(q), q.live);
    if q.live[p.id].repeats {
      var t := q.live[p.id].(expiration := now + q.live[p.id].interval);
      InsertDivided(q.timers, Pending(r), q.live - {p.id}, Entry(t.expiration, p.id), t);
      assert (q.live - {p.id})[p.id := t] == q.live[p.id := t];
    }
  }

  lemma SameSerials(live: map<nat, Timer>, id: nat, t: Timer)
    requires id in live && t.serial == live[id].serial
    ensures forall n :: HasSerial(live, n) ==> HasSerial(live[id := t], n)
  {
    forall n | HasSerial(live, n) ensures HasSerial(live[id := t], n) {
      var k :| k in live && live[k].serial == n;
      assert live[id := t][k].serial == n;
    }
  }

  lemma OneSerialLess(live: map<nat, Timer>, id: nat)
    requires id in live
    ensures forall n :: HasSerial(live, n) ==> n == live[id].serial || HasSerial(live - {id}, n)
  {
    forall n | HasSerial(live, n) && n != live[id].serial ensures HasSerial(live - {id}, n) {
      var k :| k in live && live[k].serial == n;
      assert (live - {id})[k].serial == n;
    }
  }

  lemma ResetSerials(q: Queue, now: int)
    requires Inv(q) && Enabled(q, ResetOne, now)
    ensures Serials(After(q, ResetOne, now)) && FdFollows(After(q, ResetOne, now))
  {
    hide Owned, History, Inserted, HasSerial;
    var id := q.phase.batch[q.phase.done].id;
    var t := q.live[id];
    SameSerials(q.live, id, t.(expiration := now + t.interval));
    OneSerialLess(q.live, id);
  }

  /** A repeating timer put back is due an interval after each of its runs, or later. */
  lemma PutBackHistory(ran: seq<Ran>, live: map<nat, Timer>, timers: seq<Entry>, id: nat, now: int)
    requires id in live && live[id].repeats && Told(ran, live) && WaitingSpaced(ran, live, timers)
    requires forall x :: x in timers ==> x.id != id
    requires forall i :: 0 <= i < |ran| ==> ran[i].time <= now
    ensures var t := live[id].(expiration := now + live[id].interval);
            Told(ran, live[id := t]) && WaitingSpaced(ran, live[id := t], Inserted(timers, Entry(t.expiration, id)))
  {
    hide Inserted;
    InsertMembers(timers, Entry(now + live[id].interval, id));
    assert forall i :: 0 <= i < |ran| ==> Tells(ran[i], live[id]);
  }

  lemma FewerLive(ran: seq<Ran>, live: map<nat, Timer>, es: seq<Entry>, id: nat)
    requires Told(ran, live) && WaitingSpaced(ran, live, es)
    ensures Told(ran, live - {id}) && WaitingSpaced(ran, live - {id}, es)
  {
  }

  lemma FreedIsOneShot(ran: seq<Ran>, live: map<nat, Timer>, id: nat)
    requires Told(ran, live) && id in live && !live[id].repeats
    ensures forall i :: 0 <= i < |ran| && ran[i].serial == live[id].serial ==> !ran[i].repeats
  {
    assert forall i :: 0 <= i < |ran| ==> Tells(ran[i], live[id]);
  }

  lemma ResetPending(q: Queue, now: int)
    requires Inv(q) && Enabled(q, ResetOne, now)
    ensures var (r, p) := (After(q, ResetOne, now), q.phase.batch[q.phase.done]);
            && Unrun(r) == [] && Unrun(q) == [] && p in Pending(q)
            && (forall x :: x in Pending(r) ==> x in Pending(q) && x.id != p.id)
  {
    hide Serials, History, FdFollows, Inserted;
    var r := After(q, ResetOne, now);
    SortedIds(Pending(q), q.live);
    assert Pending(q)[0] == q.phase.batch[q.phase.done] && Pending(q)[1..] == Pending(r);
  }

  lemma ResetHistory(q: Queue, now: int)
    requires Inv(q) && Enabled(q, ResetOne, now)
    ensures History(After(q, ResetOne, now))
  {
    hide FdFollows, Inserted, Told, WaitingSpaced, HasRun, Spaced, Serials, Sorted;
    var p := q.phase.batch[q.phase.done];
    ResetPending(q, now);
    SubsetSpaced(q.ran, q.live, q.timers, []);
    if q.live[p.id].repeats {
      var t := q.live[p.id].(expiration := now + q.live[p.id].interval);
      PutBackHistory(q.ran, q.live, q.timers, p.id, now);
      SubsetSpaced(q.ran, q.live[p.id := t], Inserted(q.timers, Entry(t.expiration, p.id)), []);
    } else {
      FreedIsOneShot(q.ran, q.live, p.id);
      FewerLive(q.ran, q.live, q.timers, p.id);
      FewerLive(q.ran, q.live, [], p.id);
    }
  }

  // ---------------------------------------------------------------- every step, every run

  lemma QuietSteps(q: Queue, a: Act, now: int)
    requires Inv(q) && Enabled(q, a, now) && (a.ReadFd? || a.Rearm?)
    ensures Inv(After(q, a, now))
  {
    var r := After(q, a, now);
    assert Pending(q) == Pending(r) == Unrun(r);
  }

  lemma StepKeepsInv(q: Queue, a: Act, now: int)
    requires Inv(q) && Enabled(q, a, now)
    ensures Inv(After(q, a, now))
  {
    hide Owned, Serials, History;
    match a
    case Add(_, _, _, _) =>
      AddOwned(q, a, now);
      AddArmed(q, a, now);
      AddSerials(q, a, now);
      AddHistory(q, a, now);
    case ReadFd => QuietSteps(q, a, now);
    case Collect =>
      CollectOwned(q, now);
      CollectSerials(q, now);
      CollectHistory(q, now);
    case RunNext =>
      RunOwned(q, now);
      RunHistory(q, now);
    case ResetOne =>
      ResetOwned(q, now);
      ResetSerials(q, now);
      ResetHistory(q, now);
    case Rearm => QuietSteps(q, a, now);
  }

  lemma CollectSerials(q: Queue, now: int)
    requires Inv(q) && Enabled(q, Collect, now)
    ensures Serials(After(q, Collect, now)) && FdFollows(After(q, Collect, now))
  {
  }

  // ---------------------------------------------------------------- what holds over every run

  datatype Timed = Timed(act: Act, now: int)

  function Init(start: int): Queue {
    Queue([], map[], Disarmed, Idle, start, start, [], [], 0)
  }

  predicate ValidRun(q: Queue, run: seq<Timed>)
    decreases |run|
  {
    run != [] ==> Enabled(q, run[0].act, run[0].now) && ValidRun(After(q, run[0].act, run[0].now), run[1..])
  }

  function RunAll(q: Queue, run: seq<Timed>): Queue
    requires ValidRun(q, run)
    decreases |run|
  {
    if run == [] then q else RunAll(After(q, run[0].act, run[0].now), run[1..])
  }

  lemma {:induction false} RunKeepsInv(q: Queue, run: seq<Timed>)
    requires Inv(q) && ValidRun(q, run)
    ensures Inv(RunAll(q, run))
    decreases |run|
  {
    hide Inv;
    if run != [] {
      StepKeepsInv(q, run[0].act, run[0].now);
      RunKeepsInv(After(q, run[0].act, run[0].now), run[1..]);
    }
  }

  lemma Reached(start: int, run: seq<Timed>)
    requires ValidRun(Init(start), run)
    ensures Inv(RunAll(Init(start), run))
  {
    assert Inv(Init(start));
    RunKeepsInv(Init(start), run);
  }

  /** No timer is forgotten: outside HandleRead, once the first timer is due (and the 100 microseconds
      granted at the last arming have passed), the kernel timer is readable. */
  lemma NoTimerForgotten(start: int, run: seq<Timed>, now: int)
    requires ValidRun(Init(start), run)
    requires var q := RunAll(Init(start), run);
             q.phase == Idle && q.timers != [] && q.timers[0].at <= now && q.armedAt + 100 <= now
    ensures var q := RunAll(Init(start), run); q.fd.Armed? && q.fd.deadline <= now
  {
    Reached(start, run);
  }

  /** Nor is one attended to too early: outside HandleRead the kernel timer is set for exactly the first
      timer's time, or 100 microseconds after the last arming where that is later. */
  lemma ArmedForFirst(start: int, run: seq<Timed>)
    requires ValidRun(Init(start), run)
    requires RunAll(Init(start), run).phase == Idle && RunAll(Init(start), run).timers != []
    ensures var q := RunAll(Init(start), run);
            && q.armedAt <= q.clock
            && q.fd == Armed(if q.timers[0].at >= q.armedAt + 100 then q.timers[0].at else q.armedAt + 100)
  {
    Reached(start, run);
  }

  /** No timer runs early; one that runs twice repeats, and its runs are an interval apart or more. */
  lemma RunsApart(start: int, run: seq<Timed>)
    requires ValidRun(Init(start), run)
    ensures var ran := RunAll(Init(start), run).ran;
            && (forall i :: 0 <= i < |ran| ==> ran[i].due <= ran[i].time)
            && (forall i, j :: 0 <= i < j < |ran| && ran[i].serial == ran[j].serial ==>
                  ran[i].repeats && ran[i].time + ran[i].interval <= ran[j].time)
  {
    Reached(start, run);
  }

  /** Outside HandleRead every timer ever added is either waiting, once, under the key it expires at,
      or has been freed, once, after exactly one run. */
  lemma EveryTimerAccounted(start: int, run: seq<Timed>, n: nat)
    requires ValidRun(Init(start), run)
    requires RunAll(Init(start), run).phase == Idle && n < RunAll(Init(start), run).serials
    ensures var q := RunAll(Init(start), run);
            if n in q.freed then !HasSerial(q.live, n) && NoDup(q.freed) && RanOnce(q.ran, n)
            else exists e :: (e in q.timers && e.id in q.live && q.live[e.id].serial == n && q.live[e.id].expiration == e.at
                              && forall x :: x in q.timers && x.id in q.live && q.live[x.id].serial == n ==> x == e)
  {
    Reached(start, run);
    var q := RunAll(Init(start), run);
    if n in q.freed {
      assert HasRun(q.ran, n);
    } else {
      var id :| id in q.live && q.live[id].serial == n;
      assert Entry(q.live[id].expiration, id) in q.timers;
    }
  }

  ghost predicate RanOnce(ran: seq<Ran>, n: nat) {
    exists i :: 0 <= i < |ran| && ran[i].serial == n && forall j :: 0 <= j < |ran| && j != i ==> ran[j].serial != n
  }

  lemma FollowedAreLive(q: Queue)
    requires Inv(q)
    ensures match q.phase
            case Idle => true
            case FdRead => true
            case Running(batch, done) => done < |batch| && batch[done].id in q.live
            case Resetting(batch, done) => done < |batch| ==> batch[done].id in q.live
    ensures q.timers != [] ==> q.timers[0].id in q.live && q.live[q.timers[0].id].expiration == q.timers[0].at
  {
    assert q.phase.Running? ==> q.phase.batch[q.phase.done] in Pending(q);
    assert q.phase.Resetting? && q.phase.done < |q.phase.batch| ==> Pending(q)[0] == q.phase.batch[q.phase.done];
    assert q.timers != [] ==> q.timers[0] in q.timers;
  }

  lemma IndexIsLive(q: Queue)
    requires Inv(q)
    ensures forall k :: 0 <= k < |q.timers| ==> q.timers[k].id in q.live
  {
    assert forall k :: 0 <= k < |q.timers| ==> q.timers[k] in q.timers;
  }

  /** The pointers that HandleRead follows are live: the guards that say so are never what stops a step. */
  lemma NothingDangles(start: int, run: seq<Timed>)
    requires ValidRun(Init(start), run)
    ensures var q := RunAll(Init(start), run);
            match q.phase
            case Idle => Enabled(q, ReadFd, q.clock)
            case FdRead => Enabled(q, Collect, q.clock)
            case Running(_, _) => Enabled(q, RunNext, q.clock)
            case Resetting(batch, done) => Enabled(q, if done < |batch| then ResetOne else Rearm, q.clock)
  {
    Reached(start, run);
    var q := RunAll(Init(start), run);
    FollowedAreLive(q);
    assert InBounds(q);
  }

  /** Collecting takes out exactly the entries that are due, in order, and nothing else. */
  lemma CollectsExactlyDue(start: int, run: seq<Timed>, now: int)
    requires ValidRun(Init(start), run) && Enabled(RunAll(Init(start), run), Collect, now)
    ensures var (q, r) := (RunAll(Init(start), run), After(RunAll(Init(start), run), Collect, now));
            && Pending(r) + r.timers == q.timers
            && (forall e :: e in Pending(r) ==> e.at <= now) && (forall e :: e in r.timers ==> now < e.at)
  {
    Reached(start, run);
    hide RunAll, ValidRun, Serials, FdFollows, History, Agree;
    var q := RunAll(Init(start), run);
    var n := Expired(q.timers, now);
    ExpiredExactly(q.timers, now);
    assert q.timers[..n][0..] == q.timers[..n];
  }

  /** A run that reaches a callback: one timer due at 50, its batch collected at 160. */
  lemma CallbackReachable()
    ensures exists run :: ValidRun(Init(0), run) && Enabled(RunAll(Init(0), run), RunNext, 170)
  {
    var q0 := Init(0);
    var add := Add(50, 0, false, 7);
    RunSnoc(q0, [], add, 0);
    var q1 := After(q0, add, 0);
    assert q1.timers == [Entry(50, 7)];
    RunSnoc(q0, [Timed(add, 0)], ReadFd, 150);
    var q2 := After(q1, ReadFd, 150);
    assert Expired(q2.timers, 160) == 1;
    RunSnoc(q0, [Timed(add, 0), Timed(ReadFd, 150)], Collect, 160);
    var q3 := After(q2, Collect, 160);
    assert q3.phase == Running([Entry(50, 7)], 0);
    assert Enabled(q3, RunNext, 170);
    assert [] + [Timed(add, 0)] == [Timed(add, 0)];
    assert [Timed(add, 0)] + [Timed(ReadFd, 150)] == [Timed(add, 0), Timed(ReadFd, 150)];
  }

  // ---------------------------------------------------------------- the kernel timer's setting

  /** Seconds and nanoseconds as timerfd_settime takes them; all zero would disarm the timer. */
  datatype TimeSpec = TimeSpec(sec: int, nsec: int)

  function Split(diff: int): TimeSpec {
    TimeSpec(diff / 1_000_000, (diff % 1_000_000) * 1_000)
  }

  function Micros(t: TimeSpec): int {
    t.sec * 1_000_000 + t.nsec / 1_000
  }

  /** Whatever the timers' expirations, the setting never disarms and means the clamped difference. */
  lemma SettingIsPositive(expiration: int, now: int)
    ensures var diff := if expiration - now < 100 then 100 else expiration - now;
            var t := Split(diff);
            && t.sec >= 0 && 0 <= t.nsec < 1_000_000_000 && t != TimeSpec(0, 0)
            && t.sec * 1_000_000_000 + t.nsec == diff * 1_000 && now + Micros(t) == Deadline(expiration, now)
  {
    var d := Clamp(expiration - now);
    MillionParts(d);
  }

  lemma MillionParts(d: int)
    requires d >= 100
    ensures d == (d / 1_000_000) * 1_000_000 + d % 1_000_000 && 0 <= d % 1_000_000 < 1_000_000
    ensures ((d % 1_000_000) * 1_000) / 1_000 == d % 1_000_000
  {
  }

  // ---------------------------------------------------------------- the class

  /** What a callback may ask for. */
  datatype Request = Request(at: int, interval: int, repeats: bool)

  predicate Sensible(r: Request) {
    if r.repeats then r.interval >= 0 else r.interval <= 0
  }

  lemma UnusedAddress(used: set<nat>) returns (id: nat)
    ensures id !in used
  {
    if used == {} {
      id := 0;
    } else {
      id := Greatest(used) + 1;
    }
  }

  ghost function Greatest(s: set<nat>): (m: nat)
    requires s != {}
    ensures m in s && forall x :: x in s ==> x <= m
    decreases |s|
  {
    var x :| x in s;
    assert forall y :: y in s ==> y == x || y in s - {x};
    if s - {x} == {} then x
    else
      var m := Greatest(s - {x});
      if x > m then x else m
  }

  lemma {:induction false} RunSnoc(q: Queue, run: seq<Timed>, a: Act, now: int)
    requires ValidRun(q, run) && Enabled(RunAll(q, run), a, now)
    ensures ValidRun(q, run + [Timed(a, now)])
    ensures RunAll(q, run + [Timed(a, now)]) == After(RunAll(q, run), a, now)
    decreases |run|
  {
    hide Enabled, After;
    var more := run + [Timed(a, now)];
    if run == [] {
      assert more[1..] == [];
    } else {
      RunSnoc(After(q, run[0].act, run[0].now), run[1..], a, now);
      assert more[0] == run[0] && more[1..] == run[1..] + [Timed(a, now)];
    }
  }

  /** A timer of the batch after HandleRead is done with it: a repeating one waits, in the index and by its
      own word, an interval after a time of the call; any other is gone. */
  ghost predicate PutBack(before: map<nat, Timer>, heap: map<nat, Timer>, timers: seq<Entry>, id: nat,
                          since: int, until: int)
  {
    && id in before
    && if before[id].repeats then
         && id in heap && heap[id] == before[id].(expiration := heap[id].expiration)
         && since <= heap[id].expiration - before[id].interval <= until
         && Entry(heap[id].expiration, id) in timers
       else id !in heap
  }

  /** A run of the timer at `id`, for the time it was set for, at a time of the call. */
  ghost predicate RanAs(r: Ran, before: map<nat, Timer>, id: nat, since: int, until: int) {
    id in before && r.serial == before[id].serial && r.due == before[id].expiration && since <= r.time <= until
  }

  ghost predicate RanEach(ran: seq<Ran>, batch: seq<Entry>, before: map<nat, Timer>, since: int, until: int) {
    |ran| <= |batch| && forall k :: 0 <= k < |ran| ==> RanAs(ran[k], before, batch[k].id, since, until)
  }

  lemma StillIndexed(ts: seq<Entry>, n: nat)
    requires n <= |ts|
    ensures forall e :: e in ts && e !in ts[..n] ==> e in ts[n..]
  {
    assert ts == ts[..n] + ts[n..];
  }

  lemma PendingIds(q: Queue)
    requires Inv(q)
    ensures forall i, j :: 0 <= i < j < |Pending(q)| ==> Pending(q)[i].id != Pending(q)[j].id
    ensures forall i :: 0 <= i < |Pending(q)| ==> Pending(q)[i].id in q.live
  {
    SortedIds(Pending(q), q.live);
    assert forall i :: 0 <= i < |Pending(q)| ==> Pending(q)[i] in Pending(q);
  }

  class TimerQueue {
    var timers: seq<Entry>
    var activeTimers: seq<Entry>
    var heap: map<nat, Timer>  // the timers by address
    var fd: Fd
    var clock: int
    var serials: nat
    ghost const start: int
    ghost var trace: seq<Timed>
    ghost var view: Queue

    /** The fields are what the steps in `trace` produce. */
    ghost predicate Valid()
      reads this
    {
      && ValidRun(Init(start), trace) && view == RunAll(Init(start), trace)
      && timers == view.timers && heap == view.live && fd == view.fd && serials == view.serials
      && view.clock <= clock
    }

    constructor (start: int)
      ensures Valid() && view == Init(start)
    {
      timers, activeTimers, heap, fd, clock, serials := [], [], map[], Disarmed, start, 0;
      this.start, trace, view := start, [], Init(start);
    }

    ghost method Record(a: Act, now: int)
      requires ValidRun(Init(start), trace) && view == RunAll(Init(start), trace) && Enabled(view, a, now)
      modifies this`trace, this`view
      ensures ValidRun(Init(start), trace) && view == RunAll(Init(start), trace)
      ensures view == After(old(view), a, now)
    {
      RunSnoc(Init(start), trace, a, now);
      trace, view := trace + [Timed(a, now)], After(view, a, now);
    }

    /** TimeStamp::Now: any time that is not before the last one. */
    method Now() returns (t: int)
      modifies this`clock
      ensures t == clock >= old(clock)
    {
      t := *;
      if t < clock {
        t := clock;
      }
      clock := t;
    }

    /** True when the entry becomes the earliest. */
    method Insert(e: Entry) returns (earliest: bool)
      modifies this`timers
      ensures timers == Inserted(old(timers), e)
      ensures earliest == (old(timers) == [] || e.at < old(timers)[0].at)
    {
      earliest := timers == [] || e.at < timers[0].at;
      timers := Inserted(timers, e);
    }

    method ResetTimerFd(id: nat)
      requires id in heap
      modifies this`fd, this`clock
      ensures clock >= old(clock)
      ensures fd == Armed(if heap[id].expiration >= clock + 100 then heap[id].expiration else clock + 100)
    {
      var now := Now();
      var diff := heap[id].expiration - now;
      if diff < 100 {
        diff := 100;
      }
      var spec := Split(diff);
      SettingIsPositive(heap[id].expiration, now);
      fd := Armed(now + Micros(spec));
    }

    method AddTimer(r: Request) returns (id: nat)
      requires Valid() && Sensible(r)
      modifies this`timers, this`heap, this`fd, this`clock, this`serials, this`view, this`trace
      ensures Valid() && id !in old(heap) && clock >= old(clock)
      ensures Enabled(old(view), Add(r.at, r.interval, r.repeats, id), view.clock)
      ensures view == After(old(view), Add(r.at, r.interval, r.repeats, id), view.clock)
      ensures heap == old(heap)[id := Timer(r.at, r.interval, r.repeats, old(serials))] && serials == old(serials) + 1
      ensures forall e :: e in timers <==> e in old(timers) || e == Entry(r.at, id)
      ensures fd == if old(timers) != [] && old(timers)[0].at <= r.at then old(fd)
                    else Armed(if r.at >= clock + 100 then r.at else clock + 100)
    {
      hide ValidRun, RunAll;
      ghost var unused := UnusedAddress(heap.Keys);
      assert unused !in heap;
      id :| id !in heap;
      heap := heap[id := Timer(r.at, r.interval, r.repeats, serials)];
      serials := serials + 1;
      var earliest := Insert(Entry(r.at, id));
      InsertMembers(old(timers), Entry(r.at, id));
      if earliest {
        ResetTimerFd(id);
      }
      Record(Add(r.at, r.interval, r.repeats, id), clock);
    }

    /** Reads the kernel timer and takes the expired timers out of the index. */
    method TakeExpired()
      requires Valid() && view.phase == Idle
      modifies this`timers, this`activeTimers, this`fd, this`clock, this`view, this`trace
      ensures Valid() && old(clock) <= view.clock <= clock
      ensures activeTimers == old(timers)[..Expired(old(timers), view.clock)]
      ensures timers == old(timers)[|activeTimers|..]
      ensures forall k :: 0 <= k < |activeTimers| ==> activeTimers[k].id in view.live
      ensures view.phase == if activeTimers == [] then Resetting([], 0) else Running(activeTimers, 0)
      ensures view.ran == old(view).ran && view.live == old(view).live
      ensures fd == old(fd) || fd == Disarmed
      ensures old(fd).Armed? && old(fd).deadline <= old(clock) ==> fd == Disarmed
    {
      hide ValidRun, RunAll, Inv;
      Reached(start, trace);
      IndexIsLive(view);
      var now := Now();
      if fd.Armed? && fd.deadline <= now {
        fd := Disarmed;
      }
      Record(ReadFd, now);
      activeTimers := [];
      now := Now();
      var n := Expired(timers, now);
      activeTimers := timers[..n];
      timers := timers[n..];
      Record(Collect, now);
    }

    /** One callback; it may add timers. */
    method RunTimer(i: nat, requests: seq<Request>)
      requires Valid() && view.phase.Running? && i == view.phase.done && i < |view.phase.batch|
      requires forall k :: 0 <= k < |requests| ==> Sensible(requests[k])
      modifies this`timers, this`heap, this`fd, this`clock, this`serials, this`view, this`trace
      ensures Valid()
      ensures var batch := old(view).phase.batch;
              view.phase == if i + 1 == |batch| then Resetting(batch, 0) else Running(batch, i + 1)
      ensures clock >= old(clock) && |view.ran| == |old(view).ran| + 1 && old(view).ran <= view.ran
      ensures forall id :: id in old(view).live ==> id in view.live && view.live[id] == old(view).live[id]
      ensures RanAs(view.ran[|old(view).ran|], old(heap), old(view).phase.batch[i].id, old(clock), clock)
      ensures forall e :: e in old(timers) ==> e in timers
      ensures timers == [] ==> fd == old(fd)
    {
      hide ValidRun, RunAll, Inv;
      Reached(start, trace);
      FollowedAreLive(view);
      Record(RunNext, clock);
      ghost var ran := view;
      for k := 0 to |requests|
        invariant Valid() && view.phase == ran.phase && view.ran == ran.ran && clock >= old(clock)
        invariant forall id :: id in ran.live ==> id in view.live && view.live[id] == ran.live[id]
        invariant forall e :: e in old(timers) ==> e in timers
        invariant timers == [] ==> fd == old(fd)
      {
        var id := AddTimer(requests[k]);
        assert Entry(requests[k].at, id) in timers;
      }
    }

    /** One timer of the batch is restarted or deleted. */
    method ResetTimer(i: nat)
      requires Valid() && view.phase == Resetting(activeTimers, i) && i < |activeTimers|
      modifies this`timers, this`heap, this`clock, this`view, this`trace
      ensures Valid() && view.phase == Resetting(activeTimers, i + 1) && clock >= old(clock)
      ensures Enabled(old(view), ResetOne, view.clock)
      ensures view == After(old(view), ResetOne, view.clock)
      ensures activeTimers[i].id in old(heap)
      ensures PutBack(old(heap), heap, timers, activeTimers[i].id, old(clock), clock)
      ensures forall id :: id != activeTimers[i].id ==>
        (id in heap <==> id in old(heap)) && (id in heap ==> heap[id] == old(heap)[id])
      ensures forall e :: e in old(timers) ==> e in timers
    {
      hide ValidRun, RunAll, Inv;
      Reached(start, trace);
      FollowedAreLive(view);
      var id := activeTimers[i].id;
      if heap[id].repeats {
        var now := Now();
        heap := heap[id := heap[id].(expiration := now + heap[id].interval)];
        var earliest := Insert(Entry(heap[id].expiration, id));
        InsertMembers(old(timers), Entry(heap[id].expiration, id));
      } else {
        heap := heap - {id};
      }
      Record(ResetOne, clock);
    }

    method ResetTimers()
      requires Valid() && view.phase == Resetting(activeTimers, 0)
      modifies this`timers, this`heap, this`fd, this`clock, this`view, this`trace
      ensures Valid() && view.phase == Idle && view.ran == old(view).ran && clock >= old(clock)
      ensures forall k :: 0 <= k < |activeTimers| ==>
        PutBack(old(heap), heap, timers, activeTimers[k].id, old(clock), clock)
      ensures forall e :: e in old(timers) ==> e in timers
      ensures fd == if timers == [] then old(fd)
                    else Armed(if timers[0].at >= clock + 100 then timers[0].at else clock + 100)
    {
      hide ValidRun, RunAll, Inv;
      Reached(start, trace);
      PendingIds(view);
      assert Pending(view) == activeTimers;
      var i := 0;
      while i < |activeTimers|
        invariant i <= |activeTimers| && Valid() && view.phase == Resetting(activeTimers, i)
        invariant view.ran == old(view).ran && clock >= old(clock) && fd == old(fd)
        invariant forall k :: 0 <= k < i ==>
          PutBack(old(heap), heap, timers, activeTimers[k].id, old(clock), clock)
        invariant forall k :: i <= k < |activeTimers| ==>
          activeTimers[k].id in heap && activeTimers[k].id in old(heap) &&
          heap[activeTimers[k].id] == old(heap)[activeTimers[k].id]
        invariant forall e :: e in old(timers) ==> e in timers
      {
        ResetTimer(i);
        forall k | 0 <= k < i ensures PutBack(old(heap), heap, timers, activeTimers[k].id, old(clock), clock) {
          assert activeTimers[k].id != activeTimers[i].id;
        }
        i := i + 1;
      }
      Reached(start, trace);
      FollowedAreLive(view);
      if timers != [] {
        ResetTimerFd(timers[0].id);
      }
      Record(Rearm, clock);
    }

    /** The loop over the batch. */
    method RunExpired(requests: seq<seq<Request>>)
      requires Valid() && view.phase == if activeTimers == [] then Resetting([], 0) else Running(activeTimers, 0)
      requires forall k :: 0 <= k < |activeTimers| ==> activeTimers[k].id in heap
      requires forall k, j :: 0 <= k < |requests| && 0 <= j < |requests[k]| ==> Sensible(requests[k][j])
      modifies this`timers, this`heap, this`fd, this`clock, this`serials, this`view, this`trace
      ensures Valid() && view.phase == Resetting(activeTimers, 0) && clock >= old(clock)
      ensures old(view).ran <= view.ran && |view.ran| == |old(view).ran| + |activeTimers|
      ensures RanEach(view.ran[|old(view).ran|..], activeTimers, old(heap), old(clock), clock)
      ensures forall id :: id in old(heap) ==> id in heap && heap[id] == old(heap)[id]
      ensures forall e :: e in old(timers) ==> e in timers
      ensures timers == [] ==> fd == old(fd)
    {
      hide ValidRun, RunAll, Inv, Enabled;
      ghost var ran: seq<Ran> := [];
      var i := 0;
      while i < |activeTimers|
        invariant i <= |activeTimers| && Valid() && clock >= old(clock)
        invariant view.phase == if i == |activeTimers| then Resetting(activeTimers, 0) else Running(activeTimers, i)
        invariant forall id :: id in old(heap) ==> id in heap && heap[id] == old(heap)[id]
        invariant view.ran == old(view).ran + ran && |ran| == i
        invariant RanEach(ran, activeTimers, old(heap), old(clock), clock)
        invariant forall k :: 0 <= k < |activeTimers| ==> activeTimers[k].id in old(heap)
        invariant forall e :: e in old(timers) ==> e in timers
        invariant timers == [] ==> fd == old(fd)
      {
        assert timers != [] ==> timers[0] in timers;
        RunTimer(i, if i < |requests| then requests[i] else []);
        ran := ran + [view.ran[|view.ran| - 1]];
        i := i + 1;
      }
    }

    /** The callbacks of exactly the timers due at some time of the call run, once each, in order. */
    method HandleRead(requests: seq<seq<Request>>)
      requires Valid() && view.phase == Idle
      requires forall k, j :: 0 <= k < |requests| && 0 <= j < |requests[k]| ==> Sensible(requests[k][j])
      modifies this
      ensures Valid() && view.phase == Idle
      ensures exists now :: old(clock) <= now <= clock && activeTimers == old(timers)[..Expired(old(timers), now)]
      ensures old(view).ran <= view.ran && |view.ran| == |old(view).ran| + |activeTimers|
      ensures RanEach(view.ran[|old(view).ran|..], activeTimers, old(heap), old(clock), clock)
      ensures forall k :: 0 <= k < |activeTimers| ==>
        PutBack(old(heap), heap, timers, activeTimers[k].id, old(clock), clock)
      ensures forall e :: e in old(timers) && e !in activeTimers ==> e in timers
      ensures timers == [] && old(fd).Armed? && old(fd).deadline <= old(clock) ==> fd == Disarmed
      ensures timers != [] ==> fd == Armed(if timers[0].at >= clock + 100 then timers[0].at else clock + 100)
    {
      hide ValidRun, RunAll, Inv, Enabled, Inserted;
      TakeExpired();
      ghost var taken := view;
      assert timers != [] ==> timers[0] in timers;
      RunExpired(requests);
      assert timers != [] ==> timers[0] in timers;
      ResetTimers();
      assert activeTimers == old(timers)[..Expired(old(timers), taken.clock)];
      StillIndexed(old(timers), |activeTimers|);
    }
  }
}
