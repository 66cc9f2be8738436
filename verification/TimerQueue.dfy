/**
 Timers: an ordered set of (expiration, timer) pairs in front of a one-shot timerfd. `TimerSpec`
 gives the steps as functions on values with their invariants; the class below performs them with
 the loops of the source.

 Times are microseconds. A timer is named by a positive number, its address.
 */
module TimerSpec {
  import opened Wrappers

  type Time = int
  type TimerId = nat

  datatype Entry = Entry(when: Time, id: TimerId)

  /**
   `start` and `fires` record when the timer was first due and how often it has been restarted,
   `born` how many callbacks had run when it was added.
   */
  datatype Timer = Timer(expiration: Time, repeat: bool, delta: Time, start: Time, fires: nat, born: nat)

  /**
   A timer to be added: its address, due time and interval in seconds, and the clock reading should
   the timerfd be set for it.
   */
  datatype NewTimer = NewTimer(id: TimerId, when: Time, interval: real, clock: Time)

  /** The timerfd is set for `target`; it cannot fire before `deadline`. */
  datatype Alarm = Alarm(target: Time, deadline: Time)

  /** A callback run at `at` for a timer that was due at `due`. */
  datatype Firing = Firing(id: TimerId, due: Time, at: Time)

  /**
   `timers` is the ordered set, `heap` the timers that exist. `armed` is the timerfd setting still
   to fire, `fired` the deadline of one that fired and was not handled. `log` lists callbacks run.
   */
  datatype Queue = Queue(
    timers: seq<Entry>, heap: map<TimerId, Timer>, armed: Option<Alarm>, fired: Option<Time>,
    log: seq<Firing>)

  const New: Queue := Queue([], map[], None, None, [])

  // ---------------------------------------------------------------- the ordered set

  /** `std::pair` order: by time, then by address. */
  predicate Less(a: Entry, b: Entry) {
    a.when < b.when || (a.when == b.when && a.id < b.id)
  }

  predicate Sorted(ts: seq<Entry>) {
    forall i, j :: 0 <= i < j < |ts| ==> Less(ts[i], ts[j])
  }

  function Insert(ts: seq<Entry>, e: Entry): seq<Entry> {
    if ts == [] then [e]
    else if ts[0] == e then ts
    else if Less(e, ts[0]) then [e] + ts
    else [ts[0]] + Insert(ts[1..], e)
  }

  lemma {:induction false} InsertMembers(ts: seq<Entry>, e: Entry, x: Entry)
    ensures x in Insert(ts, e) <==> x in ts || x == e
  {
    if ts == [] {
    } else {
      assert ts == [ts[0]] + ts[1..];
      InsertMembers(ts[1..], e, x);
    }
  }

  lemma {:induction false} InsertSorted(ts: seq<Entry>, e: Entry)
    requires Sorted(ts)
    ensures Sorted(Insert(ts, e))
  {
    if ts == [] || ts[0] == e || Less(e, ts[0]) {
    } else {
      InsertSorted(ts[1..], e);
      var rest := Insert(ts[1..], e);
      forall j | 0 <= j < |rest|
        ensures Less(ts[0], rest[j])
      {
        InsertMembers(ts[1..], e, rest[j]);
      }
    }
  }

  /** A timer due at `when` comes before everything in the queue. */
  predicate Earliest(ts: seq<Entry>, when: Time) {
    ts == [] || when < ts[0].when
  }

  lemma InsertHead(ts: seq<Entry>, e: Entry)
    ensures Insert(ts, e) != []
    ensures Insert(ts, e)[0].when == if Earliest(ts, e.when) then e.when else ts[0].when
  {
  }

  /** How many leading entries are before (`now`, null): the ones due strictly before `now`. */
  function ExpiredCount(ts: seq<Entry>, now: Time): (k: nat)
    ensures k <= |ts|
    ensures forall i :: 0 <= i < k ==> Less(ts[i], Entry(now, 0))
    ensures k < |ts| ==> !Less(ts[k], Entry(now, 0))
  {
    if ts == [] || !Less(ts[0], Entry(now, 0)) then 0 else 1 + ExpiredCount(ts[1..], now)
  }

  /** In a sorted queue exactly the timers due strictly before `now` are expired. */
  lemma ExpiredExactly(ts: seq<Entry>, now: Time, e: Entry)
    requires Sorted(ts) && e in ts
    ensures e in ts[..ExpiredCount(ts, now)] <==> e.when < now
  {
    var k := ExpiredCount(ts, now);
    var i :| 0 <= i < |ts| && ts[i] == e;
    if i < k {
      assert e == ts[..k][i];
    } else {
      assert k < i ==> Less(ts[k], ts[i]);
    }
  }

  // ---------------------------------------------------------------- single timers

  const MICROS: real := 1000000.0

  /** `addTime` converts seconds to whole microseconds, toward zero. */
  function Delta(interval: real): Time {
    if interval >= 0.0 then (interval * MICROS).Floor else -((-interval * MICROS).Floor)
  }

  function Create(n: NewTimer, born: nat): Timer {
    Timer(n.when, n.interval > 0.0, Delta(n.interval), n.when, 0, born)
  }

  /** `Timer::restart` of a repeating timer. */
  function Restart(t: Timer): Timer {
    t.(expiration := t.expiration + t.delta, fires := t.fires + 1)
  }

  /** `resetTimerfd`: never less than 100 microseconds ahead. */
  function Arm(expiration: Time, clock: Time): Alarm {
    Alarm(expiration, clock + if expiration - clock < 100 then 100 else expiration - clock)
  }

  // ---------------------------------------------------------------- steps

  /** `addTimerInLoop`. */
  function AddTimer(q: Queue, n: NewTimer): Queue {
    q.(heap := q.heap[n.id := Create(n, |q.log|)],
       timers := Insert(q.timers, Entry(n.when, n.id)),
       armed := if Earliest(q.timers, n.when) then Some(Arm(n.when, n.clock)) else q.armed)
  }

  /** The first `m` of the timers that a callback adds. */
  function AddTimers(q: Queue, ns: seq<NewTimer>, m: nat): Queue
    requires m <= |ns|
  {
    if m == 0 then q else AddTimer(AddTimers(q, ns, m - 1), ns[m - 1])
  }

  /** The timers that the callback of the `i`-th expired timer adds. */
  function AddsOf(adds: seq<seq<NewTimer>>, i: nat): seq<NewTimer> {
    if i < |adds| then adds[i] else []
  }

  /** The callback of one expired timer, which adds the timers `ns`. */
  function RunOne(q: Queue, e: Entry, ns: seq<NewTimer>, now: Time): Queue {
    AddTimers(q.(log := q.log + [Firing(e.id, e.when, now)]), ns, |ns|)
  }

  /** The callbacks of the first `m` expired timers. */
  function Callbacks(q: Queue, expired: seq<Entry>, adds: seq<seq<NewTimer>>, now: Time, m: nat): Queue
    requires m <= |expired|
  {
    if m == 0 then q
    else
      RunOne(Callbacks(q, expired, adds, now, m - 1), expired[m - 1], AddsOf(adds, m - 1), now)
  }

  /** Set the timerfd for the head of the queue, when there is one. */
  function Rearm(q: Queue, clock: Time): Queue {
    if q.timers != [] && q.timers[0].id in q.heap
    then q.(armed := Some(Arm(q.heap[q.timers[0].id].expiration, clock)))
    else q
  }

  /** The clock reading in round `i` of `reset`. */
  function ClockAt(clocks: seq<Time>, i: nat): Time {
    if i < |clocks| then clocks[i] else 0
  }

  /** One round of the loop in `reset`. */
  function ResetOne(q: Queue, e: Entry, clock: Time): Queue
    requires e.id in q.heap
  {
    var t := q.heap[e.id];
    var q1 :=
      if t.repeat then q.(heap := q.heap[e.id := Restart(t)],
                          timers := Insert(q.timers, Entry(Restart(t).expiration, e.id)))
      else q.(heap := q.heap - {e.id});
    Rearm(q1, clock)
  }

  function Reset(q: Queue, expired: seq<Entry>, clocks: seq<Time>, m: nat): Queue
    requires m <= |expired|
  {
    if m == 0 then q
    else
      var before := Reset(q, expired, clocks, m - 1);
      if expired[m - 1].id in before.heap then ResetOne(before, expired[m - 1], ClockAt(clocks, m - 1)) else before
  }

  /** What `getExpired` leaves, with the timerfd's event consumed. */
  function TakeExpired(q: Queue, now: Time): Queue {
    q.(timers := q.timers[ExpiredCount(q.timers, now)..], fired := None)
  }

  function HandleRead(q: Queue, now: Time, clocks: seq<Time>, adds: seq<seq<NewTimer>>): Queue {
    var expired := q.timers[..ExpiredCount(q.timers, now)];
    var ran := Callbacks(TakeExpired(q, now), expired, adds, now, |expired|);
    Reset(ran, expired, clocks, |expired|)
  }

  // ---------------------------------------------------------------- where timers are

  ghost predicate EntryOk(q: Queue, e: Entry) {
    e.id > 0 && e.id in q.heap && q.heap[e.id].expiration == e.when
  }

  /** A repeating timer that has been restarted `fires` times is due `fires` intervals after its start. */
  predicate OnSchedule(t: Timer) {
    t.expiration == t.start + t.fires * t.delta && (!t.repeat ==> t.fires == 0)
  }

  /**
   Every timer that exists is in the queue or in `batch`, once, under its own expiration time.
   */
  ghost predicate Placed(q: Queue, batch: seq<Entry>) {
    && Sorted(q.timers)
    && (forall e :: e in q.timers || e in batch ==> EntryOk(q, e))
    && (forall id :: id in q.heap ==> Entry(q.heap[id].expiration, id) in q.timers || Entry(q.heap[id].expiration, id) in batch)
    && (forall e :: e in batch ==> e !in q.timers)
    && (forall i, j :: 0 <= i < j < |batch| ==> batch[i].id != batch[j].id)
    && (forall id :: id in q.heap ==> OnSchedule(q.heap[id]))
  }

  /** `new` returns an address that no existing timer has; one of a deleted timer may come back. */
  ghost predicate FreshTimer(q: Queue, n: NewTimer) {
    n.id > 0 && n.id !in q.heap
  }

  lemma AddPlaced(q: Queue, n: NewTimer, batch: seq<Entry>)
    requires Placed(q, batch) && FreshTimer(q, n)
    ensures Placed(AddTimer(q, n), batch)
  {
    var t := AddTimer(q, n);
    var added := Entry(n.when, n.id);
    InsertSorted(q.timers, added);
    forall e | e in t.timers || e in batch
      ensures EntryOk(t, e)
    {
      InsertMembers(q.timers, added, e);
      if e in q.timers || e in batch { assert EntryOk(q, e); }
    }
    forall id | id in t.heap
      ensures Entry(t.heap[id].expiration, id) in t.timers || Entry(t.heap[id].expiration, id) in batch
    {
      InsertMembers(q.timers, added, Entry(t.heap[id].expiration, id));
    }
    forall e | e in batch
      ensures e !in t.timers
    {
      InsertMembers(q.timers, added, e);
      assert EntryOk(q, e);
    }
  }

  /** The timers a callback adds are new ones. */
  ghost predicate FreshTimers(q: Queue, ns: seq<NewTimer>) {
    && (forall i :: 0 <= i < |ns| ==> FreshTimer(q, ns[i]))
    && (forall i, j :: 0 <= i < j < |ns| ==> ns[i].id != ns[j].id)
  }

  lemma {:induction false} AddsHeap(q: Queue, ns: seq<NewTimer>, m: nat, id: TimerId)
    requires m <= |ns|
    ensures var t := AddTimers(q, ns, m);
            && t.log == q.log && t.fired == q.fired
            && (id in t.heap <==> id in q.heap || exists i :: 0 <= i < m && ns[i].id == id)
            && ((forall i :: 0 <= i < m ==> ns[i].id != id) && id in q.heap ==> t.heap[id] == q.heap[id])
  {
    if m == 0 {
    } else {
      AddsHeap(q, ns, m - 1, id);
    }
  }

  lemma StillFresh(q: Queue, ns: seq<NewTimer>, m: nat)
    requires FreshTimers(q, ns) && m < |ns|
    ensures FreshTimer(AddTimers(q, ns, m), ns[m])
  {
    hide AddTimers;
    AddsHeap(q, ns, m, ns[m].id);
    assert FreshTimer(q, ns[m]);
  }

  lemma {:induction false} AddsPlaced(q: Queue, ns: seq<NewTimer>, m: nat, batch: seq<Entry>)
    requires Placed(q, batch) && FreshTimers(q, ns) && m <= |ns|
    ensures Placed(AddTimers(q, ns, m), batch)
  {
    hide Placed, AddTimer, FreshTimer, FreshTimers;
    if m == 0 {
    } else {
      AddsPlaced(q, ns, m - 1, batch);
      StillFresh(q, ns, m - 1);
      AddPlaced(AddTimers(q, ns, m - 1), ns[m - 1], batch);
    }
  }

  // ---------------------------------------------------------------- handleRead, part by part

  function Firings(es: seq<Entry>, now: Time): (fs: seq<Firing>)
    ensures |fs| == |es| && forall i :: 0 <= i < |es| ==> fs[i] == Firing(es[i].id, es[i].when, now)
  {
    seq(|es|, i requires 0 <= i < |es| => Firing(es[i].id, es[i].when, now))
  }

  /** Each callback adds only timers that are new at that moment. */
  ghost predicate FreshAdds(q: Queue, expired: seq<Entry>, adds: seq<seq<NewTimer>>, now: Time) {
    forall m :: 0 <= m < |expired| ==> FreshTimers(Callbacks(q, expired, adds, now, m), AddsOf(adds, m))
  }

  lemma FreshAt(q: Queue, expired: seq<Entry>, adds: seq<seq<NewTimer>>, now: Time, m: nat)
    requires FreshAdds(q, expired, adds, now) && m < |expired|
    ensures FreshTimers(Callbacks(q, expired, adds, now, m), AddsOf(adds, m))
  {
  }

  lemma RunOnePlaced(q: Queue, e: Entry, ns: seq<NewTimer>, now: Time, batch: seq<Entry>)
    requires Placed(q, batch) && FreshTimers(q, ns)
    ensures Placed(RunOne(q, e, ns, now), batch)
  {
    hide Placed;
    var logged := q.(log := q.log + [Firing(e.id, e.when, now)]);
    SamePlaces(q, logged, batch);
    AddsPlaced(logged, ns, |ns|, batch);
  }

  lemma {:induction false} CallbacksPlaced(
    q: Queue, expired: seq<Entry>, adds: seq<seq<NewTimer>>, now: Time, m: nat)
    requires Placed(q, expired) && m <= |expired| && FreshAdds(q, expired, adds, now)
    ensures Placed(Callbacks(q, expired, adds, now, m), expired)
  {
    hide Placed, FreshAdds, FreshTimers, RunOne;
    if m == 0 {
    } else {
      CallbacksPlaced(q, expired, adds, now, m - 1);
      FreshAt(q, expired, adds, now, m - 1);
      RunOnePlaced(Callbacks(q, expired, adds, now, m - 1), expired[m - 1], AddsOf(adds, m - 1), now, expired);
    }
  }

  lemma SamePlaces(q: Queue, t: Queue, batch: seq<Entry>)
    requires Placed(q, batch) && t.timers == q.timers && t.heap == q.heap
    ensures Placed(t, batch)
  {
    assert forall e :: e in q.timers || e in batch ==> EntryOk(q, e) && EntryOk(t, e);
  }

  /** From `q` to `t`: timers that existed are unchanged, and others are new and have not fired. */
  ghost predicate Extends(q: Queue, t: Queue, id: TimerId) {
    && |q.log| <= |t.log|
    && (id in q.heap ==> id in t.heap && t.heap[id] == q.heap[id])
    && (id in t.heap && id !in q.heap ==> t.heap[id].fires == 0 && |q.log| <= t.heap[id].born <= |t.log|)
  }

  lemma RunOneEffect(q: Queue, e: Entry, ns: seq<NewTimer>, now: Time, id: TimerId)
    requires FreshTimers(q, ns)
    ensures var t := RunOne(q, e, ns, now);
            Extends(q, t, id) && t.log == q.log + [Firing(e.id, e.when, now)] && t.fired == q.fired
  {
    var logged := q.(log := q.log + [Firing(e.id, e.when, now)]);
    AddsFresh(logged, ns, |ns|, id);
    AddsHeap(logged, ns, |ns|, id);
  }

  /** The callbacks run are those of the expired timers, in order; existing timers stay as they were. */
  lemma {:induction false} CallbacksEffect(
    q: Queue, expired: seq<Entry>, adds: seq<seq<NewTimer>>, now: Time, m: nat, id: TimerId)
    requires m <= |expired| && FreshAdds(q, expired, adds, now)
    ensures var t := Callbacks(q, expired, adds, now, m);
            Extends(q, t, id) && t.log == q.log + Firings(expired[..m], now) && t.fired == q.fired
  {
    hide FreshAdds, FreshTimers, RunOne;
    if m == 0 {
      assert Firings(expired[..0], now) == [];
    } else {
      CallbacksEffect(q, expired, adds, now, m - 1, id);
      FreshAt(q, expired, adds, now, m - 1);
      RunOneEffect(Callbacks(q, expired, adds, now, m - 1), expired[m - 1], AddsOf(adds, m - 1), now, id);
      assert Firings(expired[..m], now)
          == Firings(expired[..m - 1], now) + [Firing(expired[m - 1].id, expired[m - 1].when, now)];
    }
  }

  lemma {:induction false} AddsFresh(q: Queue, ns: seq<NewTimer>, m: nat, id: TimerId)
    requires m <= |ns| && FreshTimers(q, ns)
    ensures var t := AddTimers(q, ns, m);
            && (id in q.heap ==> id in t.heap && t.heap[id] == q.heap[id])
            && (id in t.heap && id !in q.heap ==> t.heap[id].fires == 0 && t.heap[id].born == |q.log|)
            && t.log == q.log
  {
    if m == 0 {
    } else {
      AddsFresh(q, ns, m - 1, id);
    }
  }

  lemma ResetOnePlaced(q: Queue, batch: seq<Entry>, clock: Time)
    requires batch != [] && Placed(q, batch)
    ensures batch[0].id in q.heap && Placed(ResetOne(q, batch[0], clock), batch[1..])
  {
    var e := batch[0];
    assert EntryOk(q, e);
    assert batch == [e] + batch[1..];
    var t := q.heap[e.id];
    forall x | x in q.timers || x in batch[1..]
      ensures EntryOk(q, x) && x.id != e.id
    {
      if x in batch[1..] {
        assert x in batch;
        var i :| 0 <= i < |batch[1..]| && batch[1..][i] == x;
        assert batch[i + 1] == x;
      }
    }
    if t.repeat {
      RestartPlaced(q, batch, clock);
    } else {
      DeletePlaced(q, batch);
      SamePlaces(q.(heap := q.heap - {e.id}), ResetOne(q, e, clock), batch[1..]);
    }
  }

  lemma DeletePlaced(q: Queue, batch: seq<Entry>)
    requires batch != [] && Placed(q, batch) && batch[0].id in q.heap
    requires forall x :: x in q.timers || x in batch[1..] ==> EntryOk(q, x) && x.id != batch[0].id
    ensures Placed(q.(heap := q.heap - {batch[0].id}), batch[1..])
  {
    var e := batch[0];
    assert batch == [e] + batch[1..];
    var t := q.(heap := q.heap - {e.id});
    assert forall x :: x in q.timers || x in batch[1..] ==> EntryOk(t, x);
  }

  /** The queue with the timer of `batch[0]` restarted and back in the ordered set. */
  function Restarted(q: Queue, e: Entry): Queue
    requires e.id in q.heap
  {
    var next := Restart(q.heap[e.id]);
    q.(heap := q.heap[e.id := next], timers := Insert(q.timers, Entry(next.expiration, e.id)))
  }

  lemma RestartEntries(q: Queue, batch: seq<Entry>)
    requires batch != [] && Placed(q, batch) && batch[0].id in q.heap
    requires forall x :: x in q.timers || x in batch[1..] ==> EntryOk(q, x) && x.id != batch[0].id
    ensures var t := Restarted(q, batch[0]);
            && Sorted(t.timers)
            && (forall x :: x in t.timers || x in batch[1..] ==> EntryOk(t, x))
            && (forall x :: x in batch[1..] ==> x !in t.timers)
  {
    var e := batch[0];
    var t := Restarted(q, e);
    var added := Entry(t.heap[e.id].expiration, e.id);
    InsertSorted(q.timers, added);
    assert e in batch && EntryOk(q, e);
    forall x | x in t.timers || x in batch[1..]
      ensures EntryOk(t, x)
      ensures x in batch[1..] ==> x !in t.timers
    {
      InsertMembers(q.timers, added, x);
      if x in batch[1..] { assert x in batch; }
    }
  }

  lemma RestartPlaced(q: Queue, batch: seq<Entry>, clock: Time)
    requires batch != [] && Placed(q, batch) && batch[0].id in q.heap && q.heap[batch[0].id].repeat
    requires forall x :: x in q.timers || x in batch[1..] ==> EntryOk(q, x) && x.id != batch[0].id
    ensures Placed(ResetOne(q, batch[0], clock), batch[1..])
  {
    hide EntryOk, Insert, Sorted;
    var e := batch[0];
    assert batch == [e] + batch[1..];
    var t := Restarted(q, e);
    var added := Entry(t.heap[e.id].expiration, e.id);
    RestartEntries(q, batch);
    forall id | id in t.heap
      ensures Entry(t.heap[id].expiration, id) in t.timers || Entry(t.heap[id].expiration, id) in batch[1..]
    {
      InsertMembers(q.timers, added, Entry(t.heap[id].expiration, id));
    }
    NextOnSchedule(q.heap[e.id]);
    assert Placed(t, batch[1..]);
    SamePlaces(t, ResetOne(q, e, clock), batch[1..]);
  }

  lemma NextOnSchedule(t: Timer)
    requires OnSchedule(t) && t.repeat
    ensures OnSchedule(Restart(t))
  {
  }

  lemma {:induction false} ResetPlaced(q: Queue, expired: seq<Entry>, clocks: seq<Time>, m: nat)
    requires Placed(q, expired) && m <= |expired|
    ensures Placed(Reset(q, expired, clocks, m), expired[m..])
  {
    hide Placed;
    if m == 0 {
      assert expired[0..] == expired;
    } else {
      ResetPlaced(q, expired, clocks, m - 1);
      var batch := expired[m - 1..];
      assert batch[0] == expired[m - 1] && batch[1..] == expired[m..];
      ResetOnePlaced(Reset(q, expired, clocks, m - 1), batch, ClockAt(clocks, m - 1));
    }
  }

  /** After any round of `reset` a non-empty queue has its timerfd set for its head. */
  lemma ResetArms(q: Queue, expired: seq<Entry>, clocks: seq<Time>, m: nat)
    requires Placed(q, expired) && 0 < m <= |expired|
    ensures var t := Reset(q, expired, clocks, m);
            t.timers != [] ==> t.armed == Some(Arm(t.timers[0].when, ClockAt(clocks, m - 1)))
  {
    ResetPlaced(q, expired, clocks, m - 1);
    ResetPlaced(q, expired, clocks, m);
    var before := Reset(q, expired, clocks, m - 1);
    var batch := expired[m - 1..];
    assert batch[0] == expired[m - 1];
    assert EntryOk(before, batch[0]);
    var t := Reset(q, expired, clocks, m);
    if t.timers != [] { assert EntryOk(t, t.timers[0]); }
  }

  /** What `reset` does to one timer: restart it, delete it, or leave it. */
  lemma {:induction false} ResetEffect(q: Queue, expired: seq<Entry>, clocks: seq<Time>, m: nat, id: TimerId)
    requires m <= |expired|
    requires forall i, j :: 0 <= i < j < |expired| ==> expired[i].id != expired[j].id
    ensures var t := Reset(q, expired, clocks, m);
            && t.log == q.log && t.fired == q.fired
            && (id in t.heap ==> id in q.heap)
            && (id in t.heap && (exists i :: 0 <= i < m && expired[i].id == id) ==>
                  t.heap[id] == Restart(q.heap[id]))
            && ((forall i :: 0 <= i < m ==> expired[i].id != id) ==>
                  (id in q.heap <==> id in t.heap) && (id in q.heap ==> t.heap[id] == q.heap[id]))
  {
    if m == 0 {
    } else {
      ResetEffect(q, expired, clocks, m - 1, id);
    }
  }

  lemma SplitSorted(ts: seq<Entry>, k: nat)
    requires Sorted(ts) && k <= |ts|
    ensures Sorted(ts[..k]) && Sorted(ts[k..]) && ts == ts[..k] + ts[k..]
    ensures forall x, y :: x in ts[..k] && y in ts[k..] ==> x != y
  {
    forall x, y | x in ts[..k] && y in ts[k..]
      ensures x != y
    {
      var i :| 0 <= i < k && ts[..k][i] == x;
      var j :| 0 <= j < |ts| - k && ts[k..][j] == y;
      assert Less(ts[i], ts[k + j]);
    }
  }

  lemma TakePlaced(q: Queue, now: Time)
    requires Placed(q, [])
    ensures Placed(TakeExpired(q, now), q.timers[..ExpiredCount(q.timers, now)])
  {
    var k := ExpiredCount(q.timers, now);
    var t := TakeExpired(q, now);
    var batch := q.timers[..k];
    SplitSorted(q.timers, k);
    forall e | e in t.timers || e in batch
      ensures EntryOk(t, e)
    {
      assert e in q.timers && EntryOk(q, e);
    }
    BatchIds(q, batch);
  }

  lemma BatchIds(q: Queue, batch: seq<Entry>)
    requires Sorted(batch) && forall e :: e in batch ==> EntryOk(q, e)
    ensures forall i, j :: 0 <= i < j < |batch| ==> batch[i].id != batch[j].id
  {
    forall i, j | 0 <= i < j < |batch|
      ensures batch[i].id != batch[j].id
    {
      assert EntryOk(q, batch[i]) && EntryOk(q, batch[j]) && Less(batch[i], batch[j]);
    }
  }

  lemma HandleReadPlaced(q: Queue, now: Time, clocks: seq<Time>, adds: seq<seq<NewTimer>>)
    requires Placed(q, [])
    requires FreshAdds(TakeExpired(q, now), q.timers[..ExpiredCount(q.timers, now)], adds, now)
    ensures Placed(HandleRead(q, now, clocks, adds), [])
  {
    hide Placed, FreshAdds;
    var expired := q.timers[..ExpiredCount(q.timers, now)];
    var taken := TakeExpired(q, now);
    TakePlaced(q, now);
    CallbacksPlaced(taken, expired, adds, now, |expired|);
    var ran := Callbacks(taken, expired, adds, now, |expired|);
    ResetPlaced(ran, expired, clocks, |expired|);
    assert expired[|expired|..] == [];
  }

  // ---------------------------------------------------------------- the alarm

  /**
   A queue that is not empty has its alarm set for its head, or the alarm has gone off and is about
   to be handled.
   */
  predicate ArmedOk(q: Queue) {
    q.timers != [] ==>
      || (q.armed.Some? && q.armed.value.target == q.timers[0].when && q.armed.value.deadline >= q.armed.value.target)
      || (q.armed.None? && q.fired.Some? && q.timers[0].when <= q.fired.value)
  }

  lemma AddArmed(q: Queue, n: NewTimer)
    requires ArmedOk(q)
    ensures ArmedOk(AddTimer(q, n))
  {
    InsertHead(q.timers, Entry(n.when, n.id));
  }

  lemma HandleReadArms(q: Queue, now: Time, clocks: seq<Time>, adds: seq<seq<NewTimer>>)
    requires Placed(q, []) && ExpiredCount(q.timers, now) > 0
    requires FreshAdds(TakeExpired(q, now), q.timers[..ExpiredCount(q.timers, now)], adds, now)
    ensures var t := HandleRead(q, now, clocks, adds);
            t.timers != [] ==>
              t.armed == Some(Arm(t.timers[0].when, ClockAt(clocks, ExpiredCount(q.timers, now) - 1)))
  {
    hide Placed, FreshAdds, Arm;
    var expired := q.timers[..ExpiredCount(q.timers, now)];
    var taken := TakeExpired(q, now);
    TakePlaced(q, now);
    CallbacksPlaced(taken, expired, adds, now, |expired|);
    ResetArms(Callbacks(taken, expired, adds, now, |expired|), expired, clocks, |expired|);
  }

  /** An alarm handled at `now` finds something to do, unless nothing waits or another one is set. */
  predicate Prompt(q: Queue, now: Time) {
    q.timers == [] || q.armed.Some? || q.timers[0].when < now
  }

  /**
   When an alarm that went off is handled, the queue is left with its next alarm set if and only if
   the clock has moved strictly past the earliest timer, or another alarm was set meanwhile.
   */
  lemma HandleReadArmsIff(q: Queue, now: Time, clocks: seq<Time>, adds: seq<seq<NewTimer>>)
    requires Placed(q, []) && ArmedOk(q)
    requires FreshAdds(TakeExpired(q, now), q.timers[..ExpiredCount(q.timers, now)], adds, now)
    ensures ArmedOk(HandleRead(q, now, clocks, adds)) <==> Prompt(q, now)
  {
    hide FreshAdds, HandleRead;
    if q.timers == [] {
      HandleReadEmpty(q, now, clocks, adds);
    } else if Less(q.timers[0], Entry(now, 0)) {
      assert EntryOk(q, q.timers[0]);
      HandleReadArms(q, now, clocks, adds);
    } else {
      assert EntryOk(q, q.timers[0]);
      HandleReadIdle(q, now, clocks, adds);
    }
  }

  lemma HandleReadEmpty(q: Queue, now: Time, clocks: seq<Time>, adds: seq<seq<NewTimer>>)
    requires q.timers == []
    ensures HandleRead(q, now, clocks, adds) == q.(fired := None)
  {
    assert q.timers[0..] == q.timers;
  }

  lemma HandleReadIdle(q: Queue, now: Time, clocks: seq<Time>, adds: seq<seq<NewTimer>>)
    requires q.timers != [] && !Less(q.timers[0], Entry(now, 0))
    ensures HandleRead(q, now, clocks, adds) == q.(fired := None)
  {
    assert q.timers[0..] == q.timers;
  }

  /** One timer, its alarm handled at exactly its own time: nothing runs and nothing is set. */
  lemma HandledOnTheDotStalls(when: Time, clock: Time, clocks: seq<Time>)
    ensures var q := AddTimer(New, NewTimer(1, when, 0.0, clock));
            var fired := q.(armed := None, fired := Some(q.armed.value.deadline));
            var t := HandleRead(fired, when, clocks, []);
            ArmedOk(fired) && t.timers == q.timers && t.armed.None? && t.fired.None? && t.log == []
  {
    var q := AddTimer(New, NewTimer(1, when, 0.0, clock));
    assert q.timers == [Entry(when, 1)];
    var fired := q.(armed := None, fired := Some(q.armed.value.deadline));
    assert ExpiredCount(fired.timers, when) == 0;
    assert fired.timers[0..] == fired.timers;
  }

  // ---------------------------------------------------------------- the log

  function Count(log: seq<Firing>, id: TimerId): nat {
    if log == [] then 0 else Count(log[..|log| - 1], id) + if log[|log| - 1].id == id then 1 else 0
  }

  lemma {:induction false} CountSum(a: seq<Firing>, b: seq<Firing>, id: TimerId)
    ensures Count(a + b, id) == Count(a, id) + Count(b, id)
  {
    if b == [] {
      assert a + b == a;
    } else {
      assert (a + b)[..|a + b| - 1] == a + b[..|b| - 1];
      CountSum(a, b[..|b| - 1], id);
    }
  }

  lemma {:induction false} CountFirings(es: seq<Entry>, now: Time, id: TimerId)
    requires forall i, j :: 0 <= i < j < |es| ==> es[i].id != es[j].id
    ensures Count(Firings(es, now), id) == if exists i :: 0 <= i < |es| && es[i].id == id then 1 else 0
  {
    if es == [] {
    } else {
      var n := |es| - 1;
      assert Firings(es, now)[..n] == Firings(es[..n], now);
      CountFirings(es[..n], now, id);
      if i :| 0 <= i < n && es[i].id == id { assert es[..n][i].id == id; }
    }
  }

  /** A timer has been restarted once for each time its callback ran since it was added. */
  ghost predicate Counted(log: seq<Firing>, t: Timer, id: TimerId) {
    t.born <= |log| && Count(log[t.born..], id) == t.fires
  }

  /** No callback ran early, and the restarts of every timer are counted. */
  ghost predicate LogOk(q: Queue) {
    && (forall i :: 0 <= i < |q.log| ==> q.log[i].due < q.log[i].at)
    && (forall id :: id in q.heap ==> Counted(q.log, q.heap[id], id))
  }

  lemma {:induction false} NeverFired(log: seq<Firing>, id: TimerId)
    requires forall i :: 0 <= i < |log| ==> log[i].id != id
    ensures Count(log, id) == 0
  {
    if log == [] {
    } else {
      NeverFired(log[..|log| - 1], id);
    }
  }

  lemma AddLog(q: Queue, n: NewTimer)
    requires LogOk(q) && FreshTimer(q, n)
    ensures LogOk(AddTimer(q, n))
  {
    assert q.log[|q.log|..] == [];
  }

  /**
   One `handleRead` runs exactly the timers due strictly before `now`, once each, earliest first.
   */
  lemma HandleReadRuns(q: Queue, now: Time, clocks: seq<Time>, adds: seq<seq<NewTimer>>)
    requires Placed(q, [])
    requires FreshAdds(TakeExpired(q, now), q.timers[..ExpiredCount(q.timers, now)], adds, now)
    ensures var expired := q.timers[..ExpiredCount(q.timers, now)];
            && HandleRead(q, now, clocks, adds).log == q.log + Firings(expired, now)
            && Sorted(expired)
            && (forall id :: id in q.heap ==>
                  (q.heap[id].expiration < now <==> Entry(q.heap[id].expiration, id) in expired))
  {
    hide FreshAdds;
    var expired := q.timers[..ExpiredCount(q.timers, now)];
    var taken := TakeExpired(q, now);
    CallbacksEffect(taken, expired, adds, now, |expired|, 0);
    assert expired[..|expired|] == expired;
    TakePlaced(q, now);
    ResetEffect(Callbacks(taken, expired, adds, now, |expired|), expired, clocks, |expired|, 0);
    forall id | id in q.heap
      ensures q.heap[id].expiration < now <==> Entry(q.heap[id].expiration, id) in expired
    {
      ExpiredExactly(q.timers, now, Entry(q.heap[id].expiration, id));
    }
  }

  /** The count of a timer that was there before. */
  lemma CountedOn(log: seq<Firing>, es: seq<Entry>, now: Time, t: Timer, id: TimerId)
    requires Counted(log, t, id) && forall i, j :: 0 <= i < j < |es| ==> es[i].id != es[j].id
    ensures var fired := exists i :: 0 <= i < |es| && es[i].id == id;
            Counted(log + Firings(es, now), if fired then Restart(t) else t, id)
  {
    hide Count, Firings;
    SuffixSum(log, Firings(es, now), t.born);
    CountSum(log[t.born..], Firings(es, now), id);
    CountFirings(es, now, id);
  }

  lemma SuffixSum(a: seq<Firing>, b: seq<Firing>, k: nat)
    requires k <= |a|
    ensures (a + b)[k..] == a[k..] + b
  {
  }

  /** The count of a timer that a callback has added. */
  lemma CountedNew(log: seq<Firing>, es: seq<Entry>, now: Time, t: Timer, id: TimerId)
    requires t.fires == 0 && |log| <= t.born <= |log| + |es|
    requires forall i :: 0 <= i < |es| ==> es[i].id != id
    ensures Counted(log + Firings(es, now), t, id)
  {
    NeverFired((log + Firings(es, now))[t.born..], id);
  }

  lemma HandleReadCounts(q: Queue, now: Time, clocks: seq<Time>, adds: seq<seq<NewTimer>>, id: TimerId)
    requires Placed(q, []) && LogOk(q)
    requires FreshAdds(TakeExpired(q, now), q.timers[..ExpiredCount(q.timers, now)], adds, now)
    ensures var t := HandleRead(q, now, clocks, adds);
            id in t.heap ==> Counted(t.log, t.heap[id], id)
  {
    hide FreshAdds, Sorted, Counted;
    var expired := q.timers[..ExpiredCount(q.timers, now)];
    var taken := TakeExpired(q, now);
    CallbacksEffect(taken, expired, adds, now, |expired|, id);
    HandleReadRuns(q, now, clocks, adds);
    TakePlaced(q, now);
    ResetEffect(Callbacks(taken, expired, adds, now, |expired|), expired, clocks, |expired|, id);
    var t := HandleRead(q, now, clocks, adds);
    forall i | 0 <= i < |expired|
      ensures expired[i].id in q.heap
    {
      assert EntryOk(taken, expired[i]);
    }
    if id in q.heap {
      CountedOn(q.log, expired, now, q.heap[id], id);
    } else if id in t.heap {
      CountedNew(q.log, expired, now, t.heap[id], id);
    }
  }

  lemma HandleReadLog(q: Queue, now: Time, clocks: seq<Time>, adds: seq<seq<NewTimer>>)
    requires Placed(q, []) && LogOk(q)
    requires FreshAdds(TakeExpired(q, now), q.timers[..ExpiredCount(q.timers, now)], adds, now)
    ensures LogOk(HandleRead(q, now, clocks, adds))
  {
    hide FreshAdds, HandleRead, Counted;
    var expired := q.timers[..ExpiredCount(q.timers, now)];
    var t := HandleRead(q, now, clocks, adds);
    HandleReadRuns(q, now, clocks, adds);
    forall id | id in t.heap
      ensures Counted(t.log, t.heap[id], id)
    {
      HandleReadCounts(q, now, clocks, adds, id);
    }
    forall i | 0 <= i < |t.log|
      ensures t.log[i].due < t.log[i].at
    {
      if i >= |q.log| { assert Less(expired[i - |q.log|], Entry(now, 0)); }
    }
  }

  // ---------------------------------------------------------------- every run

  datatype Event =
    | Add(n: NewTimer)
    | Fire
    | Handle(now: Time, clocks: seq<Time>, adds: seq<seq<NewTimer>>)

  /** An alarm that has fired may be handled at any clock reading. */
  ghost predicate Possible(q: Queue, e: Event) {
    match e
    case Add(n) => FreshTimer(q, n)
    case Fire => q.armed.Some?
    case Handle(now, clocks, adds) =>
      && q.fired.Some?
      && FreshAdds(TakeExpired(q, now), q.timers[..ExpiredCount(q.timers, now)], adds, now)
  }

  function Step(q: Queue, e: Event): Queue
    requires e.Fire? ==> q.armed.Some?
  {
    match e
    case Add(n) => AddTimer(q, n)
    case Fire => q.(armed := None, fired := Some(q.armed.value.deadline))
    case Handle(now, clocks, adds) => HandleRead(q, now, clocks, adds)
  }

  /** Every timer is in its place and accounted for. */
  ghost predicate Sound(q: Queue) {
    Placed(q, []) && LogOk(q)
  }

  ghost predicate Inv(q: Queue) {
    Sound(q) && ArmedOk(q)
  }

  lemma StepSound(q: Queue, e: Event)
    requires Sound(q) && Possible(q, e)
    ensures Sound(Step(q, e))
  {
    hide FreshAdds, LogOk;
    match e
    case Add(n) =>
      AddPlaced(q, n, []);
      AddLog(q, n);
    case Fire =>
      SamePlaces(q, Step(q, e), []);
      FireLog(q);
    case Handle(now, clocks, adds) =>
      HandleReadPlaced(q, now, clocks, adds);
      HandleReadLog(q, now, clocks, adds);
  }

  lemma FireLog(q: Queue)
    requires LogOk(q) && q.armed.Some?
    ensures LogOk(Step(q, Fire))
  {
  }

  /** Exactly an alarm handled too early leaves a queue without its alarm. */
  lemma StepArmsIff(q: Queue, e: Event)
    requires Inv(q) && Possible(q, e)
    ensures ArmedOk(Step(q, e)) <==> (e.Handle? ==> Prompt(q, e.now))
  {
    hide FreshAdds, LogOk, HandleRead;
    match e
    case Add(n) => AddArmed(q, n);
    case Fire =>
    case Handle(now, clocks, adds) => HandleReadArmsIff(q, now, clocks, adds);
  }

  ghost predicate Run(qs: seq<Queue>, es: seq<Event>) {
    && |qs| == |es| + 1 && qs[0] == New
    && forall i :: 0 <= i < |es| ==> Possible(qs[i], es[i]) && qs[i + 1] == Step(qs[i], es[i])
  }

  /** No alarm among the first `k` events is handled too early. */
  ghost predicate PromptUpTo(qs: seq<Queue>, es: seq<Event>, k: nat)
    requires k <= |es| <= |qs|
  {
    forall i :: 0 <= i < k && es[i].Handle? ==> Prompt(qs[i], es[i].now)
  }

  /** In every run, alarms handled early included, the timers are in place and the log is truthful. */
  lemma {:induction false} RunSound(qs: seq<Queue>, es: seq<Event>, k: nat)
    requires Run(qs, es) && k <= |es|
    ensures Sound(qs[k])
  {
    hide Sound, Step, Possible;
    if k == 0 {
      NewKeeps();
    } else {
      RunSound(qs, es, k - 1);
      StepSound(qs[k - 1], es[k - 1]);
    }
  }

  lemma NewKeeps()
    ensures Sound(New) && ArmedOk(New)
  {
  }

  lemma {:induction false} RunKeeps(qs: seq<Queue>, es: seq<Event>, k: nat)
    requires Run(qs, es) && k <= |es| && PromptUpTo(qs, es, k)
    ensures Inv(qs[k])
  {
    hide Sound, ArmedOk, Step, Possible, Prompt;
    RunSound(qs, es, k);
    if k == 0 {
      NewKeeps();
    } else {
      RunKeeps(qs, es, k - 1);
      StepArmsIff(qs[k - 1], es[k - 1]);
    }
  }

  /** The queue has its alarm all along a run if and only if no alarm is handled too early. */
  lemma {:induction false} AlarmSetIff(qs: seq<Queue>, es: seq<Event>, k: nat)
    requires Run(qs, es) && k <= |es|
    ensures (forall j :: 0 <= j <= k ==> ArmedOk(qs[j])) <==> PromptUpTo(qs, es, k)
  {
    hide Sound, ArmedOk, Step, Possible, Prompt;
    if PromptUpTo(qs, es, k) {
      forall j | 0 <= j <= k
        ensures ArmedOk(qs[j])
      {
        RunKeeps(qs, es, j);
      }
    } else {
      AlarmSetIff(qs, es, k - 1);
      if PromptUpTo(qs, es, k - 1) {
        RunKeeps(qs, es, k - 1);
        StepArmsIff(qs[k - 1], es[k - 1]);
        assert !ArmedOk(qs[k]);
      }
    }
  }

  /** Handling every alarm at a clock reading strictly after its deadline is prompt enough. */
  lemma {:induction false} AfterDeadlineIsPrompt(qs: seq<Queue>, es: seq<Event>, k: nat)
    requires Run(qs, es) && k <= |es|
    requires forall i :: 0 <= i < k && es[i].Handle? ==> qs[i].fired.Some? && qs[i].fired.value < es[i].now
    ensures PromptUpTo(qs, es, k)
  {
    hide Sound, Step, Possible;
    if k == 0 {
    } else {
      AfterDeadlineIsPrompt(qs, es, k - 1);
      RunKeeps(qs, es, k - 1);
    }
  }

  /**
   In every run: nothing was run early, and a timer whose callback has run `j` times since it was
   added stands in the queue under exactly `start + j * delta`, not before the head of the queue;
   and when no alarm was handled too early, an alarm is set for that head or has just gone off.
   */
  lemma TimersOnSchedule(qs: seq<Queue>, es: seq<Event>, k: nat, id: TimerId)
    requires Run(qs, es) && k <= |es| && id in qs[k].heap
    ensures qs[k].heap[id].born <= |qs[k].log|
    ensures var q := qs[k];
            var t := q.heap[id];
            var due := t.start + Count(q.log[t.born..], id) * t.delta;
            && Entry(due, id) in q.timers && q.timers[0].when <= due
            && (forall i :: 0 <= i < |q.log| ==> q.log[i].due < q.log[i].at)
    ensures PromptUpTo(qs, es, k) ==> ArmedOk(qs[k])
  {
    hide Step, Possible, Prompt;
    RunSound(qs, es, k);
    if PromptUpTo(qs, es, k) { RunKeeps(qs, es, k); }
    var q := qs[k];
    assert OnSchedule(q.heap[id]) && Counted(q.log, q.heap[id], id);
    var e := Entry(q.heap[id].expiration, id);
    assert e in q.timers;
    var i :| 0 <= i < |q.timers| && q.timers[i] == e;
    assert i > 0 ==> Less(q.timers[0], q.timers[i]);
  }

  /** Right after an alarm is handled, a queue that holds timers has its next alarm set for the earliest. */
  lemma ArmedAfterHandling(qs: seq<Queue>, es: seq<Event>, k: nat)
    requires Run(qs, es) && k < |es| && es[k].Handle? && qs[k + 1].timers != [] && PromptUpTo(qs, es, k + 1)
    ensures qs[k + 1].armed.Some? && qs[k + 1].armed.value.target == qs[k + 1].timers[0].when
  {
    hide Step, Possible, Prompt;
    RunKeeps(qs, es, k);
    RunKeeps(qs, es, k + 1);
    HandleClears(qs[k], es[k]);
  }

  lemma HandleClears(q: Queue, e: Event)
    requires Inv(q) && e.Handle? && Possible(q, e)
    ensures Step(q, e).fired.None?
  {
    var expired := q.timers[..ExpiredCount(q.timers, e.now)];
    var taken := TakeExpired(q, e.now);
    CallbacksEffect(taken, expired, e.adds, e.now, |expired|, 0);
    TakePlaced(q, e.now);
    ResetEffect(Callbacks(taken, expired, e.adds, e.now, |expired|), expired, e.clocks, |expired|, 0);
  }

}

/** The timer queue object, with the loops of the source. */
module TimerQueue {
  import opened Wrappers
  import opened TimerSpec

  class TimerQueue {
    var timers: seq<Entry>
    var heap: map<TimerId, Timer>
    var armed: Option<Alarm>
    var fired: Option<Time>
    var log: seq<Firing>

    ghost function View(): Queue
      reads this
    {
      Queue(timers, heap, armed, fired, log)
    }

    constructor ()
      ensures View() == New && Inv(View())
    {
      timers, heap, armed, fired := [], map[], None, None;
      log := [];
    }

    method InsertTimer(id: TimerId) returns (earliestChanged: bool)
      requires id in heap
      modifies `timers
      ensures earliestChanged == Earliest(old(timers), heap[id].expiration)
      ensures timers == Insert(old(timers), Entry(heap[id].expiration, id))
    {
      var when := heap[id].expiration;
      earliestChanged := timers == [] || when < timers[0].when;
      var e := Entry(when, id);
      var i := 0;
      while i < |timers| && Less(timers[i], e)
        invariant i <= |timers| && forall j :: 0 <= j < i ==> Less(timers[j], e)
      {
        i := i + 1;
      }
      InsertAt(timers, e, i);
      if i == |timers| || timers[i] != e {
        timers := timers[..i] + [e] + timers[i..];
      }
    }

    method ResetTimerfd(expiration: Time, clock: Time)
      modifies `armed
      ensures armed == Some(Arm(expiration, clock)) && armed.value.target == expiration
      ensures armed.value.deadline >= expiration && armed.value.deadline >= clock + 100
      ensures armed.value.deadline == expiration || armed.value.deadline == clock + 100
    {
      var dif := expiration - clock;
      if dif < 100 {
        dif := 100;
      }
      armed := Some(Alarm(expiration, clock + dif));
    }

    method AddTimerInLoop(n: NewTimer)
      requires FreshTimer(View(), n)
      modifies this
      ensures View() == AddTimer(old(View()), n)
      ensures old(Inv(View())) ==> Inv(View())
    {
      hide Inv, FreshTimer, Arm;
      if Inv(View()) { AddKeeps(View(), n); }
      AddOne(n);
    }

    method AddOne(n: NewTimer)
      modifies this
      ensures View() == AddTimer(old(View()), n)
    {
      heap := heap[n.id := Create(n, |log|)];
      var earliestChanged := InsertTimer(n.id);
      if earliestChanged {
        ResetTimerfd(heap[n.id].expiration, n.clock);
      }
    }

    method GetExpired(now: Time) returns (expired: seq<Entry>)
      modifies `timers
      ensures expired == old(timers)[..ExpiredCount(old(timers), now)]
      ensures timers == old(timers)[ExpiredCount(old(timers), now)..]
    {
      var sentry := Entry(now, 0);
      var k := 0;
      while k < |timers| && Less(timers[k], sentry)
        invariant k <= |timers| && forall j :: 0 <= j < k ==> Less(timers[j], sentry)
      {
        k := k + 1;
      }
      ExpiredIs(timers, now, k);
      expired := timers[..k];
      timers := timers[k..];
    }

    method ResetTimers(expired: seq<Entry>, clocks: seq<Time>)
      requires Placed(View(), expired)
      modifies this
      ensures View() == Reset(old(View()), expired, clocks, |expired|)
    {
      hide Arm, Insert;
      ghost var q := View();
      var i := 0;
      while i < |expired|
        invariant i <= |expired| && View() == Reset(q, expired, clocks, i)
      {
        ResetReady(q, expired, clocks, i);
        var id := expired[i].id;
        if heap[id].repeat {
          heap := heap[id := Restart(heap[id])];
          var earliestChanged := InsertTimer(id);
        } else {
          heap := heap - {id};
        }
        if timers != [] {
          ResetTimerfd(heap[timers[0].id].expiration, ClockAt(clocks, i));
        }
        i := i + 1;
      }
    }

    /**
     `adds` lists the timers that the callback of each expired timer adds, `clocks` the readings of
     the clock in `reset`. The alarm may be handled at any time; the next one is set exactly if it
     is handled promptly.
     */
    method HandleRead(now: Time, clocks: seq<Time>, adds: seq<seq<NewTimer>>)
      requires Placed(View(), [])
      requires FreshAdds(TakeExpired(View(), now), timers[..ExpiredCount(timers, now)], adds, now)
      modifies this
      ensures View() == TimerSpec.HandleRead(old(View()), now, clocks, adds) && Placed(View(), [])
      ensures old(Inv(View())) ==> (Inv(View()) <==> Prompt(old(View()), now))
    {
      hide Inv, Placed, FreshAdds, Callbacks, Reset, Prompt;
      ghost var q := View();
      if Inv(q) { HandleKeepsIff(q, now, clocks, adds); }
      HandleReadPlaced(q, now, clocks, adds);
      HandleReady(q, now, adds);
      fired := None;
      var expired := GetExpired(now);
      RunCallbacks(expired, adds, now);
      ResetTimers(expired, clocks);
    }

    method RunCallbacks(expired: seq<Entry>, adds: seq<seq<NewTimer>>, now: Time)
      modifies this
      ensures View() == Callbacks(old(View()), expired, adds, now, |expired|)
    {
      var i := 0;
      while i < |expired|
        invariant i <= |expired| && View() == Callbacks(old(View()), expired, adds, now, i)
      {
        log := log + [Firing(expired[i].id, expired[i].when, now)];
        RunCallback(AddsOf(adds, i));
        i := i + 1;
      }
    }

    method RunCallback(ns: seq<NewTimer>)
      modifies this
      ensures View() == AddTimers(old(View()), ns, |ns|)
    {
      var i := 0;
      while i < |ns|
        invariant i <= |ns| && View() == AddTimers(old(View()), ns, i)
      {
        AddOne(ns[i]);
        i := i + 1;
      }
    }
  }

  lemma AddKeeps(q: Queue, n: NewTimer)
    requires Inv(q) && FreshTimer(q, n)
    ensures Inv(AddTimer(q, n))
  {
    StepSound(q, Add(n));
    AddArmed(q, n);
  }

  lemma HandleKeepsIff(q: Queue, now: Time, clocks: seq<Time>, adds: seq<seq<NewTimer>>)
    requires Inv(q)
    requires FreshAdds(TakeExpired(q, now), q.timers[..ExpiredCount(q.timers, now)], adds, now)
    ensures Inv(HandleRead(q, now, clocks, adds)) <==> Prompt(q, now)
  {
    hide FreshAdds, LogOk, Prompt, HandleRead;
    HandleReadPlaced(q, now, clocks, adds);
    HandleReadLog(q, now, clocks, adds);
    HandleReadArmsIff(q, now, clocks, adds);
  }

  /** Inserting in front of the first entry that is not before `e`. */
  lemma {:induction false} InsertAt(ts: seq<Entry>, e: Entry, i: nat)
    requires i <= |ts| && (forall j :: 0 <= j < i ==> Less(ts[j], e)) && (i < |ts| ==> !Less(ts[i], e))
    ensures Insert(ts, e) == if i < |ts| && ts[i] == e then ts else ts[..i] + [e] + ts[i..]
  {
    if i == 0 {
      assert [] + [e] + ts == [e] + ts;
    } else {
      InsertAt(ts[1..], e, i - 1);
      SpliceAt(ts, e, i);
    }
  }

  lemma SpliceAt(ts: seq<Entry>, e: Entry, i: nat)
    requires 0 < i <= |ts|
    ensures [ts[0]] + (ts[1..][..i - 1] + [e] + ts[1..][i - 1..]) == ts[..i] + [e] + ts[i..]
    ensures [ts[0]] + ts[1..] == ts
  {
  }

  lemma {:induction false} ExpiredIs(ts: seq<Entry>, now: Time, k: nat)
    requires k <= |ts| && (forall j :: 0 <= j < k ==> Less(ts[j], Entry(now, 0)))
    requires k < |ts| ==> !Less(ts[k], Entry(now, 0))
    ensures ExpiredCount(ts, now) == k
  {
    if k == 0 {
    } else {
      ExpiredIs(ts[1..], now, k - 1);
    }
  }

  /** A round of `reset` finds its timer, and afterwards the head of the queue is a timer that exists. */
  lemma ResetReady(q: Queue, expired: seq<Entry>, clocks: seq<Time>, i: nat)
    requires Placed(q, expired) && i < |expired|
    ensures var before := Reset(q, expired, clocks, i);
            && expired[i].id in before.heap
            && var after := Reset(q, expired, clocks, i + 1);
               after.timers != [] ==> after.timers[0].id in after.heap
  {
    ResetPlaced(q, expired, clocks, i);
    ResetPlaced(q, expired, clocks, i + 1);
    var before := Reset(q, expired, clocks, i);
    assert expired[i..][0] == expired[i];
    assert EntryOk(before, expired[i]);
    var after := Reset(q, expired, clocks, i + 1);
    if after.timers != [] { assert EntryOk(after, after.timers[0]); }
  }

  lemma HandleReady(q: Queue, now: Time, adds: seq<seq<NewTimer>>)
    requires Placed(q, [])
    requires FreshAdds(TakeExpired(q, now), q.timers[..ExpiredCount(q.timers, now)], adds, now)
    ensures var expired := q.timers[..ExpiredCount(q.timers, now)];
            Placed(Callbacks(TakeExpired(q, now), expired, adds, now, |expired|), expired)
  {
    hide Placed, FreshAdds;
    TakePlaced(q, now);
    var expired := q.timers[..ExpiredCount(q.timers, now)];
    CallbacksPlaced(TakeExpired(q, now), expired, adds, now, |expired|);
  }

}
