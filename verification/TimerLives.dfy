/**
 Which timers there are: what adding one creates, which ones survive the handling of an alarm and
 with what expiration, and that a repeating timer, once added, is there for good.
 */
module TimerLives {
  import opened Wrappers
  import opened TimerSpec

  // ---------------------------------------------------------------- adding

  /** `t` is the timer that `n` asks for: due at `when`, repeating every `interval` seconds if positive. */
  predicate AsAsked(t: Timer, n: NewTimer) {
    && t.expiration == n.when && t.start == n.when && t.fires == 0
    && (t.repeat <==> n.interval > 0.0)
    // whole microseconds, rounded down
    && (n.interval > 0.0 ==> t.delta as real <= n.interval * 1000000.0 < t.delta as real + 1.0)
  }

  /** Adding a timer creates the timer asked for, queues it, and changes no other. */
  lemma AddTimerCreates(q: Queue, n: NewTimer, id: TimerId)
    requires Placed(q, []) && FreshTimer(q, n)
    ensures var t := AddTimer(q, n);
            && n.id in t.heap && AsAsked(t.heap[n.id], n) && Entry(n.when, n.id) in t.timers
            && (id != n.id ==> (id in t.heap <==> id in q.heap) && (id in q.heap ==> t.heap[id] == q.heap[id]))
  {
    InsertMembers(q.timers, Entry(n.when, n.id), Entry(n.when, n.id));
  }

  /** The timers a callback adds exist when it returns. */
  lemma {:induction false} AddsCreate(q: Queue, ns: seq<NewTimer>, m: nat, i: nat)
    requires FreshTimers(q, ns) && i < m <= |ns|
    ensures var t := AddTimers(q, ns, m);
            ns[i].id in t.heap && AsAsked(t.heap[ns[i].id], ns[i])
    decreases m
  {
    if i == m - 1 {
    } else {
      AddsCreate(q, ns, m - 1, i);
    }
  }

  lemma RunOneCreates(q: Queue, e: Entry, ns: seq<NewTimer>, now: Time, j: nat)
    requires FreshTimers(q, ns) && j < |ns|
    ensures var t := RunOne(q, e, ns, now);
            ns[j].id !in q.heap && ns[j].id in t.heap && AsAsked(t.heap[ns[j].id], ns[j])
  {
    hide AsAsked, AddTimers;
    assert FreshTimer(q, ns[j]);
    var logged := q.(log := q.log + [Firing(e.id, e.when, now)]);
    assert FreshTimers(logged, ns);
    AddsCreate(logged, ns, |ns|, j);
  }

  lemma {:induction false} CallbacksCreate(
    q: Queue, expired: seq<Entry>, adds: seq<seq<NewTimer>>, now: Time, m: nat, i: nat, j: nat)
    requires i < m <= |expired| && FreshAdds(q, expired, adds, now) && j < |AddsOf(adds, i)|
    ensures var n, t := AddsOf(adds, i)[j], Callbacks(q, expired, adds, now, m);
            n.id !in q.heap && n.id in t.heap && AsAsked(t.heap[n.id], n)
    decreases m
  {
    hide FreshAdds, AsAsked, FreshTimers, RunOne;
    var n := AddsOf(adds, i)[j];
    var before := Callbacks(q, expired, adds, now, m - 1);
    FreshAt(q, expired, adds, now, m - 1);
    if i == m - 1 {
      CallbacksEffect(q, expired, adds, now, m - 1, n.id);
      RunOneCreates(before, expired[i], AddsOf(adds, i), now, j);
    } else {
      CallbacksCreate(q, expired, adds, now, m - 1, i, j);
      RunOneEffect(before, expired[m - 1], AddsOf(adds, m - 1), now, n.id);
    }
  }

  // ---------------------------------------------------------------- handling an alarm

  /** Of the timers handled, exactly the repeating ones are there afterwards, restarted. */
  lemma {:induction false} ResetSurvivors(q: Queue, expired: seq<Entry>, clocks: seq<Time>, m: nat, id: TimerId)
    requires m <= |expired| && id in q.heap
    requires forall i, j :: 0 <= i < j < |expired| ==> expired[i].id != expired[j].id
    ensures var t := Reset(q, expired, clocks, m);
            var handled := exists i :: 0 <= i < m && expired[i].id == id;
            && (id in t.heap <==> !handled || q.heap[id].repeat)
            && (id in t.heap ==> t.heap[id] == if handled then Restart(q.heap[id]) else q.heap[id])
  {
    if m == 0 {
    } else {
      ResetSurvivors(q, expired, clocks, m - 1, id);
    }
  }

  /**
   Handling an alarm deletes exactly the timers that are due and do not repeat. A repeating one that
   is due moves on by exactly its interval and is queued again; the others stay as they are.
   */
  lemma HandleReadSurvivors(q: Queue, now: Time, clocks: seq<Time>, adds: seq<seq<NewTimer>>, id: TimerId)
    requires Placed(q, []) && id in q.heap
    requires FreshAdds(TakeExpired(q, now), q.timers[..ExpiredCount(q.timers, now)], adds, now)
    ensures var t, was := HandleRead(q, now, clocks, adds), q.heap[id];
            && (id in t.heap <==> was.repeat || now <= was.expiration)
            && (id in t.heap ==>
                  && Entry(t.heap[id].expiration, id) in t.timers
                  && t.heap[id] == if was.expiration < now
                                   then was.(expiration := was.expiration + was.delta, fires := was.fires + 1)
                                   else was)
  {
    hide FreshAdds, Sorted, ExpiredCount;
    var expired := q.timers[..ExpiredCount(q.timers, now)];
    var taken := TakeExpired(q, now);
    var ran := Callbacks(taken, expired, adds, now, |expired|);
    CallbacksEffect(taken, expired, adds, now, |expired|, id);
    TakePlaced(q, now);
    ResetSurvivors(ran, expired, clocks, |expired|, id);
    HandleReadPlaced(q, now, clocks, adds);
    DueIsExpired(q, now, id);
  }

  lemma DueIsExpired(q: Queue, now: Time, id: TimerId)
    requires Placed(q, []) && id in q.heap
    ensures var expired := q.timers[..ExpiredCount(q.timers, now)];
            q.heap[id].expiration < now <==> exists i :: 0 <= i < |expired| && expired[i].id == id
  {
    var expired := q.timers[..ExpiredCount(q.timers, now)];
    var e := Entry(q.heap[id].expiration, id);
    ExpiredExactly(q.timers, now, e);
    if i :| 0 <= i < |expired| && expired[i].id == id {
      assert expired[i] in q.timers && EntryOk(q, expired[i]);
      assert expired[i] == e;
    }
  }

  /** A timer that a callback adds while an alarm is handled is there afterwards, as asked for. */
  lemma HandleReadCreates(q: Queue, now: Time, clocks: seq<Time>, adds: seq<seq<NewTimer>>, i: nat, j: nat)
    requires Placed(q, []) && i < ExpiredCount(q.timers, now) && j < |AddsOf(adds, i)|
    requires FreshAdds(TakeExpired(q, now), q.timers[..ExpiredCount(q.timers, now)], adds, now)
    ensures var n, t := AddsOf(adds, i)[j], HandleRead(q, now, clocks, adds);
            n.id in t.heap && AsAsked(t.heap[n.id], n) && Entry(n.when, n.id) in t.timers
  {
    hide FreshAdds, Sorted, ExpiredCount;
    var n := AddsOf(adds, i)[j];
    var expired := q.timers[..ExpiredCount(q.timers, now)];
    var taken := TakeExpired(q, now);
    var ran := Callbacks(taken, expired, adds, now, |expired|);
    CallbacksCreate(taken, expired, adds, now, |expired|, i, j);
    TakePlaced(q, now);
    forall k | 0 <= k < |expired|
      ensures expired[k].id != n.id
    {
      assert EntryOk(taken, expired[k]);
    }
    ResetSurvivors(ran, expired, clocks, |expired|, n.id);
    HandleReadPlaced(q, now, clocks, adds);
  }

  lemma InsertNonEmpty(ts: seq<Entry>, e: Entry)
    ensures Insert(ts, e) != []
  {
  }

  lemma {:induction false} AddsEmpty(q: Queue, ns: seq<NewTimer>, m: nat)
    requires m <= |ns| && AddTimers(q, ns, m).timers == []
    ensures q.timers == [] && AddTimers(q, ns, m).armed == q.armed
  {
    if m == 0 {
    } else {
      InsertNonEmpty(AddTimers(q, ns, m - 1).timers, Entry(ns[m - 1].when, ns[m - 1].id));
    }
  }

  lemma {:induction false} CallbacksEmpty(q: Queue, expired: seq<Entry>, adds: seq<seq<NewTimer>>, now: Time, m: nat)
    requires m <= |expired| && Callbacks(q, expired, adds, now, m).timers == []
    ensures q.timers == [] && Callbacks(q, expired, adds, now, m).armed == q.armed
  {
    if m == 0 {
    } else {
      var before := Callbacks(q, expired, adds, now, m - 1);
      var logged := before.(log := before.log + [Firing(expired[m - 1].id, expired[m - 1].when, now)]);
      AddsEmpty(logged, AddsOf(adds, m - 1), |AddsOf(adds, m - 1)|);
      CallbacksEmpty(q, expired, adds, now, m - 1);
    }
  }

  lemma {:induction false} ResetEmpty(q: Queue, expired: seq<Entry>, clocks: seq<Time>, m: nat)
    requires m <= |expired| && Reset(q, expired, clocks, m).timers == []
    ensures q.timers == [] && Reset(q, expired, clocks, m).armed == q.armed
  {
    if m == 0 {
    } else {
      ResetEmpty(q, expired, clocks, m - 1);
    }
  }

  /** When no timer is left after an alarm was handled, the timerfd has not been touched. */
  lemma EmptyLeavesAlarm(q: Queue, now: Time, clocks: seq<Time>, adds: seq<seq<NewTimer>>)
    requires HandleRead(q, now, clocks, adds).timers == []
    ensures HandleRead(q, now, clocks, adds).armed == q.armed
  {
    var expired := q.timers[..ExpiredCount(q.timers, now)];
    var taken := TakeExpired(q, now);
    ResetEmpty(Callbacks(taken, expired, adds, now, |expired|), expired, clocks, |expired|);
    CallbacksEmpty(taken, expired, adds, now, |expired|);
  }

  // ---------------------------------------------------------------- every run

  /** `t` is the timer `s`, restarted some number of times. */
  predicate Continues(s: Timer, t: Timer) {
    t.repeat == s.repeat && t.delta == s.delta && t.start == s.start && t.born == s.born && s.fires <= t.fires
  }

  lemma RepeatingStep(q: Queue, e: Event, id: TimerId)
    requires Sound(q) && Possible(q, e) && id in q.heap && q.heap[id].repeat
    ensures id in Step(q, e).heap && Continues(q.heap[id], Step(q, e).heap[id])
  {
    hide FreshAdds, LogOk;
    match e
    case Add(n) => AddTimerCreates(q, n, id);
    case Fire =>
    case Handle(now, clocks, adds) => HandleReadSurvivors(q, now, clocks, adds, id);
  }

  /** A repeating timer, once added, is in every later state: it is never dropped. */
  lemma {:induction false} RepeatingStays(qs: seq<Queue>, es: seq<Event>, i: nat, k: nat, id: TimerId)
    requires Run(qs, es) && i <= k <= |es| && id in qs[i].heap && qs[i].heap[id].repeat
    ensures id in qs[k].heap && Continues(qs[i].heap[id], qs[k].heap[id])
    decreases k
  {
    hide Step, Possible, Sound;
    if i == k {
    } else {
      RepeatingStays(qs, es, i, k - 1, id);
      RunSound(qs, es, k - 1);
      RepeatingStep(qs[k - 1], es[k - 1], id);
    }
  }

}
