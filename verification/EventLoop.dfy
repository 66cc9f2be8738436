/**
 The task queue of an event loop, as interleaved steps of the loop's own thread and of any number
 of foreign threads. A push happens under the mutex and is one step; the wakeup that follows it is
 another, and anything may happen in between.
 */
module EventLoop {

  type Functor = nat
  type ThreadId = nat

  /** The largest value an eventfd counter can hold. */
  const EVENTFD_MAX: nat := 0xffff_ffff_ffff_fffe

  /**
   Where the loop thread stands: not looping yet, in `epoll_wait`, handling the events it returned
   (the wakeup channel among them when `wake`), about to swap the queue, running the batch, or
   between a push made by a running functor and its wakeup.
   */
  datatype Pc = BeforeLoop | Polling | Dispatching(wake: bool) | Swapping | Running | Pushed

  /** `foreign` holds the threads between their push and their wakeup. */
  datatype Loop = Loop(
    pc: Pc, calling: bool, pending: seq<Functor>, batch: seq<Functor>, counter: nat,
    foreign: set<ThreadId>, executed: seq<Functor>, enqueued: seq<Functor>)

  const New: Loop := Loop(BeforeLoop, false, [], [], 0, {}, [], [])

  datatype Event =
    | OwnerPushEarly(f: Functor)               // queueInLoop by the owner before loop()
    | StartLoop
    | PollReturns(wake: bool)
    | HandleRead                               // read the eventfd
    | LoopPush(f: Functor)                     // queueInLoop by a callback or a running functor
    | LoopWake
    | EnterPending                             // callingPendingFunctors_ = true
    | Swap
    | RunNext
    | LeavePending
    | ForeignPush(t: ThreadId, f: Functor)
    | ForeignWake(t: ThreadId)

  predicate Possible(s: Loop, e: Event) {
    match e
    case OwnerPushEarly(_) => s.pc == BeforeLoop
    case StartLoop => s.pc == BeforeLoop
    case PollReturns(wake) => s.pc == Polling && (wake ==> s.counter > 0)
    case HandleRead => s.pc == Dispatching(true)
    case LoopPush(_) => s.pc.Dispatching? || s.pc == Running
    case LoopWake => s.pc == Pushed
    case EnterPending => s.pc == Dispatching(false)
    case Swap => s.pc == Swapping
    case RunNext => s.pc == Running && s.batch != []
    case LeavePending => s.pc == Running && s.batch == []
    case ForeignPush(t, _) => t !in s.foreign
    case ForeignWake(t) => t in s.foreign
  }

  function Push(s: Loop, f: Functor): Loop {
    s.(pending := s.pending + [f], enqueued := s.enqueued + [f])
  }

  /** `write(wakeupFd_, 1)`: a full counter stays full. */
  function Wakeup(s: Loop): Loop {
    if s.counter < EVENTFD_MAX then s.(counter := s.counter + 1) else s
  }

  function Step(s: Loop, e: Event): Loop
    requires Possible(s, e)
  {
    match e
    case OwnerPushEarly(f) => Push(s, f)
    case StartLoop => s.(pc := Polling)
    case PollReturns(wake) => s.(pc := Dispatching(wake))
    case HandleRead => s.(pc := Dispatching(false), counter := 0)
    case LoopPush(f) => if s.calling then Push(s, f).(pc := Pushed) else Push(s, f)
    case LoopWake => Wakeup(s).(pc := Running)
    case EnterPending => s.(pc := Swapping, calling := true)
    case Swap => s.(pc := Running, batch := s.pending, pending := [])
    case RunNext => s.(executed := s.executed + [s.batch[0]], batch := s.batch[1..])
    case LeavePending => s.(pc := Polling, calling := false)
    case ForeignPush(t, f) => Push(s, f).(foreign := s.foreign + {t})
    case ForeignWake(t) => Wakeup(s).(foreign := s.foreign - {t})
  }

  // ---------------------------------------------------------------- order

  /** Executed, then the rest of the batch, then the queue: exactly what was enqueued, in order. */
  ghost predicate Fifo(s: Loop) {
    && s.executed + s.batch + s.pending == s.enqueued
    && (s.batch != [] ==> s.pc == Running || s.pc == Pushed)
    && (s.calling <==> s.pc in {Swapping, Running, Pushed})
  }

  lemma StepFifo(s: Loop, e: Event)
    requires Fifo(s) && Possible(s, e)
    ensures Fifo(Step(s, e))
  {
    match e
    case RunNext =>
      assert s.batch == [s.batch[0]] + s.batch[1..];
      assert s.executed + [s.batch[0]] + s.batch[1..] == s.executed + s.batch;
    case Swap =>
      assert s.executed + [] + s.pending == s.executed + s.pending + [];
    case OwnerPushEarly(f) => PushFifo(s, f);
    case LoopPush(f) => PushFifo(s, f);
    case ForeignPush(_, f) => PushFifo(s, f);
    case _ =>
  }

  lemma PushFifo(s: Loop, f: Functor)
    requires s.executed + s.batch + s.pending == s.enqueued
    ensures s.executed + s.batch + (s.pending + [f]) == s.enqueued + [f]
  {
  }

  // ---------------------------------------------------------------- wakeups

  /** Something will make `epoll_wait` return: a positive counter, or a producer about to raise it. */
  predicate WakeupComing(s: Loop) {
    s.counter > 0 || s.foreign != {} || s.pc == Pushed
  }

  /** Work queued while nobody is going to look at the queue before the next poll. */
  ghost predicate Awake(s: Loop) {
    && (s.calling <==> s.pc in {Swapping, Running, Pushed})
    && (s.pc in {BeforeLoop, Polling, Running, Pushed} && s.pending != [] ==> WakeupComing(s))
  }

  lemma StepAwake(s: Loop, e: Event)
    requires Awake(s) && Possible(s, e) && !e.OwnerPushEarly?
    ensures Awake(Step(s, e))
  {
    match e
    case ForeignPush(t, f) => assert t in Step(s, e).foreign;
    case _ =>
  }

  // ---------------------------------------------------------------- every interleaving

  ghost predicate Run(ss: seq<Loop>, es: seq<Event>) {
    && |ss| == |es| + 1 && ss[0] == New
    && forall i :: 0 <= i < |es| ==> Possible(ss[i], es[i]) && ss[i + 1] == Step(ss[i], es[i])
  }

  /** The functors that the first `k` events hand over, in the order in which the mutex was taken. */
  function Pushes(es: seq<Event>, k: nat): seq<Functor>
    requires k <= |es|
  {
    if k == 0 then []
    else Pushes(es, k - 1) + match es[k - 1]
                             case OwnerPushEarly(f) => [f]
                             case LoopPush(f) => [f]
                             case ForeignPush(_, f) => [f]
                             case _ => []
  }

  lemma {:induction false} EnqueuedIsPushes(ss: seq<Loop>, es: seq<Event>, k: nat)
    requires Run(ss, es) && k <= |es|
    ensures ss[k].enqueued == Pushes(es, k)
  {
    if k == 0 {
    } else {
      EnqueuedIsPushes(ss, es, k - 1);
      assert ss[k] == Step(ss[k - 1], es[k - 1]);
    }
  }

  /**
   Under every interleaving: what has run, then the rest of the batch, then the queue are exactly
   the functors handed over, in order; so what has run is a prefix of them, each functor once.
   */
  lemma {:induction false} RunFifo(ss: seq<Loop>, es: seq<Event>, k: nat)
    requires Run(ss, es) && k <= |es|
    ensures Fifo(ss[k])
    ensures ss[k].executed + ss[k].batch + ss[k].pending == Pushes(es, k)
    ensures ss[k].executed <= Pushes(es, k)
  {
    hide Step, Possible, Pushes;
    EnqueuedIsPushes(ss, es, k);
    if k == 0 {
    } else {
      RunFifo(ss, es, k - 1);
      StepFifo(ss[k - 1], es[k - 1]);
    }
  }

  /** The wakeups written since the eventfd was last read, as far as its counter can hold them. */
  function WakeupsUnread(es: seq<Event>, k: nat): nat
    requires k <= |es|
  {
    if k == 0 then 0
    else
      var before := WakeupsUnread(es, k - 1);
      match es[k - 1]
      case HandleRead => 0
      case LoopWake => if before < EVENTFD_MAX then before + 1 else before
      case ForeignWake(_) => if before < EVENTFD_MAX then before + 1 else before
      case _ => before
  }

  /** The counter holds exactly the wakeups not read yet. */
  lemma {:induction false} CounterIsUnread(ss: seq<Loop>, es: seq<Event>, k: nat)
    requires Run(ss, es) && k <= |es|
    ensures ss[k].counter == WakeupsUnread(es, k)
  {
    if k == 0 {
    } else {
      CounterIsUnread(ss, es, k - 1);
      assert ss[k] == Step(ss[k - 1], es[k - 1]);
    }
  }

  /** Everything enqueued by event `i` is still enqueued later: the order of arrival is fixed. */
  lemma {:induction false} EnqueuedGrows(ss: seq<Loop>, es: seq<Event>, i: nat, k: nat)
    requires Run(ss, es) && i <= k < |ss|
    ensures ss[i].enqueued <= ss[k].enqueued && ss[i].executed <= ss[k].executed
    decreases k
  {
    if i == k {
    } else {
      EnqueuedGrows(ss, es, i, k - 1);
      assert ss[k] == Step(ss[k - 1], es[k - 1]);
    }
  }

  /**
   From the swap to the end of a batch the functors executed are the ones swapped out, whatever is
   queued meanwhile by them or by others.
   */
  lemma {:induction false} BatchIsFixed(ss: seq<Loop>, es: seq<Event>, i: nat, k: nat)
    requires Run(ss, es) && i <= k < |ss|
    requires forall j :: i <= j <= k ==> ss[j].pc == Running || ss[j].pc == Pushed
    ensures ss[k].executed + ss[k].batch == ss[i].executed + ss[i].batch
    decreases k
  {
    hide Step, Possible;
    if i == k {
    } else {
      BatchIsFixed(ss, es, i, k - 1);
      assert Possible(ss[k - 1], es[k - 1]) && ss[k] == Step(ss[k - 1], es[k - 1]);
      BatchStep(ss[k - 1], es[k - 1]);
    }
  }

  lemma BatchStep(s: Loop, e: Event)
    requires Possible(s, e) && (s.pc == Running || s.pc == Pushed)
    ensures Step(s, e).executed + Step(s, e).batch == s.executed + s.batch
  {
    if e.RunNext? {
      assert s.batch == [s.batch[0]] + s.batch[1..];
      assert s.executed + [s.batch[0]] + s.batch[1..] == s.executed + s.batch;
    }
  }

  lemma SwapTakesAll(s: Loop)
    requires Fifo(s) && s.pc == Swapping
    ensures var t := Step(s, Swap);
            t.executed + t.batch == s.enqueued && t.pending == [] && t.pc == Running
  {
  }

  /**
   A round runs everything: when it ends, exactly the functors handed over before its swap have
   run, and those handed over since then wait for the next round.
   */
  lemma RoundRunsAll(ss: seq<Loop>, es: seq<Event>, i: nat, j: nat)
    requires Run(ss, es) && i < j < |es| && es[i] == Swap && es[j] == LeavePending
    requires forall m :: i < m <= j ==> ss[m].pc == Running || ss[m].pc == Pushed
    ensures ss[j + 1].executed == Pushes(es, i)
    ensures Pushes(es, i) + ss[j + 1].pending == Pushes(es, j + 1)
  {
    hide Pushes;
    RunFifo(ss, es, i);
    EnqueuedIsPushes(ss, es, i);
    assert Possible(ss[i], es[i]) && ss[i + 1] == Step(ss[i], es[i]);
    SwapTakesAll(ss[i]);
    BatchIsFixed(ss, es, i + 1, j);
    assert Possible(ss[j], es[j]) && ss[j + 1] == Step(ss[j], es[j]);
    assert ss[j].executed + [] == ss[j].executed;
    RunFifo(ss, es, j + 1);
    assert ss[j + 1].executed + [] + ss[j + 1].pending == ss[j + 1].executed + ss[j + 1].pending;
  }

  lemma {:induction false} RunAwake(ss: seq<Loop>, es: seq<Event>, k: nat)
    requires Run(ss, es) && k < |ss|
    requires forall i :: 0 <= i < k ==> !es[i].OwnerPushEarly?
    ensures Awake(ss[k])
  {
    hide Step, Possible, Awake;
    if k == 0 {
      NewAwake();
    } else {
      RunAwake(ss, es, k - 1);
      StepAwake(ss[k - 1], es[k - 1]);
    }
  }

  lemma NewAwake()
    ensures Awake(New)
  {
  }

  /** A poll that may sleep although work is queued and no wakeup is on its way. */
  predicate Lost(s: Loop) {
    s.pc == Polling && s.pending != [] && s.counter == 0 && s.foreign == {}
  }

  /** If the owner queues nothing before `loop()`, no interleaving loses a wakeup. */
  lemma NoLostWakeup(ss: seq<Loop>, es: seq<Event>, k: nat)
    requires Run(ss, es) && k < |ss|
    requires forall i :: 0 <= i < k ==> !es[i].OwnerPushEarly?
    ensures !Lost(ss[k])
  {
    RunAwake(ss, es, k);
  }

  /** Until its first poll returns, a loop only collects work and wakeups. */
  lemma {:induction false} Prelude(ss: seq<Loop>, es: seq<Event>, k: nat)
    requires Run(ss, es) && k < |ss|
    requires forall i :: 0 <= i < k ==> !es[i].PollReturns?
    ensures (ss[k].pc == BeforeLoop || ss[k].pc == Polling) && !ss[k].calling
    ensures ss[k].pending != [] <==>
              exists i :: 0 <= i < k && (es[i].OwnerPushEarly? || es[i].ForeignPush?)
    ensures ss[k].counter > 0 || ss[k].foreign != {} <==> exists i :: 0 <= i < k && es[i].ForeignPush?
  {
    if k == 0 {
    } else {
      Prelude(ss, es, k - 1);
      var s, e, t := ss[k - 1], es[k - 1], ss[k];
      assert Possible(s, e) && t == Step(s, e);
      match e
      case OwnerPushEarly(f) => assert t.pending[|s.pending|] == f;
      case ForeignPush(id, f) =>
        assert t.pending[|s.pending|] == f;
        assert id in t.foreign;
      case ForeignWake(id) =>
      case _ =>
    }
  }

  /** Once a poll has returned, no later wakeup is lost, whatever was queued before `loop()`. */
  lemma {:induction false} AwakeAfterPoll(ss: seq<Loop>, es: seq<Event>, k: nat)
    requires Run(ss, es) && k < |ss|
    requires exists i :: 0 <= i < k && es[i].PollReturns?
    ensures Awake(ss[k]) && ss[k].pc != BeforeLoop
  {
    hide Step, Possible, Awake;
    var s, e := ss[k - 1], es[k - 1];
    assert Possible(s, e) && ss[k] == Step(s, e);
    if exists i :: 0 <= i < k - 1 && es[i].PollReturns? {
      AwakeAfterPoll(ss, es, k - 1);
      LoopingStep(s, e);
      StepAwake(s, e);
    } else {
      Prelude(ss, es, k - 1);
      PollReturnsAwake(s, e);
    }
  }

  /** A loop that has started does not become one that has not. */
  lemma LoopingStep(s: Loop, e: Event)
    requires Possible(s, e) && s.pc != BeforeLoop
    ensures !e.OwnerPushEarly? && Step(s, e).pc != BeforeLoop
  {
  }

  lemma PollReturnsAwake(s: Loop, e: Event)
    requires Possible(s, e) && e.PollReturns? && !s.calling
    ensures Awake(Step(s, e)) && Step(s, e).pc != BeforeLoop
  {
  }

  /**
   Exactly when the promise fails: during the first poll, when the owner queued something before
   `loop()` and no other thread has queued anything yet. Nothing then wakes the loop but its
   timeout or some other event.
   */
  lemma LostWakeupIff(ss: seq<Loop>, es: seq<Event>, k: nat)
    requires Run(ss, es) && k < |ss|
    ensures Lost(ss[k]) <==>
              && ss[k].pc == Polling
              && (forall i :: 0 <= i < k ==> !es[i].PollReturns?)
              && (exists i :: 0 <= i < k && es[i].OwnerPushEarly?)
              && (forall i :: 0 <= i < k ==> !es[i].ForeignPush?)
  {
    hide Step, Possible;
    if exists i :: 0 <= i < k && es[i].PollReturns? {
      AwakeAfterPoll(ss, es, k);
    } else {
      Prelude(ss, es, k);
    }
  }

  /** Such a run exists: one early push, then `loop()`. */
  lemma LostWakeupExample() returns (ss: seq<Loop>, es: seq<Event>)
    ensures Run(ss, es) && Lost(ss[|es|])
  {
    es := [OwnerPushEarly(7), StartLoop];
    var s1 := Step(New, es[0]);
    var s2 := Step(s1, es[1]);
    ss := [New, s1, s2];
  }

}
