/**
 The thread pool as interleaved steps of its workers, of threads calling `enqueue`, and of the
 destructor. Everything done under the mutex is one step; a notification sent after the mutex is
 released is a step of its own. A waiting worker may also wake for no reason.
 */
module ThreadPool {

  type Task = nat

  /**
   A worker is about to take the mutex and test its condition, waits on the condition variable,
   runs a task, or has returned.
   */
  datatype Worker = Ready | Parked | Busy(task: Task) | Exited

  /** `owed` counts enqueuers that pushed and have not notified yet; `due` is the destructor's notify_all. */
  datatype Pool = Pool(
    workers: seq<Worker>, tasks: seq<Task>, stop: bool, owed: nat, due: bool,
    accepted: seq<Task>, dequeued: seq<Task>)

  function New(n: nat): Pool {
    Pool(seq(n, _ => Ready), [], false, 0, false, [], [])
  }

  datatype Event =
    | Park(w: nat)
    | Take(w: nat)
    | Finish(w: nat)
    | Exit(w: nat)
    | Spurious(w: nat)
    | Enqueue(task: Task)
    | NotifyOne(w: nat)      // `w` is the worker woken, when any is waiting
    | Stop
    | NotifyAll

  predicate Is(s: Pool, w: nat, k: Worker) {
    w < |s.workers| && s.workers[w] == k
  }

  predicate SomeParked(s: Pool) {
    exists w :: 0 <= w < |s.workers| && s.workers[w] == Parked
  }

  predicate Possible(s: Pool, e: Event) {
    match e
    case Park(w) => Is(s, w, Ready) && !s.stop && s.tasks == []
    case Take(w) => Is(s, w, Ready) && s.tasks != []
    case Finish(w) => w < |s.workers| && s.workers[w].Busy?
    case Exit(w) => Is(s, w, Ready) && s.stop && s.tasks == []
    case Spurious(w) => Is(s, w, Parked)
    case Enqueue(_) => true
    case NotifyOne(w) => s.owed > 0 && (SomeParked(s) ==> Is(s, w, Parked))
    case Stop => !s.stop
    case NotifyAll => s.due
  }

  function Wake(ws: seq<Worker>): (r: seq<Worker>)
    ensures |r| == |ws|
    ensures forall i :: 0 <= i < |ws| ==> r[i] == if ws[i] == Parked then Ready else ws[i]
  {
    seq(|ws|, i requires 0 <= i < |ws| => if ws[i] == Parked then Ready else ws[i])
  }

  function Step(s: Pool, e: Event): Pool
    requires Possible(s, e)
  {
    match e
    case Park(w) => s.(workers := s.workers[w := Parked])
    case Take(w) =>
      s.(workers := s.workers[w := Busy(s.tasks[0])], tasks := s.tasks[1..],
         dequeued := s.dequeued + [s.tasks[0]])
    case Finish(w) => s.(workers := s.workers[w := Ready])
    case Exit(w) => s.(workers := s.workers[w := Exited])
    case Spurious(w) => s.(workers := s.workers[w := Ready])
    case Enqueue(task) =>
      if s.stop then s       // throws
      else s.(tasks := s.tasks + [task], accepted := s.accepted + [task], owed := s.owed + 1)
    case NotifyOne(w) =>
      s.(owed := s.owed - 1, workers := if SomeParked(s) then s.workers[w := Ready] else s.workers)
    case Stop => s.(stop := true, due := true)
    case NotifyAll => s.(due := false, workers := Wake(s.workers))
  }

  // ---------------------------------------------------------------- the invariant

  predicate Awake(k: Worker) {
    k == Ready || k.Busy?
  }

  ghost predicate Inv(s: Pool) {
    // dequeued, then the queue: the accepted tasks in order
    && s.dequeued + s.tasks == s.accepted
    && (Exited in s.workers ==> s.stop && s.tasks == [])
    // nobody stays parked once the stop has been announced
    && (s.stop && Parked in s.workers ==> s.due)
    && (s.due ==> s.stop)
    // queued work has a worker that will look at it, or a notification on its way
    && (s.tasks != [] && s.workers != [] ==>
          s.owed > 0 || exists w :: 0 <= w < |s.workers| && Awake(s.workers[w]))
  }

  lemma Replaced(ws: seq<Worker>, w: nat, k: Worker)
    requires w < |ws|
    ensures var r := ws[w := k];
            && |r| == |ws| && r[w] == k
            && (forall x :: x in r ==> x == k || x in ws)
  {
  }

  lemma StepKeeps(s: Pool, e: Event)
    requires Inv(s) && Possible(s, e)
    ensures Inv(Step(s, e))
  {
    var t := Step(s, e);
    match e
    case Park(w) => Replaced(s.workers, w, Parked);
    case Take(w) =>
      Replaced(s.workers, w, Busy(s.tasks[0]));
      assert s.tasks == [s.tasks[0]] + s.tasks[1..];
      assert s.dequeued + [s.tasks[0]] + s.tasks[1..] == s.dequeued + s.tasks;
      assert Awake(t.workers[w]);
    case Finish(w) =>
      Replaced(s.workers, w, Ready);
      assert Awake(t.workers[w]);
    case Exit(w) => Replaced(s.workers, w, Exited);
    case Spurious(w) =>
      Replaced(s.workers, w, Ready);
      assert Awake(t.workers[w]);
    case Enqueue(task) =>
      assert s.dequeued + (s.tasks + [task]) == (s.dequeued + s.tasks) + [task];
    case NotifyOne(w) => NotifyOneKeeps(s, w);
    case Stop =>
    case NotifyAll => NotifyAllKeeps(s);
  }

  lemma NotifyOneKeeps(s: Pool, w: nat)
    requires Inv(s) && Possible(s, NotifyOne(w))
    ensures Inv(Step(s, NotifyOne(w)))
  {
    var t := Step(s, NotifyOne(w));
    if SomeParked(s) {
      Replaced(s.workers, w, Ready);
      assert Awake(t.workers[w]);
    } else if s.tasks != [] && s.workers != [] {
      assert s.workers[0] in s.workers;
      assert Awake(t.workers[0]);
    }
  }

  lemma NotifyAllKeeps(s: Pool)
    requires Inv(s) && s.due
    ensures Inv(Step(s, NotifyAll))
  {
    var t := Step(s, NotifyAll);
    if i :| 0 <= i < |s.workers| && Awake(s.workers[i]) {
      assert Awake(t.workers[i]);
    }
    assert forall i :: 0 <= i < |s.workers| ==> (t.workers[i] == Exited ==> s.workers[i] in s.workers);
  }

  // ---------------------------------------------------------------- every interleaving

  ghost predicate Run(ss: seq<Pool>, es: seq<Event>) {
    && |ss| == |es| + 1 && (exists n :: ss[0] == New(n))
    && forall i :: 0 <= i < |es| ==> Possible(ss[i], es[i]) && ss[i + 1] == Step(ss[i], es[i])
  }

  lemma {:induction false} RunKeeps(ss: seq<Pool>, es: seq<Event>, k: nat)
    requires Run(ss, es) && k < |ss|
    ensures Inv(ss[k])
  {
    hide Step, Possible, Inv;
    if k == 0 {
      NewKeeps(ss[0]);
    } else {
      RunKeeps(ss, es, k - 1);
      StepKeeps(ss[k - 1], es[k - 1]);
    }
  }

  lemma NewKeeps(s: Pool)
    requires exists n :: s == New(n)
    ensures Inv(s)
  {
  }

  /** The tasks handed to `enqueue` among the first `k` events, before the pool was stopped. */
  function Enqueued(es: seq<Event>, k: nat): seq<Task>
    requires k <= |es|
  {
    if k == 0 then []
    else Enqueued(es, k - 1) + if es[k - 1].Enqueue? && Stop !in es[..k - 1] then [es[k - 1].task] else []
  }

  /** The tasks that workers are running right after they have taken one, in order. */
  function Started(ss: seq<Pool>, es: seq<Event>, k: nat): seq<Task>
    requires k <= |es| < |ss|
  {
    if k == 0 then []
    else Started(ss, es, k - 1)
         + if es[k - 1].Take? && es[k - 1].w < |ss[k].workers| && ss[k].workers[es[k - 1].w].Busy?
           then [ss[k].workers[es[k - 1].w].task] else []
  }

  lemma {:induction false} AcceptedIsEnqueued(ss: seq<Pool>, es: seq<Event>, k: nat)
    requires Run(ss, es) && k <= |es|
    ensures ss[k].stop <==> Stop in es[..k]
    ensures ss[k].accepted == Enqueued(es, k)
  {
    if k == 0 {
    } else {
      AcceptedIsEnqueued(ss, es, k - 1);
      assert es[..k] == es[..k - 1] + [es[k - 1]];
      assert ss[k] == Step(ss[k - 1], es[k - 1]);
    }
  }

  /** How many of the first `k` events notify one worker. */
  function Notified(es: seq<Event>, k: nat): nat
    requires k <= |es|
  {
    if k == 0 then 0 else Notified(es, k - 1) + if es[k - 1].NotifyOne? then 1 else 0
  }

  /** Every task enqueued owes one notification; what is owed is what was not sent. */
  lemma {:induction false} NotificationsOwed(ss: seq<Pool>, es: seq<Event>, k: nat)
    requires Run(ss, es) && k <= |es|
    ensures ss[k].owed + Notified(es, k) == |Enqueued(es, k)|
  {
    hide Step, Possible;
    if k == 0 {
    } else {
      NotificationsOwed(ss, es, k - 1);
      AcceptedIsEnqueued(ss, es, k - 1);
      OwedStep(ss[k - 1], es[k - 1]);
    }
  }

  /** The stop is due to be announced until it has been announced. */
  lemma {:induction false} StopAnnounced(ss: seq<Pool>, es: seq<Event>, k: nat)
    requires Run(ss, es) && k <= |es|
    ensures ss[k].due <==> Stop in es[..k] && NotifyAll !in es[..k]
    ensures NotifyAll in es[..k] ==> Stop in es[..k]
  {
    hide Step, Possible, Enqueued;
    if k == 0 {
    } else {
      StopAnnounced(ss, es, k - 1);
      AcceptedIsEnqueued(ss, es, k - 1);
      assert es[..k] == es[..k - 1] + [es[k - 1]];
      OwedStep(ss[k - 1], es[k - 1]);
    }
  }

  lemma OwedStep(s: Pool, e: Event)
    requires Possible(s, e)
    ensures var t := Step(s, e);
            && t.owed + (if e.NotifyOne? then 1 else 0) == s.owed + (if e.Enqueue? && !s.stop then 1 else 0)
            && (t.due <==> e == Stop || (s.due && e != NotifyAll))
            && (e == Stop ==> !s.stop) && (e == NotifyAll ==> s.due)
  {
  }

  lemma {:induction false} DequeuedIsStarted(ss: seq<Pool>, es: seq<Event>, k: nat)
    requires Run(ss, es) && k <= |es|
    ensures ss[k].dequeued == Started(ss, es, k)
  {
    if k == 0 {
    } else {
      DequeuedIsStarted(ss, es, k - 1);
      assert Possible(ss[k - 1], es[k - 1]) && ss[k] == Step(ss[k - 1], es[k - 1]);
    }
  }

  /** What workers run and what still waits are, in order, exactly the tasks handed to the running pool. */
  lemma TasksStartInOrder(ss: seq<Pool>, es: seq<Event>, k: nat)
    requires Run(ss, es) && k <= |es|
    ensures Started(ss, es, k) + ss[k].tasks == Enqueued(es, k)
  {
    hide Step, Possible;
    RunKeeps(ss, es, k);
    AcceptedIsEnqueued(ss, es, k);
    DequeuedIsStarted(ss, es, k);
  }

  /** A task that was enqueued and not started is never left to workers that all sleep with no notification coming. */
  lemma NoStrandedTask(ss: seq<Pool>, es: seq<Event>, k: nat)
    requires Run(ss, es) && k <= |es| && ss[k].workers != [] && Started(ss, es, k) != Enqueued(es, k)
    ensures ss[k].owed > 0 || exists w :: 0 <= w < |ss[k].workers| && Awake(ss[k].workers[w])
  {
    hide Step, Possible;
    RunKeeps(ss, es, k);
    TasksStartInOrder(ss, es, k);
    assert Started(ss, es, k) + [] == Started(ss, es, k);
  }

  /** Once a worker has returned, the pool was stopped and every task handed to it has been started. */
  lemma NothingLeftBehind(ss: seq<Pool>, es: seq<Event>, k: nat)
    requires Run(ss, es) && k <= |es| && Exited in ss[k].workers
    ensures Stop in es[..k] && Started(ss, es, k) == Enqueued(es, k)
  {
    hide Step, Possible;
    RunKeeps(ss, es, k);
    AcceptedIsEnqueued(ss, es, k);
    TasksStartInOrder(ss, es, k);
    assert Started(ss, es, k) + [] == Started(ss, es, k);
  }

  predicate Wakes(e: Event, w: nat) {
    e == Spurious(w) || e == NotifyOne(w) || e == NotifyAll
  }

  /** A worker that went to sleep sleeps until it is woken. */
  lemma {:induction false} SleepsUntilWoken(ss: seq<Pool>, es: seq<Event>, i: nat, k: nat, w: nat)
    requires Run(ss, es) && i < k <= |es| && es[i] == Park(w) && forall m :: i < m < k ==> !Wakes(es[m], w)
    ensures Is(ss[k], w, Parked)
    decreases k
  {
    assert Possible(ss[k - 1], es[k - 1]) && ss[k] == Step(ss[k - 1], es[k - 1]);
    if k == i + 1 {
    } else {
      SleepsUntilWoken(ss, es, i, k - 1, w);
    }
  }

  /** The pool keeps its workers, all of them ready at the start. */
  lemma {:induction false} WorkersStay(n: nat, ss: seq<Pool>, es: seq<Event>, k: nat)
    requires Run(ss, es) && ss[0] == New(n) && k <= |es|
    ensures |ss[k].workers| == n
    ensures k == 0 ==> forall w :: 0 <= w < n ==> ss[0].workers[w] == Ready
  {
    if k == 0 {
    } else {
      WorkersStay(n, ss, es, k - 1);
      assert ss[k] == Step(ss[k - 1], es[k - 1]);
    }
  }

  // ---------------------------------------------------------------- the destructor's joins return

  function Rank(k: Worker): nat {
    match k
    case Exited => 0
    case Ready => 1
    case Busy(_) => 2
    case Parked => 2
  }

  function Ranks(ws: seq<Worker>): nat {
    if ws == [] then 0 else Rank(ws[0]) + Ranks(ws[1..])
  }

  /** A bound on what the workers still do after the stop has been announced to all. */
  function Remaining(s: Pool): nat {
    3 * |s.tasks| + Ranks(s.workers)
  }

  lemma {:induction false} RanksUpdate(ws: seq<Worker>, w: nat, k: Worker)
    requires w < |ws|
    ensures Ranks(ws[w := k]) + Rank(ws[w]) == Ranks(ws) + Rank(k)
  {
    if w == 0 {
      assert ws[0 := k][1..] == ws[1..];
    } else {
      assert ws[w := k][1..] == ws[1..][w - 1 := k];
      RanksUpdate(ws[1..], w - 1, k);
    }
  }

  predicate WorkerStep(e: Event) {
    e.Take? || e.Finish? || e.Exit?
  }

  /** After the announcement, whatever happens either changes nothing or brings the end closer. */
  lemma StopMakesProgress(s: Pool, e: Event)
    requires Inv(s) && Possible(s, e) && s.stop && !s.due
    ensures Step(s, e).stop && !Step(s, e).due
    ensures if WorkerStep(e) then Remaining(Step(s, e)) < Remaining(s)
            else Step(s, e) == s.(owed := Step(s, e).owed)
  {
    assert forall w :: 0 <= w < |s.workers| ==> s.workers[w] != Parked;
    match e
    case Take(w) => RanksUpdate(s.workers, w, Busy(s.tasks[0]));
    case Finish(w) => RanksUpdate(s.workers, w, Ready);
    case Exit(w) => RanksUpdate(s.workers, w, Exited);
    case _ =>
  }

  /** ... and until every worker has returned, some worker can take a step. */
  lemma StopNeverStalls(s: Pool, w: nat)
    requires Inv(s) && s.stop && !s.due && w < |s.workers| && s.workers[w] != Exited
    ensures Possible(s, Take(w)) || Possible(s, Finish(w)) || Possible(s, Exit(w))
  {
    assert s.workers[w] in s.workers;
  }

  /** The number of worker steps among events `i..k`. */
  function WorkerSteps(es: seq<Event>, i: nat, k: nat): nat
    requires i <= k <= |es|
  {
    if k == i then 0 else WorkerSteps(es, i, k - 1) + if WorkerStep(es[k - 1]) then 1 else 0
  }

  /** Once the stop has been announced to all, the workers have at most `Remaining` steps left, in every run. */
  lemma StopTerminates(ss: seq<Pool>, es: seq<Event>, i: nat, k: nat)
    requires Run(ss, es) && i <= k <= |es| && NotifyAll in es[..i]
    ensures WorkerSteps(es, i, k) + Remaining(ss[k]) <= Remaining(ss[i])
  {
    hide Step, Possible, Remaining;
    StopAnnounced(ss, es, i);
    AcceptedIsEnqueued(ss, es, i);
    AnnouncedTerminates(ss, es, i, k);
  }

  lemma {:induction false} AnnouncedTerminates(ss: seq<Pool>, es: seq<Event>, i: nat, k: nat)
    requires Run(ss, es) && i <= k < |ss| && ss[i].stop && !ss[i].due
    ensures ss[k].stop && !ss[k].due
    ensures WorkerSteps(es, i, k) + Remaining(ss[k]) <= Remaining(ss[i])
    decreases k
  {
    hide Step, Possible, Remaining, Inv;
    if k == i {
    } else {
      AnnouncedTerminates(ss, es, i, k - 1);
      RunKeeps(ss, es, k - 1);
      StopMakesProgress(ss[k - 1], es[k - 1]);
      SameRemaining(ss[k - 1], ss[k]);
    }
  }

  lemma SameRemaining(s: Pool, t: Pool)
    ensures t == s.(owed := t.owed) ==> Remaining(t) == Remaining(s)
  {
  }

}
