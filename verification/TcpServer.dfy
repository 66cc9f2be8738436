/**
 The life of connections across the threads of a server. The base loop accepts and forgets
 connections, each io loop establishes, serves and destroys its own; they talk only through the
 FIFO task queues of the loops (see `EventLoop` for the order those keep).

 Loop 0 is the base loop; it also serves connections when the server has no other threads.
 */
module TcpServer {
  import opened ConnState

  type ConnId = nat
  type LoopId = nat

  const BASE: LoopId := 0

  /** What a connection's user, and its destruction, get to see. */
  datatype Note = Up | Message | Down | Destroyed

  /**
   `registered`: the channel is in the kernel's interest set. `testing` calls of `shutdown`, which
   may run on any thread, have found the connection connected and not yet set its state.
   */
  datatype Conn = Conn(loop: LoopId, state: State, registered: bool, testing: nat, log: seq<Note>)

  datatype Task = Establish(c: ConnId) | RemoveInLoop(c: ConnId) | Destroy(c: ConnId) | Send(c: ConnId) | Shut(c: ConnId)

  datatype Server = Server(
    conns: map<ConnId, Conn>, connections: set<ConnId>, queues: map<LoopId, seq<Task>>)

  const New: Server := Server(map[], {}, map[])

  function Q(s: Server, l: LoopId): seq<Task> {
    if l in s.queues then s.queues[l] else []
  }

  function Enqueue(s: Server, l: LoopId, t: Task): Server {
    s.(queues := s.queues[l := Q(s, l) + [t]])
  }

  function Pop(s: Server, l: LoopId): Server
    requires Q(s, l) != []
  {
    s.(queues := s.queues[l := Q(s, l)[1..]])
  }

  function SetConn(s: Server, c: ConnId, k: Conn): Server {
    s.(conns := s.conns[c := k])
  }

  // ---------------------------------------------------------------- what the tasks and handlers do

  function ConnectEstablished(k: Conn): Conn {
    k.(state := Connected, registered := true, log := k.log + [Up])
  }

  /** `disableAll` on a channel that is already idle registers it again, with an empty mask. */
  function DisableAll(k: Conn): Conn {
    k.(registered := !k.registered)
  }

  function ConnectDestroyed(k: Conn): Conn {
    var k1 := if k.state == Connected then DisableAll(k.(state := Disconnected)).(log := k.log + [Down]) else k;
    k1.(registered := false, log := k1.log + [Destroyed])
  }

  /** Forget the connection and have its own loop destroy it. */
  function RemoveConnectionInLoop(s: Server, c: ConnId): Server
    requires c in s.conns
  {
    Enqueue(s.(connections := s.connections - {c}), s.conns[c].loop, Destroy(c))
  }

  /** `handleClose`, with `closeCallback_` handing over to the base loop. */
  function HandleClose(s: Server, c: ConnId): Server
    requires c in s.conns
  {
    var k := s.conns[c];
    var s1 := SetConn(s, c, DisableAll(k.(state := Disconnected)).(log := k.log + [Down]));
    if k.loop == BASE then RemoveConnectionInLoop(s1, c) else Enqueue(s1, BASE, RemoveInLoop(c))
  }

  datatype ReadResult = Data | Eof | Error

  function HandleRead(s: Server, c: ConnId, r: ReadResult): Server
    requires c in s.conns
  {
    match r
    case Data => SetConn(s, c, s.conns[c].(log := s.conns[c].log + [Message]))
    case Eof => HandleClose(s, c)
    case Error => s
  }

  datatype Ready = PollIn | PollPri | PollOut | PollHup | PollErr

  /** The event closes the connection. */
  predicate Closes(mask: set<Ready>) {
    PollHup in mask && PollIn !in mask
  }

  /** The event has the connection read, and the read does not fail. */
  predicate Reads(mask: set<Ready>, r: ReadResult) {
    (PollIn in mask || PollPri in mask) && r != Error
  }

  /** `handleEventWithGuard`: close first, then read; errors and writes leave the life cycle alone. */
  function Dispatch(s: Server, c: ConnId, mask: set<Ready>, r: ReadResult): Server
    requires c in s.conns
  {
    var s1 := if Closes(mask) then HandleClose(s, c) else s;
    if PollIn in mask || PollPri in mask then HandleRead(s1, c, r) else s1
  }

  /** `sendInLoop` on a connection that is not down, leaving data to write (`rest`), enables writing. */
  function SendInLoop(k: Conn, rest: bool): Conn {
    if k.state != Disconnected && rest then k.(registered := true) else k
  }

  /** `setState(kDisconnecting)`, whatever the state has become since the test. */
  function AfterSet(k: Conn): Conn
    requires k.testing > 0
  {
    k.(state := Disconnecting, testing := k.testing - 1)
  }

  function RunTask(s: Server, t: Task, rest: bool): Server
    requires t.c in s.conns
  {
    match t
    case Establish(c) => SetConn(s, c, ConnectEstablished(s.conns[c]))
    case RemoveInLoop(c) => RemoveConnectionInLoop(s, c)
    case Destroy(c) => SetConn(s, c, ConnectDestroyed(s.conns[c]))
    case Send(c) => SetConn(s, c, SendInLoop(s.conns[c], rest))
    case Shut(c) => s
  }

  datatype Event =
    | Accept(c: ConnId, loop: LoopId)
    | RunNext(l: LoopId, rest: bool)
    | Ready(c: ConnId, mask: set<Ready>, r: ReadResult)
    | ShutdownTest(c: ConnId)
    | ShutdownSet(c: ConnId)
    | SendCall(c: ConnId)

  /** A `send` that has found the connection connected may queue its task at any later time. */
  predicate Possible(s: Server, e: Event) {
    match e
    case Accept(c, _) => c !in s.conns
    case RunNext(l, _) => Q(s, l) != [] && Q(s, l)[0].c in s.conns
    case Ready(c, _, _) => c in s.conns && s.conns[c].registered
    case ShutdownTest(c) => c in s.conns
    case ShutdownSet(c) => c in s.conns && s.conns[c].testing > 0
    case SendCall(c) => c in s.conns && s.conns[c].state != Connecting
  }

  /**
   The steps that keep callbacks in order: all but an event that closes and reads at once, and an
   event that closes or reads on a connection that has had its Down.
   */
  predicate Orderly(s: Server, e: Event)
    requires Possible(s, e)
  {
    e.Ready? ==>
      if Down in s.conns[e.c].log then !Closes(e.mask) && !Reads(e.mask, e.r)
      else !(Closes(e.mask) && Reads(e.mask, e.r))
  }

  function Step(s: Server, e: Event): Server
    requires Possible(s, e)
  {
    match e
    case Accept(c, l) =>
      var s1 := SetConn(s, c, Conn(l, Connecting, false, 0, [])).(connections := s.connections + {c});
      if l == BASE then RunTask(s1, Establish(c), false) else Enqueue(s1, l, Establish(c))
    case RunNext(l, rest) => RunTask(Pop(s, l), Q(s, l)[0], rest)
    case Ready(c, mask, r) => Dispatch(s, c, mask, r)
    case ShutdownTest(c) =>
      if s.conns[c].state != Connected then s
      else SetConn(s, c, s.conns[c].(testing := s.conns[c].testing + 1))
    case ShutdownSet(c) =>
      Enqueue(SetConn(s, c, AfterSet(s.conns[c])), s.conns[c].loop, Shut(c))
    case SendCall(c) => Enqueue(s, s.conns[c].loop, Send(c))
  }

  // ---------------------------------------------------------------- the life cycle

  function Count(q: seq<Task>, t: Task): nat {
    if q == [] then 0 else (if q[0] == t then 1 else 0) + Count(q[1..], t)
  }

  lemma {:induction false} CountPush(q: seq<Task>, t: Task, u: Task)
    ensures Count(q + [t], u) == Count(q, u) + if t == u then 1 else 0
  {
    if q == [] {
      assert q + [t] == [t];
    } else {
      assert (q + [t])[1..] == q[1..] + [t];
      CountPush(q[1..], t, u);
    }
  }

  /** One Up, then messages. */
  predicate Open(log: seq<Note>) {
    |log| > 0 && log[0] == Up && forall i :: 0 < i < |log| ==> log[i] == Message
  }

  /** ... then one Down. */
  predicate Closed(log: seq<Note>) {
    |log| > 0 && log[|log| - 1] == Down && Open(log[..|log| - 1])
  }

  /** ... and then the destruction. */
  predicate Gone(log: seq<Note>) {
    |log| > 0 && log[|log| - 1] == Destroyed && Closed(log[..|log| - 1])
  }

  datatype Phase = Queued | Serving | Closing | Removing | Done

  /** How many tasks for `c` of the three life-cycle kinds wait in the queues. */
  ghost predicate Waiting(s: Server, c: ConnId, establish: nat, remove: nat, destroy: nat)
    requires c in s.conns
  {
    && Count(Q(s, s.conns[c].loop), Establish(c)) == establish
    && Count(Q(s, BASE), RemoveInLoop(c)) == remove
    && Count(Q(s, s.conns[c].loop), Destroy(c)) == destroy
  }

  ghost predicate In(s: Server, c: ConnId, p: Phase)
    requires c in s.conns
  {
    var k := s.conns[c];
    match p
    case Queued =>
      && k.state == Connecting && !k.registered && k.log == [] && k.testing == 0
      && c in s.connections && Waiting(s, c, 1, 0, 0) && Count(Q(s, k.loop), Send(c)) == 0
    case Serving =>
      && (k.state == Connected || k.state == Disconnecting) && k.registered && Open(k.log)
      && c in s.connections && Waiting(s, c, 0, 0, 0)
    case Closing =>
      && (k.state == Disconnected || k.state == Disconnecting) && Closed(k.log)
      && c in s.connections && Waiting(s, c, 0, 1, 0)
    case Removing =>
      && (k.state == Disconnected || k.state == Disconnecting) && Closed(k.log)
      && c !in s.connections && Waiting(s, c, 0, 0, 1)
    case Done =>
      && (k.state == Disconnected || k.state == Disconnecting) && Gone(k.log)
      && c !in s.connections && Waiting(s, c, 0, 0, 0)
  }

  ghost predicate SomePhase(s: Server, c: ConnId)
    requires c in s.conns
  {
    exists p :: In(s, c, p)
  }

  /** Every task in a queue is for a connection of that loop; removals wait on the base loop. */
  ghost predicate Homed(s: Server) {
    forall l, i :: l in s.queues && 0 <= i < |s.queues[l]| ==>
      var t := s.queues[l][i];
      t.c in s.conns && if t.RemoveInLoop? then l == BASE else s.conns[t.c].loop == l
  }

  ghost predicate Inv(s: Server) {
    && Homed(s)
    && s.connections <= s.conns.Keys
    && forall c :: c in s.conns ==> SomePhase(s, c)
  }

  // ---------------------------------------------------------------- counting tasks

  lemma {:induction false} CountZero(q: seq<Task>, t: Task)
    ensures Count(q, t) == 0 <==> t !in q
  {
    if q == [] {
    } else {
      CountZero(q[1..], t);
      assert q == [q[0]] + q[1..];
    }
  }

  lemma LogGrows(log: seq<Note>)
    requires Open(log)
    ensures Open(log + [Message]) && Closed(log + [Down]) && Gone(log + [Down] + [Destroyed])
  {
    var down := log + [Down];
    var gone := down + [Destroyed];
    assert down[..|down| - 1] == log;
    assert gone[..|gone| - 1] == down;
  }

  lemma LogGone(log: seq<Note>)
    requires Closed(log)
    ensures Gone(log + [Destroyed])
  {
    assert (log + [Destroyed])[..|log|] == log;
  }

  lemma DownInLog(log: seq<Note>)
    ensures Open(log) ==> Down !in log
    ensures Closed(log) ==> Down in log
    ensures Gone(log) ==> Down in log
  {
    if Gone(log) {
      var n := |log| - 1;
      assert log[..n][n - 1] == Down && log[n - 1] == Down;
    }
  }

  // ---------------------------------------------------------------- connections a step does not touch

  /** Nothing that matters to `d` differs between `s` and `t`. */
  ghost predicate SameFor(s: Server, t: Server, d: ConnId) {
    && d in s.conns && d in t.conns && t.conns[d] == s.conns[d]
    && (d in t.connections <==> d in s.connections)
    && var l := s.conns[d].loop;
       && Count(Q(t, l), Establish(d)) == Count(Q(s, l), Establish(d))
       && Count(Q(t, l), Destroy(d)) == Count(Q(s, l), Destroy(d))
       && Count(Q(t, l), Send(d)) == Count(Q(s, l), Send(d))
       && Count(Q(t, BASE), RemoveInLoop(d)) == Count(Q(s, BASE), RemoveInLoop(d))
  }

  lemma SamePhase(s: Server, t: Server, d: ConnId, p: Phase)
    requires SameFor(s, t, d) && In(s, d, p)
    ensures In(t, d, p)
  {
  }

  lemma EnqueueSame(s: Server, l: LoopId, t: Task, d: ConnId)
    requires d in s.conns && (t.c != d || t.Shut?)
    ensures SameFor(s, Enqueue(s, l, t), d)
  {
    CountPush(Q(s, l), t, Establish(d));
    CountPush(Q(s, l), t, Destroy(d));
    CountPush(Q(s, l), t, Send(d));
    CountPush(Q(s, l), t, RemoveInLoop(d));
  }

  lemma PopSame(s: Server, l: LoopId, d: ConnId)
    requires d in s.conns && Q(s, l) != [] && (Q(s, l)[0].c != d || Q(s, l)[0].Shut?)
    ensures SameFor(s, Pop(s, l), d)
  {
  }

  /** What a task or handler run for `c` leaves alone. */
  ghost predicate OthersSame(s: Server, t: Server, c: ConnId) {
    forall d :: d in s.conns && d != c ==> SameFor(s, t, d)
  }

  lemma RemoveOthers(s: Server, c: ConnId)
    requires c in s.conns
    ensures OthersSame(s, RemoveConnectionInLoop(s, c), c)
  {
    var s1 := s.(connections := s.connections - {c});
    forall d | d in s.conns && d != c
      ensures SameFor(s, RemoveConnectionInLoop(s, c), d)
    {
      EnqueueSame(s1, s.conns[c].loop, Destroy(c), d);
    }
  }

  lemma CloseOthers(s: Server, c: ConnId)
    requires c in s.conns
    ensures OthersSame(s, HandleClose(s, c), c)
  {
    var k := s.conns[c];
    var s1 := SetConn(s, c, DisableAll(k.(state := Disconnected)).(log := k.log + [Down]));
    if k.loop == BASE {
      RemoveOthers(s1, c);
    } else {
      forall d | d in s.conns && d != c
        ensures SameFor(s, HandleClose(s, c), d)
      {
        EnqueueSame(s1, BASE, RemoveInLoop(c), d);
      }
    }
  }

  lemma TaskOthers(s: Server, t: Task, rest: bool)
    requires t.c in s.conns
    ensures OthersSame(s, RunTask(s, t, rest), t.c)
  {
    if t.RemoveInLoop? { RemoveOthers(s, t.c); }
  }

  // ---------------------------------------------------------------- the connection a step is about

  lemma TaskPhase(s: Server, l: LoopId, c: ConnId, p: Phase)
    requires Q(s, l) != [] && Q(s, l)[0].c == c && c in s.conns && In(s, c, p)
    requires if Q(s, l)[0].RemoveInLoop? then l == BASE else s.conns[c].loop == l
    ensures match Q(s, l)[0]
            case Establish(_) => p == Queued
            case RemoveInLoop(_) => p == Closing
            case Destroy(_) => p == Removing
            case Send(_) => p != Queued
            case Shut(_) => true
  {
  }

  lemma EstablishServes(s: Server, l: LoopId, c: ConnId)
    requires c in s.conns && In(s, c, Queued) && s.conns[c].loop == l && Q(s, l) != [] && Q(s, l)[0] == Establish(c)
    ensures In(RunTask(Pop(s, l), Establish(c), false), c, Serving)
  {
  }

  lemma RemoveRemoves(s: Server, c: ConnId)
    requires c in s.conns && In(s, c, Closing) && Q(s, BASE) != [] && Q(s, BASE)[0] == RemoveInLoop(c)
    ensures In(RunTask(Pop(s, BASE), RemoveInLoop(c), false), c, Removing)
  {
    hide Open, Closed, Gone;
    var s1 := Pop(s, BASE);
    var l := s.conns[c].loop;
    CountPush(Q(s1, l), Destroy(c), Establish(c));
    CountPush(Q(s1, l), Destroy(c), Destroy(c));
    CountPush(Q(s1, l), Destroy(c), RemoveInLoop(c));
  }

  lemma DestroyEnds(s: Server, l: LoopId, c: ConnId)
    requires c in s.conns && In(s, c, Removing) && s.conns[c].loop == l && Q(s, l) != [] && Q(s, l)[0] == Destroy(c)
    ensures In(RunTask(Pop(s, l), Destroy(c), false), c, Done)
  {
    hide Open, Closed, Gone;
    LogGone(s.conns[c].log);
  }

  lemma CloseCloses(s: Server, c: ConnId)
    requires c in s.conns && In(s, c, Serving)
    ensures In(HandleClose(s, c), c, if s.conns[c].loop == BASE then Removing else Closing)
  {
    var k := s.conns[c];
    LogGrows(k.log);
    var t := if k.loop == BASE then Destroy(c) else RemoveInLoop(c);
    CountPush(Q(s, BASE), t, Establish(c));
    CountPush(Q(s, BASE), t, Destroy(c));
    CountPush(Q(s, BASE), t, RemoveInLoop(c));
  }

  /** A task run for `c` moves it one phase on, or leaves it where it is. */
  lemma RunNextPhase(s: Server, l: LoopId, rest: bool)
    requires Homed(s) && Possible(s, RunNext(l, rest)) && SomePhase(s, Q(s, l)[0].c)
    ensures var t := Step(s, RunNext(l, rest));
            var c := Q(s, l)[0].c;
            c in t.conns && SomePhase(t, c)
  {
    var task := Q(s, l)[0];
    var c := task.c;
    assert l in s.queues && s.queues[l][0] == task;
    var p :| In(s, c, p);
    TaskPhase(s, l, c, p);
    match task
    case Establish(_) =>
      EstablishServes(s, l, c);
    case RemoveInLoop(_) =>
      RemoveRemoves(s, c);
    case Destroy(_) =>
      DestroyEnds(s, l, c);
    case Send(_) =>
      assert In(Step(s, RunNext(l, rest)), c, p);
    case Shut(_) =>
      PopSame(s, l, c);
      SamePhase(s, Step(s, RunNext(l, rest)), c, p);
  }

  lemma DispatchPhase(s: Server, c: ConnId, mask: set<Ready>, r: ReadResult)
    requires c in s.conns && In(s, c, Serving) && !(Closes(mask) && Reads(mask, r))
    ensures SomePhase(Dispatch(s, c, mask, r), c)
  {
    CloseCloses(s, c);
    LogGrows(s.conns[c].log);
    var t := Dispatch(s, c, mask, r);
    var after := if s.conns[c].loop == BASE then Removing else Closing;
    if t == HandleClose(s, c) {
      assert In(t, c, after);
    } else {
      assert In(t, c, Serving);
    }
  }

  // ---------------------------------------------------------------- homes

  lemma EnqueueHomed(s: Server, l: LoopId, t: Task)
    requires Homed(s) && t.c in s.conns
    requires if t.RemoveInLoop? then l == BASE else s.conns[t.c].loop == l
    ensures Homed(Enqueue(s, l, t))
  {
  }

  lemma PopHomed(s: Server, l: LoopId)
    requires Homed(s) && Q(s, l) != []
    ensures Homed(Pop(s, l))
  {
    var t := Pop(s, l);
    forall m, i | m in t.queues && 0 <= i < |t.queues[m]|
      ensures var u := t.queues[m][i];
              u.c in t.conns && if u.RemoveInLoop? then m == BASE else t.conns[u.c].loop == m
    {
      assert m == l ==> t.queues[m][i] == s.queues[m][i + 1];
    }
  }

  lemma SetConnHomed(s: Server, c: ConnId, k: Conn)
    requires Homed(s) && (c in s.conns ==> k.loop == s.conns[c].loop)
    ensures Homed(SetConn(s, c, k))
  {
  }

  /** The parts of the invariant that do not speak of phases. */
  ghost predicate Ledger(s: Server) {
    && Homed(s)
    && s.connections <= s.conns.Keys
  }

  lemma RemoveLedger(s: Server, c: ConnId)
    requires Ledger(s) && c in s.conns
    ensures Ledger(RemoveConnectionInLoop(s, c))
  {
    var s1 := s.(connections := s.connections - {c});
    assert Homed(s1);
    EnqueueHomed(s1, s.conns[c].loop, Destroy(c));
  }

  lemma CloseLedger(s: Server, c: ConnId)
    requires Ledger(s) && c in s.conns
    ensures Ledger(HandleClose(s, c))
  {
    var k := s.conns[c];
    var k1 := DisableAll(k.(state := Disconnected)).(log := k.log + [Down]);
    SetConnHomed(s, c, k1);
    var s1 := SetConn(s, c, k1);
    if k.loop == BASE { RemoveLedger(s1, c); } else { EnqueueHomed(s1, BASE, RemoveInLoop(c)); }
  }

  lemma TaskLedger(s: Server, t: Task, rest: bool)
    requires Ledger(s) && t.c in s.conns
    ensures Ledger(RunTask(s, t, rest))
  {
    match t
    case Establish(c) => SetConnHomed(s, c, ConnectEstablished(s.conns[c]));
    case RemoveInLoop(c) => RemoveLedger(s, c);
    case Destroy(c) => SetConnHomed(s, c, ConnectDestroyed(s.conns[c]));
    case Send(c) => SetConnHomed(s, c, SendInLoop(s.conns[c], rest));
    case Shut(c) =>
  }

  lemma DispatchLedger(s: Server, c: ConnId, mask: set<Ready>, r: ReadResult)
    requires Ledger(s) && c in s.conns
    ensures Ledger(Dispatch(s, c, mask, r))
  {
    hide Ledger;
    CloseLedger(s, c);
    var s1 := if Closes(mask) then HandleClose(s, c) else s;
    CloseLedger(s1, c);
    MessageLedger(s1, c);
  }

  lemma MessageLedger(s: Server, c: ConnId)
    requires Ledger(s) && c in s.conns
    ensures Ledger(HandleRead(s, c, Data))
  {
    SetConnHomed(s, c, s.conns[c].(log := s.conns[c].log + [Message]));
  }

  // ---------------------------------------------------------------- every step keeps the invariant

  /** Phases after a step that concerns only `c`. */
  lemma PhasesAfter(s: Server, t: Server, c: ConnId)
    requires forall d :: d in s.conns ==> SomePhase(s, d)
    requires OthersSame(s, t, c) && t.conns.Keys == s.conns.Keys + {c} && SomePhase(t, c)
    ensures forall d :: d in t.conns ==> SomePhase(t, d)
  {
    forall d | d in t.conns && d != c
      ensures SomePhase(t, d)
    {
      var p :| In(s, d, p);
      SamePhase(s, t, d, p);
    }
  }

  lemma AcceptKeeps(s: Server, c: ConnId, l: LoopId)
    requires Inv(s) && c !in s.conns
    ensures Inv(Step(s, Accept(c, l)))
  {
    var k := Conn(l, Connecting, false, 0, []);
    var s1 := SetConn(s, c, k).(connections := s.connections + {c});
    var t := Step(s, Accept(c, l));
    NoTasksYet(s, c, l);
    SetConnHomed(s, c, k);
    if l == BASE {
      SetConnHomed(s1, c, ConnectEstablished(k));
      assert In(t, c, Serving);
    } else {
      EnqueueHomed(s1, l, Establish(c));
      CountPush(Q(s, l), Establish(c), Establish(c));
      CountPush(Q(s, l), Establish(c), Destroy(c));
      CountPush(Q(s, l), Establish(c), Send(c));
      assert In(t, c, Queued);
    }
    forall d | d in s.conns && d != c
      ensures SameFor(s, t, d)
    {
      if l != BASE { EnqueueSame(s1, l, Establish(c), d); }
    }
    PhasesAfter(s, t, c);
  }

  lemma NoTasksYet(s: Server, c: ConnId, l: LoopId)
    requires Homed(s) && c !in s.conns
    ensures Count(Q(s, l), Establish(c)) == Count(Q(s, l), Destroy(c)) == Count(Q(s, l), Send(c)) == 0
    ensures Count(Q(s, BASE), RemoveInLoop(c)) == 0
  {
    CountZero(Q(s, l), Establish(c));
    CountZero(Q(s, l), Destroy(c));
    CountZero(Q(s, l), Send(c));
    CountZero(Q(s, BASE), RemoveInLoop(c));
  }

  lemma RunNextKeeps(s: Server, l: LoopId, rest: bool)
    requires Inv(s) && Possible(s, RunNext(l, rest))
    ensures Inv(Step(s, RunNext(l, rest)))
  {
    hide Homed, RunTask, SomePhase;
    var task := Q(s, l)[0];
    var s1 := Pop(s, l);
    var t := Step(s, RunNext(l, rest));
    PopHomed(s, l);
    TaskLedger(s1, task, rest);
    RunNextPhase(s, l, rest);
    TaskOthers(s1, task, rest);
    forall d | d in s.conns && d != task.c
      ensures SameFor(s, t, d)
    {
      PopSame(s, l, d);
    }
    assert t.conns.Keys == s.conns.Keys by { TaskKeys(s1, task, rest); }
    PhasesAfter(s, t, task.c);
  }

  lemma TaskKeys(s: Server, t: Task, rest: bool)
    requires t.c in s.conns
    ensures RunTask(s, t, rest).conns.Keys == s.conns.Keys
  {
  }

  lemma DispatchOthers(s: Server, c: ConnId, mask: set<Ready>, r: ReadResult)
    requires c in s.conns && !(Closes(mask) && Reads(mask, r))
    ensures OthersSame(s, Dispatch(s, c, mask, r), c)
    ensures Dispatch(s, c, mask, r).conns.Keys == s.conns.Keys
  {
    CloseOthers(s, c);
  }

  lemma ReadyKeeps(s: Server, c: ConnId, mask: set<Ready>, r: ReadResult)
    requires Inv(s) && Possible(s, Ready(c, mask, r)) && Orderly(s, Ready(c, mask, r))
    ensures Inv(Step(s, Ready(c, mask, r)))
  {
    hide Homed, Dispatch, Closes, Reads, In;
    assert SomePhase(s, c);
    if Down in s.conns[c].log {
      DispatchIdle(s, c, mask, r);
    } else {
      RegisteredServes(s, c);
      DispatchLedger(s, c, mask, r);
      DispatchPhase(s, c, mask, r);
      DispatchOthers(s, c, mask, r);
      PhasesAfter(s, Dispatch(s, c, mask, r), c);
    }
  }

  lemma DispatchIdle(s: Server, c: ConnId, mask: set<Ready>, r: ReadResult)
    requires c in s.conns && !Closes(mask) && !Reads(mask, r)
    ensures Dispatch(s, c, mask, r) == s
  {
  }

  /** A channel in the interest set belongs to a connection being served, or to one that had its Down. */
  lemma RegisteredServes(s: Server, c: ConnId)
    requires c in s.conns && SomePhase(s, c)
    ensures s.conns[c].registered && Down !in s.conns[c].log ==> In(s, c, Serving)
    ensures s.conns[c].state == Connected ==> In(s, c, Serving)
    ensures Down in s.conns[c].log ==> Closed(s.conns[c].log) || Gone(s.conns[c].log)
  {
    DownInLog(s.conns[c].log);
  }

  lemma SetPhase(s: Server, c: ConnId)
    requires c in s.conns && SomePhase(s, c) && s.conns[c].testing > 0
    ensures SomePhase(SetConn(s, c, AfterSet(s.conns[c])), c)
  {
    var p :| In(s, c, p);
    assert In(SetConn(s, c, AfterSet(s.conns[c])), c, p);
  }

  lemma ShutPhase(s: Server, c: ConnId)
    requires c in s.conns && SomePhase(s, c)
    ensures SomePhase(Enqueue(s, s.conns[c].loop, Shut(c)), c)
  {
    var p :| In(s, c, p);
    EnqueueSame(s, s.conns[c].loop, Shut(c), c);
    SamePhase(s, Enqueue(s, s.conns[c].loop, Shut(c)), c, p);
  }

  lemma ShutOthers(s: Server, c: ConnId, k: Conn)
    requires c in s.conns
    ensures OthersSame(s, Enqueue(SetConn(s, c, k), k.loop, Shut(c)), c)
  {
    var s1 := SetConn(s, c, k);
    forall d | d in s.conns && d != c
      ensures SameFor(s, Enqueue(s1, k.loop, Shut(c)), d)
    {
      EnqueueSame(s1, k.loop, Shut(c), d);
    }
  }

  lemma ShutdownSetKeeps(s: Server, c: ConnId)
    requires Inv(s) && Possible(s, ShutdownSet(c))
    ensures Inv(Step(s, ShutdownSet(c)))
  {
    hide Homed, SomePhase, OthersSame;
    var k := AfterSet(s.conns[c]);
    var s1 := SetConn(s, c, k);
    SetConnHomed(s, c, k);
    EnqueueHomed(s1, k.loop, Shut(c));
    SetPhase(s, c);
    ShutPhase(s1, c);
    ShutOthers(s, c, k);
    PhasesAfter(s, Enqueue(s1, k.loop, Shut(c)), c);
  }

  lemma ShutdownTestKeeps(s: Server, c: ConnId)
    requires Inv(s) && Possible(s, ShutdownTest(c))
    ensures Inv(Step(s, ShutdownTest(c)))
  {
    hide Homed, In;
    if s.conns[c].state == Connected {
      var k := s.conns[c].(testing := s.conns[c].testing + 1);
      var t := SetConn(s, c, k);
      SetConnHomed(s, c, k);
      TestPhase(s, c);
      assert OthersSame(s, t, c);
      PhasesAfter(s, t, c);
    }
  }

  lemma TestPhase(s: Server, c: ConnId)
    requires c in s.conns && SomePhase(s, c) && s.conns[c].state == Connected
    ensures SomePhase(SetConn(s, c, s.conns[c].(testing := s.conns[c].testing + 1)), c)
  {
    RegisteredServes(s, c);
    assert In(SetConn(s, c, s.conns[c].(testing := s.conns[c].testing + 1)), c, Serving);
  }

  lemma SendPhase(s: Server, c: ConnId)
    requires c in s.conns && SomePhase(s, c) && s.conns[c].state != Connecting
    ensures SomePhase(Enqueue(s, s.conns[c].loop, Send(c)), c)
  {
    var l := s.conns[c].loop;
    var p :| In(s, c, p);
    CountPush(Q(s, l), Send(c), Establish(c));
    CountPush(Q(s, l), Send(c), Destroy(c));
    CountPush(Q(s, l), Send(c), RemoveInLoop(c));
    assert In(Enqueue(s, l, Send(c)), c, p);
  }

  lemma SendKeeps(s: Server, c: ConnId)
    requires Inv(s) && Possible(s, SendCall(c))
    ensures Inv(Step(s, SendCall(c)))
  {
    hide Homed, In;
    var l := s.conns[c].loop;
    var t := Enqueue(s, l, Send(c));
    EnqueueHomed(s, l, Send(c));
    SendPhase(s, c);
    forall d | d in s.conns && d != c
      ensures SameFor(s, t, d)
    {
      EnqueueSame(s, l, Send(c), d);
    }
    PhasesAfter(s, t, c);
  }

  lemma StepKeeps(s: Server, e: Event)
    requires Inv(s) && Possible(s, e) && Orderly(s, e)
    ensures Inv(Step(s, e))
  {
    hide Inv, Step, Orderly;
    match e
    case Accept(c, l) => AcceptKeeps(s, c, l);
    case RunNext(l, rest) => RunNextKeeps(s, l, rest);
    case Ready(c, mask, r) => ReadyKeeps(s, c, mask, r);
    case ShutdownTest(c) => ShutdownTestKeeps(s, c);
    case ShutdownSet(c) => ShutdownSetKeeps(s, c);
    case SendCall(c) => SendKeeps(s, c);
  }

  lemma PhaseGoodLog(s: Server, c: ConnId)
    requires c in s.conns && SomePhase(s, c)
    ensures GoodLog(s.conns[c].log)
  {
  }

  /** A step that is not orderly puts the callbacks of its connection out of order. */
  lemma DisorderlyBreaks(s: Server, e: Event)
    requires Inv(s) && Possible(s, e) && !Orderly(s, e)
    ensures var t := Step(s, e);
            e.c in t.conns && !GoodLog(t.conns[e.c].log)
  {
    hide Homed, Dispatch, In, GoodLog;
    assert SomePhase(s, e.c);
    RegisteredServes(s, e.c);
    DispatchKeys(s, e.c, e.mask, e.r);
    if Down in s.conns[e.c].log {
      EventAfterDownIff(s, e.c, e.mask, e.r);
    } else {
      DispatchInOrderIff(s, e.c, e.mask, e.r);
    }
  }

  lemma DispatchKeys(s: Server, c: ConnId, mask: set<Ready>, r: ReadResult)
    requires c in s.conns
    ensures c in Dispatch(s, c, mask, r).conns
  {
  }

  // ---------------------------------------------------------------- every run

  ghost predicate Run(ss: seq<Server>, es: seq<Event>) {
    && |ss| == |es| + 1 && ss[0] == New
    && forall i :: 0 <= i < |es| ==> Possible(ss[i], es[i]) && ss[i + 1] == Step(ss[i], es[i])
  }

  ghost predicate OrderlyUpTo(ss: seq<Server>, es: seq<Event>, k: nat)
    requires Run(ss, es) && k <= |es|
  {
    forall i :: 0 <= i < k ==> Orderly(ss[i], es[i])
  }

  lemma {:induction false} RunKeeps(ss: seq<Server>, es: seq<Event>, k: nat)
    requires Run(ss, es) && k <= |es| && OrderlyUpTo(ss, es, k)
    ensures Inv(ss[k])
  {
    hide Inv, Step, Possible, Orderly;
    if k == 0 {
      NewKeeps();
    } else {
      RunKeeps(ss, es, k - 1);
      StepKeeps(ss[k - 1], es[k - 1]);
    }
  }

  lemma NewKeeps()
    ensures Inv(New)
  {
  }

  /**
   What the user of a connection sees, in every run: nothing, or one Up before anything else, then
   messages, then at most one Down with no message after it, then at most one destruction.
   */
  predicate GoodLog(log: seq<Note>) {
    log == [] || Open(log) || Closed(log) || Gone(log)
  }

  lemma CallbacksInOrder(ss: seq<Server>, es: seq<Event>, k: nat, c: ConnId)
    requires Run(ss, es) && k <= |es| && OrderlyUpTo(ss, es, k) && c in ss[k].conns
    ensures GoodLog(ss[k].conns[c].log)
  {
    hide Orderly;
    RunKeeps(ss, es, k);
    PhaseGoodLog(ss[k], c);
  }

  ghost predicate AllInOrder(s: Server) {
    forall c :: c in s.conns ==> GoodLog(s.conns[c].log)
  }

  /** The callbacks of all connections stay in order all along a run if and only if every step is orderly. */
  lemma {:induction false} CallbacksInOrderIff(ss: seq<Server>, es: seq<Event>, k: nat)
    requires Run(ss, es) && k <= |es|
    ensures (forall j :: 0 <= j <= k ==> AllInOrder(ss[j])) <==> OrderlyUpTo(ss, es, k)
  {
    hide Inv, Step, Possible, Orderly, GoodLog;
    if OrderlyUpTo(ss, es, k) {
      forall j, c | 0 <= j <= k && c in ss[j].conns
        ensures GoodLog(ss[j].conns[c].log)
      {
        CallbacksInOrder(ss, es, j, c);
      }
    } else {
      CallbacksInOrderIff(ss, es, k - 1);
      if OrderlyUpTo(ss, es, k - 1) {
        RunKeeps(ss, es, k - 1);
        DisorderlyBreaks(ss[k - 1], es[k - 1]);
        assert !AllInOrder(ss[k]);
      }
    }
  }

  /**
   The server's table holds exactly the connections that are up or whose removal still waits in the
   base loop's queue; none of them is destroyed.
   */
  lemma TableIsAccurate(ss: seq<Server>, es: seq<Event>, k: nat, c: ConnId)
    requires Run(ss, es) && k <= |es| && OrderlyUpTo(ss, es, k)
    ensures var s := ss[k];
            && (c in s.connections ==> c in s.conns && Destroyed !in s.conns[c].log)
            && (c in s.conns ==>
                  (c in s.connections <==> Down !in s.conns[c].log || RemoveInLoop(c) in Q(s, BASE)))
  {
    hide Orderly;
    RunKeeps(ss, es, k);
    var s := ss[k];
    if c in s.conns {
      assert SomePhase(s, c);
      LogMembers(s.conns[c].log);
      CountZero(Q(s, BASE), RemoveInLoop(c));
    }
  }

  lemma LogMembers(log: seq<Note>)
    ensures Open(log) ==> Destroyed !in log && Down !in log
    ensures Closed(log) ==> Destroyed !in log && Down in log
    ensures Gone(log) ==> Down in log
  {
    if Closed(log) {
      var n := |log| - 1;
      assert forall i :: 0 <= i < n ==> log[i] == log[..n][i];
      assert log[n] == Down;
    }
    if Gone(log) {
      var n := |log| - 1;
      var shorter := log[..n];
      assert shorter[n - 1] == Down && log[n - 1] == shorter[n - 1];
    }
  }

  /** While tasks wait, the queue can always be run: a task's connection is known to the server. */
  lemma TasksCanRun(ss: seq<Server>, es: seq<Event>, k: nat, l: LoopId, rest: bool)
    requires Run(ss, es) && k <= |es| && OrderlyUpTo(ss, es, k) && Q(ss[k], l) != []
    ensures Possible(ss[k], RunNext(l, rest))
  {
    hide Orderly;
    RunKeeps(ss, es, k);
    assert l in ss[k].queues && ss[k].queues[l][0] == Q(ss[k], l)[0];
  }

  // ---------------------------------------------------------------- the premises are needed

  /**
   An event on a connection being served keeps its log in order if and only if it does not close
   and read at once.
   */
  lemma DispatchInOrderIff(s: Server, c: ConnId, mask: set<Ready>, r: ReadResult)
    requires c in s.conns && In(s, c, Serving)
    ensures GoodLog(Dispatch(s, c, mask, r).conns[c].log) <==> !(Closes(mask) && Reads(mask, r))
  {
    hide Dispatch, In;
    var log := s.conns[c].log;
    assert Open(log) by { ServingOpen(s, c); }
    LogGrows(log);
    DispatchLog(s, c, mask, r);
    DownThenMore(log, Noted(r));
  }

  lemma ServingOpen(s: Server, c: ConnId)
    requires c in s.conns && In(s, c, Serving)
    ensures Open(s.conns[c].log)
  {
  }

  /** What a read that does not fail adds to the log. */
  function Noted(r: ReadResult): Note {
    if r == Data then Message else Down
  }

  /** The handlers of an event add one note each to the log. */
  lemma DispatchLog(s: Server, c: ConnId, mask: set<Ready>, r: ReadResult)
    requires c in s.conns
    ensures var closed := if Closes(mask) then s.conns[c].log + [Down] else s.conns[c].log;
            Dispatch(s, c, mask, r).conns[c].log == if Reads(mask, r) then closed + [Noted(r)] else closed
  {
  }

  lemma DownThenMore(log: seq<Note>, extra: Note)
    requires Open(log) && extra != Destroyed
    ensures !GoodLog(log + [Down] + [extra])
  {
    var bad := log + [Down] + [extra];
    var n := |log|;
    assert bad[n] == Down && bad[n + 1] == extra;
    assert bad[..|bad| - 1] == log + [Down];
    assert (log + [Down])[n] == Down;
  }

  // ---------------------------------------------------------------- shutdown and close

  /** A connection that was closed and that a late `shutdown` has marked as disconnecting again. */
  predicate Revived(k: Conn) {
    k.state == Disconnecting && Down in k.log
  }

  /** Destruction takes the channel out of the interest set and is noted once; nothing else is left to do. */
  lemma DestroyUnregisters(s: Server, l: LoopId, rest: bool)
    requires Inv(s) && Possible(s, RunNext(l, rest)) && Q(s, l)[0].Destroy?
    ensures var c, t := Q(s, l)[0].c, Step(s, RunNext(l, rest));
            && c in t.conns && !t.conns[c].registered && t.conns[c].log == s.conns[c].log + [Destroyed]
            && Down in s.conns[c].log && t.connections == s.connections
  {
    var c := Q(s, l)[0].c;
    assert l in s.queues && s.queues[l][0] == Destroy(c);
    assert SomePhase(s, c);
    var p :| In(s, c, p);
    TaskPhase(s, l, c, p);
    DownInLog(s.conns[c].log);
  }

  /** A `shutdown` goes on to set the state if and only if its test finds the connection connected. */
  lemma TestPassesIff(s: Server, c: ConnId)
    requires c in s.conns
    ensures var t := Step(s, ShutdownTest(c));
            && c in t.conns && t == s.(conns := s.conns[c := s.conns[c].(testing := t.conns[c].testing)])
            && t.conns[c].testing == s.conns[c].testing + if s.conns[c].state == Connected then 1 else 0
  {
  }

  /** Setting the state revives a connection if and only if it has gone down since the test. */
  lemma SetRevivesIff(s: Server, c: ConnId)
    requires c in s.conns && SomePhase(s, c) && s.conns[c].testing > 0 && !Revived(s.conns[c])
    ensures Revived(Step(s, ShutdownSet(c)).conns[c]) <==> s.conns[c].state == Disconnected
  {
    DownInLog(s.conns[c].log);
  }

  /** A log that is out of order stays so. */
  lemma BadStays(log: seq<Note>, x: Note)
    requires !GoodLog(log)
    ensures !GoodLog(log + [x])
  {
    assert (log + [x])[..|log|] == log;
  }

  lemma DownEndsLog(log: seq<Note>, x: Note)
    requires (Closed(log) && x != Destroyed) || Gone(log)
    ensures GoodLog(log) && !GoodLog(log + [x])
  {
    var n := |log| - 1;
    var before := log[..n];
    assert log == before + [log[n]];
    if Closed(log) {
      DownThenMore(before, x);
    } else {
      GoneEndsLog(log, x);
    }
  }

  lemma GoneEndsLog(log: seq<Note>, x: Note)
    requires Gone(log)
    ensures !GoodLog(log + [x])
  {
    var n := |log|;
    var longer := log + [x];
    assert longer[..n] == log && longer[n - 1] == Destroyed;
  }

  /**
   On a connection that has had its Down, destroyed or not, an event keeps the log in order if and
   only if it neither closes nor reads.
   */
  lemma EventAfterDownIff(s: Server, c: ConnId, mask: set<Ready>, r: ReadResult)
    requires c in s.conns && (Closed(s.conns[c].log) || Gone(s.conns[c].log))
    ensures GoodLog(Dispatch(s, c, mask, r).conns[c].log) <==> !Closes(mask) && !Reads(mask, r)
  {
    hide GoodLog, Closed, Gone, Dispatch;
    var log := s.conns[c].log;
    DispatchLog(s, c, mask, r);
    DownEndsLog(log, Down);
    DownEndsLog(log, Noted(r));
    BadStays(log + [Down], Noted(r));
  }

  /** No `shutdown` among the first `k` events sets the state of a connection that has gone down. */
  ghost predicate SetsInTime(ss: seq<Server>, es: seq<Event>, k: nat)
    requires Run(ss, es) && k <= |es|
  {
    forall i :: 0 <= i < k && es[i].ShutdownSet? ==> ss[i].conns[es[i].c].state != Disconnected
  }

  ghost predicate NoneRevived(s: Server) {
    forall c :: c in s.conns ==> !Revived(s.conns[c])
  }

  lemma StepNoneRevived(s: Server, e: Event)
    requires Inv(s) && NoneRevived(s) && Possible(s, e)
    requires e.ShutdownSet? ==> s.conns[e.c].state != Disconnected
    ensures NoneRevived(Step(s, e))
  {
    hide Homed, In, Dispatch;
    match e
    case ShutdownSet(c) =>
      assert SomePhase(s, c);
      SetRevivesIff(s, c);
    case Ready(c, mask, r) => DispatchNoneRevived(s, c, mask, r);
    case _ =>
  }

  lemma DispatchNoneRevived(s: Server, c: ConnId, mask: set<Ready>, r: ReadResult)
    requires NoneRevived(s) && c in s.conns
    ensures NoneRevived(Dispatch(s, c, mask, r))
  {
    assert NoneRevived(HandleClose(s, c));
  }

  /** No event among the first `k` closes and reads at once. */
  ghost predicate PlainMasks(es: seq<Event>, k: nat)
    requires k <= |es|
  {
    forall i :: 0 <= i < k && es[i].Ready? ==> !(Closes(es[i].mask) && Reads(es[i].mask, es[i].r))
  }

  /** The step is not a send that leaves data to write on a revived connection. */
  predicate QuietSend(s: Server, e: Event)
    requires Possible(s, e)
  {
    e.RunNext? && e.rest && Q(s, e.l)[0].Send? ==> !Revived(s.conns[Q(s, e.l)[0].c])
  }

  ghost predicate QuietSends(ss: seq<Server>, es: seq<Event>, k: nat)
    requires Run(ss, es) && k <= |es|
  {
    forall i :: 0 <= i < k ==> QuietSend(ss[i], es[i])
  }

  /** No channel is in the interest set after its connection's Down. */
  ghost predicate DeadUnregistered(s: Server) {
    forall c :: c in s.conns && Down in s.conns[c].log ==> !s.conns[c].registered
  }

  lemma ReadyDead(s: Server, c: ConnId, mask: set<Ready>, r: ReadResult)
    requires DeadUnregistered(s) && c in s.conns && s.conns[c].registered && !(Closes(mask) && Reads(mask, r))
    ensures DeadUnregistered(Dispatch(s, c, mask, r))
  {
    assert DeadUnregistered(HandleClose(s, c));
  }

  lemma TaskDead(s: Server, l: LoopId, rest: bool)
    requires Inv(s) && DeadUnregistered(s) && Possible(s, RunNext(l, rest)) && QuietSend(s, RunNext(l, rest))
    ensures DeadUnregistered(Step(s, RunNext(l, rest)))
  {
    var task := Q(s, l)[0];
    var c := task.c;
    assert l in s.queues && s.queues[l][0] == task;
    assert SomePhase(s, c);
    var p :| In(s, c, p);
    TaskPhase(s, l, c, p);
    DownInLog(s.conns[c].log);
    var t := Step(s, RunNext(l, rest));
    assert Down in t.conns[c].log ==> !t.conns[c].registered;
  }

  lemma StepDead(s: Server, e: Event)
    requires Inv(s) && DeadUnregistered(s) && Possible(s, e) && QuietSend(s, e)
    requires e.Ready? ==> !(Closes(e.mask) && Reads(e.mask, e.r))
    ensures Orderly(s, e) && DeadUnregistered(Step(s, e))
  {
    hide Inv, In, Dispatch, Closes, Reads, RunTask;
    match e
    case Ready(c, mask, r) => ReadyDead(s, c, mask, r);
    case RunNext(l, rest) => TaskDead(s, l, rest);
    case Accept(c, l) => AcceptDead(s, c, l);
    case _ =>
  }

  lemma AcceptDead(s: Server, c: ConnId, l: LoopId)
    requires DeadUnregistered(s) && c !in s.conns
    ensures DeadUnregistered(Step(s, Accept(c, l)))
  {
  }

  /** With plain masks and no send that leaves data on a revived connection, every step is orderly. */
  lemma {:induction false} QuietIsOrderly(ss: seq<Server>, es: seq<Event>, k: nat)
    requires Run(ss, es) && k <= |es| && PlainMasks(es, k) && QuietSends(ss, es, k)
    ensures OrderlyUpTo(ss, es, k) && DeadUnregistered(ss[k])
  {
    hide Inv, Step, Possible, Orderly, QuietSend, Closes, Reads;
    if k == 0 {
      assert ss[0].conns == map[];
    } else {
      QuietIsOrderly(ss, es, k - 1);
      RunKeeps(ss, es, k - 1);
      StepDead(ss[k - 1], es[k - 1]);
    }
  }

  /** When every set comes in time, no connection is revived, and only the masks have to be plain. */
  lemma {:induction false} InTimeIsOrderly(ss: seq<Server>, es: seq<Event>, k: nat)
    requires Run(ss, es) && k <= |es| && SetsInTime(ss, es, k) && PlainMasks(es, k)
    ensures OrderlyUpTo(ss, es, k) && QuietSends(ss, es, k) && NoneRevived(ss[k])
  {
    hide Inv, Step, Orderly, Closes, Reads, Revived;
    if k == 0 {
      assert ss[0].conns == map[];
    } else {
      InTimeIsOrderly(ss, es, k - 1);
      RunKeeps(ss, es, k - 1);
      assert Possible(ss[k - 1], es[k - 1]) && ss[k] == Step(ss[k - 1], es[k - 1]);
      StepNoneRevived(ss[k - 1], es[k - 1]);
      QuietIsOrderly(ss, es, k);
    }
  }

  /** An orderly step. */
  ghost predicate Keeps(s: Server, e: Event, t: Server) {
    Possible(s, e) && Orderly(s, e) && t == Step(s, e)
  }

  /** A connection is established, a send is queued, and a `shutdown` passes its test. */
  lemma TestedWithSendQueued() returns (s1: Server, s2: Server, s3: Server, s4: Server)
    ensures Keeps(New, Accept(7, 1), s1) && Keeps(s1, RunNext(1, false), s2)
    ensures Keeps(s2, SendCall(7), s3) && Keeps(s3, ShutdownTest(7), s4) && 7 in s4.conns
    ensures s4.conns[7] == Conn(1, Connected, true, 1, [Up]) && Q(s4, 1) == [Send(7)]
  {
    s1 := Step(New, Accept(7, 1));
    assert s1.conns[7] == Conn(1, Connecting, false, 0, []) && Q(s1, 1) == [Establish(7)];
    s2 := Step(s1, RunNext(1, false));
    assert s2.conns[7] == Conn(1, Connected, true, 0, [Up]) && Q(s2, 1) == [];
    s3 := Step(s2, SendCall(7));
    assert s3.conns[7] == s2.conns[7] && Q(s3, 1) == [Send(7)];
    s4 := Step(s3, ShutdownTest(7));
  }

  /** The connection is closed, its state is set, and the send registers the dead channel again. */
  lemma ClosedThenSet(s4: Server) returns (s5: Server, s6: Server, s7: Server, s8: Server)
    requires 7 in s4.conns && s4.conns[7] == Conn(1, Connected, true, 1, [Up]) && Q(s4, 1) == [Send(7)]
    ensures Keeps(s4, Ready(7, {PollHup}, Data), s5) && Keeps(s5, ShutdownSet(7), s6)
    ensures Keeps(s6, RunNext(1, true), s7) && Possible(s7, Ready(7, {PollHup}, Data))
    ensures !Orderly(s7, Ready(7, {PollHup}, Data)) && s8 == Step(s7, Ready(7, {PollHup}, Data))
    ensures 7 in s8.conns && s8.conns[7].log == [Up, Down, Down]
  {
    s5 := Step(s4, Ready(7, {PollHup}, Data));
    assert s5.conns[7] == Conn(1, Disconnected, false, 1, [Up, Down]) && Q(s5, 1) == [Send(7)];
    s6 := Step(s5, ShutdownSet(7));
    assert s6.conns[7] == Conn(1, Disconnecting, false, 0, [Up, Down]) && Q(s6, 1)[0] == Send(7);
    s7 := Step(s6, RunNext(1, true));
    assert s7.conns[7] == Conn(1, Disconnecting, true, 0, [Up, Down]);
    assert s7.conns[7].log[1] == Down;
    s8 := Step(s7, Ready(7, {PollHup}, Data));
    assert s8.conns[7].log == [Up, Down, Down];
  }

  /**
   A run that ends in two Downs: `shutdown` passes its test, the connection is closed, the state is
   set, and a send queued before the close leaves data to write, which registers the dead channel.
   The close that follows is the one disorderly step.
   */
  lemma LateShutdownSecondDown() returns (ss: seq<Server>, es: seq<Event>)
    ensures Run(ss, es) && |es| == 8
    ensures 7 in ss[8].conns && ss[8].conns[7].log == [Up, Down, Down]
    ensures forall i :: 0 <= i < 8 ==> (Orderly(ss[i], es[i]) <==> i != 7)
  {
    hide Step, Possible, Orderly;
    var s1, s2, s3, s4 := TestedWithSendQueued();
    var s5, s6, s7, s8 := ClosedThenSet(s4);
    es := [Accept(7, 1), RunNext(1, false), SendCall(7), ShutdownTest(7), Ready(7, {PollHup}, Data),
           ShutdownSet(7), RunNext(1, true), Ready(7, {PollHup}, Data)];
    ss := [New, s1, s2, s3, s4, s5, s6, s7, s8];
  }

}
