/** Where a connection stands. */
module ConnState {

  datatype State = Connecting | Connected | Disconnecting | Disconnected

}

/**
 The sending side of a connection. `ConnSpec` gives each step as a function on values and proves
 what holds over every run; the class below performs the same steps on a `Buffer`.

 The kernel is a parameter of each step: a write may take any part of what it is given, or fail.
 */
module ConnSpec {
  import opened Buffer
  import opened ConnState

  datatype Callback = WriteComplete | HighWater(bytes: nat)

  /** What `write` returned. `Broken` is EPIPE or ECONNRESET. */
  datatype WriteResult = Wrote(n: nat) | WouldBlock | Broken | OtherError

  /**
   `accepted` is what `sendInLoop` took on, `wire` what the kernel took, both over the whole life
   of the connection. `finished` records that `shutdownWrite` was called, `asked` that
   `shutdownInLoop` has run. `shutdown` may be called on any thread and tests the state before it
   sets it: `testing` calls have passed the test and not yet set the state, `due` have set it and
   their `shutdownInLoop` waits in the loop's queue.
   */
  datatype Conn = Conn(
    state: State, writing: bool, output: seq<byte>, queued: seq<Callback>,
    accepted: seq<byte>, wire: seq<byte>, finished: bool, asked: bool, testing: nat, due: nat,
    onWriteComplete: bool, onHighWater: bool, mark: nat)

  function New(onWriteComplete: bool, onHighWater: bool, mark: nat): Conn {
    Conn(Connecting, false, [], [], [], [], false, false, 0, 0, onWriteComplete, onHighWater, mark)
  }

  /** The write that `sendInLoop` attempts before it buffers anything. */
  predicate Direct(c: Conn) {
    !c.writing && c.output == []
  }

  predicate Rejected(c: Conn, w: WriteResult) {
    c.state == Disconnected || (Direct(c) && w.Broken?)
  }

  /** Buffer what could not be written, announcing that the mark is crossed, and watch for space. */
  function Keep(c: Conn, rest: seq<byte>): Conn {
    if rest == [] then c
    else
      var size := |c.output| + |rest|;
      var crosses := size >= c.mark && |c.output| < c.mark && c.onHighWater;
      c.(queued := if crosses then c.queued + [HighWater(size)] else c.queued,
         output := c.output + rest, writing := true)
  }

  /** The part of a payload that `sendInLoop` has to buffer. */
  function Rest(c: Conn, data: seq<byte>, w: WriteResult): seq<byte>
    requires w.Wrote? ==> w.n <= |data|
  {
    if Rejected(c, w) then [] else if Direct(c) && w.Wrote? then data[w.n..] else data
  }

  /** The direct write, announcing that it took everything. */
  function Attempt(c: Conn, data: seq<byte>, w: WriteResult): Conn
    requires w.Wrote? ==> w.n <= |data|
  {
    if Direct(c) && w.Wrote? then
      var done := w.n == |data| && c.onWriteComplete;
      c.(wire := c.wire + data[..w.n], queued := if done then c.queued + [WriteComplete] else c.queued)
    else c
  }

  function SendInLoop(c: Conn, data: seq<byte>, w: WriteResult): Conn
    requires w.Wrote? ==> w.n <= |data|
  {
    if Rejected(c, w) then c
    else Keep(Attempt(c, data, w).(accepted := c.accepted + data), Rest(c, data, w))
  }

  function ShutdownInLoop(c: Conn): Conn {
    if c.writing then c.(asked := true) else c.(asked := true, finished := true)
  }

  /** The buffer has run empty: stop watching, announce it, and finish a shutdown that waited for it. */
  function Drained(c: Conn): Conn {
    var c1 := c.(writing := false, queued := if c.onWriteComplete then c.queued + [WriteComplete] else c.queued);
    if c1.state == Disconnecting then ShutdownInLoop(c1) else c1
  }

  function HandleWrite(c: Conn, w: WriteResult): Conn
    requires w.Wrote? ==> w.n <= |c.output|
  {
    if !c.writing || !w.Wrote? || w.n == 0 then c
    else
      var c1 := c.(wire := c.wire + c.output[..w.n], output := c.output[w.n..]);
      if c1.output == [] then Drained(c1) else c1
  }

  function HandleClose(c: Conn): Conn {
    c.(state := Disconnected, writing := false)
  }

  datatype Event =
    | Establish
    | Send(data: seq<byte>, w: WriteResult)
    | Writable(w: WriteResult)
    | ShutdownTest
    | ShutdownSet
    | ShutdownRun
    | Close
    | Destroy

  /**
   When each step can happen. `sendInLoop` is queued only on an established connection, and on a
   half-closed socket the kernel fails every write of at least one byte with EPIPE.
   */
  predicate Possible(c: Conn, e: Event) {
    match e
    case Establish => c.state == Connecting
    case Send(data, w) =>
      && c.state != Connecting
      && (w.Wrote? ==> w.n <= |data|)
      && (c.finished && data != [] ==> w == Broken)
    case Writable(w) => (w.Wrote? ==> w.n <= |c.output|) && (c.finished && c.output != [] ==> w == Broken)
    case ShutdownTest => true
    case ShutdownSet => c.testing > 0
    case ShutdownRun => c.due > 0
    case Close => true
    case Destroy => true
  }

  function Step(c: Conn, e: Event): Conn
    requires Possible(c, e)
  {
    match e
    case Establish => c.(state := Connected)
    case Send(data, w) => SendInLoop(c, data, w)
    case Writable(w) => HandleWrite(c, w)
    case ShutdownTest => if c.state == Connected then c.(testing := c.testing + 1) else c
    case ShutdownSet => c.(state := Disconnecting, testing := c.testing - 1, due := c.due + 1)
    case ShutdownRun => ShutdownInLoop(c.(due := c.due - 1))
    case Close => HandleClose(c)
    case Destroy => if c.state == Connected then HandleClose(c) else c
  }

  // ---------------------------------------------------------------- the invariant

  /** Every accepted byte is on the wire or waiting, in order. */
  predicate Conserved(c: Conn) {
    c.wire + c.output == c.accepted
  }

  /** What the send path promises of a connection at any moment. */
  predicate Promise(c: Conn) {
    // write interest is on exactly while the connection is up and there is something to write
    && (c.writing <==> c.state != Disconnected && c.output != [])
    // a connection that is up is half-closed only when everything accepted is out
    && (c.finished && c.state != Disconnected ==> c.output == [])
    // a shutdown that was asked for is either done or still has bytes to wait for
    && (c.asked && c.state == Disconnecting ==> c.finished || c.output != [])
  }

  ghost predicate Inv(c: Conn) {
    && Conserved(c) && Promise(c)
    && (c.state == Connecting ==> c.output == [] && c.testing == 0)
    && (c.finished || c.asked || c.due > 0 ==> c.state == Disconnecting || c.state == Disconnected)
    && (c.asked && !c.finished ==> c.output != [])
  }

  /**
   What a `shutdown` that has passed its test must find when it sets the state: a connection still
   up, or one that went down with nothing unsent.
   */
  predicate SafeToSet(c: Conn) {
    c.state != Disconnected || c.output == []
  }

  lemma Split(wire: seq<byte>, data: seq<byte>, n: nat)
    requires n <= |data|
    ensures (wire + data[..n]) + data[n..] == wire + data
  {
    assert data[..n] + data[n..] == data;
  }

  lemma SendConserves(c: Conn, data: seq<byte>, w: WriteResult)
    requires Conserved(c) && (w.Wrote? ==> w.n <= |data|)
    ensures Conserved(SendInLoop(c, data, w))
  {
    if !Rejected(c, w) {
      if Direct(c) && w.Wrote? {
        Split(c.wire, data, w.n);
        assert c.output + data[w.n..] == data[w.n..];
        assert c.wire + c.output == c.wire;
      } else {
        assert c.wire + (c.output + data) == (c.wire + c.output) + data;
        if data == [] { assert c.accepted + data == c.accepted; }
      }
    }
  }

  lemma WriteConserves(c: Conn, w: WriteResult)
    requires Conserved(c) && (w.Wrote? ==> w.n <= |c.output|)
    ensures Conserved(HandleWrite(c, w))
  {
    if c.writing && w.Wrote? && w.n > 0 { Split(c.wire, c.output, w.n); }
  }

  lemma StepConserves(c: Conn, e: Event)
    requires Conserved(c) && Possible(c, e)
    ensures Conserved(Step(c, e))
  {
    match e
    case Send(data, w) => SendConserves(c, data, w);
    case Writable(w) => WriteConserves(c, w);
    case _ =>
  }

  lemma SendKeeps(c: Conn, data: seq<byte>, w: WriteResult)
    requires Inv(c) && Possible(c, Send(data, w))
    ensures Inv(SendInLoop(c, data, w))
  {
    SendConserves(c, data, w);
  }

  lemma WriteKeeps(c: Conn, w: WriteResult)
    requires Inv(c) && Possible(c, Writable(w))
    ensures Inv(HandleWrite(c, w))
  {
    WriteConserves(c, w);
  }

  /** Every step keeps the promise, except a set that comes too late; and that one always breaks it. */
  lemma StepKeepsIff(c: Conn, e: Event)
    requires Inv(c) && Possible(c, e)
    ensures Promise(Step(c, e)) <==> (e.ShutdownSet? ==> SafeToSet(c))
    ensures Promise(Step(c, e)) ==> Inv(Step(c, e))
  {
    match e
    case Send(data, w) => SendKeeps(c, data, w);
    case Writable(w) => WriteKeeps(c, w);
    case _ =>
  }

  // ---------------------------------------------------------------- every run

  ghost predicate Run(cs: seq<Conn>, es: seq<Event>) {
    && |cs| == |es| + 1
    && (exists wc, hw, mark :: cs[0] == New(wc, hw, mark))
    && forall i :: 0 <= i < |es| ==> Possible(cs[i], es[i]) && cs[i + 1] == Step(cs[i], es[i])
  }

  /** No `shutdown` among the first `k` events sets the state too late. */
  ghost predicate NoLateSet(cs: seq<Conn>, es: seq<Event>, k: nat)
    requires k <= |es| <= |cs|
  {
    forall i :: 0 <= i < k && es[i].ShutdownSet? ==> SafeToSet(cs[i])
  }

  lemma {:induction false} RunKeeps(cs: seq<Conn>, es: seq<Event>, k: nat)
    requires Run(cs, es) && k <= |es| && NoLateSet(cs, es, k)
    ensures Inv(cs[k])
  {
    hide Inv, Step, Possible, SafeToSet, Promise;
    if k == 0 {
      NewKeeps(cs[0]);
    } else {
      RunKeeps(cs, es, k - 1);
      StepKeepsIff(cs[k - 1], es[k - 1]);
    }
  }

  /**
   The promise is kept all along a run if and only if every `shutdown` in it that sets the state
   finds the connection up or nothing unsent.
   */
  lemma {:induction false} PromiseKeptIff(cs: seq<Conn>, es: seq<Event>, k: nat)
    requires Run(cs, es) && k <= |es|
    ensures (forall j :: 0 <= j <= k ==> Promise(cs[j])) <==> NoLateSet(cs, es, k)
  {
    hide Inv, Step, Possible, SafeToSet, Promise;
    if NoLateSet(cs, es, k) {
      forall j | 0 <= j <= k
        ensures Promise(cs[j])
      {
        RunKeeps(cs, es, j);
        InvPromise(cs[j]);
      }
    } else {
      PromiseKeptIff(cs, es, k - 1);
      if NoLateSet(cs, es, k - 1) {
        RunKeeps(cs, es, k - 1);
        StepKeepsIff(cs[k - 1], es[k - 1]);
        assert !Promise(cs[k]);
      }
    }
  }

  lemma InvPromise(c: Conn)
    requires Inv(c)
    ensures Promise(c)
  {
  }

  lemma NewKeeps(c: Conn)
    requires exists wc, hw, mark :: c == New(wc, hw, mark)
    ensures Inv(c)
  {
  }

  /**
   Such a run exists: `shutdown` passes its test, the connection is closed with bytes waiting, and
   only then is the state set. Write interest is off although the connection counts as up with
   bytes to write, and the queued `shutdownInLoop` half-closes it with none of them on the wire.
   */
  lemma LateSetHalfClosesUnsent(data: seq<byte>) returns (cs: seq<Conn>, es: seq<Event>)
    requires data != []
    ensures Run(cs, es) && |es| == 6
    ensures cs[5].state == Disconnecting && !cs[5].writing && cs[5].output == data && !cs[5].finished
    ensures cs[6].state == Disconnecting && cs[6].finished
    ensures cs[6].accepted == data && cs[6].wire == []
  {
    hide Step, Possible;
    var c0 := New(false, false, 0);
    var c1 := c0.(state := Connected);
    var c2 := c1.(accepted := data, output := data, writing := true);
    var c3 := c2.(testing := 1);
    var c4 := c3.(state := Disconnected, writing := false);
    var c5 := c4.(state := Disconnecting, testing := 0, due := 1);
    var c6 := c5.(due := 0, asked := true, finished := true);
    LateSetSteps(data, c0, c1, c2, c3, c4, c5, c6);
    es := [Establish, Send(data, WouldBlock), ShutdownTest, Close, ShutdownSet, ShutdownRun];
    cs := [c0, c1, c2, c3, c4, c5, c6];
  }

  /** The step `e` leads from `c` to `t`. */
  ghost predicate Leads(c: Conn, e: Event, t: Conn) {
    Possible(c, e) && t == Step(c, e)
  }

  lemma LateSetSteps(data: seq<byte>, c0: Conn, c1: Conn, c2: Conn, c3: Conn, c4: Conn, c5: Conn, c6: Conn)
    requires data != [] && c0 == New(false, false, 0) && c1 == c0.(state := Connected)
    requires c2 == c1.(accepted := data, output := data, writing := true) && c3 == c2.(testing := 1)
    requires c4 == c3.(state := Disconnected, writing := false)
    requires c5 == c4.(state := Disconnecting, testing := 0, due := 1)
    requires c6 == c5.(due := 0, asked := true, finished := true)
    ensures Leads(c0, Establish, c1) && Leads(c1, Send(data, WouldBlock), c2) && Leads(c2, ShutdownTest, c3)
    ensures Leads(c3, Close, c4) && Leads(c4, ShutdownSet, c5) && Leads(c5, ShutdownRun, c6)
  {
    assert [] + data == data;
  }

  /**
   A payload is turned away when the connection is down, or when nothing waits in front of it and
   the kernel reports a broken connection.
   */
  predicate TurnedAway(c: Conn, w: WriteResult) {
    c.state == Disconnected || (!c.writing && c.output == [] && w == Broken)
  }

  /** The payloads of the first `k` events that were not turned away, in order. */
  function Payloads(cs: seq<Conn>, es: seq<Event>, k: nat): seq<byte>
    requires k <= |es| <= |cs|
  {
    if k == 0 then []
    else Payloads(cs, es, k - 1)
         + if es[k - 1].Send? && !TurnedAway(cs[k - 1], es[k - 1].w) then es[k - 1].data else []
  }

  /**
   What the kernel takes in one event: of a payload only when nothing waits in front of it, of the
   buffer only while it is watched for.
   */
  function TakenBy(c: Conn, e: Event): seq<byte>
    requires Possible(c, e)
  {
    match e
    case Send(data, w) =>
      if c.state != Disconnected && !c.writing && c.output == [] && w.Wrote? then data[..w.n] else []
    case Writable(w) => if c.writing && w.Wrote? then c.output[..w.n] else []
    case _ => []
  }

  function Taken(cs: seq<Conn>, es: seq<Event>, k: nat): seq<byte>
    requires Run(cs, es) && k <= |es|
  {
    if k == 0 then [] else Taken(cs, es, k - 1) + TakenBy(cs[k - 1], es[k - 1])
  }

  lemma TakenStep(c: Conn, e: Event)
    requires Possible(c, e)
    ensures Step(c, e).wire == c.wire + TakenBy(c, e)
  {
    hide Keep, Drained;
    assert c.wire + [] == c.wire;
    match e
    case Send(data, w) => KeepWire(Attempt(c, data, w).(accepted := c.accepted + data), Rest(c, data, w));
    case Writable(w) =>
      DrainedWire(c.(wire := c.wire + c.output[..if w.Wrote? then w.n else 0], output := []));
    case _ =>
  }

  /** The wire holds exactly what the kernel took, event by event. */
  lemma {:induction false} WireIsTaken(cs: seq<Conn>, es: seq<Event>, k: nat)
    requires Run(cs, es) && k <= |es|
    ensures cs[k].wire == Taken(cs, es, k)
  {
    hide Step, Possible, TakenBy;
    if k == 0 {
    } else {
      WireIsTaken(cs, es, k - 1);
      TakenStep(cs[k - 1], es[k - 1]);
      assert cs[k] == Step(cs[k - 1], es[k - 1]);
    }
  }

  /** The state that a sequence of events leads to, whatever the bytes do. */
  function StateAfter(es: seq<Event>, k: nat): State
    requires k <= |es|
  {
    if k == 0 then Connecting
    else
      var before := StateAfter(es, k - 1);
      match es[k - 1]
      case Establish => Connected
      case ShutdownSet => Disconnecting
      case Close => Disconnected
      case Destroy => if before == Connected then Disconnected else before
      case _ => before
  }

  /** How many of the first `k` events satisfy `p` in the state they meet. */
  ghost function Count(cs: seq<Conn>, es: seq<Event>, k: nat, p: (Conn, Event) -> bool): nat
    requires k <= |es| <= |cs|
  {
    if k == 0 then 0 else Count(cs, es, k - 1, p) + if p(cs[k - 1], es[k - 1]) then 1 else 0
  }

  predicate Passes(c: Conn, e: Event) {
    e == ShutdownTest && c.state == Connected
  }

  predicate Sets(c: Conn, e: Event) {
    e == ShutdownSet
  }

  predicate RunsShutdown(c: Conn, e: Event) {
    e == ShutdownRun
  }

  lemma StepState(c: Conn, e: Event)
    requires Possible(c, e)
    ensures var t := Step(c, e);
            && t.state == (match e
                           case Establish => Connected
                           case ShutdownSet => Disconnecting
                           case Close => Disconnected
                           case Destroy => if c.state == Connected then Disconnected else c.state
                           case _ => c.state)
            && t.testing + (if Sets(c, e) then 1 else 0) == c.testing + (if Passes(c, e) then 1 else 0)
            && t.due + (if RunsShutdown(c, e) then 1 else 0) == c.due + (if Sets(c, e) then 1 else 0)
  {
    hide SendInLoop, HandleWrite;
    match e
    case Send(data, w) => SendFrame(c, data, w);
    case Writable(w) => WriteFrame(c, w);
    case _ =>
  }

  lemma SendFrame(c: Conn, data: seq<byte>, w: WriteResult)
    requires w.Wrote? ==> w.n <= |data|
    ensures var t := SendInLoop(c, data, w);
            t.state == c.state && t.testing == c.testing && t.due == c.due && t.finished == c.finished
  {
  }

  lemma WriteFrame(c: Conn, w: WriteResult)
    requires w.Wrote? ==> w.n <= |c.output|
    ensures var t := HandleWrite(c, w);
            t.state == c.state && t.testing == c.testing && t.due == c.due
  {
  }

  /**
   The state is the one the events lead to. Every set of a `shutdown` has a test of its own that
   found the connection connected, and every queued `shutdownInLoop` a set of its own.
   */
  lemma {:induction false} RunState(cs: seq<Conn>, es: seq<Event>, k: nat)
    requires Run(cs, es) && k <= |es|
    ensures cs[k].state == StateAfter(es, k)
    ensures Count(cs, es, k, Sets) + cs[k].testing == Count(cs, es, k, Passes)
    ensures Count(cs, es, k, RunsShutdown) + cs[k].due == Count(cs, es, k, Sets)
  {
    hide Step, Possible;
    if k == 0 {
    } else {
      RunState(cs, es, k - 1);
      StepState(cs[k - 1], es[k - 1]);
      assert cs[k] == Step(cs[k - 1], es[k - 1]);
    }
  }

  lemma {:induction false} AcceptedIsPayloads(cs: seq<Conn>, es: seq<Event>, k: nat)
    requires Run(cs, es) && k <= |es|
    ensures cs[k].accepted == Payloads(cs, es, k)
  {
    hide Step, Possible;
    if k == 0 {
    } else {
      AcceptedIsPayloads(cs, es, k - 1);
      AcceptedStep(cs[k - 1], es[k - 1]);
      assert cs[k] == Step(cs[k - 1], es[k - 1]);
    }
  }

  lemma AcceptedStep(c: Conn, e: Event)
    requires Possible(c, e)
    ensures Step(c, e).accepted == c.accepted + if e.Send? && !TurnedAway(c, e.w) then e.data else []
  {
    assert c.accepted + [] == c.accepted;
  }

  /** Bytes on the wire, then the output buffer, are the accepted payloads: none lost, doubled or reordered. */
  lemma {:induction false} WireThenBuffer(cs: seq<Conn>, es: seq<Event>, k: nat)
    requires Run(cs, es) && k <= |es|
    ensures cs[k].wire + cs[k].output == Payloads(cs, es, k)
  {
    hide Step, Possible, Payloads;
    AcceptedIsPayloads(cs, es, k);
    if k == 0 {
    } else {
      WireThenBuffer(cs, es, k - 1);
      AcceptedIsPayloads(cs, es, k - 1);
      StepConserves(cs[k - 1], es[k - 1]);
    }
  }

  lemma WireStep(c: Conn, e: Event)
    requires Possible(c, e)
    ensures c.wire <= Step(c, e).wire
  {
    hide Step;
    TakenStep(c, e);
  }

  lemma KeepWire(c: Conn, rest: seq<byte>)
    ensures Keep(c, rest).wire == c.wire
  {
  }

  lemma DrainedWire(c: Conn)
    ensures Drained(c).wire == c.wire
  {
  }

  /** What the kernel has taken is never taken back. */
  lemma {:induction false} WireGrows(cs: seq<Conn>, es: seq<Event>, i: nat, k: nat)
    requires Run(cs, es) && i <= k < |cs|
    ensures cs[i].wire <= cs[k].wire
    decreases k
  {
    hide Step, Possible;
    if i == k {
    } else {
      WireGrows(cs, es, i, k - 1);
      WireStep(cs[k - 1], es[k - 1]);
    }
  }

  /** A connection half-closed with nothing unsent takes nothing more. */
  lemma FinishedStep(c: Conn, e: Event)
    requires Inv(c) && Possible(c, e) && c.finished && c.output == []
    ensures var t := Step(c, e);
            t.finished && t.output == [] && t.wire == c.wire && t.accepted == c.accepted == c.wire
  {
    assert c.wire + [] == c.wire;
    match e
    case Send(data, w) =>
      if data == [] {
        assert c.wire + data == c.wire && c.accepted + data == c.accepted;
      }
    case _ =>
  }

  lemma FinishingStep(c: Conn, e: Event)
    requires Inv(c) && Possible(c, e) && !c.finished && Step(c, e).finished && c.state != Disconnected
    ensures Step(c, e).output == []
  {
  }

  /**
   The step that half-closes a connection which is still up does so with every accepted byte on
   the wire, and nothing is accepted afterwards.
   */
  lemma {:induction false} FinishedMeansFlushed(cs: seq<Conn>, es: seq<Event>, i: nat, k: nat)
    requires Run(cs, es) && i < k <= |es| && NoLateSet(cs, es, k)
    requires !cs[i].finished && cs[i + 1].finished && cs[i].state != Disconnected
    ensures cs[i + 1].wire == Payloads(cs, es, i + 1)
    ensures cs[k].wire == cs[k].accepted == cs[i + 1].wire && cs[k].finished && cs[k].output == []
    decreases k
  {
    hide Step, Possible, Payloads, Inv, SafeToSet, Promise;
    if k == i + 1 {
      RunKeeps(cs, es, i);
      FinishingStep(cs[i], es[i]);
      WireThenBuffer(cs, es, k);
      AcceptedIsPayloads(cs, es, k);
      assert cs[k].wire + [] == cs[k].wire;
    } else {
      FinishedMeansFlushed(cs, es, i, k - 1);
      RunKeeps(cs, es, k - 1);
      FinishedStep(cs[k - 1], es[k - 1]);
    }
  }

  /** The write that empties the buffer of a disconnecting connection is the one that half-closes it. */
  lemma DrainFinishes(c: Conn, w: WriteResult)
    requires Inv(c) && Possible(c, Writable(w)) && c.state == Disconnecting && c.output != []
    ensures HandleWrite(c, w).finished <==> HandleWrite(c, w).output == []
    ensures HandleWrite(c, w).finished ==> HandleWrite(c, w).wire == c.accepted
  {
    if w.Wrote? && w.n == |c.output| { assert c.output[..w.n] == c.output; }
  }

  /** The write that takes all that waits. */
  predicate Drains(c: Conn, e: Event) {
    e.Writable? && c.writing && c.output != [] && e.w == Wrote(|c.output|)
  }

  /**
   A connection is half-closed by exactly two steps: a queued `shutdownInLoop` that finds nothing
   being written, and the write that drains the buffer of a disconnecting connection.
   */
  lemma FinishesIff(c: Conn, e: Event)
    requires Inv(c) && Possible(c, e)
    ensures Step(c, e).finished <==>
              c.finished || (e == ShutdownRun && !c.writing) || (Drains(c, e) && c.state == Disconnecting)
  {
    hide SendInLoop;
    if e.Send? { SendFrame(c, e.data, e.w); }
  }

  /** The callbacks a step queues. */
  function Added(c: Conn, e: Event): seq<Callback>
    requires Possible(c, e)
  {
    var t := Step(c, e);
    if |c.queued| <= |t.queued| then t.queued[|c.queued|..] else []
  }

  /** The direct write that takes the whole payload. */
  predicate WritesAll(c: Conn, e: Event) {
    e.Send? && c.state != Disconnected && !c.writing && c.output == [] && e.w == Wrote(|e.data|)
  }

  /** What a send has to leave in the buffer takes it across the mark. */
  predicate Crosses(c: Conn, e: Event)
    requires Possible(c, e)
  {
    c.onHighWater && |c.output| < c.mark <= |Step(c, e).output|
  }

  lemma KeepAdds(c: Conn, rest: seq<byte>)
    ensures var t := Keep(c, rest);
            && |t.output| == |c.output| + |rest|
            && t.queued == c.queued + if c.onHighWater && |c.output| < c.mark <= |t.output| then [HighWater(|t.output|)] else []
  {
    assert c.queued + [] == c.queued;
  }

  lemma SendAdds(c: Conn, data: seq<byte>, w: WriteResult)
    requires Possible(c, Send(data, w))
    ensures var e, t := Send(data, w), SendInLoop(c, data, w);
            t.queued == c.queued + (if WritesAll(c, e) && c.onWriteComplete then [WriteComplete] else [])
                                 + (if Crosses(c, e) then [HighWater(|t.output|)] else [])
  {
    hide Keep;
    if Rejected(c, w) {
      assert c.queued + [] + [] == c.queued;
    } else {
      var c1 := Attempt(c, data, w).(accepted := c.accepted + data);
      KeepAdds(c1, Rest(c, data, w));
      assert c1.queued == c.queued + if WritesAll(c, Send(data, w)) && c.onWriteComplete then [WriteComplete] else [];
    }
  }

  /**
   Exactly what each step queues: completion once, when the kernel takes the whole payload at once
   or all that waits; high water once, with the new size, when the buffer crosses its mark.
   */
  lemma QueuedExactly(c: Conn, e: Event)
    requires Possible(c, e)
    ensures Step(c, e).queued ==
              c.queued + (if (WritesAll(c, e) || Drains(c, e)) && c.onWriteComplete then [WriteComplete] else [])
                       + (if Crosses(c, e) then [HighWater(|Step(c, e).output|)] else [])
  {
    hide SendInLoop;
    assert c.queued + [] + [] == c.queued;
    match e
    case Send(data, w) => SendAdds(c, data, w);
    case _ =>
  }

  lemma AddedExactly(c: Conn, e: Event)
    requires Possible(c, e)
    ensures Added(c, e) == (if (WritesAll(c, e) || Drains(c, e)) && c.onWriteComplete then [WriteComplete] else [])
                           + (if Crosses(c, e) then [HighWater(|Step(c, e).output|)] else [])
  {
    hide Step;
    QueuedExactly(c, e);
  }

  /** Completion is announced if and only if it is asked for and the kernel has taken the last waiting byte. */
  lemma CompleteIff(c: Conn, e: Event)
    requires Possible(c, e)
    ensures WriteComplete in Added(c, e) <==> c.onWriteComplete && (WritesAll(c, e) || Drains(c, e))
  {
    hide Step, Added;
    AddedExactly(c, e);
  }

  /** Completion is announced only when everything accepted is out. */
  lemma CompleteMeansFlushed(c: Conn, e: Event)
    requires Conserved(c) && Possible(c, e) && WriteComplete in Added(c, e)
    ensures Step(c, e).wire == Step(c, e).accepted
  {
    hide Added;
    CompleteIff(c, e);
    StepConserves(c, e);
    var t := Step(c, e);
    assert t.output == [];
    assert t.wire + [] == t.wire;
  }

  /** High water is announced exactly when the buffer crosses the mark upwards, with its new size. */
  lemma HighWaterOnCrossing(c: Conn, e: Event, n: nat)
    requires Possible(c, e)
    ensures HighWater(n) in Added(c, e) <==>
              c.onHighWater && |c.output| < c.mark <= n && n == |Step(c, e).output|
  {
    hide Step, Added;
    AddedExactly(c, e);
  }

}

/** The connection object: `ConnSpec`'s steps performed on a mutable `Buffer`. */
module TcpConnection {
  import opened Buffer
  import opened ConnState
  import opened ConnSpec

  class TcpConnection {
    var state: State
    var writing: bool
    var queued: seq<Callback>
    const output: Buffer
    const onWriteComplete: bool
    const onHighWater: bool
    const mark: nat
    ghost var accepted: seq<byte>
    ghost var wire: seq<byte>
    ghost var finished: bool
    ghost var asked: bool
    ghost var testing: nat
    ghost var due: nat

    ghost predicate Valid()
      reads this, output
    {
      output.Valid()
    }

    ghost function View(): Conn
      requires Valid()
      reads this, output, output.data
    {
      Conn(state, writing, output.Content(), queued, accepted, wire, finished, asked, testing, due,
           onWriteComplete, onHighWater, mark)
    }

    constructor (onWriteComplete: bool, onHighWater: bool, mark: nat)
      ensures Valid() && fresh(output) && fresh(output.data)
      ensures View() == New(onWriteComplete, onHighWater, mark) && Inv(View())
      ensures state == Connecting && !writing && output.View() == Layout(1032, 8, 8)
    {
      state, writing, queued := Connecting, false, [];
      output := new Buffer(INITIAL_SIZE);
      this.onWriteComplete, this.onHighWater, this.mark := onWriteComplete, onHighWater, mark;
      accepted, wire, finished, asked, testing, due := [], [], false, false, 0, 0;
    }

    method SendInLoop(data: seq<byte>, w: WriteResult)
      requires Valid() && Possible(View(), Send(data, w))
      requires |data| <= MAX_SIZE && (w.Wrote? ==> w.n <= |data|) && RoomFor(output.View(), |Rest(View(), data, w)|)
      modifies this, output, output.data
      ensures Valid() && (output.data == old(output.data) || fresh(output.data))
      ensures View() == ConnSpec.SendInLoop(old(View()), data, w)
      ensures old(Inv(View())) ==> Inv(View())
    {
      hide Inv, Possible, RoomFor, Keep, Attempt;
      ghost var c := View();
      if Inv(c) { SendKeeps(c, data, w); }
      if state == Disconnected {
        return;
      }
      var rest, faultError := WriteDirectly(data, w);
      if faultError {
        return;
      }
      accepted := accepted + data;
      KeepRest(rest);
    }

    /** The first half of `sendInLoop`: when nothing waits, the kernel is offered the data at once. */
    method WriteDirectly(data: seq<byte>, w: WriteResult) returns (rest: seq<byte>, faultError: bool)
      requires Valid() && state != Disconnected && (w.Wrote? ==> w.n <= |data|)
      modifies `wire, `queued
      ensures Valid() && faultError == Rejected(old(View()), w)
      ensures !faultError ==> rest == Rest(old(View()), data, w) && View() == Attempt(old(View()), data, w)
      ensures faultError ==> View() == old(View())
    {
      rest, faultError := data, false;
      var pending := output.ReadableBytes();
      if !writing && pending == 0 {
        if w.Wrote? {
          rest := data[w.n..];
          wire := wire + data[..w.n];
          if rest == [] && onWriteComplete {
            queued := queued + [WriteComplete];
          }
        } else if w.Broken? {
          faultError := true;
        }
      }
    }

    /** The second half of `sendInLoop`: what is left goes to the output buffer. */
    method KeepRest(rest: seq<byte>)
      requires Valid()
      requires |rest| <= MAX_SIZE && RoomFor(output.View(), |rest|)
      modifies this, output, output.data
      ensures Valid() && (output.data == old(output.data) || fresh(output.data))
      ensures View() == Keep(old(View()), rest)
    {
      hide RoomFor, Ensure;
      if |rest| > 0 {
        ghost var waiting := output.Content();
        AnnounceHighWater(|rest|);
        HoldBack(rest);
        assert output.Content() == waiting + rest;
      }
    }

    /** Append to the output buffer and watch for space. */
    method HoldBack(rest: seq<byte>)
      requires Valid() && |rest| <= MAX_SIZE && RoomFor(output.View(), |rest|)
      modifies `writing, output, output.data
      ensures Valid() && (output.data == old(output.data) || fresh(output.data))
      ensures writing && output.Content() == old(output.Content()) + rest
    {
      hide RoomFor, Ensure;
      var ok := output.Append(rest);
      if !writing {
        writing := true;
      }
    }

    /** Queue the high-water callback if `more` bytes take the buffer across its mark. */
    method AnnounceHighWater(more: nat)
      requires Valid()
      modifies `queued
      ensures var size := |output.Content()| + more;
              queued == if size >= mark && size - more < mark && onHighWater
                        then old(queued) + [HighWater(size)] else old(queued)
    {
      var oldLen := output.ReadableBytes();
      if oldLen + more >= mark && oldLen < mark && onHighWater {
        queued := queued + [HighWater(oldLen + more)];
      }
    }

    method ShutdownInLoop()
      requires Valid()
      modifies `finished, `asked
      ensures Valid() && View() == ConnSpec.ShutdownInLoop(old(View()))
      ensures old(Inv(View())) && (state == Disconnecting || state == Disconnected) ==> Inv(View())
    {
      asked := true;
      if !writing {
        finished := true;
      }
    }

    /** The loop runs the `shutdownInLoop` that a `shutdown` queued. */
    method RunShutdown()
      requires Valid() && due > 0
      modifies `finished, `asked, `due
      ensures Valid() && View() == Step(old(View()), ShutdownRun)
      ensures old(Inv(View())) ==> Inv(View())
    {
      due := due - 1;
      ShutdownInLoop();
    }

    method HandleWrite(w: WriteResult)
      requires Valid() && Possible(View(), Writable(w))
      modifies this, output, output.data
      ensures Valid() && output.data == old(output.data)
      ensures View() == ConnSpec.HandleWrite(old(View()), w)
      ensures old(Inv(View())) ==> Inv(View())
    {
      hide Inv, Drained;
      ghost var c := View();
      if Inv(c) { WriteKeeps(c, w); }
      if writing {
        if w.Wrote? && w.n > 0 {
          wire := wire + output.Content()[..w.n];
          output.Retrieve(w.n);
          var left := output.ReadableBytes();
          if left == 0 {
            FinishWriting();
          }
        }
      }
    }

    /** What `handleWrite` does when the buffer has run empty. */
    method FinishWriting()
      requires Valid()
      modifies `writing, `queued, `finished, `asked
      ensures Valid() && View() == Drained(old(View()))
    {
      hide Inv;
      writing := false;
      if onWriteComplete {
        queued := queued + [WriteComplete];
      }
      if state == Disconnecting {
        ShutdownInLoop();
      }
    }

    /** The test of `shutdown`; a call that passes it goes on to `ShutdownSet`. */
    method ShutdownTest() returns (passed: bool)
      requires Valid()
      modifies `testing
      ensures Valid() && View() == Step(old(View()), Event.ShutdownTest)
      ensures old(Inv(View())) ==> Inv(View())
      ensures passed <==> state == Connected
    {
      passed := state == Connected;
      if passed {
        testing := testing + 1;
      }
    }

    /** The rest of `shutdown`, whatever has happened to the connection since the test. */
    method ShutdownSet()
      requires Valid() && testing > 0
      modifies `state, `testing, `due
      ensures Valid() && View() == Step(old(View()), Event.ShutdownSet)
      ensures old(Inv(View())) ==> (Promise(View()) <==> SafeToSet(old(View())))
      ensures old(Inv(View())) && Promise(View()) ==> Inv(View())
    {
      if Inv(View()) { StepKeepsIff(View(), Event.ShutdownSet); }
      state := Disconnecting;
      testing := testing - 1;
      due := due + 1;
    }

    method ConnectEstablished()
      requires Valid() && state == Connecting
      modifies `state
      ensures Valid() && View() == Step(old(View()), Establish)
      ensures old(Inv(View())) ==> Inv(View())
    {
      state := Connected;
    }

    method HandleClose()
      requires Valid()
      modifies `state, `writing
      ensures Valid() && View() == Step(old(View()), Close)
      ensures old(Inv(View())) ==> Inv(View())
    {
      state := Disconnected;
      writing := false;
    }

    method ConnectDestroyed()
      requires Valid()
      modifies `state, `writing
      ensures Valid() && View() == Step(old(View()), Destroy)
      ensures old(Inv(View())) ==> Inv(View())
    {
      if state == Connected {
        state := Disconnected;
        writing := false;
      }
    }
  }

}
