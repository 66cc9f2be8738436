/**
 The asynchronous logger: front-end threads append lines to a current buffer, one back-end thread
 swaps full buffers out, writes them and hands two of them back as spares. Both sides meet under
 one mutex, so each critical section is one step.

 A buffer stands for its payload, the characters before its write position. What reaches the file
 is an image of the whole buffer, because `length()` is the capacity; the model follows payloads.
 */
module AsyncLogging {
  import opened Wrappers

  type Text = seq<char>

  /** The back end: before its critical section, writing (so many done), or recycling buffers. */
  datatype Pc = Top | Writing(done: nat) | Refill1 | Refill2 | Clear

  datatype Logger = Logger(
    capacity: nat,
    current: Text, next: Option<Text>, buffers: seq<Text>,
    pc: Pc, spare1: Option<Text>, spare2: Option<Text>, batch: seq<Text>,
    written: Text, appended: Text)

  function New(capacity: nat): Logger {
    Logger(capacity, [], Some([]), [], Top, Some([]), Some([]), [], [], [])
  }

  function Concat(ts: seq<Text>): Text {
    if ts == [] then [] else ts[0] + Concat(ts[1..])
  }

  /** `FixedBuffer::append`: a line that does not leave a free byte behind it is dropped. */
  function Put(buffer: Text, line: Text, capacity: nat): Text {
    if |buffer| + |line| < capacity then buffer + line else buffer
  }

  /** Whether a logger of this capacity can take the line at all. */
  predicate Kept(line: Text, capacity: nat) {
    |line| < capacity
  }

  /** `AsyncLogging::append`. */
  function Append(s: Logger, line: Text): Logger {
    var s1 := s.(appended := if Kept(line, s.capacity) then s.appended + line else s.appended);
    if |s.current| + |line| < s.capacity then s1.(current := Put(s.current, line, s.capacity))
    else
      var empty := if s.next.Some? then s.next.value else [];
      s1.(buffers := s.buffers + [s.current], current := Put(empty, line, s.capacity), next := None)
  }

  datatype Event = AppendLine(line: Text) | Swap | WriteNext | Trim | TakeSpare1 | TakeSpare2 | ClearBatch

  /** A refill from an empty vector is not possible: `back()` of it has no meaning. */
  predicate Possible(s: Logger, e: Event) {
    match e
    case AppendLine(_) => true
    case Swap => s.pc == Top
    case WriteNext => s.pc.Writing? && s.pc.done < |s.batch|
    case Trim => s.pc == Writing(|s.batch|)
    case TakeSpare1 => s.pc == Refill1 && (s.spare1.None? ==> s.batch != [])
    case TakeSpare2 => s.pc == Refill2 && (s.spare2.None? ==> s.batch != [])
    case ClearBatch => s.pc == Clear
  }

  function DropLast(ts: seq<Text>): seq<Text>
    requires ts != []
  {
    ts[..|ts| - 1]
  }

  function Step(s: Logger, e: Event): Logger
    requires Possible(s, e)
  {
    match e
    case AppendLine(line) => Append(s, line)
    case Swap =>
      var s1 := s.(pc := Writing(0), batch := s.buffers + [s.current], buffers := s.batch,
                   current := if s.spare1.Some? then s.spare1.value else [], spare1 := None);
      if s.next.None? then s1.(next := s.spare2, spare2 := None) else s1
    case WriteNext => s.(pc := Writing(s.pc.done + 1), written := s.written + s.batch[s.pc.done])
    case Trim => s.(pc := Refill1, batch := if |s.batch| > 2 then s.batch[..2] else s.batch)
    case TakeSpare1 =>
      if s.spare1.None? then s.(pc := Refill2, spare1 := Some([]), batch := DropLast(s.batch))
      else s.(pc := Refill2)
    case TakeSpare2 =>
      if s.spare2.None? then s.(pc := Clear, spare2 := Some([]), batch := DropLast(s.batch))
      else s.(pc := Clear)
    case ClearBatch => s.(pc := Top, batch := [])
  }

  // ---------------------------------------------------------------- the invariant

  function Unwritten(s: Logger): seq<Text> {
    if s.pc.Writing? && s.pc.done <= |s.batch| then s.batch[s.pc.done..] else []
  }

  /** Everything appended, wherever it is now. */
  function Everything(s: Logger): Text {
    s.written + Concat(Unwritten(s)) + Concat(s.buffers) + s.current
  }

  ghost predicate Shape(s: Logger) {
    && s.next in {None, Some([])} && s.spare1 in {None, Some([])} && s.spare2 in {None, Some([])}
    // without a second buffer there is at least one full one
    && (s.next.None? ==> s.buffers != [])
    && match s.pc
       case Top => s.spare1.Some? && s.spare2.Some? && s.batch == []
       case Writing(done) => s.spare1.None? && done <= |s.batch| && 1 <= |s.batch| && (s.spare2.None? ==> 2 <= |s.batch|)
       case Refill1 => s.spare1.None? && 1 <= |s.batch| <= 2 && (s.spare2.None? ==> 2 <= |s.batch|)
       case Refill2 => s.spare1.Some? && (s.spare2.None? ==> 1 <= |s.batch|)
       case Clear => s.spare1.Some? && s.spare2.Some?
  }

  ghost predicate Inv(s: Logger) {
    Shape(s) && Everything(s) == s.appended
  }

  lemma {:induction false} ConcatSum(a: seq<Text>, b: seq<Text>)
    ensures Concat(a + b) == Concat(a) + Concat(b)
  {
    if a == [] {
      assert [] + b == b;
    } else {
      assert (a + b)[1..] == a[1..] + b;
      ConcatSum(a[1..], b);
    }
  }

  lemma ConcatOne(t: Text)
    ensures Concat([t]) == t
  {
  }

  lemma StepShape(s: Logger, e: Event)
    requires Shape(s) && Possible(s, e)
    ensures Shape(Step(s, e))
  {
  }

  lemma AppendConserves(s: Logger, line: Text)
    requires Shape(s)
    ensures Everything(Append(s, line)) == if Kept(line, s.capacity) then Everything(s) + line else Everything(s)
  {
    var t := Append(s, line);
    var front := s.written + Concat(Unwritten(s));
    assert Unwritten(t) == Unwritten(s);
    if |s.current| + |line| < s.capacity {
      assert front + Concat(s.buffers) + (s.current + line) == Everything(s) + line;
    } else {
      ConcatSum(s.buffers, [s.current]);
      ConcatOne(s.current);
      assert front + (Concat(s.buffers) + s.current) == Everything(s);
      assert [] + line == line;
      assert Everything(s) + [] == Everything(s);
    }
  }

  lemma SwapConserves(s: Logger)
    requires Shape(s) && s.pc == Top
    ensures Everything(Step(s, Swap)) == Everything(s)
  {
    var t := Step(s, Swap);
    ConcatSum(s.buffers, [s.current]);
    ConcatOne(s.current);
    assert Unwritten(t) == s.buffers + [s.current];
    assert t.written + Concat(Unwritten(t)) == s.written + (Concat(s.buffers) + s.current);
    assert Everything(s) == s.written + (Concat(s.buffers) + s.current);
    assert Concat(t.buffers) + t.current == [];
  }

  lemma WriteConserves(s: Logger)
    requires Shape(s) && Possible(s, WriteNext)
    ensures Everything(Step(s, WriteNext)) == Everything(s)
  {
    var t := Step(s, WriteNext);
    assert Unwritten(s)[0] == s.batch[s.pc.done] && Unwritten(s)[1..] == Unwritten(t);
    assert s.written + (s.batch[s.pc.done] + Concat(Unwritten(t)))
        == (s.written + s.batch[s.pc.done]) + Concat(Unwritten(t));
  }

  lemma StepKeeps(s: Logger, e: Event)
    requires Inv(s) && Possible(s, e)
    ensures Inv(Step(s, e))
  {
    hide Shape, Everything;
    StepShape(s, e);
    match e
    case AppendLine(line) => AppendConserves(s, line);
    case Swap => SwapConserves(s);
    case WriteNext => WriteConserves(s);
    case _ => QuietConserves(s, e);
  }

  lemma QuietConserves(s: Logger, e: Event)
    requires Shape(s) && Possible(s, e) && (e.Trim? || e.TakeSpare1? || e.TakeSpare2? || e.ClearBatch?)
    ensures Everything(Step(s, e)) == Everything(s) && Step(s, e).appended == s.appended
  {
    assert Unwritten(Step(s, e)) == Unwritten(s) == [];
  }

  // ---------------------------------------------------------------- every interleaving

  ghost predicate Run(ss: seq<Logger>, es: seq<Event>) {
    && |ss| == |es| + 1 && (exists c :: ss[0] == New(c))
    && forall i :: 0 <= i < |es| ==> Possible(ss[i], es[i]) && ss[i + 1] == Step(ss[i], es[i])
  }

  lemma {:induction false} RunKeeps(ss: seq<Logger>, es: seq<Event>, k: nat)
    requires Run(ss, es) && k < |ss|
    ensures Inv(ss[k]) && ss[k].capacity == ss[0].capacity
  {
    hide Step, Possible, Inv;
    if k == 0 {
      NewKeeps(ss[0]);
    } else {
      RunKeeps(ss, es, k - 1);
      StepKeeps(ss[k - 1], es[k - 1]);
      SameCapacity(ss[k - 1], es[k - 1]);
    }
  }

  lemma NewKeeps(s: Logger)
    requires exists c :: s == New(c)
    ensures Inv(s)
  {
  }

  lemma SameCapacity(s: Logger, e: Event)
    requires Possible(s, e)
    ensures Step(s, e).capacity == s.capacity
  {
  }

  /** The lines of the first `k` events, in the order in which the mutex was taken. */
  function Lines(es: seq<Event>, k: nat): Text
    requires k <= |es|
  {
    if k == 0 then [] else Lines(es, k - 1) + if es[k - 1].AppendLine? then es[k - 1].line else []
  }

  /** Every line among the first `k` events is shorter than a buffer, or empty. */
  ghost predicate NoneTooLong(es: seq<Event>, capacity: nat, k: nat)
    requires k <= |es|
  {
    forall i :: 0 <= i < k && es[i].AppendLine? ==> Kept(es[i].line, capacity) || es[i].line == []
  }

  lemma AppendedStep(s: Logger, e: Event)
    requires Possible(s, e)
    ensures Step(s, e).appended == s.appended + if e.AppendLine? && Kept(e.line, s.capacity) then e.line else []
  {
    assert s.appended + [] == s.appended;
  }

  /** The lines taken are the lines appended, unless one was too long; then some are missing for good. */
  lemma {:induction false} AppendedIsLines(ss: seq<Logger>, es: seq<Event>, k: nat)
    requires Run(ss, es) && k <= |es|
    ensures if NoneTooLong(es, ss[0].capacity, k) then ss[k].appended == Lines(es, k)
            else |ss[k].appended| < |Lines(es, k)|
  {
    hide Step, Possible;
    if k == 0 {
    } else {
      AppendedIsLines(ss, es, k - 1);
      RunKeeps(ss, es, k - 1);
      AppendedStep(ss[k - 1], es[k - 1]);
      assert ss[k] == Step(ss[k - 1], es[k - 1]);
    }
  }

  /**
   While the logger runs: what is written, in the batch, in the full buffers and in the current one
   is, in this order, every line appended, if and only if every line was shorter than a buffer or
   empty. What is written is then a prefix of the lines.
   */
  lemma LinesConservedIff(ss: seq<Logger>, es: seq<Event>, k: nat)
    requires Run(ss, es) && k <= |es|
    ensures Everything(ss[k]) == Lines(es, k) <==> NoneTooLong(es, ss[0].capacity, k)
    ensures NoneTooLong(es, ss[0].capacity, k) ==> ss[k].written <= Lines(es, k)
  {
    hide Step, Possible, Shape;
    RunKeeps(ss, es, k);
    AppendedIsLines(ss, es, k);
  }

  /** A line is conserved if and only if it is empty or shorter than a buffer. */
  lemma LineConservedIff(s: Logger, line: Text)
    requires Inv(s)
    ensures Everything(Append(s, line)) == Everything(s) + line <==> Kept(line, s.capacity) || line == []
  {
    AppendConserves(s, line);
    if !Kept(line, s.capacity) && line != [] {
      assert |Everything(s) + line| > |Everything(s)|;
    }
    if line == [] { assert Everything(s) + line == Everything(s); }
  }

  /**
   A buffer is rotated exactly when the line would not leave a free byte in it: it goes behind the
   full ones, the line starts an empty buffer, and the spare is used up.
   */
  lemma RotatesIff(s: Logger, line: Text)
    requires Shape(s)
    ensures var t := Append(s, line);
            if |s.current| + |line| < s.capacity
            then t == s.(current := s.current + line, appended := t.appended)
            else
              && t.buffers == s.buffers + [s.current] && t.next.None?
              && t.current == (if |line| < s.capacity then line else [])
              && t == s.(buffers := t.buffers, next := t.next, current := t.current, appended := t.appended)
  {
    assert [] + line == line;
  }

  /** No buffer ever holds as many characters as it has room for. */
  ghost predicate NoneFull(s: Logger) {
    && (|s.current| < s.capacity || s.current == [])
    && forall b :: b in s.buffers || b in s.batch ==> |b| < s.capacity || b == []
  }

  lemma StepNoneFull(s: Logger, e: Event)
    requires Shape(s) && NoneFull(s) && Possible(s, e)
    ensures NoneFull(Step(s, e))
  {
    match e
    case AppendLine(line) => RotatesIff(s, line);
    case _ =>
  }

  lemma {:induction false} RunNoneFull(ss: seq<Logger>, es: seq<Event>, k: nat)
    requires Run(ss, es) && k <= |es|
    ensures NoneFull(ss[k])
  {
    hide Step, Possible, NoneFull, Everything;
    if k == 0 {
      NewNoneFull(ss[0]);
    } else {
      RunNoneFull(ss, es, k - 1);
      RunKeeps(ss, es, k - 1);
      StepNoneFull(ss[k - 1], es[k - 1]);
    }
  }

  lemma NewNoneFull(s: Logger)
    requires exists c :: s == New(c)
    ensures NoneFull(s)
  {
  }

  // ---------------------------------------------------------------- what a round writes

  lemma SwapTakesAll(s: Logger)
    requires Inv(s) && s.pc == Top
    ensures var t := Step(s, Swap);
            && t.written + Concat(Unwritten(t)) == s.appended && t.pc == Writing(0)
            && t.batch == s.buffers + [s.current] && t.buffers == []
  {
    SwapConserves(s);
    var t := Step(s, Swap);
    hide Unwritten;
    assert Everything(t) == t.written + Concat(Unwritten(t)) + [] + [];
  }

  lemma WritingStep(s: Logger, e: Event)
    requires Shape(s) && Possible(s, e) && s.pc.Writing? && Step(s, e).pc.Writing?
    ensures Step(s, e).written + Concat(Unwritten(Step(s, e))) == s.written + Concat(Unwritten(s))
  {
    var t := Step(s, e);
    if e.WriteNext? {
      assert Unwritten(s)[0] == s.batch[s.pc.done] && Unwritten(s)[1..] == Unwritten(t);
      assert s.written + (s.batch[s.pc.done] + Concat(Unwritten(t)))
          == (s.written + s.batch[s.pc.done]) + Concat(Unwritten(t));
    } else {
      assert Unwritten(t) == Unwritten(s);
    }
  }

  lemma {:induction false} WritingKeeps(ss: seq<Logger>, es: seq<Event>, i: nat, k: nat)
    requires Run(ss, es) && i <= k <= |es| && forall m :: i <= m <= k ==> ss[m].pc.Writing?
    ensures ss[k].written + Concat(Unwritten(ss[k])) == ss[i].written + Concat(Unwritten(ss[i]))
    decreases k
  {
    hide Step, Possible, Unwritten, Concat;
    if i == k {
    } else {
      WritingKeeps(ss, es, i, k - 1);
      RunKeeps(ss, es, k - 1);
      assert ss[k - 1].pc.Writing? && ss[k].pc.Writing?;
      WritingStep(ss[k - 1], es[k - 1]);
    }
  }

  /**
   A round of the back end writes everything: when it has written its batch, the file has received
   exactly the lines appended before its swap, none of them being too long.
   */
  lemma RoundWritesAll(ss: seq<Logger>, es: seq<Event>, i: nat, j: nat)
    requires Run(ss, es) && i < j < |es| && es[i] == Swap && es[j] == Trim
    requires forall m :: i < m <= j ==> ss[m].pc.Writing?
    requires NoneTooLong(es, ss[0].capacity, i)
    ensures ss[j + 1].written == Lines(es, i)
  {
    hide Shape, Everything;
    RunKeeps(ss, es, i);
    AppendedIsLines(ss, es, i);
    assert Possible(ss[i], es[i]) && ss[i + 1] == Step(ss[i], es[i]);
    SwapTakesAll(ss[i]);
    WritingKeeps(ss, es, i + 1, j);
    assert Possible(ss[j], es[j]) && ss[j + 1] == Step(ss[j], es[j]);
    assert Unwritten(ss[j]) == [];
    assert ss[j].written + [] == ss[j].written;
  }

  /** The back end is never stuck: in every state it has a step, and refills find a buffer to take. */
  lemma BackEndNeverStuck(ss: seq<Logger>, es: seq<Event>, k: nat)
    requires Run(ss, es) && k < |ss|
    ensures match ss[k].pc
            case Top => Possible(ss[k], Swap)
            case Writing(done) => Possible(ss[k], WriteNext) || Possible(ss[k], Trim)
            case Refill1 => Possible(ss[k], TakeSpare1)
            case Refill2 => Possible(ss[k], TakeSpare2)
            case Clear => Possible(ss[k], ClearBatch)
  {
    RunKeeps(ss, es, k);
  }

  /** Every buffer handed to the front end is empty, and it never runs without a current buffer. */
  lemma SparesAreEmpty(ss: seq<Logger>, es: seq<Event>, k: nat)
    requires Run(ss, es) && k < |es| && es[k].Swap?
    ensures ss[k].spare1 == Some([]) && ss[k].spare2 == Some([])
    ensures ss[k + 1].current == [] && ss[k + 1].next == Some([])
  {
    RunKeeps(ss, es, k);
    assert ss[k + 1] == Step(ss[k], es[k]);
  }

}
