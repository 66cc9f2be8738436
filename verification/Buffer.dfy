/**
 The network buffer: one byte array with a read and a write index, which refines the sequence of
 bytes between them. Appending may first slide the content down in place or allocate a larger
 array; neither changes the content.
 */
module Buffer {
  import opened Wrappers

  newtype byte = x: int | 0 <= x < 256

  const CHEAP_PREPEND: nat := 8
  const INITIAL_SIZE: nat := 1024
  /** The stack buffer `readFd` offers to `readv` behind the writable part. */
  const EXTRA_SIZE: nat := 65536
  const INT_MAX: nat := 0x7fff_ffff
  /** No vector of bytes is larger than this. */
  const MAX_SIZE: nat := 0x7fff_ffff_ffff_ffff

  // ---------------------------------------------------------------- index arithmetic

  /** Size of the array and the two indices. */
  datatype Layout = Layout(size: nat, reader: nat, writer: nat) {
    predicate Valid() {
      CHEAP_PREPEND <= reader <= writer <= size <= MAX_SIZE
    }

    function Readable(): nat
      requires Valid()
    {
      writer - reader
    }

    function Writable(): nat
      requires Valid()
    {
      size - writer
    }
  }

  /** The parameter of `makeSpace` is an `int`: a length is reduced to 32 bits, signed. */
  function ToInt(len: nat): (t: int)
    ensures 0 - UINT32 <= t <= len && (t == len <==> len <= INT_MAX)
  {
    var low := len % UINT32;
    if low <= INT_MAX then low else low - UINT32
  }

  /** An `int` meets a `size_t`: the sum is taken modulo 2^64. */
  function AddUnsigned(t: int, n: nat): (r: nat)
    requires 0 <= t + n + UINT64 && t + n < UINT64
  {
    if t + n < 0 then t + n + UINT64 else t + n
  }

  /** The space check of `makeSpace`: true when the array has to grow. */
  predicate MustGrow(l: Layout, len: nat)
    requires l.Valid() && len <= MAX_SIZE
  {
    l.Writable() + l.reader < AddUnsigned(ToInt(len), CHEAP_PREPEND)
  }

  /** The layout `ensureWritableBytes(len)` leaves; `None` when the vector cannot be resized. */
  function Ensure(l: Layout, len: nat): Option<Layout>
    requires l.Valid() && len <= MAX_SIZE
  {
    if l.Writable() >= len then Some(l)
    else if MustGrow(l, len) then
      var size := AddUnsigned(ToInt(len), l.writer);
      if size <= MAX_SIZE then Some(l.(size := size)) else None
    else Some(Layout(l.size, CHEAP_PREPEND, CHEAP_PREPEND + l.Readable()))
  }

  /** What a caller can check before it asks for `len` bytes. */
  predicate RoomFor(l: Layout, len: nat)
    requires l.Valid()
  {
    || l.Writable() >= len
    || (len <= INT_MAX && (l.writer + len <= MAX_SIZE || l.Writable() + l.reader >= len + CHEAP_PREPEND))
    || (len > INT_MAX && ToInt(len) >= -8 && l.Writable() + l.reader >= len + CHEAP_PREPEND)
  }

  /**
   `ensureWritableBytes(len)` succeeds in making room if and only if `RoomFor` holds. Within `int`
   that is every length the vector can hold; beyond it, because the length is cut to 32 bits,
   room appears only where compaction alone provides it.
   */
  lemma EnsureMakesRoom(l: Layout, len: nat)
    requires l.Valid() && len <= MAX_SIZE
    ensures var r := Ensure(l, len);
            RoomFor(l, len) <==> r.Some? && r.value.Valid() && r.value.Writable() >= len
  {
  }

  /**
   Resizing in `makeSpace` makes the array longer, by at most the content and what was asked for,
   or it is refused, or it cuts the array off in front of the write index.
   */
  lemma ResizeGrowsOrCuts(l: Layout, len: nat)
    requires l.Valid() && len <= MAX_SIZE && l.Writable() < len && MustGrow(l, len)
    ensures var size := AddUnsigned(ToInt(len), l.writer);
            size < l.writer || size > MAX_SIZE || (l.size < size <= CHEAP_PREPEND + 2 * (l.Readable() + len))
  {
  }

  /**
   Within `int` the arithmetic is the obvious one: enough room leaves the buffer as it is; room that
   is enough only together with the gap in front moves the content down to index 8; otherwise the
   array grows to exactly the size needed behind the write index.
   */
  lemma EnsureWithinInt(l: Layout, len: nat)
    requires l.Valid() && len <= INT_MAX && l.size + len <= MAX_SIZE
    ensures Ensure(l, len) ==
              if len <= l.size - l.writer then Some(l)
              else if len + 8 <= l.size - l.writer + l.reader
              then Some(Layout(l.size, 8, 8 + l.writer - l.reader))
              else Some(Layout(l.writer + len, l.reader, l.writer))
  {
  }

  /** Every length within `int` is fine as long as the vector can grow by it. */
  lemma RoomWithinInt(l: Layout, len: nat)
    requires l.Valid() && len <= INT_MAX && l.size + len <= MAX_SIZE
    ensures RoomFor(l, len)
  {
  }

  /** A length of 2^32 asked of a fresh buffer: the call returns and no room has been made. */
  lemma EnsureFailsBeyondInt()
    ensures var l := Layout(CHEAP_PREPEND + INITIAL_SIZE, CHEAP_PREPEND, CHEAP_PREPEND);
            Ensure(l, UINT32) == Some(l) && l.Writable() < UINT32
  {
  }

  /** Compaction reached from `ensureWritableBytes` always moves the content strictly down. */
  lemma CompactionMovesDown(l: Layout, len: nat)
    requires l.Valid() && len <= INT_MAX && l.Writable() < len && !MustGrow(l, len)
    ensures l.reader > CHEAP_PREPEND
    ensures Ensure(l, len).value.Writable() >= len
  {
  }

  /** The array grows only when the content then exceeds half of it, up to the 8 reserved bytes. */
  lemma GrowthBounded(l: Layout, len: nat)
    requires l.Valid() && len <= INT_MAX && l.Writable() < len && MustGrow(l, len)
    ensures l.writer + len < CHEAP_PREPEND + 2 * (l.Readable() + len)
  {
  }

  // ---------------------------------------------------------------- size over a whole run

  /** Calls that move the indices: `append`, `retrieve`, and `readFd` delivering `n` bytes. */
  datatype Use = Append(len: nat) | Retrieve(len: nat) | Read(n: nat)

  ghost predicate Uses(l: Layout, u: Use, t: Layout) {
    && l.Valid() && t.Valid()
    && match u
       case Append(len) => len <= INT_MAX && RoomFor(l, len) && t == Appended(l, len)
       case Retrieve(len) =>
         t == if len < l.Readable() then l.(reader := l.reader + len)
              else l.(reader := CHEAP_PREPEND, writer := CHEAP_PREPEND)
       case Read(n) =>
         if n <= l.Writable() then t == l.(writer := l.writer + n)
         else
           var full := l.(writer := l.size);
           n - l.Writable() <= EXTRA_SIZE && RoomFor(full, n - l.Writable())
           && t == Appended(full, n - l.Writable())
  }

  lemma ReadUses(l: Layout, n: nat, t: Layout)
    requires l.Valid()
    ensures n <= l.Writable() && t == l.(writer := l.writer + n) ==> Uses(l, Read(n), t)
    ensures l.Writable() < n <= l.Writable() + EXTRA_SIZE && Uses(l.(writer := l.size), Append(n - l.Writable()), t)
            ==> Uses(l, Read(n), t)
  {
  }

  function Appended(l: Layout, len: nat): Layout
    requires l.Valid() && len <= INT_MAX && RoomFor(l, len)
  {
    EnsureMakesRoom(l, len);
    var room := Ensure(l, len).value;
    room.(writer := room.writer + len)
  }

  /** The largest content among the first `k + 1` layouts. */
  function Peak(run: seq<Layout>, k: nat): (p: nat)
    requires k < |run| && forall i :: 0 <= i < |run| ==> run[i].Valid()
    ensures run[k].Readable() <= p
  {
    if k == 0 then run[0].Readable() else Max(run[k].Readable(), Peak(run, k - 1))
  }

  lemma AppendedBounded(l: Layout, len: nat, bound: nat)
    requires l.Valid() && len <= INT_MAX && RoomFor(l, len) && l.size <= CHEAP_PREPEND + bound
    ensures var t := Appended(l, len);
            && t.Valid() && t.Readable() == l.Readable() + len
            && t.size <= CHEAP_PREPEND + Max(bound, 2 * t.Readable())
  {
    EnsureMakesRoom(l, len);
    if l.Writable() < len && MustGrow(l, len) { GrowthBounded(l, len); }
  }

  lemma UseBounded(l: Layout, u: Use, t: Layout, bound: nat)
    requires Uses(l, u, t) && l.size <= CHEAP_PREPEND + bound
    ensures t.size <= CHEAP_PREPEND + Max(bound, 2 * t.Readable())
  {
    match u
    case Append(len) => AppendedBounded(l, len, bound);
    case Retrieve(_) =>
    case Read(n) =>
      if n > l.Writable() { AppendedBounded(l.(writer := l.size), n - l.Writable(), bound); }
  }

  /** The array never outgrows twice the largest content ever held, or its initial size. */
  lemma {:induction false} RunSizeBounded(initial: nat, run: seq<Layout>, uses: seq<Use>, k: nat)
    requires |run| == |uses| + 1 && k < |run| && forall i :: 0 <= i < |run| ==> run[i].Valid()
    requires run[0] == Layout(CHEAP_PREPEND + initial, CHEAP_PREPEND, CHEAP_PREPEND)
    requires forall i :: 0 <= i < |uses| ==> Uses(run[i], uses[i], run[i + 1])
    ensures run[k].size <= CHEAP_PREPEND + Max(initial, 2 * Peak(run, k))
  {
    hide Uses;
    if k == 0 {
    } else {
      RunSizeBounded(initial, run, uses, k - 1);
      UseBounded(run[k - 1], uses[k - 1], run[k], Max(initial, 2 * Peak(run, k - 1)));
    }
  }

  // ---------------------------------------------------------------- searching

  predicate CrlfAt(s: seq<byte>, i: nat) {
    i + 1 < |s| && s[i] == 13 && s[i + 1] == 10
  }

  function Max(a: nat, b: nat): nat {
    if a < b then b else a
  }

  // ---------------------------------------------------------------- the buffer

  /** What `readv` delivered: bytes, in order across the two parts, or an error. */
  datatype ReadResult = Delivered(bytes: seq<byte>) | Failed(errno: int)

  class Buffer {
    var data: array<byte>
    var reader: nat
    var writer: nat
    ghost const initial: nat
    /** The most bytes the buffer ever held, or was asked to have room for. */
    ghost var peak: nat

    ghost predicate Valid()
      reads this
    {
      && View().Valid()
      && writer - reader <= peak
      && data.Length <= CHEAP_PREPEND + Max(initial, 2 * peak)
    }

    function View(): Layout
      reads this
    {
      Layout(data.Length, reader, writer)
    }

    /** The byte sequence the buffer stands for. */
    ghost function Content(): seq<byte>
      requires Valid()
      reads this, data
    {
      data[reader..writer]
    }

    constructor (initialSize: nat)
      requires CHEAP_PREPEND + initialSize <= MAX_SIZE
      ensures Valid() && fresh(data) && Content() == []
      ensures initial == initialSize && peak == 0 && View() == Layout(8 + initialSize, 8, 8)
    {
      data := new byte[CHEAP_PREPEND + initialSize](_ => 0);
      reader, writer := CHEAP_PREPEND, CHEAP_PREPEND;
      initial, peak := initialSize, 0;
    }

    method ReadableBytes() returns (n: nat)
      requires Valid()
      ensures n == |Content()|
    {
      n := writer - reader;
    }

    /** `buffer_.resize(n)`: the old bytes as far as they fit, then zeros. */
    method Resize(n: nat)
      modifies `data
      ensures fresh(data) && data.Length == n
      ensures forall i :: 0 <= i < n && i < old(data.Length) ==> data[i] == old(data[i])
    {
      var grown := new byte[n](_ => 0);
      var i := 0;
      while i < n && i < data.Length
        invariant data == old(data) && fresh(grown) && i <= n && i <= data.Length
        invariant forall k :: 0 <= k < i ==> grown[k] == data[k]
        invariant data[..] == old(data[..])
      {
        grown[i] := data[i];
        i := i + 1;
      }
      data := grown;
    }

    /** Store `bytes` at index `at`. */
    method Store(at: nat, bytes: seq<byte>)
      requires at + |bytes| <= data.Length
      modifies data
      ensures data[..at] == old(data[..at])
      ensures data[at..at + |bytes|] == bytes
    {
      var i := 0;
      while i < |bytes|
        invariant i <= |bytes| && data[..at] == old(data[..at]) && data[at..at + i] == bytes[..i]
      {
        data[at + i] := bytes[i];
        i := i + 1;
      }
    }

    /** `std::copy` towards the front, over ranges that may overlap. */
    static method CopyForward(a: array<byte>, from: nat, n: nat)
      requires CHEAP_PREPEND <= from && from + n <= a.Length
      modifies a
      ensures a[CHEAP_PREPEND..CHEAP_PREPEND + n] == old(a[from..from + n])
    {
      ghost var was := a[from..from + n];
      var i := 0;
      while i < n
        invariant i <= n
        invariant a[CHEAP_PREPEND..CHEAP_PREPEND + i] == was[..i]
        invariant forall k :: from + i <= k < from + n ==> a[k] == old(a[k])
      {
        a[CHEAP_PREPEND + i] := a[from + i];
        i := i + 1;
      }
    }

    /** The compaction branch of `makeSpace`. */
    method SlideDown()
      requires Valid()
      modifies this, data
      ensures Valid() && data == old(data) && peak == old(peak)
      ensures reader == CHEAP_PREPEND && writer == CHEAP_PREPEND + old(writer - reader)
      ensures Content() == old(Content())
    {
      var n := writer - reader;
      CopyForward(data, reader, n);
      reader := CHEAP_PREPEND;
      writer := CHEAP_PREPEND + n;
    }

    /** The resizing branch of `makeSpace`. */
    method ResizeArray(size: nat)
      requires View().Valid()
      modifies `data
      ensures fresh(data) && data.Length == size
      ensures writer <= size ==> data[reader..writer] == old(data[reader..writer])
    {
      ghost var before := data[reader..writer];
      Resize(size);
      if writer <= size {
        forall i | 0 <= i < writer - reader
          ensures data[reader..writer][i] == before[i]
        {
          assert data[reader + i] == old(data[reader + i]);
        }
      }
    }

    /** Refused (`ok` is false) when the vector would become too long: `resize` throws. */
    method EnsureWritableBytes(len: nat) returns (ok: bool)
      requires Valid() && len <= MAX_SIZE
      modifies this, data
      ensures data == old(data) || fresh(data)
      ensures peak == Max(old(peak), old(writer - reader) + len)
      ensures ok <==> Ensure(old(View()), len).Some?
      ensures if ok then Ensure(old(View()), len) == Some(View()) else View() == old(View())
      ensures View().Valid() ==> Valid() && Content() == old(Content())
      ensures RoomFor(old(View()), len) <==> ok && View().Valid() && data.Length - writer >= len
    {
      hide RoomFor, ToInt, AddUnsigned, MustGrow;
      ok := true;
      EnsureMakesRoom(View(), len);
      peak := Max(peak, writer - reader + len);
      if data.Length - writer < len {
        if MustGrow(View(), len) {
          ResizeGrowsOrCuts(View(), len);
          var size := AddUnsigned(ToInt(len), writer);
          if size > MAX_SIZE {
            return false;
          }
          ResizeArray(size);
        } else {
          SlideDown();
        }
      }
    }

    /**
     Refused when the vector would become too long. Where no room is made and nothing is thrown, the
     copy would run beyond the vector; that is left undefined.
     */
    method Append(bytes: seq<byte>) returns (ok: bool)
      requires Valid() && |bytes| <= MAX_SIZE
      requires RoomFor(View(), |bytes|) || Ensure(View(), |bytes|).None?
      modifies this, data
      ensures Valid() && (data == old(data) || fresh(data))
      ensures ok <==> RoomFor(old(View()), |bytes|)
      ensures Content() == if ok then old(Content()) + bytes else old(Content())
      ensures ok ==> Ensure(old(View()), |bytes|) == Some(View().(writer := writer - |bytes|))
      ensures ok && |bytes| <= INT_MAX ==> Uses(old(View()), Use.Append(|bytes|), View())
      ensures peak == Max(old(peak), |old(Content())| + |bytes|)
    {
      hide RoomFor, Ensure;
      ok := EnsureWritableBytes(|bytes|);
      if ok {
        Fill(bytes);
      }
    }

    method Retrieve(len: nat)
      requires Valid()
      modifies `reader, `writer
      ensures Valid()
      ensures Content() == if len < |old(Content())| then old(Content())[len..] else []
      ensures Uses(old(View()), Use.Retrieve(len), View())
    {
      if len < writer - reader {
        reader := reader + len;
      } else {
        RetrieveAll();
      }
    }

    method RetrieveAll()
      requires Valid()
      modifies `reader, `writer
      ensures Valid() && Content() == [] && View() == Layout(data.Length, 8, 8)
    {
      reader := CHEAP_PREPEND;
      writer := CHEAP_PREPEND;
    }

    /** The length is not tested: beyond the content the result runs on into the rest of the array. */
    method RetrieveAsString(len: nat) returns (result: seq<byte>)
      requires Valid() && reader + len <= data.Length
      modifies `reader, `writer
      ensures Valid() && |result| == len
      ensures len <= |old(Content())| ==> result + Content() == old(Content())
      ensures len > |old(Content())| ==> old(Content()) <= result && Content() == []
    {
      result := data[reader..reader + len];
      Retrieve(len);
    }

    /**
     `readFd`: `readv` fills the writable part and then, when that is shorter than the stack
     buffer, the stack buffer; what landed there is appended.
     */
    method ReadFd(r: ReadResult) returns (n: int)
      requires Valid()
      requires r.Delivered? ==>
                 |r.bytes| <= data.Length - writer + if data.Length - writer < EXTRA_SIZE then EXTRA_SIZE else 0
      requires data.Length + EXTRA_SIZE <= MAX_SIZE
      modifies this, data
      ensures Valid() && (data == old(data) || fresh(data))
      ensures r.Failed? ==> n < 0 && Content() == old(Content()) && peak == old(peak)
      ensures r.Delivered? ==>
                n == |r.bytes| && Content() == old(Content()) + r.bytes && peak == Max(old(peak), |Content()|)
      ensures if r.Failed? then View() == old(View()) else Uses(old(View()), Read(|r.bytes|), View())
    {
      hide RoomFor, Ensure, Uses;
      if r.Failed? {
        return -1;
      }
      n := |r.bytes|;
      ReadUses(View(), n, View().(writer := writer + n));
      peak := Max(peak, writer - reader + n);
      if n <= data.Length - writer {
        Fill(r.bytes);
      } else {
        FillBoth(r.bytes);
      }
    }

    /** The writable part is filled, and the bytes from the stack buffer are appended. */
    method FillBoth(bytes: seq<byte>)
      requires Valid() && data.Length - writer < |bytes| <= data.Length - writer + EXTRA_SIZE
      requires data.Length + EXTRA_SIZE <= MAX_SIZE && writer - reader + |bytes| <= peak
      modifies this, data
      ensures Valid() && (data == old(data) || fresh(data)) && peak == old(peak)
      ensures Content() == old(Content()) + bytes
      ensures Uses(old(View()), Read(|bytes|), View())
    {
      hide RoomFor, Ensure, Uses;
      ghost var before := View();
      var writable := data.Length - writer;
      var direct, spilled := bytes[..writable], bytes[writable..];
      assert direct + spilled == bytes;
      ghost var content := Content();
      Fill(direct);
      RoomWithinInt(View(), |spilled|);
      var ok := Append(spilled);
      assert Content() == content + direct + spilled;
      ReadUses(before, |bytes|, View());
    }

    /** Bytes the kernel stored in the writable part become content. */
    method Fill(bytes: seq<byte>)
      requires Valid() && |bytes| <= data.Length - writer && writer - reader + |bytes| <= peak
      modifies this, data
      ensures Valid() && data == old(data) && peak == old(peak) && reader == old(reader)
      ensures writer == old(writer) + |bytes| && Content() == old(Content()) + bytes
    {
      ghost var before := Content();
      Store(writer, bytes);
      assert data[reader..writer] == data[..writer][reader..];
      writer := writer + |bytes|;
      assert data[reader..writer] == data[reader..writer - |bytes|] + data[writer - |bytes|..writer];
    }

    /** `findCRLF`: the position of the first CR LF pair in the content. */
    method FindCrlf() returns (at: Option<nat>)
      requires Valid()
      ensures at.Some? ==>
                CrlfAt(Content(), at.value) && forall i :: 0 <= i < at.value ==> !CrlfAt(Content(), i)
      ensures at.None? ==> forall i :: 0 <= i < |Content()| ==> !CrlfAt(Content(), i)
    {
      var i := reader;
      while i + 1 < writer
        invariant reader <= i
        invariant i <= writer
        invariant forall k :: 0 <= k < i - reader ==> !CrlfAt(Content(), k)
      {
        if data[i] == 13 && data[i + 1] == 10 {
          return Some(i - reader);
        }
        i := i + 1;
      }
      return None;
    }
  }

}
