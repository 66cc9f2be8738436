/**
 The memory pool as the source runs it: linked lists walked from node to node and updated in place.
 Each method is proved to compute the function of `MemoryPoolOps` that specifies it, so everything
 proved there and in `MemoryPoolHistory` holds of any sequence of calls on an object of this class.

 What the system allocator answers is passed in: `None` is a refusal.
 */
module MemoryPool {
  import opened Wrappers
  import opened MemoryPoolSpec
  import opened MemoryPoolOps
  import opened MemoryPoolHistory

  class MemoryPool {
    var pool: nat
    var largeList: nat
    var head: nat
    var current: nat
    var smalls: map<nat, SmallNode>
    var headers: map<nat, LargeNode>
    ghost var chain: seq<nat>
    ghost var larges: seq<Region>
    ghost var live: set<Region>
    ghost var owned: map<nat, nat>
    /** What the bytes handed out hold, where that is known. */
    var memory: map<nat, bv8>

    ghost function State(): PoolState
      reads this
    {
      PoolState(pool, largeList, head, current, smalls, headers, chain, larges, live, owned)
    }

    ghost predicate Shape()
      reads this
    {
      ChainOk(State()) && PagesOk(State()) && RegionsOk(State()) && LargesOk(State())
    }

    constructor ()
      ensures pool == 0 && owned == map[]
    {
      pool, largeList, head, current := 0, 0, 0, 0;
      smalls, headers := map[], map[];
      chain, larges, live, owned, memory := [], [], {}, map[], map[];
    }

    method CreatePool(block: Option<nat>) returns (ok: bool)
      requires pool == 0 && owned == map[]
      requires block.Some? ==> SystemBlock(owned, block.value, PAGE_SIZE)
      modifies this
      ensures ok == block.Some?
      ensures ok ==> State() == Created(block.value) && Inv(State())
      ensures !ok ==> State() == old(State())
    {
      hide Inv, SystemBlock;
      if block.None? {
        return false;
      }
      pool := block.value;
      largeList := 0;
      head := pool + SIZEOF_POOL;
      smalls := map[head := SmallNode(pool + PAGE_SIZE, pool + SIZEOF_POOL + SIZEOF_SMALL_NODE, 0, 0, 0)];
      headers := map[];
      current := head;
      chain, larges, live, owned := [head], [], {}, map[pool := PAGE_SIZE];
      CreatedInv(pool) by { BlockFacts(map[], pool, PAGE_SIZE); }
      return true;
    }

    /** `free(p)`: legal only for the null pointer and for a block that is still held. */
    method SystemFree(p: nat)
      requires p == 0 || p in owned
      modifies `owned
      ensures owned == old(owned) - {p}
    {
      owned := owned - {p};
    }

    method Malloc(size: nat, block: Option<nat>, page: Option<nat>) returns (p: nat)
      requires Shape() && Offers(State(), size, block, page)
      modifies `largeList, `current, `smalls, `headers, `chain, `larges, `live, `owned
      ensures (State(), p) == MemoryPoolOps.Malloc(old(State()), size, block, page)
      ensures old(Inv(State())) ==>
                && Inv(State()) && Granted(Clients(old(State())), Clients(State()), p, size)
                && p % 16 == 0
                && (p != 0 ==> forall x :: x in Clients(old(State())) ==> Apart(p, size, x.0, x.1))
      decreases if size > SMALL_LIMIT then 2 else 0
    {
      hide ChainOk, PagesOk, RegionsOk, LargesOk, Inv, Granted, Clients, SystemBlock, AlignUp, LargeMalloc, Carve;
      ghost var s := State();
      if Inv(s) { MallocRefines(s, size, block, page); }
      ShapeBasics(s);
      if size == 0 {
        return 0;
      }
      if size > SMALL_LIMIT {
        p := MallocLargeNode(size, block, page);
        return;
      }
      var cur := current;
      ghost var k: nat := IndexOf(chain, current);
      while cur != 0
        invariant k <= |chain| && cur == At(chain, k) && State() == s
        invariant FirstFit(s.smalls, s.chain, IndexOf(s.chain, s.current), size)
               == FirstFit(s.smalls, s.chain, k, size)
        decreases |chain| - k
      {
        LinkAt(s, k);
        var addr := AlignUp(smalls[cur].last);
        if UnsignedDiff(smalls[cur].end, addr) >= size {
          TakeFrom(cur, addr, size);
          return addr;
        }
        cur := smalls[cur].next;
        k := k + 1;
      }
      LinkAt(s, k);
      p := MallocSmallNode(size, page);
    }

    /** Hand out `size` bytes at `addr`, the aligned end of what page `n` has handed out so far. */
    method TakeFrom(n: nat, addr: nat, size: nat)
      requires n in smalls && addr == AlignUp(smalls[n].last)
      modifies `smalls, `live
      ensures State() == Carve(old(State()), n, size)
    {
      smalls := smalls[n := smalls[n].(quote := (smalls[n].quote + 1) % UINT32, last := addr + size)];
      live := live + {Region(n, addr, size)};
    }

    method MallocSmallNode(size: nat, page: Option<nat>) returns (p: nat)
      requires ChainOk(State()) && PagesOk(State())
      requires page.Some? ==> SystemBlock(owned, page.value, PAGE_SIZE)
      modifies `current, `smalls, `chain, `live, `owned
      ensures page.None? ==> p == 0 && State() == old(State())
      ensures page.Some? ==>
                State() == AppendPage(old(State()), page.value, size)
                && p == AlignUp(page.value + SIZEOF_SMALL_NODE)
    {
      hide ChainOk, PagesOk, SystemBlock, AlignUp, LinkTail, SkipTo;
      if page.None? {
        return 0;
      }
      ghost var s := State();
      var b := page.value;
      var addr := AlignUp(b + SIZEOF_SMALL_NODE);
      var node := SmallNode(b + PAGE_SIZE, addr + size, 0, 0, 0);
      ReadyToLink(s, b, node.(quote := 1));
      smalls := smalls[b := node.(quote := (node.quote + 1) % UINT32)];
      owned := owned[b := PAGE_SIZE];
      LinkAtTail(b, s);
      live := live + {Region(b, addr, size)};
      assert State() == AppendPage(s, b, size);
      return addr;
    }

    /** Walk from `current` to the last page, count a failure on the way, and link `b` behind it. */
    method LinkAtTail(b: nat, ghost s: PoolState)
      requires ChainOk(s) && chain == s.chain && current == s.current && Readable(smalls, chain)
      requires forall i :: 0 <= i < |chain| ==> smalls[chain[i]] == s.smalls[chain[i]]
      requires current in chain && |chain| > 0
      modifies `smalls, `current, `chain
      ensures smalls == LinkTail(old(smalls), s.chain, IndexOf(s.chain, s.current), b)
      ensures current == SkipTo(old(smalls), s.chain, IndexOf(s.chain, s.current), |s.chain| - 1, s.current)
      ensures chain == s.chain + [b]
    {
      hide ChainOk, Bump, SkipTo;
      ghost var start := smalls;
      var cur, newCurrent := current, current;
      ghost var k: nat := IndexOf(chain, current);
      ghost var m: nat := k;
      WalkStart(start, s.chain, k, s.current);
      BumpAhead(start, s, k, m);
      while smalls[cur].next != 0
        invariant k <= m < |chain| && cur == chain[m] && chain == s.chain && current == s.current
        invariant smalls == Bump(start, chain, k, m)
        invariant newCurrent == SkipTo(start, chain, k, m, s.current)
        invariant cur in smalls && smalls[cur] == start[cur] && smalls[cur].next == At(chain, m + 1)
        decreases |chain| - m
      {
        LinkAt(s, m + 1);
        if smalls[cur].failed >= 5 {
          newCurrent := smalls[cur].next;
        }
        var next := smalls[cur].next;
        smalls := smalls[cur := smalls[cur].(failed := (smalls[cur].failed + 1) % UINT32)];
        WalkStep(start, s.chain, k, m, s.current);
        cur := next;
        m := m + 1;
        BumpAhead(start, s, k, m);
      }
      LinkAt(s, m + 1);
      smalls := smalls[cur := smalls[cur].(next := b)];
      current := newCurrent;
      chain := chain + [b];
    }

    method MallocLargeNode(size: nat, block: Option<nat>, page: Option<nat>) returns (p: nat)
      requires Shape() && size > SMALL_LIMIT && Offers(State(), size, block, page)
      modifies `largeList, `current, `smalls, `headers, `chain, `larges, `live, `owned
      ensures (State(), p) == LargeMalloc(old(State()), size, block, page)
      decreases 1
    {
      hide ChainOk, PagesOk, RegionsOk, SystemBlock, SmallMalloc, GrantPage, Inv, Granted, Clients;
      if block.None? {
        return 0;
      }
      ghost var s := State();
      var b := block.value;
      owned := owned[b := size];
      ghost var s1 := State();
      OwnedShape(s, s1) by { BlockFacts(s.owned, b, size); }
      ghost var bound := Min(|s.larges|, REUSE_LIMIT);
      var counts := 0;
      var large := largeList;
      while large != 0
        invariant counts <= |larges| && counts <= 4 && State() == s1
        invariant large == HeaderAt(larges, counts)
        invariant forall j :: 0 <= j < counts ==> LargeAt(s, j) != 0
        decreases |larges| - counts
      {
        if headers[large].address == 0 {
          assert s.larges[counts].addr == large;
          FirstFree(s, bound, counts);
          headers := headers[large := LargeNode(b, size % UINT32, headers[large].next)];
          return b;
        }
        counts := counts + 1;
        if counts > 4 {
          break;
        }
        assert HeaderLinkOk(s, counts - 1);
        large := headers[large].next;
      }
      HeadersNonNull(s);
      assert counts == bound;
      FirstFree(s, bound, counts);
      var h := Malloc(SIZEOF_LARGE_NODE, None, page);
      SmallMallocKeeps(s1, page);
      if h == 0 {
        SystemFree(b);
        return 0;
      }
      headers := headers[h := LargeNode(b, size % UINT32, largeList)];
      largeList := h;
      larges := [Region(GrantPage(s1, SIZEOF_LARGE_NODE, page), h, SIZEOF_LARGE_NODE)] + larges;
      return b;
    }

    /** `memset(p, 0, size)`. */
    method Clear(p: nat, size: nat)
      modifies `memory
      ensures forall a: nat :: p <= a < p + size ==> a in memory && memory[a] == 0
      ensures forall a: nat :: a < p || p + size <= a ==> SameByte(old(memory), memory, a)
    {
      var a := p;
      while a < p + size
        invariant p <= a <= p + size
        invariant forall i: nat :: i in memory <==> i in old(memory) || p <= i < a
        invariant forall i: nat :: i in memory ==> memory[i] == if p <= i < a then 0 else old(memory)[i]
      {
        memory := memory[a := 0];
        a := a + 1;
      }
    }

    /** `calloc`: the allocation is cleared, and no byte of another allocation changes. */
    method Calloc(size: nat, block: Option<nat>, page: Option<nat>) returns (p: nat)
      requires Inv(State()) && Offers(State(), size, block, page)
      modifies this
      ensures (State(), p) == MemoryPoolOps.Malloc(old(State()), size, block, page)
      ensures Inv(State()) && Granted(Clients(old(State())), Clients(State()), p, size)
      ensures p != 0 ==> forall a: nat :: p <= a < p + size ==> a in memory && memory[a] == 0
      ensures forall x, a: nat :: x in Clients(old(State())) && x.0 <= a < x.0 + x.1 ==> SameByte(old(memory), memory, a)
    {
      hide ChainOk, PagesOk, RegionsOk, LargesOk, CountsOk, OwnedOk, Offers, Granted, Clients, MemoryPoolOps.Malloc;
      p := Malloc(size, block, page);
      if p != 0 {
        Clear(p, size);
      }
    }

    method FreeMemory(p: nat)
      requires Inv(State()) && Freeable(State(), p)
      modifies this
      ensures State() == Free(old(State()), p)
      ensures Inv(State())
      ensures Clients(State()) == set x | x in Clients(old(State())) && x.0 != p
    {
      hide ChainOk, PagesOk, RegionsOk, CountsOk, OwnedOk, Freeable, Clients, Inv;
      ghost var s := State();
      FreeRefines(s, p);
      InvShape(s);
      var large := largeList;
      ghost var i: nat := 0;
      while large != 0
        invariant i <= |larges| && State() == s && large == HeaderAt(larges, i)
        invariant forall j :: 0 <= j < i ==> LargeAt(s, j) != p
        decreases |larges| - i
      {
        if headers[large].address == p {
          LargeHeld(s, i);
          SystemFree(p);
          headers := headers[large := LargeNode(0, 0, headers[large].next)];
          assert FindLarge(s, p, 0, |s.larges|) == i;
          return;
        }
        assert HeaderLinkOk(s, i);
        large := headers[large].next;
        i := i + 1;
      }
      HeadersNonNull(s);
      assert FindLarge(s, p, 0, |s.larges|) == |s.larges|;
      var small := head;
      ghost var k: nat := 0;
      LinkAt(s, 0);
      while small != 0
        invariant k <= |chain| && State() == s && small == At(chain, k)
        invariant FindPage(s.smalls, s.chain, p, 0) == FindPage(s.smalls, s.chain, p, k)
        decreases |chain| - k
      {
        LinkAt(s, k);
        if small <= p <= smalls[small].end {
          DropReference(small, p);
          return;
        }
        small := smalls[small].next;
        k := k + 1;
      }
      LinkAt(s, k);
    }

    /** Take one reference from the page at `small`, and rewind the page when that was the last. */
    method DropReference(small: nat, p: nat)
      requires small in smalls && head == pool + SIZEOF_POOL
      modifies `smalls, `current, `live
      ensures State() == FreeSmall(old(State()), small, p)
    {
      var node := smalls[small];
      node := node.(quote := if node.quote == 0 then UINT32 - 1 else node.quote - 1);
      live := live - (set r | r in live && r.page == small && r.addr == p);
      if node.quote == 0 {
        if small == head {
          node := node.(last := pool + SIZEOF_POOL + SIZEOF_SMALL_NODE);
        } else {
          node := node.(last := small + SIZEOF_SMALL_NODE);
        }
        node := node.(failed := 0);
        current := head;
      }
      smalls := smalls[small := node];
    }

    method ResetPool()
      requires Inv(State())
      modifies this
      ensures State() == Reset(old(State()))
      ensures Inv(State()) && Clients(State()) == {}
    {
      hide ChainOk, PagesOk, RegionsOk, CountsOk, OwnedOk, LargesOk, Clients, Inv, LargesBefore, LargeBlocks;
      ghost var s := State();
      ResetRefines(s);
      InvShape(s);
      LargesBeforeEnds(s);
      HeaderLink(s, 0);
      var large := largeList;
      ghost var i: nat := 0;
      while large != 0
        invariant i <= |s.larges| && large == HeaderAt(s.larges, i)
        invariant State() == s.(owned := s.owned - LargesBefore(s, i))
        decreases |s.larges| - i
      {
        HeaderLink(s, i);
        LargeHeld(s, i);
        ReleaseStep(s, i);
        if headers[large].address != 0 {
          SystemFree(headers[large].address);
        }
        large := headers[large].next;
        i := i + 1;
      }
      HeaderLink(s, i);
      largeList := 0;
      current := head;
      larges, live := [], {};
      RewindPages(s);
    }

    method RewindPages(ghost s: PoolState)
      requires ChainOk(s) && LargesReadable(s) && smalls == s.smalls && head == s.head
      modifies `smalls
      ensures smalls == Reset(s).smalls
    {
      hide ChainOk, RewindUpTo, Reset, LargesReadable;
      RewindAll(s);
      LinkAt(s, 0);
      var small := head;
      ghost var k: nat := 0;
      while small != 0
        invariant k <= |s.chain| && small == At(s.chain, k)
        invariant smalls == RewindUpTo(s.smalls, s.chain, k)
        decreases |s.chain| - k
      {
        LinkAt(s, k);
        RewindStep(s, k);
        smalls := smalls[small := SmallNode(smalls[small].end, small + SIZEOF_SMALL_NODE, 0, 0, smalls[small].next)];
        small := smalls[small].next;
        k := k + 1;
      }
      LinkAt(s, k);
    }

    /** Every block obtained from the system is given back, and none twice. */
    method DestroyPool()
      requires Inv(State())
      modifies this
      ensures owned == map[]
    {
      hide ChainOk, PagesOk, RegionsOk, CountsOk, OwnedOk, LargesOk, Inv, LargeBlocks;
      ghost var s := State();
      InvShape(s);
      ReleaseLargeBlocks();
      PagesLeft(s);
      LinkAt(s, 0);
      var cur := smalls[head].next;
      ghost var k: nat := 1;
      while cur != 0
        invariant 1 <= k <= |s.chain| && cur == At(s.chain, k) && smalls == s.smalls && pool == s.pool
        invariant owned.Keys == {s.pool} + PagesFrom(s.chain, k)
        decreases |s.chain| - k
      {
        LinkAt(s, k);
        PagesFromStep(s, k);
        var next := smalls[cur].next;
        SystemFree(cur);
        cur := next;
        k := k + 1;
      }
      LinkAt(s, k);
      SystemFree(pool);
      assert owned.Keys == {};
    }

    method ReleaseLargeBlocks()
      requires Inv(State())
      modifies `headers, `owned
      ensures owned == old(owned) - LargeBlocks(old(State()))
    {
      hide ChainOk, PagesOk, RegionsOk, CountsOk, OwnedOk, LargesOk, Inv, LargesBefore;
      ghost var s := State();
      InvShape(s);
      var large := largeList;
      ghost var i: nat := 0;
      LargesBeforeEnds(s);
      HeaderLink(s, 0);
      while large != 0
        invariant i <= |s.larges| && large == HeaderAt(s.larges, i)
        invariant owned == s.owned - LargesBefore(s, i)
        invariant forall j :: i <= j < |s.larges| ==>
                    s.larges[j].addr in headers && headers[s.larges[j].addr] == s.headers[s.larges[j].addr]
        decreases |s.larges| - i
      {
        HeaderLink(s, i);
        LargeHeld(s, i);
        ReleaseStep(s, i);
        SystemFree(headers[large].address);
        headers := headers[large := headers[large].(address := 0)];
        large := headers[large].next;
        i := i + 1;
      }
      HeaderLink(s, i);
    }

  }

  predicate SameByte(m: map<nat, bv8>, n: map<nat, bv8>, a: nat) {
    (a in m <==> a in n) && (a in m ==> m[a] == n[a])
  }

  // ---------------------------------------------------------------- facts used along the walks

  /** The search has passed the first `k` headers, and stops at the next or at the bound. */
  lemma {:induction false} FirstFree(s: PoolState, bound: nat, k: nat)
    requires LargesReadable(s) && k <= bound <= |s.larges|
    requires (forall j :: 0 <= j < k ==> LargeAt(s, j) != 0) && (k < bound ==> LargeAt(s, k) == 0)
    ensures FindLarge(s, 0, 0, bound) == k
  {
  }

  lemma ShapeBasics(s: PoolState)
    requires ChainOk(s) && LargesOk(s)
    ensures LargesReadable(s) && s.current in s.chain && Readable(s.smalls, s.chain)
  {
  }

  /** Following a link either reaches the next page of the chain or the null pointer behind it. */
  lemma LinkAt(s: PoolState, k: nat)
    requires ChainOk(s) && k <= |s.chain|
    ensures At(s.chain, k) == 0 <==> k == |s.chain|
    ensures k < |s.chain| ==> s.chain[k] in s.smalls && s.smalls[s.chain[k]].next == At(s.chain, k + 1)
  {
    if k < |s.chain| { assert LinkOk(s, k); }
  }

  lemma {:induction false} BumpUntouched(smalls: map<nat, SmallNode>, chain: seq<nat>, k: nat, m: nat, n: nat)
    requires k <= m <= |chain| && Readable(smalls, chain) && n in smalls && n !in chain[..m]
    ensures Bump(smalls, chain, k, m)[n] == smalls[n]
    decreases m
  {
    if m == k {
    } else {
      assert chain[..m] == chain[..m - 1] + [chain[m - 1]];
      BumpUntouched(smalls, chain, k, m - 1, n);
    }
  }

  /** The walk has not touched the page it stands on. */
  lemma BumpAhead(start: map<nat, SmallNode>, s: PoolState, k: nat, m: nat)
    requires ChainOk(s) && k <= m < |s.chain| && Readable(start, s.chain)
    requires forall i :: 0 <= i < |s.chain| ==> start[s.chain[i]] == s.smalls[s.chain[i]]
    ensures Bump(start, s.chain, k, m)[s.chain[m]] == start[s.chain[m]]
    ensures start[s.chain[m]].next == At(s.chain, m + 1)
  {
    assert LinkOk(s, m);
    BumpUntouched(start, s.chain, k, m, s.chain[m]);
  }

  lemma ReadyToLink(s: PoolState, b: nat, node: SmallNode)
    requires ChainOk(s) && PagesOk(s) && SystemBlock(s.owned, b, PAGE_SIZE)
    ensures |s.chain| > 0 && s.current in s.chain && Readable(s.smalls[b := node], s.chain)
    ensures forall i :: 0 <= i < |s.chain| ==> s.smalls[b := node][s.chain[i]] == s.smalls[s.chain[i]]
  {
    FreshBlock(s, b, PAGE_SIZE);
  }

  lemma WalkStart(start: map<nat, SmallNode>, chain: seq<nat>, k: nat, current: nat)
    requires k < |chain| && Readable(start, chain)
    ensures Bump(start, chain, k, k) == start && SkipTo(start, chain, k, k, current) == current
  {
  }

  lemma WalkStep(start: map<nat, SmallNode>, chain: seq<nat>, k: nat, m: nat, current: nat)
    requires k <= m && m + 1 < |chain| && Readable(start, chain)
    ensures var t := Bump(start, chain, k, m);
            Bump(start, chain, k, m + 1)
            == t[chain[m] := t[chain[m]].(failed := (t[chain[m]].failed + 1) % UINT32)]
    ensures SkipTo(start, chain, k, m + 1, current)
         == if start[chain[m]].failed >= 5 then chain[m + 1] else SkipTo(start, chain, k, m, current)
  {
  }

  lemma BlockFacts(owned: map<nat, nat>, b: nat, size: nat)
    requires SystemBlock(owned, b, size)
    ensures b > 0 && b % 16 == 0
    ensures forall a :: a in owned && owned[a] == PAGE_SIZE ==> a != b
  {
    forall a | a in owned && owned[a] == PAGE_SIZE
      ensures a != b
    {
      assert Apart(b, size, a, owned[a]);
    }
  }

  lemma OwnedShape(s: PoolState, t: PoolState)
    requires ChainOk(s) && PagesOk(s) && RegionsOk(s) && LargesOk(s) && t == s.(owned := t.owned)
    requires forall a :: a in s.owned && s.owned[a] == PAGE_SIZE ==> a in t.owned && t.owned[a] == PAGE_SIZE
    ensures ChainOk(t) && PagesOk(t) && RegionsOk(t) && LargesOk(t)
  {
    hide ChainOk, LargesOk;
    assert ChainOk(t) by { ChainBasics(s); SameChain(s, t); }
    SameLarges(s, t);
    assert forall n :: n in s.smalls ==> PageOk(s, n) && PageOk(t, n);
    assert forall r :: r in s.live ==> RegionOk(s, r) && RegionOk(t, r);
  }

  lemma HeadersNonNull(s: PoolState)
    requires RegionsOk(s) && LargesOk(s)
    ensures forall i :: 0 <= i < |s.larges| ==> HeaderAt(s.larges, i) != 0
  {
    forall i | 0 <= i < |s.larges|
      ensures HeaderAt(s.larges, i) != 0
    {
      assert RegionOk(s, s.larges[i]);
    }
  }

  lemma SmallMallocKeeps(s: PoolState, page: Option<nat>)
    requires ChainOk(s)
    ensures forall a :: a in s.owned ==> a in SmallMalloc(s, SIZEOF_LARGE_NODE, page).0.owned
  {
    hide AlignUp, Fits, Bump, SkipTo, ChainOk;
    ChainBasics(s);
  }

  lemma InvShape(s: PoolState)
    requires Inv(s)
    ensures ChainOk(s) && PagesOk(s) && RegionsOk(s) && LargesOk(s) && LargesReadable(s) && s.head in s.smalls
    ensures Readable(s.smalls, s.chain) && |s.chain| > 0 && s.chain[0] == s.head && s.head == s.pool + SIZEOF_POOL
    ensures forall i, j :: 0 <= i < j < |s.larges| ==> s.larges[i].addr != s.larges[j].addr
  {
    hide RegionsOk, CountsOk, OwnedOk;
    HeaderAddrsDistinct(s, {});
  }

  /** The large blocks of the first `i` headers. */
  ghost function LargesBefore(s: PoolState, i: nat): set<nat>
    requires LargesReadable(s) && i <= |s.larges|
  {
    set j | 0 <= j < i && LargeAt(s, j) != 0 :: LargeAt(s, j)
  }

  /** The block of a large header is held, and by no earlier header. */
  lemma LargeHeld(s: PoolState, i: nat)
    requires Inv(s) && i < |s.larges|
    ensures LargeAt(s, i) == 0 || (LargeAt(s, i) in s.owned && LargeAt(s, i) !in LargesBefore(s, i))
  {
    hide ChainOk, PagesOk, RegionsOk, CountsOk, BlocksApart;
    if LargeAt(s, i) != 0 { assert LargeAt(s, i) in LargeBlocks(s); }
  }

  /** Freeing the block of header `i` leaves what the first `i + 1` headers do not hold. */
  lemma ReleaseStep(s: PoolState, i: nat)
    requires Inv(s) && i < |s.larges|
    ensures s.owned - LargesBefore(s, i + 1) == (s.owned - LargesBefore(s, i)) - {LargeAt(s, i)}
    ensures LargeAt(s, i) == 0 ==> s.owned - LargesBefore(s, i + 1) == s.owned - LargesBefore(s, i)
  {
    hide ChainOk, PagesOk, RegionsOk, CountsOk, OwnedOk;
    InvBasics(s, {});
    assert LargesBefore(s, i + 1)
        == LargesBefore(s, i) + if LargeAt(s, i) == 0 then {} else {LargeAt(s, i)};
    assert 0 !in s.owned;
  }

  lemma LargesBeforeEnds(s: PoolState)
    requires LargesReadable(s)
    ensures LargesBefore(s, 0) == {} && LargesBefore(s, |s.larges|) == LargeBlocks(s)
  {
  }

  /** Following a link either reaches the next large header or the null pointer behind it. */
  lemma HeaderLink(s: PoolState, i: nat)
    requires RegionsOk(s) && LargesOk(s) && i <= |s.larges|
    ensures s.largeList == HeaderAt(s.larges, 0)
    ensures HeaderAt(s.larges, i) == 0 <==> i == |s.larges|
    ensures i < |s.larges| ==>
              s.larges[i].addr in s.headers && s.headers[s.larges[i].addr].next == HeaderAt(s.larges, i + 1)
  {
    if i < |s.larges| { assert RegionOk(s, s.larges[i]) && HeaderLinkOk(s, i); }
  }

  /** Pages `chain[..k]` rewound, the others as they were. */
  function RewindUpTo(smalls: map<nat, SmallNode>, chain: seq<nat>, k: nat): map<nat, SmallNode>
    requires k <= |chain|
  {
    map n | n in smalls :: if n in chain[..k] then ResetNode(n, smalls[n]) else smalls[n]
  }

  /** A page occurs once on the chain. */
  lemma ChainOnce(s: PoolState, k: nat)
    requires ChainOk(s) && k < |s.chain|
    ensures s.chain[k] in s.smalls
    ensures s.chain[k] !in s.chain[..k] && s.chain[k] !in s.chain[k + 1..]
  {
  }

  lemma RewindStep(s: PoolState, k: nat)
    requires ChainOk(s) && k < |s.chain|
    ensures var n := s.chain[k];
            && n in s.smalls && n in RewindUpTo(s.smalls, s.chain, k)
            && RewindUpTo(s.smalls, s.chain, k)[n] == s.smalls[n]
            && RewindUpTo(s.smalls, s.chain, k + 1)
               == RewindUpTo(s.smalls, s.chain, k)[n := ResetNode(n, s.smalls[n])]
  {
    hide ChainOk, ResetNode;
    ChainOnce(s, k);
    assert s.chain[..k + 1] == s.chain[..k] + [s.chain[k]];
  }

  lemma RewindAll(s: PoolState)
    requires ChainOk(s) && LargesReadable(s)
    ensures RewindUpTo(s.smalls, s.chain, |s.chain|) == Reset(s).smalls
    ensures RewindUpTo(s.smalls, s.chain, 0) == s.smalls
    ensures |s.chain| > 0 && s.chain[0] == s.head
  {
    assert s.chain[..|s.chain|] == s.chain;
  }

  ghost function PagesFrom(chain: seq<nat>, k: nat): set<nat>
    requires k <= |chain|
  {
    set n | n in chain[k..]
  }

  lemma PagesLeft(s: PoolState)
    requires Inv(s)
    ensures s.owned.Keys - LargeBlocks(s) == {s.pool} + PagesFrom(s.chain, 1)
  {
    hide PagesOk, RegionsOk, CountsOk, BlocksApart;
    forall n | n in s.smalls && n != s.head
      ensures n in PagesFrom(s.chain, 1)
    {
      assert n in s.chain[1..];
    }
    forall n | n in s.chain[1..]
      ensures IsPage(s, n)
    {
      assert n in s.chain;
    }
    assert IsPage(s, s.pool);
  }

  lemma PagesFromStep(s: PoolState, k: nat)
    requires ChainOk(s) && PagesOk(s) && 1 <= k < |s.chain|
    ensures PagesFrom(s.chain, k + 1) == PagesFrom(s.chain, k) - {s.chain[k]}
    ensures s.chain[k] in PagesFrom(s.chain, k) && s.chain[k] != s.pool
  {
    hide ChainOk;
    ChainOnce(s, k);
    assert s.chain[k] in s.chain;
    assert s.chain[k..] == [s.chain[k]] + s.chain[k + 1..];
  }

}
