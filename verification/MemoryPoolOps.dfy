/**
 The public operations of the memory pool as functions on `PoolState`, the proof that each keeps
 the invariant, and what every history of calls therefore guarantees to the pool's clients.
 */
module MemoryPoolOps {
  import opened Wrappers
  import opened MemoryPoolSpec

  // ---------------------------------------------------------------- disjointness of everything handed out

  /** Two live regions never overlap, whether or not they share a page. */
  lemma LiveApart(s: PoolState, r: Region, q: Region)
    requires ChainOk(s) && PagesOk(s) && RegionsOk(s) && BlocksApart(s.owned)
    requires r in s.live && q in s.live && r != q
    ensures Apart(r.addr, r.size, q.addr, q.size) && r.addr != q.addr
  {
    RegionRange(s, r);
    RegionRange(s, q);
    if r.page != q.page {
      assert PageOk(s, r.page) && PageOk(s, q.page);
      assert Base(s, r.page) != Base(s, q.page);
    }
  }

  /** A live region lies inside its page's block, behind that page's header. */
  lemma LiveInsidePage(s: PoolState, r: Region)
    requires PagesOk(s) && RegionsOk(s) && r in s.live
    ensures r.page in s.smalls && Base(s, r.page) in s.owned && s.owned[Base(s, r.page)] == PAGE_SIZE
    ensures r.addr > 0 && r.addr % 16 == 0
    ensures Base(s, r.page) <= r.page && r.page + SIZEOF_SMALL_NODE <= r.addr
    ensures r.addr + r.size <= s.smalls[r.page].end == Base(s, r.page) + PAGE_SIZE
  {
    RegionRange(s, r);
    assert RegionOk(s, r) && PageOk(s, r.page);
  }

  /** No page but its own contains a live pointer, although `p <= end_` is an inclusive test. */
  lemma Attribution(s: PoolState, r: Region, n: nat)
    requires ChainOk(s) && PagesOk(s) && RegionsOk(s) && BlocksApart(s.owned)
    requires r in s.live && n in s.smalls
    ensures n <= r.addr <= s.smalls[n].end <==> n == r.page
  {
    LiveInsidePage(s, r);
    assert PageOk(s, n);
    if n != r.page {
      assert Base(s, n) != Base(s, r.page);
      assert Apart(Base(s, n), PAGE_SIZE, Base(s, r.page), PAGE_SIZE);
    }
  }

  /** A live small region and a large block never overlap. */
  lemma LargeApart(s: PoolState, r: Region, a: nat)
    requires PagesOk(s) && RegionsOk(s) && BlocksApart(s.owned) && LargesReadable(s)
    requires r in s.live && a in s.owned && a != Base(s, r.page)
    ensures Apart(r.addr, r.size, a, s.owned[a]) && r.addr != a
  {
    LiveInsidePage(s, r);
    assert Apart(Base(s, r.page), PAGE_SIZE, a, s.owned[a]);
  }

  // ---------------------------------------------------------------- malloc

  /** The page a successful small allocation is carved from. */
  ghost function GrantPage(s: PoolState, size: nat, page: Option<nat>): nat
    requires ChainOk(s) && SmallMalloc(s, size, page).1 != 0
  {
    var i := FirstFit(s.smalls, s.chain, IndexOf(s.chain, s.current), size);
    if i < |s.chain| then s.chain[i] else page.value
  }

  lemma SmallMallocInv(s: PoolState, size: nat, page: Option<nat>, extra: set<nat>)
    requires InvWith(s, extra) && 0 < size <= SMALL_LIMIT
    requires page.Some? ==> SystemBlock(s.owned, page.value, PAGE_SIZE)
    ensures InvWith(SmallMalloc(s, size, page).0, extra)
  {
    hide PagesOk, RegionsOk, CountsOk, LargesOk, OwnedOk, AlignUp, Fits;
    ChainBasics(s);
    var i := FirstFit(s.smalls, s.chain, IndexOf(s.chain, s.current), size);
    if i < |s.chain| {
      CarveInv(s, s.chain[i], size, extra);
    } else if page.Some? {
      AppendInv(s, page.value, size, extra);
    }
  }

  /** `t` is `s` with region `r` added and no block or large header lost. */
  ghost predicate Adds(s: PoolState, t: PoolState, r: Region) {
    && r !in s.live && t.live == s.live + {r}
    && t.larges == s.larges && t.headers == s.headers && t.largeList == s.largeList
    && (forall a :: a in s.owned ==> a in t.owned && t.owned[a] == s.owned[a])
  }

  lemma AppendAdds(s: PoolState, b: nat, size: nat)
    requires ChainOk(s) && PagesOk(s) && RegionsOk(s) && BlocksApart(s.owned) && size > 0
    requires SystemBlock(s.owned, b, PAGE_SIZE)
    ensures Adds(s, AppendPage(s, b, size), Region(b, AlignUp(b + SIZEOF_SMALL_NODE), size))
  {
    hide ChainOk, PagesOk, RegionsOk, BlocksApart, SystemBlock, AlignUp, Bump, SkipTo;
    AppendRegions(s, b, size);
    BlocksApartAdd(s.owned, b, PAGE_SIZE);
  }

  /** No page from `current` on can hold `size` bytes. */
  ghost predicate NoPageFits(s: PoolState, size: nat)
    requires Readable(s.smalls, s.chain) && s.current in s.chain
  {
    forall i :: IndexOf(s.chain, s.current) <= i < |s.chain| ==> !Fits(s.smalls[s.chain[i]], size)
  }

  /** A small allocation fails exactly when no page fits and the system refuses one; then nothing changes. */
  lemma SmallMallocGrants(s: PoolState, size: nat, page: Option<nat>)
    requires ChainOk(s) && PagesOk(s) && RegionsOk(s) && BlocksApart(s.owned) && 0 < size <= SMALL_LIMIT
    requires page.Some? ==> SystemBlock(s.owned, page.value, PAGE_SIZE)
    ensures var (t, p) := SmallMalloc(s, size, page);
            && (p == 0 <==> page.None? && NoPageFits(s, size))
            && (p == 0 ==> t == s)
            && (p != 0 ==> Adds(s, t, Region(GrantPage(s, size, page), p, size)))
  {
    hide ChainOk, PagesOk, RegionsOk, BlocksApart, SystemBlock, AlignUp, Fits, Bump, SkipTo;
    ChainBasics(s);
    var i := FirstFit(s.smalls, s.chain, IndexOf(s.chain, s.current), size);
    if i < |s.chain| {
      CarveRegions(s, s.chain[i], size);
      PageNonNull(s, s.chain[i]);
    } else if page.Some? {
      AppendAdds(s, page.value, size);
    }
  }

  lemma PageNonNull(s: PoolState, n: nat)
    requires PagesOk(s) && n in s.smalls
    ensures s.smalls[n].last > 0
  {
    assert PageOk(s, n);
  }

  function Min(a: nat, b: nat): nat {
    if a < b then a else b
  }

  /** The first of the large headers `k..bound` that holds `a`, or `bound`. */
  ghost function FindLarge(s: PoolState, a: nat, k: nat, bound: nat): (i: nat)
    requires LargesReadable(s) && k <= bound <= |s.larges|
    ensures k <= i <= bound
    ensures forall j :: k <= j < i ==> LargeAt(s, j) != a
    ensures i < bound ==> LargeAt(s, i) == a
    decreases bound - k
  {
    if k == bound || LargeAt(s, k) == a then k else FindLarge(s, a, k + 1, bound)
  }

  /** None of the large headers that are inspected is free. */
  ghost predicate NoFreeHeader(s: PoolState)
    requires LargesReadable(s)
  {
    forall i :: 0 <= i < Min(|s.larges|, REUSE_LIMIT) ==> LargeAt(s, i) != 0
  }

  /** Record the block at `b` in the large header at position `j`. */
  function SetLarge(s: PoolState, j: nat, b: nat, size: nat): PoolState
    requires j < |s.larges| && s.larges[j].addr in s.headers
  {
    var h := s.larges[j].addr;
    s.(headers := s.headers[h := LargeNode(b, size, s.headers[h].next)])
  }

  /** Put the header carved at `h` from page `n` in front of the large list, holding block `b`. */
  function PushLarge(s: PoolState, n: nat, h: nat, b: nat, size: nat): PoolState {
    s.(headers := s.headers[h := LargeNode(b, size, s.largeList)],
       largeList := h,
       larges := [Region(n, h, SIZEOF_LARGE_NODE)] + s.larges)
  }

  ghost function LargeMalloc(s: PoolState, size: nat, block: Option<nat>, page: Option<nat>): (PoolState, nat)
    requires ChainOk(s) && LargesReadable(s)
  {
    if block.None? then (s, 0)
    else
      var b := block.value;
      var s1 := s.(owned := s.owned[b := size]);
      var bound := Min(|s.larges|, REUSE_LIMIT);
      var j := FindLarge(s, 0, 0, bound);
      if j < bound then (SetLarge(s1, j, b, size % UINT32), b)
      else
        SameChain(s, s1);
        var (s2, h) := SmallMalloc(s1, SIZEOF_LARGE_NODE, page);
        if h == 0 then (s2.(owned := s2.owned - {b}), 0)
        else (PushLarge(s2, GrantPage(s1, SIZEOF_LARGE_NODE, page), h, b, size % UINT32), b)
  }

  /** `malloc(size)`; `block` and `page` are what the system allocator offers, should it be asked. */
  ghost function Malloc(s: PoolState, size: nat, block: Option<nat>, page: Option<nat>): (PoolState, nat)
    requires ChainOk(s) && LargesReadable(s)
  {
    if size == 0 then (s, 0)
    else if size > SMALL_LIMIT then LargeMalloc(s, size, block, page)
    else SmallMalloc(s, size, page)
  }

  /** The contract of the system allocator for the blocks `malloc` may ask it for. */
  ghost predicate Offers(s: PoolState, size: nat, block: Option<nat>, page: Option<nat>) {
    && (size > SMALL_LIMIT && block.Some? ==> SystemBlock(s.owned, block.value, size))
    && (page.Some? ==>
          SystemBlock(if size > SMALL_LIMIT && block.Some? then s.owned[block.value := size] else s.owned,
                      page.value, PAGE_SIZE))
  }

  lemma SetLargeBlocks(s: PoolState, j: nat, b: nat, size: nat)
    requires LargesOk(s) && j < |s.larges|
    requires forall i, k :: 0 <= i < k < |s.larges| ==> s.larges[i].addr != s.larges[k].addr
    ensures var t := SetLarge(s, j, b, size);
            && LargesOk(t)
            && LargeAt(t, j) == b
            && (forall i :: 0 <= i < |s.larges| && i != j ==> LargeAt(t, i) == LargeAt(s, i))
  {
    var t := SetLarge(s, j, b, size);
    forall i | 0 <= i < |t.larges|
      ensures HeaderLinkOk(t, i)
    {
      assert HeaderLinkOk(s, i);
    }
  }

  lemma HeaderAddrsDistinct(s: PoolState, extra: set<nat>)
    requires InvWith(s, extra)
    ensures forall i, k :: 0 <= i < k < |s.larges| ==> s.larges[i].addr != s.larges[k].addr
  {
    forall i, k | 0 <= i < k < |s.larges|
      ensures s.larges[i].addr != s.larges[k].addr
    {
      LiveApart(s, s.larges[i], s.larges[k]);
    }
  }

  lemma AddExtra(s: PoolState, b: nat, size: nat)
    requires Inv(s) && SystemBlock(s.owned, b, size)
    ensures InvWith(s.(owned := s.owned[b := size]), {b})
    ensures b !in s.owned
  {
    hide ChainOk, PagesOk, RegionsOk, CountsOk, LargesOk, OwnedOk, SystemBlock;
    var t := s.(owned := s.owned[b := size]);
    InvBasics(s, {});
    BlocksApartAdd(s.owned, b, size);
    SameChain(s, t);
    PagesOwned(s);
    SamePages(s, t);
    SameRegions(s, t);
    SameLarges(s, t);
    ExtraOwned(s, b, size);
  }

  lemma ExtraOwned(s: PoolState, b: nat, size: nat)
    requires LargesReadable(s) && OwnedOk(s, {}) && SystemBlock(s.owned, b, size)
    ensures OwnedOk(s.(owned := s.owned[b := size]), {b})
  {
    hide BlocksApart, SystemBlock;
    var t := s.(owned := s.owned[b := size]);
    BlocksApartAdd(s.owned, b, size);
    assert forall a :: IsPage(t, a) == IsPage(s, a);
    assert forall i :: 0 <= i < |s.larges| ==> LargeAt(t, i) == LargeAt(s, i);
    assert LargeBlocks(t) == LargeBlocks(s);
  }

  lemma SameRegions(s: PoolState, t: PoolState)
    requires RegionsOk(s) && CountsOk(s) && t.live == s.live && t.smalls == s.smalls
    ensures RegionsOk(t) && CountsOk(t)
  {
    assert forall r :: r in s.live ==> RegionOk(s, r) && RegionOk(t, r);
  }

  lemma SamePages(s: PoolState, t: PoolState)
    requires PagesOk(s) && t.pool == s.pool && t.head == s.head && t.chain == s.chain && t.smalls == s.smalls
    requires forall n :: n in s.smalls ==> Base(s, n) in t.owned && t.owned[Base(s, n)] == PAGE_SIZE
    ensures PagesOk(t)
  {
    assert forall n :: n in t.smalls ==> PageOk(s, n) && PageOk(t, n);
  }

  lemma ReuseOwned(s: PoolState, j: nat, b: nat, size: nat)
    requires LargesReadable(s) && OwnedOk(s, {b}) && j < |s.larges| && LargeAt(s, j) == 0
    requires LargesReadable(SetLarge(s, j, b, size)) && LargeAt(SetLarge(s, j, b, size), j) == b
    requires forall i :: 0 <= i < |s.larges| && i != j ==> LargeAt(SetLarge(s, j, b, size), i) == LargeAt(s, i)
    ensures OwnedOk(SetLarge(s, j, b, size), {})
  {
    hide BlocksApart;
    var t := SetLarge(s, j, b, size);
    assert forall a :: IsPage(t, a) == IsPage(s, a);
    assert b in s.owned.Keys;
    assert b != 0 by { NonNullBlock(s.owned, b); }
    forall i | 0 <= i < |t.larges| && LargeAt(t, i) != 0
      ensures LargeAt(t, i) in LargeBlocks(s) + {b}
    {
      if i != j { assert LargeAt(s, i) in LargeBlocks(s); }
    }
    forall i | 0 <= i < |s.larges| && LargeAt(s, i) != 0
      ensures LargeAt(s, i) in LargeBlocks(t)
    {
      assert LargeAt(t, i) == LargeAt(s, i);
    }
    assert b in LargeBlocks(t);
    assert LargeBlocks(t) == LargeBlocks(s) + {b};
    forall i, k | 0 <= i < k < |t.larges| && LargeAt(t, i) != 0
      ensures LargeAt(t, i) != LargeAt(t, k)
    {
      assert i != j ==> LargeAt(s, i) in LargeBlocks(s);
      assert k != j && LargeAt(s, k) != 0 ==> LargeAt(s, k) in LargeBlocks(s);
    }
  }

  lemma NonNullBlock(owned: map<nat, nat>, b: nat)
    requires BlocksApart(owned) && b in owned
    ensures b != 0
  {
  }

  lemma ReuseInv(s: PoolState, j: nat, b: nat, size: nat)
    requires InvWith(s, {b}) && j < |s.larges| && LargeAt(s, j) == 0
    ensures Inv(SetLarge(s, j, b, size))
  {
    hide ChainOk, PagesOk, RegionsOk, CountsOk, OwnedOk;
    var t := SetLarge(s, j, b, size);
    HeaderAddrsDistinct(s, {b});
    SetLargeBlocks(s, j, b, size);
    ReuseOwned(s, j, b, size);
    ChainBasics(s);
    SameChain(s, t);
    SameRegions(s, t);
    PagesOwned(s);
    SamePages(s, t);
  }

  lemma PagesOwned(s: PoolState)
    requires PagesOk(s)
    ensures forall n :: n in s.smalls ==> Base(s, n) in s.owned && s.owned[Base(s, n)] == PAGE_SIZE
  {
    assert forall n :: n in s.smalls ==> PageOk(s, n);
  }

  lemma PushOwned(s: PoolState, n: nat, h: nat, b: nat, size: nat)
    requires LargesReadable(s) && OwnedOk(s, {b})
    requires forall i :: 0 <= i < |s.larges| ==> s.larges[i].addr != h
    ensures OwnedOk(PushLarge(s, n, h, b, size), {})
  {
    hide BlocksApart;
    var t := PushLarge(s, n, h, b, size);
    assert forall a :: IsPage(t, a) == IsPage(s, a);
    assert b in s.owned.Keys;
    assert b != 0 by { NonNullBlock(s.owned, b); }
    assert LargesReadable(t) && LargeAt(t, 0) == b;
    forall i | 0 <= i < |s.larges|
      ensures LargeAt(t, i + 1) == LargeAt(s, i)
      ensures LargeAt(s, i) != 0 ==> LargeAt(s, i) in LargeBlocks(t) && LargeAt(s, i) in LargeBlocks(s)
    {
      assert t.larges[i + 1] == s.larges[i];
    }
    forall i | 0 <= i < |t.larges| && LargeAt(t, i) != 0
      ensures LargeAt(t, i) in LargeBlocks(s) + {b}
    {
      if i > 0 { assert LargeAt(t, i) == LargeAt(s, i - 1); }
    }
    assert b in LargeBlocks(t);
    assert LargeBlocks(t) == LargeBlocks(s) + {b};
    forall i, k | 0 <= i < k < |t.larges| && LargeAt(t, i) != 0
      ensures LargeAt(t, i) != LargeAt(t, k)
    {
      assert LargeAt(t, k) == LargeAt(s, k - 1);
      if i > 0 { assert LargeAt(t, i) == LargeAt(s, i - 1); }
    }
  }

  lemma PushLargesOk(s: PoolState, n: nat, h: nat, b: nat, size: nat)
    requires LargesOk(s) && Region(n, h, SIZEOF_LARGE_NODE) in s.live
    requires forall i :: 0 <= i < |s.larges| ==> s.larges[i].addr != h
    ensures LargesOk(PushLarge(s, n, h, b, size))
  {
    var t := PushLarge(s, n, h, b, size);
    forall i | 0 <= i < |t.larges|
      ensures && t.larges[i] in t.live && t.larges[i].size == SIZEOF_LARGE_NODE
              && t.larges[i].addr in t.headers
              && HeaderLinkOk(t, i)
    {
      if i > 0 {
        assert t.larges[i] == s.larges[i - 1] && HeaderLinkOk(s, i - 1);
        assert HeaderAt(t.larges, i + 1) == HeaderAt(s.larges, i);
      }
    }
  }

  lemma PushInv(s: PoolState, n: nat, h: nat, b: nat, size: nat)
    requires InvWith(s, {b})
    requires Region(n, h, SIZEOF_LARGE_NODE) in s.live && Region(n, h, SIZEOF_LARGE_NODE) !in s.larges
    ensures Inv(PushLarge(s, n, h, b, size))
  {
    hide ChainOk, PagesOk, RegionsOk, CountsOk, OwnedOk;
    var t := PushLarge(s, n, h, b, size);
    forall i | 0 <= i < |s.larges|
      ensures s.larges[i].addr != h
    {
      assert BlocksApart(s.owned) by { OwnedApart(s, {b}); }
      LiveApart(s, s.larges[i], Region(n, h, SIZEOF_LARGE_NODE));
    }
    PushOwned(s, n, h, b, size);
    PushLargesOk(s, n, h, b, size);
    ChainBasics(s);
    SameChain(s, t);
    SameRegions(s, t);
    PagesOwned(s);
    SamePages(s, t);
  }

  lemma OwnedApart(s: PoolState, extra: set<nat>)
    requires LargesReadable(s) && OwnedOk(s, extra)
    ensures BlocksApart(s.owned)
  {
  }

  lemma LargeMallocInv(s: PoolState, size: nat, block: Option<nat>, page: Option<nat>)
    requires Inv(s) && size > SMALL_LIMIT && Offers(s, size, block, page)
    ensures Inv(LargeMalloc(s, size, block, page).0)
    ensures LargeMalloc(s, size, block, page).1 == 0 ==> LargeMalloc(s, size, block, page).0 == s
  {
    hide ChainOk, PagesOk, RegionsOk, CountsOk, OwnedOk, SystemBlock, SmallMalloc, GrantPage, NoPageFits, BlocksApart;
    InvBasics(s, {});
    if block.Some? {
      var b := block.value;
      var s1 := s.(owned := s.owned[b := size]);
      AddExtra(s, b, size);
      InvBasics(s1, {b});
      var bound := Min(|s.larges|, REUSE_LIMIT);
      var j := FindLarge(s, 0, 0, bound);
      if j < bound {
        ReuseInv(s1, j, b, size % UINT32);
        assert b != 0 by { SystemBlockNonNull(s.owned, b, size); }
      } else {
        SmallMallocInv(s1, SIZEOF_LARGE_NODE, page, {b});
        SmallMallocGrants(s1, SIZEOF_LARGE_NODE, page);
        var (s2, h) := SmallMalloc(s1, SIZEOF_LARGE_NODE, page);
        if h == 0 {
          assert s1.owned - {b} == s.owned;
        } else {
          PushInv(s2, GrantPage(s1, SIZEOF_LARGE_NODE, page), h, b, size % UINT32);
          assert b != 0 by { SystemBlockNonNull(s.owned, b, size); }
        }
      }
    }
  }

  lemma MallocInv(s: PoolState, size: nat, block: Option<nat>, page: Option<nat>)
    requires Inv(s) && Offers(s, size, block, page)
    ensures Inv(Malloc(s, size, block, page).0)
  {
    hide ChainOk, PagesOk, RegionsOk, CountsOk, SystemBlock, SmallMalloc, LargeMalloc;
    if size > SMALL_LIMIT {
      LargeMallocInv(s, size, block, page);
    } else if size > 0 {
      SmallMallocInv(s, size, page, {});
    }
  }

  // ---------------------------------------------------------------- freeMemory

  /** The first page from position `k` on with `small <= p <= small->end_`, or the chain's length. */
  function FindPage(smalls: map<nat, SmallNode>, chain: seq<nat>, p: nat, k: nat): (i: nat)
    requires Readable(smalls, chain) && k <= |chain|
    ensures k <= i <= |chain|
    ensures forall j :: k <= j < i ==> !(chain[j] <= p <= smalls[chain[j]].end)
    ensures i < |chain| ==> chain[i] <= p <= smalls[chain[i]].end
    decreases |chain| - k
  {
    if k == |chain| || chain[k] <= p <= smalls[chain[k]].end then k else FindPage(smalls, chain, p, k + 1)
  }

  /** Drop one reference of page `n`; at zero rewind it and let allocation start at the head again. */
  ghost function FreeSmall(s: PoolState, n: nat, p: nat): PoolState
    requires n in s.smalls
  {
    var node := s.smalls[n];
    var quote := if node.quote == 0 then UINT32 - 1 else node.quote - 1;
    var live := s.live - (set r | r in s.live && r.page == n && r.addr == p);
    if quote == 0 then
      s.(smalls := s.smalls[n := node.(quote := 0, last := n + SIZEOF_SMALL_NODE, failed := 0)],
         current := s.head, live := live)
    else
      s.(smalls := s.smalls[n := node.(quote := quote)], live := live)
  }

  /** Give the block of the large header at position `j` back to the system. */
  function FreeLarge(s: PoolState, j: nat): PoolState
    requires j < |s.larges| && s.larges[j].addr in s.headers
  {
    SetLarge(s.(owned := s.owned - {LargeAt(s, j)}), j, 0, 0)
  }

  /** `freeMemory(p)`. */
  ghost function Free(s: PoolState, p: nat): PoolState
    requires ChainOk(s) && LargesReadable(s)
  {
    var j := FindLarge(s, p, 0, |s.larges|);
    if j < |s.larges| then FreeLarge(s, j)
    else
      var i := FindPage(s.smalls, s.chain, p, 0);
      if i < |s.chain| then FreeSmall(s, s.chain[i], p) else s
  }

  /** A region handed to a client, not one the pool keeps for itself. */
  ghost predicate ClientRegion(s: PoolState, r: Region) {
    r in s.live && r !in s.larges
  }

  /**
   What a client may pass to `freeMemory`: a pointer `malloc` returned and that was not freed
   since, the null pointer, or an address that lies in no page and starts no large block.
   */
  ghost predicate Freeable(s: PoolState, p: nat)
    requires LargesReadable(s)
  {
    || p == 0
    || p in LargeBlocks(s)
    || (exists r :: ClientRegion(s, r) && r.addr == p)
    || forall n :: n in s.smalls ==> !(n <= p <= s.smalls[n].end)
  }

  lemma FreeLargeOwned(s: PoolState, j: nat)
    requires LargesReadable(s) && OwnedOk(s, {}) && j < |s.larges|
    requires LargesReadable(FreeLarge(s, j)) && LargeAt(FreeLarge(s, j), j) == 0
    requires forall i :: 0 <= i < |s.larges| && i != j ==> LargeAt(FreeLarge(s, j), i) == LargeAt(s, i)
    ensures OwnedOk(FreeLarge(s, j), {})
    ensures LargeBlocks(FreeLarge(s, j)) == LargeBlocks(s) - {LargeAt(s, j)}
  {
    var t := FreeLarge(s, j);
    var p := LargeAt(s, j);
    assert forall a :: IsPage(t, a) == IsPage(s, a);
    forall i | 0 <= i < |t.larges| && LargeAt(t, i) != 0
      ensures LargeAt(t, i) in LargeBlocks(s) - {p}
    {
      assert LargeAt(t, i) == LargeAt(s, i) && i != j;
      assert LargeAt(s, i) in LargeBlocks(s);
    }
    forall i | 0 <= i < |s.larges| && LargeAt(s, i) != 0 && LargeAt(s, i) != p
      ensures LargeAt(s, i) in LargeBlocks(t)
    {
      assert LargeAt(t, i) == LargeAt(s, i);
    }
    assert LargeBlocks(t) == LargeBlocks(s) - {p};
    if p != 0 { assert p in LargeBlocks(s); }
  }

  lemma FreeLargeInv(s: PoolState, j: nat)
    requires Inv(s) && j < |s.larges|
    ensures Inv(FreeLarge(s, j))
    ensures LargeBlocks(FreeLarge(s, j)) == LargeBlocks(s) - {LargeAt(s, j)}
  {
    hide ChainOk, PagesOk, RegionsOk, CountsOk, BlocksApart;
    var u := s.(owned := s.owned - {LargeAt(s, j)});
    var t := FreeLarge(s, j);
    HeaderAddrsDistinct(s, {});
    SameLarges(s, u);
    SetLargeBlocks(u, j, 0, 0);
    FreeLargeOwned(s, j);
    ChainBasics(s);
    SameChain(s, t);
    SameRegions(s, t);
    PagesOwned(s);
    forall n | n in s.smalls
      ensures Base(s, n) in t.owned && t.owned[Base(s, n)] == PAGE_SIZE
    {
      assert IsPage(s, Base(s, n));
      if LargeAt(s, j) != 0 { assert LargeAt(s, j) in LargeBlocks(s); }
      assert 0 !in s.owned by { NullNotOwned(s.owned); }
    }
    SamePages(s, t);
  }

  lemma NullNotOwned(owned: map<nat, nat>)
    requires BlocksApart(owned)
    ensures 0 !in owned
  {
  }

  /** Freeing `r` removes exactly `r`, and its page is rewound exactly if nothing else lives there. */
  lemma FreeSmallEffect(s: PoolState, r: Region)
    requires RegionsOk(s) && CountsOk(s) && r in s.live && r.page in s.smalls
    ensures var t := FreeSmall(s, r.page, r.addr);
            && t.live == s.live - {r} && r.page in t.smalls
            && t.smalls[r.page].quote == |OnPage(t.live, r.page)| == s.smalls[r.page].quote - 1
            && (if OnPage(t.live, r.page) == {}
                then t.smalls[r.page].last == r.page + 32 && t.smalls[r.page].failed == 0 && t.current == s.head
                else t.smalls[r.page].last == s.smalls[r.page].last
                     && t.smalls[r.page].failed == s.smalls[r.page].failed && t.current == s.current)
  {
    var t := FreeSmall(s, r.page, r.addr);
    forall q | q in s.live && q.page == r.page && q.addr == r.addr
      ensures q == r
    {
      assert RegionOk(s, q) && RegionOk(s, r);
    }
    assert (set q | q in s.live && q.page == r.page && q.addr == r.addr) == {r};
    assert OnPage(t.live, r.page) == OnPage(s.live, r.page) - {r};
    assert r in OnPage(s.live, r.page);
  }

  lemma FreeSmallRegions(s: PoolState, r: Region)
    requires RegionsOk(s) && CountsOk(s) && r in s.live
    ensures RegionsOk(FreeSmall(s, r.page, r.addr)) && CountsOk(FreeSmall(s, r.page, r.addr))
  {
    assert RegionOk(s, r);
    var t := FreeSmall(s, r.page, r.addr);
    FreeSmallEffect(s, r);
    forall q | q in t.live
      ensures RegionOk(t, q)
    {
      assert RegionOk(s, q);
      assert q.page == r.page ==> q in OnPage(t.live, r.page);
    }
    forall m | m in t.smalls
      ensures t.smalls[m].quote == |OnPage(t.live, m)|
    {
      if m != r.page { assert OnPage(t.live, m) == OnPage(s.live, m); }
    }
  }

  lemma FreeSmallPages(s: PoolState, n: nat, p: nat)
    requires PagesOk(s) && n in s.smalls
    ensures PagesOk(FreeSmall(s, n, p))
  {
    var t := FreeSmall(s, n, p);
    forall m | m in t.smalls
      ensures PageOk(t, m)
    {
      assert PageOk(s, m);
    }
  }

  lemma FreeSmallLarges(s: PoolState, t: PoolState, r: Region)
    requires LargesOk(s) && ClientRegion(s, r)
    requires t.larges == s.larges && t.headers == s.headers && t.largeList == s.largeList
    requires t.live == s.live - {r}
    ensures LargesOk(t)
  {
    forall i | 0 <= i < |t.larges|
      ensures HeaderLinkOk(t, i)
    {
      assert HeaderLinkOk(s, i);
    }
  }

  lemma FreeSmallInv(s: PoolState, r: Region)
    requires Inv(s) && ClientRegion(s, r)
    ensures Inv(FreeSmall(s, r.page, r.addr))
    ensures FreeSmall(s, r.page, r.addr).live == s.live - {r}
  {
    hide ChainOk, PagesOk, RegionsOk, CountsOk, LargesOk, OwnedOk;
    RegionRange(s, r);
    InvBasics(s, {});
    var t := FreeSmall(s, r.page, r.addr);
    FreeSmallEffect(s, r);
    FreeSmallRegions(s, r);
    FreeSmallPages(s, r.page, r.addr);
    SameChain(s, t);
    SameOwned(s, t, {});
    FreeSmallLarges(s, t, r);
  }

  lemma InvBasics(s: PoolState, extra: set<nat>)
    requires InvWith(s, extra)
    ensures LargesReadable(s) && BlocksApart(s.owned) && 0 !in s.smalls
    ensures |s.chain| > 0 && s.current in s.chain && s.head in s.chain && s.head in s.smalls
    ensures Readable(s.smalls, s.chain) && s.smalls.Keys == (set n | n in s.chain)
  {
    hide PagesOk, RegionsOk, CountsOk;
    ChainBasics(s);
  }

  lemma RegionNotLarge(s: PoolState, r: Region, i: nat)
    requires Inv(s) && r in s.live && i < |s.larges|
    ensures LargeAt(s, i) != r.addr
  {
    hide PagesOk, RegionsOk, CountsOk, ChainOk, BlocksApart;
    InvBasics(s, {});
    LiveInsidePage(s, r);
    assert r.page in s.chain;
    assert IsPage(s, Base(s, r.page));
    if LargeAt(s, i) != 0 {
      assert LargeAt(s, i) in LargeBlocks(s);
      LargeApart(s, r, LargeAt(s, i));
    }
  }

  /** `freeMemory` of a live small pointer reaches the page it was carved from. */
  lemma FreeFindsRegion(s: PoolState, r: Region)
    requires Inv(s) && ClientRegion(s, r)
    ensures Free(s, r.addr) == FreeSmall(s, r.page, r.addr)
    ensures r.addr !in LargeBlocks(s)
  {
    hide ChainOk, PagesOk, RegionsOk, CountsOk, LargesOk, OwnedOk, BlocksApart;
    InvBasics(s, {});
    RegionRange(s, r);
    forall i | 0 <= i < |s.larges|
      ensures LargeAt(s, i) != r.addr
    {
      RegionNotLarge(s, r, i);
    }
    forall k | 0 <= k < |s.chain|
      ensures s.chain[k] <= r.addr <= s.smalls[s.chain[k]].end <==> s.chain[k] == r.page
    {
      Attribution(s, r, s.chain[k]);
    }
    assert r.page in s.chain;
  }

  /** A pointer the pool did not hand out reaches no page and no large block. */
  lemma FreeNothing(s: PoolState, p: nat)
    requires Inv(s) && Freeable(s, p)
    requires FindLarge(s, p, 0, |s.larges|) == |s.larges| && !(exists r :: ClientRegion(s, r) && r.addr == p)
    ensures p !in LargeBlocks(s) && Free(s, p) == s
  {
    hide ChainOk, PagesOk, RegionsOk, CountsOk, OwnedOk, LargesOk;
    InvBasics(s, {});
  }

  lemma FreeInv(s: PoolState, p: nat)
    requires Inv(s) && Freeable(s, p)
    ensures Inv(Free(s, p))
  {
    hide ChainOk, PagesOk, RegionsOk, CountsOk, OwnedOk, LargesOk, Freeable, FreeSmall, FreeLarge, LargeBlocks;
    InvBasics(s, {});
    var j := FindLarge(s, p, 0, |s.larges|);
    if j < |s.larges| {
      FreeLargeInv(s, j);
    } else if r :| ClientRegion(s, r) && r.addr == p {
      FreeFindsRegion(s, r);
      FreeSmallInv(s, r);
    } else {
      FreeNothing(s, p);
    }
  }

  // ---------------------------------------------------------------- resetPool

  function ResetNode(n: nat, node: SmallNode): SmallNode {
    SmallNode(node.end, n + SIZEOF_SMALL_NODE, 0, 0, node.next)
  }

  /** `resetPool()`: the large blocks go back to the system, every page is rewound and kept. */
  ghost function Reset(s: PoolState): PoolState
    requires LargesReadable(s)
  {
    s.(smalls := map n | n in s.smalls :: ResetNode(n, s.smalls[n]),
       largeList := 0, current := s.head, larges := [], live := {},
       owned := s.owned - LargeBlocks(s))
  }

  lemma ResetPages(s: PoolState)
    requires ChainOk(s) && PagesOk(s) && LargesReadable(s) && OwnedOk(s, {})
    ensures PagesOk(Reset(s))
  {
    hide ChainOk, BlocksApart;
    var t := Reset(s);
    ChainBasics(s);
    forall n | n in t.smalls
      ensures PageOk(t, n)
    {
      assert PageOk(s, n);
      assert IsPage(s, Base(s, n));
    }
  }

  lemma ResetOwned(s: PoolState)
    requires LargesReadable(s) && OwnedOk(s, {})
    ensures LargesReadable(Reset(s)) && OwnedOk(Reset(s), {})
    ensures forall a :: a in Reset(s).owned <==> IsPage(s, a)
  {
    hide BlocksApart;
    var t := Reset(s);
    assert forall a :: IsPage(t, a) == IsPage(s, a);
    assert LargeBlocks(t) == {};
    FewerBlocksApart(s.owned, t.owned);
  }

  lemma ResetInv(s: PoolState)
    requires Inv(s)
    ensures Inv(Reset(s))
    ensures forall a :: a in Reset(s).owned <==> IsPage(s, a)
  {
    hide ChainOk, PagesOk, OwnedOk;
    InvBasics(s, {});
    var t := Reset(s);
    SameChain(s, t);
    ResetPages(s);
    ResetOwned(s);
    assert forall n :: OnPage(t.live, n) == {};
  }

  lemma FewerBlocksApart(owned: map<nat, nat>, fewer: map<nat, nat>)
    requires BlocksApart(owned)
    requires forall a :: a in fewer ==> a in owned && fewer[a] == owned[a]
    ensures BlocksApart(fewer)
  {
  }

  // ---------------------------------------------------------------- what clients see

  /** The bytes at the start of a page's block that the pool keeps for itself. */
  function HeaderSize(s: PoolState, n: nat): nat {
    if n == s.head then SIZEOF_POOL + SIZEOF_SMALL_NODE else SIZEOF_SMALL_NODE
  }

  ghost function ClientRegions(s: PoolState): set<Region> {
    set r | r in s.live && r !in s.larges
  }

  /** The allocations clients hold: address and size of every block malloc'ed and not freed. */
  ghost function Clients(s: PoolState): set<(nat, nat)>
    requires LargesReadable(s)
  {
    (set r | r in ClientRegions(s) :: (r.addr, r.size)) +
    (set a | a in LargeBlocks(s) && a in s.owned :: (a, s.owned[a]))
  }

  /** A client's allocation is a client region of a page or a whole block of the system. */
  lemma ClientKinds(s: PoolState, x: (nat, nat)) returns (r: Region, large: bool)
    requires Inv(s) && x in Clients(s)
    ensures large ==> x.0 in LargeBlocks(s) && x.0 in s.owned && s.owned[x.0] == x.1
    ensures !large ==> ClientRegion(s, r) && x == (r.addr, r.size)
  {
    hide ChainOk, PagesOk, RegionsOk, CountsOk, OwnedOk, LargeBlocks;
    if q :| q in ClientRegions(s) && x == (q.addr, q.size) {
      r, large := q, false;
    } else {
      r, large := Region(0, 0, 0), true;
    }
  }

  lemma LargeNotPage(s: PoolState, a: nat, n: nat)
    requires Inv(s) && a in LargeBlocks(s) && n in s.smalls
    ensures a in s.owned && a != Base(s, n)
  {
    hide PagesOk, RegionsOk, CountsOk, BlocksApart, ChainOk, LargesOk;
    InvBasics(s, {});
    assert IsPage(s, Base(s, n));
  }

  /** No two allocations held by clients overlap. */
  lemma ClientsApart(s: PoolState, x: (nat, nat), y: (nat, nat))
    requires Inv(s) && x in Clients(s) && y in Clients(s) && x != y
    ensures Apart(x.0, x.1, y.0, y.1) && x.0 != y.0
  {
    hide ChainOk, PagesOk, RegionsOk, CountsOk, LargesOk, OwnedOk, LargeBlocks, Clients;
    InvBasics(s, {});
    var r, xLarge := ClientKinds(s, x);
    var q, yLarge := ClientKinds(s, y);
    if !xLarge && !yLarge {
      LiveApart(s, r, q);
    } else if !xLarge {
      RegionRange(s, r);
      LargeNotPage(s, y.0, r.page);
      LargeApart(s, r, y.0);
    } else if !yLarge {
      RegionRange(s, q);
      LargeNotPage(s, x.0, q.page);
      LargeApart(s, q, x.0);
    }
  }

  /** An allocation held by a client is aligned, and avoids every header the pool keeps in its pages. */
  lemma ClientsAvoidHeaders(s: PoolState, x: (nat, nat))
    requires Inv(s) && x in Clients(s)
    ensures x.0 > 0 && x.0 % 16 == 0 && x.1 > 0
    ensures forall n :: n in s.smalls ==> Apart(x.0, x.1, Base(s, n), HeaderSize(s, n))
    ensures forall i :: 0 <= i < |s.larges| ==> Apart(x.0, x.1, s.larges[i].addr, SIZEOF_LARGE_NODE)
  {
    hide ChainOk, PagesOk, RegionsOk, CountsOk, LargesOk, OwnedOk, LargeBlocks, Clients, BlocksApart, Base;
    InvBasics(s, {});
    var r, large := ClientKinds(s, x);
    if large { AlignedBlock(s.owned, x.0) by { LargeOwned(s, x.0); } } else { RegionRange(s, r); }
    forall n | n in s.smalls
      ensures Apart(x.0, x.1, Base(s, n), HeaderSize(s, n))
    {
      if large {
        LargeNotPage(s, x.0, n);
        BlockVersusHeader(s, x.0, n);
      } else {
        RegionVersusHeader(s, r, n);
      }
    }
    forall i | 0 <= i < |s.larges|
      ensures Apart(x.0, x.1, s.larges[i].addr, SIZEOF_LARGE_NODE)
    {
      LargeHeaderLive(s, i);
      if large {
        RegionRange(s, s.larges[i]);
        LargeNotPage(s, x.0, s.larges[i].page);
        LargeApart(s, s.larges[i], x.0);
      } else {
        LiveApart(s, r, s.larges[i]);
      }
    }
  }

  lemma AlignedBlock(owned: map<nat, nat>, a: nat)
    requires BlocksApart(owned) && a in owned
    ensures a > 0 && a % 16 == 0 && owned[a] > 0
  {
  }

  lemma LargeOwned(s: PoolState, a: nat)
    requires Inv(s) && a in LargeBlocks(s)
    ensures a in s.owned
  {
    hide ChainOk, PagesOk, RegionsOk, CountsOk, LargesOk, LargeBlocks, BlocksApart;
  }

  lemma LargeHeaderLive(s: PoolState, i: nat)
    requires LargesOk(s) && i < |s.larges|
    ensures s.larges[i] in s.live && s.larges[i] in s.larges && s.larges[i].size == SIZEOF_LARGE_NODE
  {
  }

  lemma BlockVersusHeader(s: PoolState, a: nat, n: nat)
    requires PagesOk(s) && BlocksApart(s.owned) && a in s.owned && n in s.smalls && a != Base(s, n)
    ensures Apart(a, s.owned[a], Base(s, n), HeaderSize(s, n))
  {
    assert PageOk(s, n);
    assert Apart(a, s.owned[a], Base(s, n), PAGE_SIZE);
  }

  lemma RegionVersusHeader(s: PoolState, r: Region, n: nat)
    requires ChainOk(s) && PagesOk(s) && RegionsOk(s) && BlocksApart(s.owned) && r in s.live && n in s.smalls
    ensures Apart(r.addr, r.size, Base(s, n), HeaderSize(s, n))
  {
    LiveInsidePage(s, r);
    assert PageOk(s, n);
    if n != r.page {
      assert Base(s, n) != Base(s, r.page);
      assert Apart(Base(s, n), PAGE_SIZE, Base(s, r.page), PAGE_SIZE);
    }
  }

  /** `malloc` refines an allocator that adds one fresh allocation, or none. */
  ghost predicate Granted(before: set<(nat, nat)>, after: set<(nat, nat)>, p: nat, size: nat) {
    if p == 0 then after == before
    else after == before + {(p, size)} && (p, size) !in before
  }

  lemma SmallMallocClients(s: PoolState, size: nat, page: Option<nat>)
    requires Inv(s) && 0 < size <= SMALL_LIMIT && Offers(s, size, None, page)
    ensures var (t, p) := SmallMalloc(s, size, page);
            Inv(t) && Granted(Clients(s), Clients(t), p, size)
  {
    hide ChainOk, PagesOk, RegionsOk, CountsOk, OwnedOk, SmallMalloc, GrantPage, BlocksApart;
    InvBasics(s, {});
    SmallMallocInv(s, size, page, {});
    SmallMallocGrants(s, size, page);
    var (t, p) := SmallMalloc(s, size, page);
    if p != 0 {
      var r := Region(GrantPage(s, size, page), p, size);
      AddsClients(s, t, r);
    }
  }

  lemma AddsClients(s: PoolState, t: PoolState, r: Region)
    requires Inv(s) && Inv(t) && Adds(s, t, r)
    ensures Granted(Clients(s), Clients(t), r.addr, r.size) && r.addr != 0
  {
    hide ChainOk, PagesOk, RegionsOk, CountsOk, BlocksApart;
    InvBasics(t, {});
    RegionRange(t, r);
    assert r !in s.larges;
    assert forall i :: 0 <= i < |s.larges| ==> LargeAt(t, i) == LargeAt(s, i);
    assert LargeBlocks(t) == LargeBlocks(s);
    assert LargeBlocks(s) <= s.owned.Keys;
    assert (r.addr, r.size) in Clients(t);
    forall x | x in Clients(t) && x != (r.addr, r.size)
      ensures x in Clients(s)
    {
      var q, large := ClientKinds(t, x);
    }
    forall x | x in Clients(s)
      ensures x in Clients(t) && x != (r.addr, r.size)
    {
      var q, large := ClientKinds(s, x);
      if large {
        RegionRange(t, r);
        LargeNotPage(t, x.0, r.page);
        LargeApart(t, r, x.0);
      } else {
        LiveApart(t, q, r);
      }
    }
  }

  /** `b` becomes a large block of the pool and nothing else changes for clients. */
  lemma BlockClients(s: PoolState, t: PoolState, b: nat, size: nat)
    requires Inv(s) && Inv(t) && b !in s.owned && b in t.owned && t.owned[b] == size
    requires LargeBlocks(t) == LargeBlocks(s) + {b}
    requires forall a :: a in s.owned ==> a in t.owned && t.owned[a] == s.owned[a]
    requires ClientRegions(t) == ClientRegions(s)
    ensures Granted(Clients(s), Clients(t), b, size) && b != 0
  {
    hide ChainOk, PagesOk, RegionsOk, CountsOk, LargesOk, LargeBlocks, BlocksApart;
    InvBasics(s, {});
    InvBasics(t, {});
    NonNullBlock(t.owned, b);
    assert LargeBlocks(s) <= s.owned.Keys;
    assert (b, size) in Clients(t);
    forall x | x in Clients(t) && x != (b, size)
      ensures x in Clients(s)
    {
      var q, large := ClientKinds(t, x);
      if !large { assert q in ClientRegions(t); }
    }
    forall x | x in Clients(s)
      ensures x in Clients(t) && x != (b, size)
    {
      var q, large := ClientKinds(s, x);
      if !large {
        assert q in ClientRegions(s);
        assert q in ClientRegions(t);
        RegionRange(t, q);
        LargeNotPage(t, b, q.page);
        LargeApart(t, q, b);
      }
    }
  }

}
