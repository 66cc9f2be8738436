/**
 What each call of the memory pool does to the pages and headers, stated field by field: where an
 allocation is placed, when a page is recycled, which counters move. `MemoryPoolHistory` says that
 clients are served safely; this module says that they are served as the source promises, above
 all that memory given back is used again.
 */
module MemoryPoolBehaviour {
  import opened Wrappers
  import opened MemoryPoolSpec
  import opened MemoryPoolOps
  import opened MemoryPoolHistory

  // ---------------------------------------------------------------- small allocations

  /**
   A small request is served by `chain[i]`, the first page from `current` on that fits: at the
   aligned end of what the page has handed out, which moves right behind the allocation. Nothing
   else changes.
   */
  lemma SmallMallocPlaces(s: PoolState, size: nat, page: Option<nat>, i: nat)
    requires Inv(s) && 0 < size <= SMALL_LIMIT && s.current in s.chain && Readable(s.smalls, s.chain)
    requires IndexOf(s.chain, s.current) <= i < |s.chain| && Fits(s.smalls[s.chain[i]], size)
    requires forall j :: IndexOf(s.chain, s.current) <= j < i ==> !Fits(s.smalls[s.chain[j]], size)
    ensures var (t, p) := SmallMalloc(s, size, page);
            var n := s.chain[i];
            var node := s.smalls[n];
            && p == AlignUp(node.last)
            && t == s.(smalls := s.smalls[n := node.(last := p + size, quote := node.quote + 1)],
                       live := s.live + {Region(n, p, size)})
  {
    hide ChainOk, PagesOk, RegionsOk, OwnedOk, LargesOk, Fits, AlignUp, OnPage;
    QuoteBounded(s, s.chain[i]);
    assert FirstFit(s.smalls, s.chain, IndexOf(s.chain, s.current), size) == i;
  }

  /**
   When no page fits, a fresh page at `b` serves the request right behind its header, and each page
   passed on the way to the tail has failed once more.
   */
  lemma SmallMallocAppends(s: PoolState, size: nat, b: nat, i: nat)
    requires Inv(s) && 0 < size <= SMALL_LIMIT && s.current in s.chain && Readable(s.smalls, s.chain)
    requires NoPageFits(s, size) && SystemBlock(s.owned, b, PAGE_SIZE) && i < |s.chain|
    ensures var (t, p) := SmallMalloc(s, size, Some(b));
            && p == b + 32
            && b in t.smalls && t.smalls[b] == SmallNode(b + 4096, b + 32 + size, 1, 0, 0)
            && s.chain[i] in t.smalls
            && var was, passed := s.smalls[s.chain[i]], IndexOf(s.chain, s.current) <= i < |s.chain| - 1;
               t.smalls[s.chain[i]] ==
                 was.(failed := if passed then (was.failed + 1) % UINT32 else was.failed,
                      next := if i == |s.chain| - 1 then b else was.next)
  {
    hide ChainOk, PagesOk, RegionsOk, CountsOk, OwnedOk, LargesOk, Fits, SkipTo, SystemBlock, LinkTail, AlignUp, IndexOf;
    AlignedPage(s.owned, b);
    assert b !in s.chain by { FreshBlock(s, b, PAGE_SIZE); }
    var k := IndexOf(s.chain, s.current);
    var node := SmallNode(b + 4096, b + 32 + size, 1, 0, 0);
    assert FirstFit(s.smalls, s.chain, k, size) == |s.chain|;
    ChainDistinct(s);
    LinkTailExact(s.smalls[b := node], s.chain, k, b, i);
  }

  lemma LinkTailExact(smalls: map<nat, SmallNode>, chain: seq<nat>, k: nat, b: nat, i: nat)
    requires k < |chain| && Readable(smalls, chain) && Distinct(chain) && b !in chain && b in smalls && i < |chain|
    ensures var r := LinkTail(smalls, chain, k, b);
            && b in r && r[b] == smalls[b] && chain[i] in r
            && var was := smalls[chain[i]];
               r[chain[i]] == was.(failed := if k <= i < |chain| - 1 then (was.failed + 1) % UINT32 else was.failed,
                                   next := if i == |chain| - 1 then b else was.next)
  {
    hide Bump;
    var m := |chain| - 1;
    BumpExact(smalls, chain, k, m, i);
    BumpExact(smalls, chain, k, m, m);
    BumpOutside(smalls, chain, k, m, b);
    assert i < m ==> chain[i] != chain[m];
  }

  lemma AlignedPage(owned: map<nat, nat>, b: nat)
    requires SystemBlock(owned, b, PAGE_SIZE)
    ensures AlignUp(b + SIZEOF_SMALL_NODE) == b + 32
  {
  }

  lemma {:induction false} BumpOutside(smalls: map<nat, SmallNode>, chain: seq<nat>, k: nat, m: nat, n: nat)
    requires k <= m <= |chain| && Readable(smalls, chain) && n in smalls && n !in chain
    ensures Bump(smalls, chain, k, m)[n] == smalls[n]
    decreases m
  {
    if m == k {
    } else {
      BumpOutside(smalls, chain, k, m - 1, n);
    }
  }

  lemma {:induction false} BumpExact(smalls: map<nat, SmallNode>, chain: seq<nat>, k: nat, m: nat, i: nat)
    requires k <= m <= |chain| && Readable(smalls, chain) && Distinct(chain) && i < |chain|
    ensures var was := smalls[chain[i]];
            Bump(smalls, chain, k, m)[chain[i]] ==
              was.(failed := if k <= i < m then (was.failed + 1) % UINT32 else was.failed)
    decreases m
  {
    if m == k {
    } else {
      BumpExact(smalls, chain, k, m - 1, i);
      assert i < m - 1 ==> chain[i] != chain[m - 1];
      assert m - 1 < i ==> chain[m - 1] != chain[i];
    }
  }

  // ---------------------------------------------------------------- large allocations

  /** A large block goes to the first of at most five headers that is free; nothing else changes. */
  lemma LargeMallocReuses(s: PoolState, size: nat, b: nat, page: Option<nat>, j: nat)
    requires Inv(s) && size > 4064 && Offers(s, size, Some(b), page) && j < |s.larges| && j < 5
    requires LargesReadable(s) && LargeAt(s, j) == 0 && forall i :: 0 <= i < j ==> LargeAt(s, i) != 0
    ensures var h := s.larges[j].addr;
            Malloc(s, size, Some(b), page) ==
              (s.(owned := s.owned[b := size],
                  headers := s.headers[h := LargeNode(b, size % UINT32, s.headers[h].next)]), b)
  {
    hide ChainOk, PagesOk, RegionsOk, CountsOk, OwnedOk, SystemBlock, SmallMalloc, GrantPage, BlocksApart;
    InvBasics(s, {});
    assert FindLarge(s, 0, 0, Min(|s.larges|, 5)) == j;
  }

  /**
   When none of the first five headers is free, a header of 24 bytes is allocated like any small
   request and put in front of the list.
   */
  lemma LargeMallocPushes(s: PoolState, size: nat, b: nat, page: Option<nat>)
    requires Inv(s) && size > 4064 && Offers(s, size, Some(b), page) && LargesReadable(s)
    requires forall i :: 0 <= i < |s.larges| && i < 5 ==> LargeAt(s, i) != 0
    ensures var s1 := s.(owned := s.owned[b := size]);
            && ChainOk(s1)
            && var (s2, h) := SmallMalloc(s1, 24, page);
               var (t, p) := Malloc(s, size, Some(b), page);
               h != 0 ==>
                 && p == b && t.largeList == h && t.headers == s2.headers[h := LargeNode(b, size % UINT32, s.largeList)]
                 && |t.larges| == |s.larges| + 1 && t.larges[1..] == s.larges
                 && t.larges[0].addr == h && t.larges[0].size == 24
                 && t == s2.(headers := t.headers, larges := t.larges, largeList := h)
  {
    hide ChainOk, PagesOk, RegionsOk, CountsOk, OwnedOk, SystemBlock, GrantPage, BlocksApart;
    InvBasics(s, {});
    AddExtra(s, b, size);
    assert FindLarge(s, 0, 0, Min(|s.larges|, 5)) == Min(|s.larges|, 5);
    SmallMallocFrame(s.(owned := s.owned[b := size]), 24, page);
  }

  lemma SmallMallocFrame(s: PoolState, size: nat, page: Option<nat>)
    requires ChainOk(s)
    ensures var t := SmallMalloc(s, size, page).0;
            t.larges == s.larges && t.largeList == s.largeList && t.headers == s.headers
  {
    hide ChainOk, Fits, Bump, SkipTo;
  }

  // ---------------------------------------------------------------- freeing

  /**
   Freeing the last region of a page rewinds the page completely and lets allocation start at the
   head again; while other regions live there, only the count changes.
   */
  lemma FreeRecycles(s: PoolState, r: Region)
    requires Inv(s) && ClientRegion(s, r)
    ensures r.page in s.smalls
    ensures var node := s.smalls[r.page];
            Free(s, r.addr) ==
              if OnPage(s.live, r.page) == {r}
              then s.(smalls := s.smalls[r.page := node.(last := r.page + 32, quote := 0, failed := 0)],
                      current := s.head, live := s.live - {r})
              else s.(smalls := s.smalls[r.page := node.(quote := node.quote - 1)], live := s.live - {r})
  {
    hide ChainOk, PagesOk, RegionsOk, OwnedOk, LargesOk, Free;
    InvBasics(s, {});
    RegionRange(s, r);
    FreeFindsRegion(s, r);
    FreeSmallEffect(s, r);
    assert r in OnPage(s.live, r.page);
    if OnPage(s.live, r.page) != {r} {
      var q :| q in OnPage(s.live, r.page) && q != r;
      assert |{r, q}| == 2 && {r, q} <= OnPage(s.live, r.page);
      SubsetSize({r, q}, OnPage(s.live, r.page));
    }
  }

  lemma SubsetSize(a: set<Region>, b: set<Region>)
    requires a <= b
    ensures |a| <= |b|
  {
    assert b == a + (b - a);
  }

  /** Freeing a large block empties its header, which stays in the list for the next one. */
  lemma FreeLargeEmptiesHeader(s: PoolState, j: nat)
    requires Inv(s) && j < |s.larges| && LargesReadable(s) && LargeAt(s, j) != 0
    ensures var p, h := LargeAt(s, j), s.larges[j].addr;
            Free(s, p) == s.(owned := s.owned - {p}, headers := s.headers[h := LargeNode(0, 0, s.headers[h].next)])
  {
    hide ChainOk, PagesOk, RegionsOk, CountsOk, LargesOk, BlocksApart;
    InvBasics(s, {});
    var p := LargeAt(s, j);
    assert FindLarge(s, p, 0, |s.larges|) == j;
  }

  /** `resetPool` rewinds every page, forgets the large list, and starts at the head again. */
  lemma ResetRewinds(s: PoolState, n: nat)
    requires Inv(s) && n in s.smalls
    ensures LargesReadable(s) && n in Reset(s).smalls
    ensures Reset(s).smalls[n] == s.smalls[n].(last := n + 32, quote := 0, failed := 0)
    ensures Reset(s).current == Reset(s).head == s.head && Reset(s).largeList == 0 && Reset(s).larges == []
    ensures Reset(s).smalls.Keys == s.smalls.Keys && Reset(s).live == {}
  {
    hide ChainOk, PagesOk, RegionsOk, CountsOk, OwnedOk;
    InvBasics(s, {});
  }

  // ---------------------------------------------------------------- every history

  /** A page from which nothing is held offers all of its room. */
  ghost predicate Recycled(s: PoolState) {
    forall n :: n in s.smalls && OnPage(s.live, n) == {} ==> s.smalls[n].last == n + 32
  }

  lemma SmallMallocRecycled(s: PoolState, size: nat, page: Option<nat>, extra: set<nat>)
    requires InvWith(s, extra) && Recycled(s) && 0 < size <= SMALL_LIMIT
    requires page.Some? ==> SystemBlock(s.owned, page.value, PAGE_SIZE)
    ensures Recycled(SmallMalloc(s, size, page).0)
  {
    hide PagesOk, RegionsOk, CountsOk, LargesOk, OwnedOk, AlignUp, Fits, Bump, SkipTo, SystemBlock;
    ChainBasics(s);
    var t := SmallMalloc(s, size, page).0;
    var i := FirstFit(s.smalls, s.chain, IndexOf(s.chain, s.current), size);
    if i < |s.chain| {
      CarveRecycled(s, s.chain[i], size);
    } else if page.Some? {
      FreshBlock(s, page.value, PAGE_SIZE);
      AppendRecycled(s, page.value, size);
    }
  }

  lemma CarveRecycled(s: PoolState, n: nat, size: nat)
    requires Recycled(s) && n in s.smalls
    ensures Recycled(Carve(s, n, size))
  {
    var t := Carve(s, n, size);
    assert Region(n, AlignUp(s.smalls[n].last), size) in OnPage(t.live, n);
    forall m | m in t.smalls && OnPage(t.live, m) == {}
      ensures t.smalls[m].last == m + 32
    {
      assert OnPage(s.live, m) <= OnPage(t.live, m);
    }
  }

  lemma AppendRecycled(s: PoolState, b: nat, size: nat)
    requires ChainOk(s) && Recycled(s) && b !in s.chain
    ensures Recycled(AppendPage(s, b, size))
  {
    hide ChainOk, AlignUp, Bump, SkipTo;
    var t := AppendPage(s, b, size);
    assert Region(b, AlignUp(b + SIZEOF_SMALL_NODE), size) in OnPage(t.live, b);
    ChainBasics(s);
    AppendKeys(s, b, size);
    forall m | m in t.smalls && OnPage(t.live, m) == {}
      ensures t.smalls[m].last == m + 32
    {
      AppendFacts(s, b, size, m);
      assert OnPage(s.live, m) <= OnPage(t.live, m);
    }
  }

  lemma MallocRecycled(s: PoolState, size: nat, block: Option<nat>, page: Option<nat>)
    requires Inv(s) && Recycled(s) && Offers(s, size, block, page)
    ensures Recycled(Malloc(s, size, block, page).0)
  {
    hide ChainOk, PagesOk, RegionsOk, CountsOk, OwnedOk, LargesOk, SystemBlock, SmallMalloc, GrantPage, Recycled;
    InvBasics(s, {});
    if size > SMALL_LIMIT && block.Some? {
      var b := block.value;
      AddExtra(s, b, size);
      var s1 := s.(owned := s.owned[b := size]);
      SameRecycled(s, s1);
      SmallMallocRecycled(s1, SIZEOF_LARGE_NODE, page, {b});
      InvBasics(s1, {b});
      SameRecycled(s1, LargeMalloc(s, size, block, page).0);
      SameRecycled(SmallMalloc(s1, SIZEOF_LARGE_NODE, page).0, LargeMalloc(s, size, block, page).0);
    } else if 0 < size <= SMALL_LIMIT {
      SmallMallocRecycled(s, size, page, {});
    }
  }

  lemma SameRecycled(s: PoolState, t: PoolState)
    requires Recycled(s)
    ensures t.smalls == s.smalls && t.live == s.live ==> Recycled(t)
  {
  }

  lemma FreeRecycled(s: PoolState, p: nat)
    requires Inv(s) && Recycled(s) && Freeable(s, p)
    ensures Recycled(Free(s, p))
  {
    hide ChainOk, PagesOk, RegionsOk, CountsOk, OwnedOk, LargesOk, Freeable, FreeSmall, OnPage;
    InvBasics(s, {});
    var j := FindLarge(s, p, 0, |s.larges|);
    if j < |s.larges| {
      SameRecycled(s, Free(s, p));
    } else if r :| ClientRegion(s, r) && r.addr == p {
      RegionFreeRecycled(s, r);
    } else {
      FreeNothing(s, p);
    }
  }

  lemma RegionFreeRecycled(s: PoolState, r: Region)
    requires Inv(s) && Recycled(s) && ClientRegion(s, r)
    ensures Recycled(Free(s, r.addr))
  {
    hide ChainOk, PagesOk, RegionsOk, CountsOk, OwnedOk, LargesOk, Free;
    InvBasics(s, {});
    FreeRecycles(s, r);
    var t := Free(s, r.addr);
    forall n | n in t.smalls && OnPage(t.live, n) == {}
      ensures t.smalls[n].last == n + 32
    {
      if n == r.page {
        assert OnPage(s.live, n) <= OnPage(t.live, n) + {r};
        assert r in OnPage(s.live, n);
      } else {
        assert OnPage(s.live, n) == OnPage(t.live, n);
      }
    }
  }

  /** In every history a page from which nothing is held is completely recycled: no room is lost. */
  lemma {:induction false} HistoryRecycles(base: nat, states: seq<PoolState>, calls: seq<Call>, k: nat)
    requires History(base, states, calls) && k < |states|
    ensures Recycled(states[k])
  {
    hide Inv, Recycled, ChainOk, LargesReadable, Malloc, Free, Reset, Offers, Freeable;
    if k == 0 {
      CreatedRecycled(base);
    } else {
      HistoryInv(base, states, calls, k - 1);
      HistoryRecycles(base, states, calls, k - 1);
      assert Transition(states[k - 1], calls[k - 1], states[k]);
      match calls[k - 1]
      case MallocCall(size, block, page) => MallocRecycled(states[k - 1], size, block, page);
      case FreeCall(p) => FreeRecycled(states[k - 1], p);
      case ResetCall => ResetRecycled(states[k - 1]);
    }
  }

  lemma CreatedRecycled(base: nat)
    ensures Recycled(Created(base))
  {
  }

  lemma ResetRecycled(s: PoolState)
    requires LargesReadable(s)
    ensures Recycled(Reset(s))
  {
  }

  /** A new pool serves any request of at most 4032 bytes right behind its headers, without the system. */
  lemma FirstAllocation(base: nat, size: nat)
    requires base > 0 && base % 16 == 0 && 0 < size <= 4032
    ensures Inv(Created(base))
    ensures Malloc(Created(base), size, None, None).1 == base + 64
  {
    CreatedInv(base);
    var s := Created(base);
    assert Fits(s.smalls[s.chain[0]], size);
    SmallMallocPlaces(s, size, None, 0);
  }

  /** What a client gives back it can have again: allocating, freeing and allocating reuses the address. */
  lemma FreedIsReused(base: nat, size: nat)
    requires base > 0 && base % 16 == 0 && 0 < size <= 4032
    ensures Inv(Created(base))
    ensures var (t, p) := Malloc(Created(base), size, None, None);
            && Inv(t) && Freeable(t, p) && Inv(Free(t, p))
            && Malloc(Free(t, p), size, None, None).1 == p
  {
    var s := Created(base);
    FirstAllocation(base, size);
    assert Fits(s.smalls[s.chain[0]], size);
    SmallMallocPlaces(s, size, None, 0);
    var (t, p) := Malloc(s, size, None, None);
    var r := Region(s.head, p, size);
    MallocInv(s, size, None, None);
    assert t.live == {r} && ClientRegion(t, r);
    assert OnPage(t.live, r.page) == {r};
    FreeRecycles(t, r);
    FreeInv(t, p);
    var u := Free(t, p);
    assert u.chain == [s.head] && u.smalls[s.head] == s.smalls[s.head];
    assert Fits(u.smalls[u.chain[0]], size);
    SmallMallocPlaces(u, size, None, 0);
  }

}
