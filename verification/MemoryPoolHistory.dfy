/**
 Every history of pool calls: the pool refines an allocator that keeps a plain set of disjoint
 allocations, pages are rewound only when nothing lives in them, and the chain only grows at its
 tail.
 */
module MemoryPoolHistory {
  import opened Wrappers
  import opened MemoryPoolSpec
  import opened MemoryPoolOps

  // ---------------------------------------------------------------- one call

  lemma ReuseClients(s: PoolState, j: nat, b: nat, size: nat)
    requires Inv(s) && SystemBlock(s.owned, b, size) && j < |s.larges| && LargeAt(s, j) == 0
    ensures var t := SetLarge(s.(owned := s.owned[b := size]), j, b, size % UINT32);
            Inv(t) && Granted(Clients(s), Clients(t), b, size) && b != 0
  {
    hide ChainOk, PagesOk, RegionsOk, CountsOk, OwnedOk, BlocksApart, SystemBlock;
    var s1 := s.(owned := s.owned[b := size]);
    var t := SetLarge(s1, j, b, size % UINT32);
    AddExtra(s, b, size);
    HeaderAddrsDistinct(s1, {b});
    SetLargeBlocks(s1, j, b, size % UINT32);
    ReuseInv(s1, j, b, size % UINT32);
    SystemBlockNonNull(s.owned, b, size);
    LargeBlocksSet(s, t, j, b);
    BlockClients(s, t, b, size);
  }

  lemma LargeBlocksSet(s: PoolState, t: PoolState, j: nat, b: nat)
    requires LargesReadable(s) && LargesReadable(t) && t.larges == s.larges && j < |s.larges|
    requires LargeAt(s, j) == 0 && LargeAt(t, j) == b != 0
    requires forall i :: 0 <= i < |s.larges| && i != j ==> LargeAt(t, i) == LargeAt(s, i)
    ensures LargeBlocks(t) == LargeBlocks(s) + {b}
  {
    forall i | 0 <= i < |t.larges| && LargeAt(t, i) != 0
      ensures LargeAt(t, i) in LargeBlocks(s) + {b}
    {
      if i != j { assert LargeAt(s, i) in LargeBlocks(s); }
    }
    forall i | 0 <= i < |s.larges| && LargeAt(s, i) != 0
      ensures LargeAt(s, i) in LargeBlocks(t)
    {
      assert LargeAt(t, i) == LargeAt(s, i);
    }
    assert b in LargeBlocks(t);
  }

  lemma LargeBlocksPush(s: PoolState, n: nat, h: nat, b: nat, size: nat)
    requires LargesReadable(s) && b != 0
    requires forall i :: 0 <= i < |s.larges| ==> s.larges[i].addr != h
    ensures LargesReadable(PushLarge(s, n, h, b, size))
    ensures LargeBlocks(PushLarge(s, n, h, b, size)) == LargeBlocks(s) + {b}
  {
    var t := PushLarge(s, n, h, b, size);
    assert LargeAt(t, 0) == b;
    forall i | 0 <= i < |s.larges|
      ensures LargeAt(t, i + 1) == LargeAt(s, i)
      ensures LargeAt(s, i) != 0 ==> LargeAt(s, i) in LargeBlocks(t) && LargeAt(s, i) in LargeBlocks(s)
    {
      assert t.larges[i + 1] == s.larges[i];
    }
    forall i | 0 <= i < |t.larges| && LargeAt(t, i) != 0
      ensures LargeAt(t, i) in LargeBlocks(s) + {b}
    {
      if i > 0 { assert LargeAt(t, i) == LargeAt(s, i - 1); }
    }
    assert b in LargeBlocks(t);
  }

  lemma PushClients(s: PoolState, b: nat, size: nat, page: Option<nat>)
    requires Inv(s) && SystemBlock(s.owned, b, size)
    requires page.Some? ==> SystemBlock(s.owned[b := size], page.value, PAGE_SIZE)
    requires ChainOk(s.(owned := s.owned[b := size]))
    requires SmallMalloc(s.(owned := s.owned[b := size]), SIZEOF_LARGE_NODE, page).1 != 0
    ensures var s1 := s.(owned := s.owned[b := size]);
            var (s2, h) := SmallMalloc(s1, SIZEOF_LARGE_NODE, page);
            var t := PushLarge(s2, GrantPage(s1, SIZEOF_LARGE_NODE, page), h, b, size % UINT32);
            Inv(t) && Granted(Clients(s), Clients(t), b, size) && b != 0
  {
    hide ChainOk, PagesOk, RegionsOk, CountsOk, OwnedOk, BlocksApart, SystemBlock, SmallMalloc, GrantPage, LargeBlocks;
    var s1 := s.(owned := s.owned[b := size]);
    AddExtra(s, b, size);
    SmallMallocInv(s1, SIZEOF_LARGE_NODE, page, {b});
    InvBasics(s1, {b});
    SmallMallocGrants(s1, SIZEOF_LARGE_NODE, page);
    var (s2, h) := SmallMalloc(s1, SIZEOF_LARGE_NODE, page);
    var n := GrantPage(s1, SIZEOF_LARGE_NODE, page);
    var header := Region(n, h, SIZEOF_LARGE_NODE);
    var t := PushLarge(s2, n, h, b, size % UINT32);
    InvBasics(s2, {b});
    PushInv(s2, n, h, b, size % UINT32);
    SystemBlockNonNull(s.owned, b, size);
    forall i | 0 <= i < |s2.larges|
      ensures s2.larges[i].addr != h
    {
      LiveApart(s2, s2.larges[i], header);
    }
    LargeBlocksPush(s2, n, h, b, size % UINT32);
    SameLargeBlocks(s, s2);
    assert t.owned[b] == size;
    assert ClientRegions(t) == ClientRegions(s);
    BlockClients(s, t, b, size);
  }

  lemma SameLargeBlocks(s: PoolState, t: PoolState)
    requires LargesReadable(s) && t.larges == s.larges && t.headers == s.headers
    ensures LargeBlocks(t) == LargeBlocks(s)
  {
    assert forall i :: 0 <= i < |s.larges| ==> LargeAt(t, i) == LargeAt(s, i);
  }

  lemma LargeMallocClients(s: PoolState, size: nat, block: Option<nat>, page: Option<nat>)
    requires Inv(s) && size > SMALL_LIMIT && Offers(s, size, block, page)
    ensures var (t, p) := LargeMalloc(s, size, block, page);
            Inv(t) && Granted(Clients(s), Clients(t), p, size)
  {
    hide ChainOk, PagesOk, RegionsOk, CountsOk, OwnedOk, LargesOk, SystemBlock, SmallMalloc, GrantPage, Clients, LargeBlocks;
    InvBasics(s, {});
    LargeMallocInv(s, size, block, page);
    if block.Some? {
      var b := block.value;
      AddExtra(s, b, size);
      var s1 := s.(owned := s.owned[b := size]);
      var bound := Min(|s.larges|, REUSE_LIMIT);
      var j := FindLarge(s, 0, 0, bound);
      if j < bound {
        ReuseClients(s, j, b, size);
      } else if SmallMalloc(s1, SIZEOF_LARGE_NODE, page).1 != 0 {
        PushClients(s, b, size, page);
      }
    }
  }

  /**
   `malloc` refines an allocator of disjoint blocks: the result is null and nothing changes for
   clients, or it is aligned, overlaps no allocation held, and is the one allocation added.
   */
  lemma MallocRefines(s: PoolState, size: nat, block: Option<nat>, page: Option<nat>)
    requires Inv(s) && Offers(s, size, block, page)
    ensures var (t, p) := Malloc(s, size, block, page);
            && Inv(t) && Granted(Clients(s), Clients(t), p, size)
            && p % 16 == 0
            && (p != 0 ==> forall x :: x in Clients(s) ==> Apart(p, size, x.0, x.1))
  {
    hide ChainOk, PagesOk, RegionsOk, CountsOk, OwnedOk, LargesOk, SystemBlock, SmallMalloc, LargeMalloc, Clients, LargeBlocks;
    InvBasics(s, {});
    if size > SMALL_LIMIT {
      LargeMallocClients(s, size, block, page);
    } else if size > 0 {
      SmallMallocClients(s, size, page);
    }
    var (t, p) := Malloc(s, size, block, page);
    if p != 0 {
      ClientsAvoidHeaders(t, (p, size));
      forall x | x in Clients(s)
        ensures Apart(p, size, x.0, x.1)
      {
        ClientsApart(t, (p, size), x);
      }
    }
  }

  /**
   `malloc` returns null exactly for size zero and when the system refuses something needed: the
   block of a large request, or a page when neither a free header nor room on a page is found.
   */
  lemma MallocFailsIff(s: PoolState, size: nat, block: Option<nat>, page: Option<nat>)
    requires Inv(s) && Offers(s, size, block, page)
    ensures var (t, p) := Malloc(s, size, block, page);
            && (p == 0 ==> t == s)
            && (p == 0 <==>
                  || size == 0
                  || (size <= SMALL_LIMIT && page.None? && NoPageFits(s, size))
                  || (size > SMALL_LIMIT && block.None?)
                  || (size > SMALL_LIMIT && page.None? && NoFreeHeader(s) && NoPageFits(s, SIZEOF_LARGE_NODE)))
  {
    hide ChainOk, PagesOk, RegionsOk, CountsOk, OwnedOk, LargesOk, SystemBlock, SmallMalloc, LargeMalloc, BlocksApart;
    hide NoPageFits, NoFreeHeader;
    InvBasics(s, {});
    if size > SMALL_LIMIT {
      LargeMallocFailsIff(s, size, block, page);
    } else if size > 0 {
      SmallMallocGrants(s, size, page);
    }
  }

  lemma LargeMallocFailsIff(s: PoolState, size: nat, block: Option<nat>, page: Option<nat>)
    requires Inv(s) && Offers(s, size, block, page) && size > SMALL_LIMIT
    ensures var (t, p) := LargeMalloc(s, size, block, page);
            && LargesReadable(s) && Readable(s.smalls, s.chain) && s.current in s.chain
            && (p == 0 ==> t == s)
            && (p == 0 <==> block.None? || (page.None? && NoFreeHeader(s) && NoPageFits(s, SIZEOF_LARGE_NODE)))
  {
    hide ChainOk, PagesOk, RegionsOk, CountsOk, OwnedOk, LargesOk, SystemBlock, SmallMalloc, GrantPage, BlocksApart;
    InvBasics(s, {});
    LargeMallocInv(s, size, block, page);
    if block.Some? {
      AddExtra(s, block.value, size);
      var s1 := s.(owned := s.owned[block.value := size]);
      InvBasics(s1, {block.value});
      SmallMallocGrants(s1, SIZEOF_LARGE_NODE, page);
      SystemBlockNonNull(s.owned, block.value, size);
      assert NoPageFits(s1, SIZEOF_LARGE_NODE) == NoPageFits(s, SIZEOF_LARGE_NODE);
    }
  }

  /** A client's free removes exactly the allocation at `p` from what clients hold. */
  lemma FreeRefines(s: PoolState, p: nat)
    requires Inv(s) && Freeable(s, p)
    ensures Inv(Free(s, p))
    ensures Clients(Free(s, p)) == set x | x in Clients(s) && x.0 != p
  {
    hide ChainOk, PagesOk, RegionsOk, CountsOk, OwnedOk, LargesOk, LargeBlocks, Clients, FreeSmall, FreeLarge;
    InvBasics(s, {});
    FreeInv(s, p);
    var j := FindLarge(s, p, 0, |s.larges|);
    if j < |s.larges| {
      FreeLargeClients(s, j);
    } else if r :| ClientRegion(s, r) && r.addr == p {
      FreeFindsRegion(s, r);
      FreeSmallClients(s, r);
    } else {
      FreeNothing(s, p);
      FreeNothingClients(s, p);
      assert Clients(s) == set x | x in Clients(s) && x.0 != p;
    }
  }

  lemma FreeNothingClients(s: PoolState, p: nat)
    requires Inv(s)
    requires p !in LargeBlocks(s) && !(exists r :: ClientRegion(s, r) && r.addr == p)
    ensures forall x :: x in Clients(s) ==> x.0 != p
  {
    hide ChainOk, PagesOk, RegionsOk, CountsOk, OwnedOk, LargeBlocks, Clients;
    forall x | x in Clients(s)
      ensures x.0 != p
    {
      var q, large := ClientKinds(s, x);
    }
  }

  lemma FreeLargeClients(s: PoolState, j: nat)
    requires Inv(s) && j < |s.larges|
    ensures Inv(FreeLarge(s, j))
    ensures Clients(FreeLarge(s, j)) == set x | x in Clients(s) && x.0 != LargeAt(s, j)
  {
    hide ChainOk, PagesOk, RegionsOk, CountsOk, OwnedOk, LargesOk, LargeBlocks;
    InvBasics(s, {});
    FreeLargeInv(s, j);
    var t := FreeLarge(s, j);
    var p := LargeAt(s, j);
    assert ClientRegions(t) == ClientRegions(s);
    forall x | x in Clients(t)
      ensures x in Clients(s) && x.0 != p
    {
      var q, large := ClientKinds(t, x);
      if !large {
        assert q in ClientRegions(s);
        RegionNotLarge(s, q, j);
      }
    }
    forall x | x in Clients(s) && x.0 != p
      ensures x in Clients(t)
    {
      var q, large := ClientKinds(s, x);
      if large {
        assert x.0 in LargeBlocks(t) && x.0 in t.owned && t.owned[x.0] == x.1;
      } else {
        assert q in ClientRegions(t);
      }
    }
  }

  lemma FreeSmallClients(s: PoolState, r: Region)
    requires Inv(s) && ClientRegion(s, r)
    ensures r.page in s.smalls && Inv(FreeSmall(s, r.page, r.addr))
    ensures Clients(FreeSmall(s, r.page, r.addr)) == set x | x in Clients(s) && x.0 != r.addr
  {
    hide ChainOk, PagesOk, RegionsOk, CountsOk, OwnedOk, BlocksApart, LargeBlocks, LargesOk;
    InvBasics(s, {});
    RegionRange(s, r);
    FreeSmallInv(s, r);
    var t := FreeSmall(s, r.page, r.addr);
    SameLargeBlocks(s, t);
    assert ClientRegions(t) == ClientRegions(s) - {r};
    assert (r.addr, r.size) in Clients(s) by { assert r in ClientRegions(s); }
    forall x | x in Clients(t)
      ensures x in Clients(s) && x.0 != r.addr
    {
      var q, large := ClientKinds(t, x);
      if large {
        FreeFindsRegion(s, r);
      } else {
        assert q in ClientRegions(s);
        LiveApart(s, q, r);
      }
    }
    forall x | x in Clients(s) && x.0 != r.addr
      ensures x in Clients(t)
    {
      var q, large := ClientKinds(s, x);
      if !large { assert q in ClientRegions(t); }
    }
  }

  /** `resetPool` takes everything back from clients and keeps the pages. */
  lemma ResetRefines(s: PoolState)
    requires Inv(s)
    ensures Inv(Reset(s)) && Clients(Reset(s)) == {} && Reset(s).chain == s.chain
    ensures forall a :: a in Reset(s).owned <==> IsPage(s, a)
  {
    hide ChainOk, PagesOk, RegionsOk, CountsOk, OwnedOk, BlocksApart;
    InvBasics(s, {});
    ResetInv(s);
    assert ClientRegions(Reset(s)) == {};
    assert LargeBlocks(Reset(s)) == {};
  }

  /** Freeing never rewinds a page on which a large header lives. */
  lemma HeaderPageNeverRewound(s: PoolState, r: Region, i: nat)
    requires Inv(s) && ClientRegion(s, r) && i < |s.larges| && s.larges[i].page == r.page
    ensures r.page in s.smalls && r.page in Free(s, r.addr).smalls
    ensures Free(s, r.addr).smalls[r.page].quote > 0
    ensures Free(s, r.addr).smalls[r.page].last == s.smalls[r.page].last
  {
    hide ChainOk, PagesOk, RegionsOk, CountsOk, OwnedOk, LargesOk, Free, FreeSmall;
    InvBasics(s, {});
    RegionRange(s, r);
    LargeHeaderLive(s, i);
    FreeFindsRegion(s, r);
    FreeSmallEffect(s, r);
    var t := FreeSmall(s, r.page, r.addr);
    assert s.larges[i] in OnPage(t.live, r.page);
  }

  /** A page is added only at the tail, and only when no page from `current` onward has room. */
  lemma ChainGrowsAtTail(s: PoolState, size: nat, page: Option<nat>)
    requires Inv(s) && 0 < size <= SMALL_LIMIT && Offers(s, size, None, page)
    ensures var t := SmallMalloc(s, size, page).0;
            var k := IndexOf(s.chain, s.current);
            if page.Some? && forall i :: k <= i < |s.chain| ==> !Fits(s.smalls[s.chain[i]], size)
            then t.chain == s.chain + [page.value]
            else t.chain == s.chain
  {
    hide PagesOk, RegionsOk, CountsOk, OwnedOk, LargesOk, Fits, AlignUp, Bump, SkipTo, ChainOk;
    InvBasics(s, {});
  }

  /**
   Where `current` moves when a page is added: right behind `chain[j]`, the last page on the way to
   the tail that had failed five times already, or nowhere (`j == m`) if there is none.
   */
  lemma {:induction false} SkipsBehindExhausted(
    smalls: map<nat, SmallNode>, chain: seq<nat>, k: nat, m: nat, current: nat, j: nat)
    requires k <= j <= m < |chain| && Readable(smalls, chain)
    requires j < m ==> smalls[chain[j]].failed >= 5
    requires forall i :: (if j < m then j + 1 else k) <= i < m ==> smalls[chain[i]].failed < 5
    ensures SkipTo(smalls, chain, k, m, current) == if j < m then chain[j + 1] else current
    decreases m
  {
    if j == m && k < m {
      SkipsBehindExhausted(smalls, chain, k, m - 1, current, m - 1);
    } else if j < m - 1 {
      SkipsBehindExhausted(smalls, chain, k, m - 1, current, j);
    }
  }

  // ---------------------------------------------------------------- every history

  datatype Call =
    | MallocCall(size: nat, block: Option<nat>, page: Option<nat>)
    | FreeCall(p: nat)
    | ResetCall

  /** One call by a well-behaved client, in a system whose allocator keeps its contract. */
  ghost predicate Transition(s: PoolState, c: Call, t: PoolState) {
    && ChainOk(s) && LargesReadable(s)
    && match c
       case MallocCall(size, block, page) =>
         Offers(s, size, block, page) && t == Malloc(s, size, block, page).0
       case FreeCall(p) => Freeable(s, p) && t == Free(s, p)
       case ResetCall => t == Reset(s)
  }

  ghost predicate History(base: nat, states: seq<PoolState>, calls: seq<Call>) {
    && base > 0 && base % 16 == 0
    && |states| == |calls| + 1 && states[0] == Created(base)
    && forall i :: 0 <= i < |calls| ==> Transition(states[i], calls[i], states[i + 1])
  }

  lemma TransitionInv(s: PoolState, c: Call, t: PoolState)
    requires Inv(s) && Transition(s, c, t)
    ensures Inv(t)
  {
    hide Inv, ChainOk, LargesReadable, Malloc, Free, Reset, Offers, Freeable;
    match c
    case MallocCall(size, block, page) => MallocInv(s, size, block, page);
    case FreeCall(p) => FreeInv(s, p);
    case ResetCall => ResetInv(s);
  }

  lemma {:induction false} HistoryInv(base: nat, states: seq<PoolState>, calls: seq<Call>, k: nat)
    requires History(base, states, calls) && k < |states|
    ensures Inv(states[k])
  {
    hide Inv, Transition;
    if k == 0 {
      CreatedInv(base);
    } else {
      HistoryInv(base, states, calls, k - 1);
      TransitionInv(states[k - 1], calls[k - 1], states[k]);
    }
  }

  /** What clients hold after each call, computed without looking at pages. */
  ghost function Ledger(before: set<(nat, nat)>, c: Call, p: nat): set<(nat, nat)> {
    match c
    case MallocCall(size, _, _) => if p == 0 then before else before + {(p, size)}
    case FreeCall(q) => set x | x in before && x.0 != q
    case ResetCall => {}
  }

  /** In every history the pool behaves, call by call, like the plain ledger of allocations. */
  lemma HistoryRefinesLedger(base: nat, states: seq<PoolState>, calls: seq<Call>, k: nat)
    requires History(base, states, calls) && k < |calls|
    ensures Inv(states[k]) && Inv(states[k + 1])
    ensures var p := if calls[k].MallocCall?
                     then Malloc(states[k], calls[k].size, calls[k].block, calls[k].page).1 else 0;
            Clients(states[k + 1]) == Ledger(Clients(states[k]), calls[k], p)
  {
    hide ChainOk, PagesOk, RegionsOk, CountsOk, OwnedOk, LargesOk, Clients, Malloc, Free, Reset;
    HistoryInv(base, states, calls, k);
    HistoryInv(base, states, calls, k + 1);
    InvBasics(states[k], {});
    InvBasics(states[k + 1], {});
    assert Transition(states[k], calls[k], states[k + 1]);
    match calls[k]
    case MallocCall(size, block, page) => MallocRefines(states[k], size, block, page);
    case FreeCall(p) => FreeRefines(states[k], p);
    case ResetCall => ResetRefines(states[k]);
  }

  /**
   In every state of every history: allocations held by clients are pairwise disjoint, aligned and
   clear of the pool's headers, and each page's `quote` is the number of regions alive in it.
   */
  lemma HistorySafe(base: nat, states: seq<PoolState>, calls: seq<Call>, k: nat)
    requires History(base, states, calls) && k < |states|
    ensures Inv(states[k])
    ensures forall x, y :: x in Clients(states[k]) && y in Clients(states[k]) && x != y ==>
              Apart(x.0, x.1, y.0, y.1)
    ensures forall x :: x in Clients(states[k]) ==> x.0 > 0 && x.0 % 16 == 0
    ensures forall n :: n in states[k].smalls ==>
              && states[k].smalls[n].quote == |OnPage(states[k].live, n)| <= 254
              && AlignUp(states[k].smalls[n].last) <= states[k].smalls[n].end
    ensures Distinct(states[k].chain) && states[k].current in states[k].chain
  {
    hide PagesOk, RegionsOk, OwnedOk, LargesOk, Clients, LargeBlocks, ChainOk, AlignUp;
    var s := states[k];
    HistoryInv(base, states, calls, k);
    InvBasics(s, {});
    ChainDistinct(s);
    forall x, y | x in Clients(s) && y in Clients(s) && x != y
      ensures Apart(x.0, x.1, y.0, y.1)
    {
      ClientsApart(s, x, y);
    }
    forall x | x in Clients(s)
      ensures x.0 > 0 && x.0 % 16 == 0
    {
      ClientsAvoidHeaders(s, x);
    }
    forall n | n in s.smalls
      ensures s.smalls[n].quote == |OnPage(s.live, n)| <= 254
      ensures AlignUp(s.smalls[n].last) <= s.smalls[n].end
    {
      QuoteBounded(s, n);
      ComparisonNeverNegative(s, n, 0);
    }
  }

  lemma ChainDistinct(s: PoolState)
    requires ChainOk(s)
    ensures Distinct(s.chain)
  {
  }

}
