/**
 The memory pool as a state transformer over integer addresses.

 A pool is a chain of 4096-byte pages. Each page starts with a `SmallNode` header and hands out
 its remaining bytes by moving `last` forward; `quote` counts what was handed out and the page is
 rewound when it drops to zero. Requests too big for a page go to the system allocator and are
 tracked by a `LargeNode`, which is itself carved out of a page.

 Pointers are natural numbers and 0 is the null pointer. Structure sizes are those of the LP64
 data model. Two readings of the source are fixed here: `posix_memalign` reports success with 0,
 as POSIX.1-2017 says and as `mallocSmallNode` tests it, and the memory of a fresh page is zero,
 since `quote_`, `failed_` and the head page's `next_` are read without having been written.
 */
module MemoryPoolSpec {
  import opened Wrappers

  const PAGE_SIZE: nat := 4096
  const SIZEOF_SMALL_NODE: nat := 32
  const SIZEOF_LARGE_NODE: nat := 24
  const SIZEOF_POOL: nat := 24
  /** The largest request served from a page. */
  const SMALL_LIMIT: nat := 4064
  /** The number of large headers inspected before a new one is made. */
  const REUSE_LIMIT: nat := 5

  datatype SmallNode = SmallNode(end: nat, last: nat, quote: nat, failed: nat, next: nat)

  datatype LargeNode = LargeNode(address: nat, size: nat, next: nat)

  /** A live allocation of `size` bytes at `addr`, carved from the page whose header is at `page`. */
  datatype Region = Region(page: nat, addr: nat, size: nat)

  /**
   The first six components are the fields of the source. The others are bookkeeping: `chain` and
   `larges` list what the two linked lists reach, `live` the regions handed out and not given
   back, `owned` the blocks obtained from the system allocator and not freed, with their sizes.
   */
  datatype PoolState = PoolState(
    pool: nat, largeList: nat, head: nat, current: nat,
    smalls: map<nat, SmallNode>, headers: map<nat, LargeNode>,
    chain: seq<nat>, larges: seq<Region>, live: set<Region>, owned: map<nat, nat>)

  /** `mp_align_ptr(p, 16)`. */
  function AlignUp(p: nat): (r: nat)
    ensures r % 16 == 0 && p <= r < p + 16
  {
    (p + 15) / 16 * 16
  }

  /** The difference of two pointers, converted from a signed to an unsigned 64-bit number. */
  function UnsignedDiff(a: nat, b: nat): int {
    if b <= a then a - b else UINT64 + a - b
  }

  /** `end_ - addr >= size`. */
  predicate Fits(n: SmallNode, size: nat) {
    UnsignedDiff(n.end, AlignUp(n.last)) >= size
  }

  // ---------------------------------------------------------------- the invariant

  function At(c: seq<nat>, k: nat): nat {
    if k < |c| then c[k] else 0
  }

  predicate Distinct(c: seq<nat>) {
    forall i, j :: 0 <= i < j < |c| ==> c[i] != c[j]
  }

  predicate Readable(smalls: map<nat, SmallNode>, chain: seq<nat>) {
    forall i :: 0 <= i < |chain| ==> chain[i] in smalls
  }

  /** Page `i` of the chain links to the one behind it. */
  ghost predicate LinkOk(s: PoolState, i: nat)
    requires i < |s.chain| && s.chain[i] in s.smalls
  {
    s.chain[i] != 0 && s.smalls[s.chain[i]].next == At(s.chain, i + 1)
  }

  /** `next_` links run through `chain` from `head`, once each, to the null pointer. */
  ghost predicate ChainOk(s: PoolState) {
    && |s.chain| > 0 && s.chain[0] == s.head && s.current in s.chain
    && Distinct(s.chain)
    && Readable(s.smalls, s.chain)
    && (forall i :: 0 <= i < |s.chain| ==> LinkOk(s, i))
    && (forall n :: n in s.smalls ==> n in s.chain)
  }

  /** The address of the system block a page header lives in. */
  function Base(s: PoolState, n: nat): nat {
    if n == s.head then s.pool else n
  }

  ghost predicate PageOk(s: PoolState, n: nat)
    requires n in s.smalls
  {
    var p := s.smalls[n];
    && Base(s, n) % 16 == 0
    && Base(s, n) in s.owned && s.owned[Base(s, n)] == PAGE_SIZE
    && p.end == Base(s, n) + PAGE_SIZE
    && n + SIZEOF_SMALL_NODE <= p.last <= p.end
  }

  ghost predicate PagesOk(s: PoolState) {
    && s.head == s.pool + SIZEOF_POOL
    && s.pool !in s.chain
    && forall n :: n in s.smalls ==> PageOk(s, n)
  }

  ghost predicate RegionOk(s: PoolState, r: Region) {
    && r.page in s.smalls
    && r.addr % 16 == 0 && 0 < r.size
    && r.page + SIZEOF_SMALL_NODE <= r.addr
    && r.addr + r.size <= s.smalls[r.page].last
  }

  predicate Apart(a: nat, n: nat, b: nat, m: nat) {
    a + n <= b || b + m <= a
  }

  ghost predicate RegionsOk(s: PoolState) {
    && (forall r :: r in s.live ==> RegionOk(s, r))
    && (forall r, q :: r in s.live && q in s.live && r != q && r.page == q.page ==>
          Apart(r.addr, r.size, q.addr, q.size))
  }

  function OnPage(live: set<Region>, n: nat): set<Region> {
    set r | r in live && r.page == n
  }

  ghost predicate CountsOk(s: PoolState) {
    forall n :: n in s.smalls ==> s.smalls[n].quote == |OnPage(s.live, n)|
  }

  function HeaderAt(larges: seq<Region>, k: nat): nat {
    if k < |larges| then larges[k].addr else 0
  }

  ghost predicate LargesReadable(s: PoolState) {
    forall i :: 0 <= i < |s.larges| ==> s.larges[i].addr in s.headers
  }

  /** Large header `i` links to the one behind it. */
  ghost predicate HeaderLinkOk(s: PoolState, i: nat)
    requires i < |s.larges| && s.larges[i].addr in s.headers
  {
    s.headers[s.larges[i].addr].next == HeaderAt(s.larges, i + 1)
  }

  /** `next_` links run through the large headers, and each header is itself a live region. */
  ghost predicate LargesOk(s: PoolState) {
    && s.largeList == HeaderAt(s.larges, 0)
    && LargesReadable(s)
    && (forall i :: 0 <= i < |s.larges| ==> s.larges[i] in s.live && s.larges[i].size == SIZEOF_LARGE_NODE)
    && (forall i :: 0 <= i < |s.larges| ==> HeaderLinkOk(s, i))
    && (forall i, j :: 0 <= i < j < |s.larges| ==> s.larges[i] != s.larges[j])
  }

  function LargeAt(s: PoolState, i: nat): nat
    requires i < |s.larges| && s.larges[i].addr in s.headers
  {
    s.headers[s.larges[i].addr].address
  }

  ghost function LargeBlocks(s: PoolState): set<nat>
    requires LargesReadable(s)
  {
    set i | 0 <= i < |s.larges| && LargeAt(s, i) != 0 :: LargeAt(s, i)
  }

  /** `a` is the system block of a page: the head page lives in the pool's own block. */
  predicate IsPage(s: PoolState, a: nat) {
    a == s.pool || (a in s.smalls && a != s.head)
  }

  ghost predicate BlocksApart(owned: map<nat, nat>) {
    && (forall a :: a in owned ==> a > 0 && a % 16 == 0 && owned[a] > 0)
    && (forall a, b :: a in owned && b in owned && a != b ==> Apart(a, owned[a], b, owned[b]))
  }

  /** The system blocks held are the pages, the large blocks, and those in `extra`. */
  ghost predicate OwnedOk(s: PoolState, extra: set<nat>)
    requires LargesReadable(s)
  {
    && BlocksApart(s.owned)
    && (forall a :: a in s.owned <==> IsPage(s, a) || a in LargeBlocks(s) || a in extra)
    && (forall a :: IsPage(s, a) ==> a !in LargeBlocks(s))
    && (forall a :: IsPage(s, a) ==> a !in extra)
    && extra !! LargeBlocks(s)
    && (forall i, j :: 0 <= i < j < |s.larges| && LargeAt(s, i) != 0 ==> LargeAt(s, i) != LargeAt(s, j))
  }

  ghost predicate InvWith(s: PoolState, extra: set<nat>) {
    && ChainOk(s) && PagesOk(s) && RegionsOk(s) && CountsOk(s) && LargesOk(s) && OwnedOk(s, extra)
  }

  ghost predicate Inv(s: PoolState) {
    InvWith(s, {})
  }

  // ---------------------------------------------------------------- creation

  /** The state `createPool` leaves when the system allocator returns `base`. */
  function Created(base: nat): PoolState {
    var head := base + SIZEOF_POOL;
    PoolState(base, 0, head, head,
              map[head := SmallNode(base + PAGE_SIZE, head + SIZEOF_SMALL_NODE, 0, 0, 0)], map[],
              [head], [], {}, map[base := PAGE_SIZE])
  }

  lemma CreatedPages(base: nat)
    requires base > 0 && base % 16 == 0
    ensures ChainOk(Created(base)) && PagesOk(Created(base))
  {
  }

  lemma CreatedInv(base: nat)
    requires base > 0 && base % 16 == 0
    ensures Inv(Created(base))
  {
    hide ChainOk, PagesOk;
    var s := Created(base);
    CreatedPages(base);
    assert OnPage(s.live, s.head) == {};
    assert LargeBlocks(s) == {};
  }

  // ---------------------------------------------------------------- small allocations

  function IndexOf(c: seq<nat>, a: nat): (i: nat)
    requires a in c
    ensures i < |c| && c[i] == a
  {
    if c[0] == a then 0 else 1 + IndexOf(c[1..], a)
  }

  /** The first page from position `k` on that can hold `size` bytes, or the length of the chain. */
  function FirstFit(smalls: map<nat, SmallNode>, chain: seq<nat>, k: nat, size: nat): (i: nat)
    requires Readable(smalls, chain) && k <= |chain|
    ensures k <= i <= |chain|
    ensures forall j :: k <= j < i ==> !Fits(smalls[chain[j]], size)
    ensures i < |chain| ==> Fits(smalls[chain[i]], size)
    decreases |chain| - k
  {
    if k == |chain| || Fits(smalls[chain[k]], size) then k else FirstFit(smalls, chain, k + 1, size)
  }

  /** Move `last` over `size` bytes of page `n`. */
  function Carve(s: PoolState, n: nat, size: nat): PoolState
    requires n in s.smalls
  {
    var p := s.smalls[n];
    var addr := AlignUp(p.last);
    s.(smalls := s.smalls[n := p.(quote := (p.quote + 1) % UINT32, last := addr + size)],
       live := s.live + {Region(n, addr, size)})
  }

  /** Pages `chain[k..m]` each record one more failure. */
  function Bump(smalls: map<nat, SmallNode>, chain: seq<nat>, k: nat, m: nat): (r: map<nat, SmallNode>)
    requires k <= m <= |chain|
    requires Readable(smalls, chain)
    ensures r.Keys == smalls.Keys
    decreases m
  {
    if m == k then smalls
    else
      var t := Bump(smalls, chain, k, m - 1);
      t[chain[m - 1] := t[chain[m - 1]].(failed := (t[chain[m - 1]].failed + 1) % UINT32)]
  }

  /** Where `current` ends up: behind the last of `chain[k..m]` that had failed five times. */
  function SkipTo(smalls: map<nat, SmallNode>, chain: seq<nat>, k: nat, m: nat, current: nat): (r: nat)
    requires k <= m < |chain|
    requires Readable(smalls, chain)
    ensures r == current || r in chain
    decreases m
  {
    if m == k then current
    else if smalls[chain[m - 1]].failed >= 5 then chain[m]
    else SkipTo(smalls, chain, k, m - 1, current)
  }

  /** The pages after the walk from position `k` to the tail, and the linking of `b` there. */
  function LinkTail(smalls: map<nat, SmallNode>, chain: seq<nat>, k: nat, b: nat): map<nat, SmallNode>
    requires k < |chain| && Readable(smalls, chain)
  {
    var m := |chain| - 1;
    var bumped := Bump(smalls, chain, k, m);
    bumped[chain[m] := bumped[chain[m]].(next := b)]
  }

  /** Link a fresh page at `b` behind the chain and carve the first `size` bytes from it. */
  ghost function AppendPage(s: PoolState, b: nat, size: nat): PoolState
    requires ChainOk(s)
  {
    var node := SmallNode(b + PAGE_SIZE, AlignUp(b + SIZEOF_SMALL_NODE) + size, 1, 0, 0);
    var k := IndexOf(s.chain, s.current);
    s.(smalls := LinkTail(s.smalls[b := node], s.chain, k, b),
       current := SkipTo(s.smalls[b := node], s.chain, k, |s.chain| - 1, s.current),
       chain := s.chain + [b],
       live := s.live + {Region(b, AlignUp(b + SIZEOF_SMALL_NODE), size)},
       owned := s.owned[b := PAGE_SIZE])
  }

  /** A request of at most `SMALL_LIMIT` bytes; `page` is what the system offers if a page is needed. */
  ghost function SmallMalloc(s: PoolState, size: nat, page: Option<nat>): (PoolState, nat)
    requires ChainOk(s)
  {
    var i := FirstFit(s.smalls, s.chain, IndexOf(s.chain, s.current), size);
    if i < |s.chain| then (Carve(s, s.chain[i], size), AlignUp(s.smalls[s.chain[i]].last))
    else if page.None? then (s, 0)
    else (AppendPage(s, page.value, size), AlignUp(page.value + SIZEOF_SMALL_NODE))
  }

  /** `posix_memalign`: an aligned block that overlaps nothing currently held. */
  predicate SystemBlock(owned: map<nat, nat>, a: nat, size: nat) {
    && a > 0 && a % 16 == 0 && size > 0
    && forall b :: b in owned ==> Apart(a, size, b, owned[b])
  }

  // ---------------------------------------------------------------- facts about one page

  /** The unsigned comparison is an honest one: an aligned `last` never passes `end`. */
  lemma ComparisonNeverNegative(s: PoolState, n: nat, size: nat)
    requires PagesOk(s) && n in s.smalls
    ensures AlignUp(s.smalls[n].last) <= s.smalls[n].end
    ensures Fits(s.smalls[n], size) <==> AlignUp(s.smalls[n].last) + size <= s.smalls[n].end
  {
    assert PageOk(s, n);
  }

  lemma OneAligned(x: nat, y: nat, lo: int)
    requires x % 16 == 0 && y % 16 == 0 && lo <= x < lo + 16 && lo <= y < lo + 16
    ensures x == y
  {
  }

  lemma {:induction false} AlignedBelow(xs: set<nat>, lo: nat, n: nat)
    requires forall x :: x in xs ==> x % 16 == 0 && lo <= x < lo + 16 * n
    ensures |xs| <= n
    decreases n
  {
    if n == 0 {
      assert xs == {};
    } else {
      var top := lo + 16 * (n - 1);
      var rest := set x | x in xs && x < top;
      AlignedBelow(rest, lo, n - 1);
      if x :| x in xs && top <= x {
        forall y | y in xs && top <= y
          ensures y == x
        {
          OneAligned(x, y, top);
        }
        assert xs == rest + {x};
      } else {
        assert xs == rest;
      }
    }
  }

  lemma {:induction false} SlotsCount(rs: set<Region>, xs: set<nat>)
    requires forall r, q :: r in rs && q in rs && r != q ==> r.addr != q.addr
    requires xs == set r | r in rs :: r.addr
    ensures |rs| == |xs|
    decreases rs
  {
    if rs == {} {
      assert xs == {};
    } else {
      var r :| r in rs;
      SlotsCount(rs - {r}, xs - {r.addr});
    }
  }

  /** At most `n` non-empty 16-aligned disjoint regions start in `16 * n` bytes. */
  lemma RegionsFit(rs: set<Region>, lo: nat, n: nat)
    requires forall r :: r in rs ==> r.addr % 16 == 0 && lo <= r.addr < lo + 16 * n && r.size > 0
    requires forall r, q :: r in rs && q in rs && r != q ==> Apart(r.addr, r.size, q.addr, q.size)
    ensures |rs| <= n
  {
    var xs := set r | r in rs :: r.addr;
    SlotsCount(rs, xs);
    AlignedBelow(xs, lo, n);
  }

  lemma RegionRange(s: PoolState, r: Region)
    requires PagesOk(s) && RegionsOk(s) && r in s.live
    ensures r.page in s.smalls && r.addr % 16 == 0 && r.size > 0
    ensures (if r.page == s.head then s.pool + 64 else r.page + 32) <= r.addr
    ensures r.addr + r.size <= Base(s, r.page) + PAGE_SIZE
  {
    assert RegionOk(s, r) && PageOk(s, r.page);
  }

  /** A page never carries more than 254 regions, the head page 252: `quote` cannot wrap. */
  lemma QuoteBounded(s: PoolState, n: nat)
    requires PagesOk(s) && RegionsOk(s) && n in s.smalls
    ensures |OnPage(s.live, n)| <= if n == s.head then 252 else 254
  {
    var rs := OnPage(s.live, n);
    forall r | r in rs
      ensures r.addr % 16 == 0 && r.size > 0
      ensures (if n == s.head then s.pool + 64 else n + 32) <= r.addr < Base(s, n) + PAGE_SIZE
    {
      RegionRange(s, r);
    }
    if n == s.head {
      RegionsFit(rs, s.pool + 64, 252);
    } else {
      RegionsFit(rs, n + 32, 254);
    }
  }

  // ---------------------------------------------------------------- small allocations keep the invariant

  lemma CarveRegions(s: PoolState, n: nat, size: nat)
    requires PagesOk(s) && RegionsOk(s)
    requires n in s.smalls && size > 0 && Fits(s.smalls[n], size)
    ensures RegionsOk(Carve(s, n, size))
    ensures Region(n, AlignUp(s.smalls[n].last), size) !in s.live
  {
    ComparisonNeverNegative(s, n, size);
    var t := Carve(s, n, size);
    var added := Region(n, AlignUp(s.smalls[n].last), size);
    forall r | r in t.live
      ensures RegionOk(t, r)
    {
      if r != added { assert RegionOk(s, r); }
    }
    forall r | r in s.live && r.page == n
      ensures r.addr + r.size <= added.addr
    {
      assert RegionOk(s, r);
    }
  }

  lemma CountsAfter(s: PoolState, t: PoolState, n: nat, added: Region)
    requires CountsOk(s) && n in s.smalls && t.smalls.Keys == s.smalls.Keys
    requires added !in s.live && added.page == n && t.live == s.live + {added}
    requires forall m :: m in s.smalls && m != n ==> t.smalls[m].quote == s.smalls[m].quote
    requires t.smalls[n].quote == s.smalls[n].quote + 1
    ensures CountsOk(t)
  {
    forall m | m in t.smalls
      ensures t.smalls[m].quote == |OnPage(t.live, m)|
    {
      if m == n {
        assert OnPage(t.live, m) == OnPage(s.live, m) + {added};
      } else {
        assert OnPage(t.live, m) == OnPage(s.live, m);
      }
    }
  }

  lemma CarveCounts(s: PoolState, n: nat, size: nat)
    requires PagesOk(s) && RegionsOk(s) && CountsOk(s)
    requires n in s.smalls && size > 0 && Fits(s.smalls[n], size)
    ensures CountsOk(Carve(s, n, size))
  {
    hide PagesOk, RegionsOk, Fits, AlignUp, OnPage;
    CarveRegions(s, n, size);
    QuoteBounded(s, n);
    CountsAfter(s, Carve(s, n, size), n, Region(n, AlignUp(s.smalls[n].last), size));
  }

  lemma CarvePages(s: PoolState, n: nat, size: nat)
    requires PagesOk(s) && n in s.smalls && Fits(s.smalls[n], size)
    ensures PagesOk(Carve(s, n, size))
  {
    var t := Carve(s, n, size);
    ComparisonNeverNegative(s, n, size);
    forall m | m in t.smalls
      ensures PageOk(t, m)
    {
      assert PageOk(s, m);
    }
  }

  /** Only the links matter to the chain. */
  lemma SameChain(s: PoolState, t: PoolState)
    requires ChainOk(s)
    requires t.chain == s.chain && t.head == s.head && (t.current == s.current || t.current in s.chain)
    requires t.smalls.Keys == s.smalls.Keys
    requires forall n :: n in s.smalls ==> t.smalls[n].next == s.smalls[n].next
    ensures ChainOk(t)
  {
    forall i | 0 <= i < |t.chain|
      ensures LinkOk(t, i)
    {
      assert LinkOk(s, i);
    }
  }

  lemma SameLarges(s: PoolState, t: PoolState)
    requires LargesOk(s) && t.larges == s.larges && t.headers == s.headers && t.largeList == s.largeList
    requires s.live <= t.live
    ensures LargesOk(t) && LargesReadable(s)
  {
    forall i | 0 <= i < |t.larges|
      ensures HeaderLinkOk(t, i)
    {
      assert HeaderLinkOk(s, i);
    }
  }

  lemma CarveInv(s: PoolState, n: nat, size: nat, extra: set<nat>)
    requires InvWith(s, extra) && n in s.smalls && size > 0 && Fits(s.smalls[n], size)
    ensures InvWith(Carve(s, n, size), extra)
  {
    hide ChainOk, PagesOk, RegionsOk, CountsOk, LargesOk, OwnedOk, Fits, AlignUp;
    var t := Carve(s, n, size);
    CarvePages(s, n, size);
    CarveRegions(s, n, size);
    CarveCounts(s, n, size);
    SameChain(s, t);
    SameLarges(s, t);
    SameOwned(s, t, extra);
  }

  lemma SameOwned(s: PoolState, t: PoolState, extra: set<nat>)
    requires LargesReadable(s) && OwnedOk(s, extra)
    requires t.pool == s.pool && t.head == s.head && t.smalls.Keys == s.smalls.Keys
    requires t.larges == s.larges && t.headers == s.headers && t.owned == s.owned
    ensures OwnedOk(t, extra)
  {
    assert forall a :: IsPage(t, a) == IsPage(s, a);
    assert forall i :: 0 <= i < |s.larges| ==> LargeAt(t, i) == LargeAt(s, i);
    assert LargeBlocks(t) == LargeBlocks(s);
  }

  // ---------------------------------------------------------------- appending a page keeps the invariant

  lemma ChainBasics(s: PoolState)
    requires ChainOk(s)
    ensures |s.chain| > 0 && s.current in s.chain && s.head in s.chain && s.head in s.smalls
    ensures Readable(s.smalls, s.chain) && s.smalls.Keys == (set n | n in s.chain) && 0 !in s.smalls
  {
    forall i | 0 <= i < |s.chain|
      ensures s.chain[i] != 0
    {
      assert LinkOk(s, i);
    }
  }

  lemma {:induction false} BumpFacts(smalls: map<nat, SmallNode>, chain: seq<nat>, k: nat, m: nat, n: nat)
    requires k <= m <= |chain| && Readable(smalls, chain) && n in smalls
    ensures var r := Bump(smalls, chain, k, m);
            && r[n] == smalls[n].(failed := r[n].failed)
            && (n !in chain ==> r[n] == smalls[n])
    decreases m
  {
    if m == k {
    } else {
      BumpFacts(smalls, chain, k, m - 1, n);
    }
  }

  /** What the walk to the tail and the linking leave of each page. */
  lemma AppendFacts(s: PoolState, b: nat, size: nat, n: nat)
    requires ChainOk(s) && b !in s.chain && (n in s.smalls || n == b)
    ensures var t := AppendPage(s, b, size);
            && n in t.smalls
            && (n == b ==> t.smalls[n] == SmallNode(b + PAGE_SIZE, AlignUp(b + SIZEOF_SMALL_NODE) + size, 1, 0, 0))
            && (n != b ==> t.smalls[n] == s.smalls[n].(failed := t.smalls[n].failed, next := t.smalls[n].next))
            && (n != b && n != s.chain[|s.chain| - 1] ==> t.smalls[n].next == s.smalls[n].next)
            && (n == s.chain[|s.chain| - 1] ==> t.smalls[n].next == b)
  {
    hide AlignUp, ChainOk;
    ChainBasics(s);
    var node := SmallNode(b + PAGE_SIZE, AlignUp(b + SIZEOF_SMALL_NODE) + size, 1, 0, 0);
    var k := IndexOf(s.chain, s.current);
    var m := |s.chain| - 1;
    BumpFacts(s.smalls[b := node], s.chain, k, m, n);
    BumpFacts(s.smalls[b := node], s.chain, k, m, s.chain[m]);
  }

  lemma AppendKeys(s: PoolState, b: nat, size: nat)
    requires ChainOk(s)
    ensures AppendPage(s, b, size).smalls.Keys == s.smalls.Keys + {b}
  {
    hide AlignUp;
  }

  lemma AppendAligned(b: nat)
    requires b % 16 == 0
    ensures AlignUp(b + SIZEOF_SMALL_NODE) == b + SIZEOF_SMALL_NODE
  {
  }

  /** A block the system has just handed out is not a page of the pool. */
  lemma FreshBlock(s: PoolState, b: nat, size: nat)
    requires ChainOk(s) && PagesOk(s) && SystemBlock(s.owned, b, size)
    ensures b !in s.chain && b != s.pool
  {
    forall n | n in s.chain
      ensures n != b && Base(s, n) != b
    {
      assert PageOk(s, n);
      assert Apart(b, size, Base(s, n), PAGE_SIZE);
    }
    assert s.head in s.chain;
  }

  lemma AppendLink(s: PoolState, b: nat, size: nat, i: nat)
    requires ChainOk(s) && b !in s.chain && b != 0 && i <= |s.chain|
    ensures var t := AppendPage(s, b, size);
            t.chain[i] in t.smalls && LinkOk(t, i)
  {
    hide AlignUp, LinkTail, SkipTo;
    if i < |s.chain| { assert LinkOk(s, i); }
    AppendFacts(s, b, size, AppendPage(s, b, size).chain[i]);
  }

  lemma AppendChain(s: PoolState, b: nat, size: nat)
    requires ChainOk(s) && b !in s.chain && b != 0
    ensures ChainOk(AppendPage(s, b, size))
  {
    hide AlignUp, LinkTail, SkipTo, At;
    var t := AppendPage(s, b, size);
    AppendKeys(s, b, size);
    forall i | 0 <= i < |t.chain|
      ensures t.chain[i] in t.smalls && LinkOk(t, i)
    {
      AppendLink(s, b, size, i);
    }
    assert t.current in t.chain;
  }

  lemma AppendPages(s: PoolState, b: nat, size: nat)
    requires ChainOk(s) && PagesOk(s) && SystemBlock(s.owned, b, PAGE_SIZE) && size <= SMALL_LIMIT
    ensures PagesOk(AppendPage(s, b, size))
  {
    hide AlignUp, ChainOk;
    var t := AppendPage(s, b, size);
    FreshBlock(s, b, PAGE_SIZE);
    AppendKeys(s, b, size);
    AppendAligned(b);
    assert s.head in s.smalls by { ChainBasics(s); }
    forall n | n in t.smalls
      ensures PageOk(t, n)
    {
      AppendFacts(s, b, size, n);
      if n != b {
        assert PageOk(s, n);
      }
    }
  }

  lemma AppendRegions(s: PoolState, b: nat, size: nat)
    requires ChainOk(s) && PagesOk(s) && RegionsOk(s) && SystemBlock(s.owned, b, PAGE_SIZE) && size > 0
    ensures RegionsOk(AppendPage(s, b, size))
    ensures OnPage(s.live, b) == {} && forall r :: r in s.live ==> r.page != b
  {
    hide AlignUp, PagesOk, ChainOk;
    var t := AppendPage(s, b, size);
    FreshBlock(s, b, PAGE_SIZE);
    ChainBasics(s);
    AppendAligned(b);
    forall r | r in t.live
      ensures RegionOk(t, r)
    {
      AppendFacts(s, b, size, r.page);
      if r in s.live { assert RegionOk(s, r); }
    }
    forall r | r in s.live
      ensures r.page != b
    {
      assert RegionOk(s, r);
    }
  }

  lemma AppendCounts(s: PoolState, b: nat, size: nat)
    requires ChainOk(s) && CountsOk(s) && b !in s.chain && OnPage(s.live, b) == {}
    ensures CountsOk(AppendPage(s, b, size))
  {
    hide AlignUp, ChainOk;
    var t := AppendPage(s, b, size);
    var added := Region(b, AlignUp(b + SIZEOF_SMALL_NODE), size);
    AppendKeys(s, b, size);
    ChainBasics(s);
    forall n | n in t.smalls
      ensures t.smalls[n].quote == |OnPage(t.live, n)|
    {
      AppendFacts(s, b, size, n);
      if n == b {
        assert OnPage(t.live, n) == {added};
      } else {
        assert OnPage(t.live, n) == OnPage(s.live, n);
      }
    }
  }

  lemma BlocksApartAdd(owned: map<nat, nat>, b: nat, size: nat)
    requires BlocksApart(owned) && SystemBlock(owned, b, size)
    ensures b !in owned && BlocksApart(owned[b := size])
  {
  }

  lemma AppendOwned(s: PoolState, b: nat, size: nat, extra: set<nat>)
    requires ChainOk(s) && PagesOk(s) && LargesReadable(s) && OwnedOk(s, extra)
    requires SystemBlock(s.owned, b, PAGE_SIZE)
    ensures OwnedOk(AppendPage(s, b, size), extra)
  {
    hide AlignUp, Bump, SkipTo, PagesOk, ChainOk, BlocksApart, SystemBlock;
    var t := AppendPage(s, b, size);
    FreshBlock(s, b, PAGE_SIZE);
    ChainBasics(s);
    BlocksApartAdd(s.owned, b, PAGE_SIZE);
    AppendKeys(s, b, size);
    assert forall a :: IsPage(t, a) <==> IsPage(s, a) || a == b;
    assert forall i :: 0 <= i < |s.larges| ==> LargeAt(t, i) == LargeAt(s, i);
    assert LargeBlocks(t) == LargeBlocks(s);
  }

  lemma AppendInv(s: PoolState, b: nat, size: nat, extra: set<nat>)
    requires InvWith(s, extra) && SystemBlock(s.owned, b, PAGE_SIZE) && 0 < size <= SMALL_LIMIT
    ensures InvWith(AppendPage(s, b, size), extra)
  {
    hide ChainOk, PagesOk, RegionsOk, CountsOk, LargesOk, OwnedOk, AlignUp, Bump, SkipTo, SystemBlock;
    var t := AppendPage(s, b, size);
    FreshBlock(s, b, PAGE_SIZE);
    AppendChain(s, b, size) by { assert b != 0 by { SystemBlockNonNull(s.owned, b, PAGE_SIZE); } }
    AppendPages(s, b, size);
    AppendRegions(s, b, size);
    AppendCounts(s, b, size);
    SameLarges(s, t);
    AppendOwned(s, b, size, extra);
  }

  lemma SystemBlockNonNull(owned: map<nat, nat>, b: nat, size: nat)
    requires SystemBlock(owned, b, size)
    ensures b != 0
  {
  }

}
