/** The allocator of thread stacks: lists of descriptors in use, cached and on
    user-provided memory, updated in place. */
module StackAllocator {
  import opened ForkRecovery
  import opened KeyBlocks
  import opened Optional
  import opened Rings
  import opened StackArithmetic
  import opened StackSpec

  const ENOMEM := 12
  const EINVAL := 22

  /** The request, and what the system answers while it is served. */
  datatype Attr = Attr(onUserStack: bool, stackAddr: Size, stackSize: Size, guardSize: Size)

  datatype Answers = Answers(mmap: Option<Addr>, setupOk: bool, tlsOk: bool, guardOk: bool, errno: int)

  datatype Outcome = Done(pd: Addr) | Failed(errno: int) | Aborted

  /** Which offsets of a block the kernel protects against every access. */
  type Protection = nat -> bool

  function Mapped(sealed: bool): Protection { (i: nat) => sealed }

  /** mprotect over [from, from + len). */
  function Protect(p: Protection, from: nat, len: nat, sealed: bool): Protection {
    (i: nat) => if from <= i < from + len then sealed else p(i)
  }

  /** Exactly the first n bytes are inaccessible. */
  ghost predicate SealsFirst(p: Protection, n: nat, size: nat) {
    forall i: nat :: i < size ==> (p(i) <==> i < n)
  }

  /** The address of the descriptor inside a fresh block. */
  function DescriptorAt(cfg: Config, block: Addr, size: nat): Addr
    requires cfg.Sane() && block + size >= cfg.tcbSize
  {
    AlignDown(block + size - cfg.tcbSize, cfg.tlsAlign)
  }

  function NewDescriptor(block: Addr, size: Size, guard: Size, user: bool): Descriptor {
    Descriptor(0, block, size, guard, 0, user, 0, -1, CleanBlock(), map[], false)
  }

  /** The size asked of mmap: a page more when blocks would alias. */
  function MapSize(cfg: Config, total: Size): Size {
    if cfg.aliasing != 0 && total % cfg.aliasing == 0 then Add64(total, cfg.pageSize) else total
  }

  lemma MapSizeGrows(cfg: Config, total: Size)
    requires cfg.Sane()
    ensures MapSize(cfg, total) >= total || MapSize(cfg, total) == 0
  {
    if cfg.aliasing != 0 && total % cfg.aliasing == 0 {
      NextMultiple(total, cfg.aliasing);
      MultiplesApart(total + cfg.aliasing, WORD, cfg.aliasing);
    }
  }

  lemma NextMultiple(x: nat, a: nat)
    requires a > 0 && x % a == 0
    ensures (x + a) % a == 0
  {
    var q := x / a;
    assert x + a == (q + 1) * a;
    MultipleOf(q + 1, a);
  }

  lemma EvenAligned(x: nat, a: nat)
    requires a > 0 && a % 2 == 0
    ensures (x - x % a) % 2 == 0
  {
    var q, h := x / a, a / 2;
    assert x - x % a == q * a && a == 2 * h;
    assert q * a == 2 * (q * h);
  }

  /** Blocks do not alias: no size asked of mmap is a multiple of the distance, and
      it exceeds the planned size by a page at most. */
  lemma NotAliased(cfg: Config, total: Size)
    requires cfg.Sane() && cfg.pageSize < cfg.aliasing
    ensures MapSize(cfg, total) % cfg.aliasing != 0
    ensures MapSize(cfg, total) == total || MapSize(cfg, total) == total + cfg.pageSize
  {
    var a := cfg.aliasing;
    if total % a == 0 {
      NextMultiple(total, a);
      MultiplesApart(total + a, WORD, a);
      assert (total + cfg.pageSize) % a == cfg.pageSize by {
        var q := total / a;
        assert total + cfg.pageSize == q * a + cfg.pageSize;
        Remainder(q, cfg.pageSize, a);
      }
    }
  }

  lemma Remainder(q: nat, r: nat, a: nat)
    requires r < a
    ensures (q * a + r) % a == r
  {
    var d, s := (q * a + r) / a, (q * a + r) % a;
    assert q * a + r == d * a + s;
    if q < d {
      OrderedProducts(q + 1, d, a);
    } else if q > d {
      OrderedProducts(d + 1, q, a);
    }
  }

  /** The descriptor lies in its block, as high as its alignment permits. */
  lemma DescriptorInside(cfg: Config, block: Addr, size: nat)
    requires cfg.Sane() && size >= cfg.tcbSize + cfg.tlsAlign
    ensures DescriptorAt(cfg, block, size) % 2 == 0 && DescriptorAt(cfg, block, size) % cfg.tlsAlign == 0
    ensures block <= DescriptorAt(cfg, block, size) < block + size
    ensures var end := DescriptorAt(cfg, block, size) + cfg.tcbSize; end <= block + size < end + cfg.tlsAlign
  {
    EvenAligned(block + size - cfg.tcbSize, cfg.tlsAlign);
  }

  /** What a successful mmap means: memory no descriptor or list node is in, and
      all blocks together still fit the address space. */
  ghost predicate Grants(mem: Memory, l: Lists, block: Addr, size: Size) {
    && size > 0 && block > STACK_USER
    && (forall a :: block <= a < block + size ==> a !in mem && Foreign(l, a))
    && Sum(mem, l.used) + Sum(mem, l.cache) + size < WORD
  }

  /** A library-owned block: the descriptor lies inside it, and exactly the guard
      is inaccessible. */
  ghost predicate BlockOk(mem: Memory, sealed: map<Addr, Protection>, a: Addr)
    requires a in mem
  {
    var d := mem[a];
    && d.stackBlock <= a < d.stackBlock + d.blockSize
    && d.guardSize <= d.blockSize
    && a in sealed && SealsFirst(sealed[a], d.guardSize, d.blockSize)
  }

  ghost predicate Blocks(mem: Memory, sealed: map<Addr, Protection>) {
    forall a :: a in mem && !mem[a].userStack ==> BlockOk(mem, sealed, a)
  }

  /** Which list holds what; `loose` are the blocks in transit between two. */
  ghost predicate Books(mem: Memory, l: Lists, loose: seq<Addr>) {
    match l
    case Lists(_, _, _) =>
    && (forall a :: a in mem ==> a > STACK_USER && a % 2 == 0)
    && (forall a :: a in mem && !mem[a].userStack <==> a in l.used || a in l.cache || a in loose)
    && (forall a :: a in l.user ==> a in mem && mem[a].userStack)
    && (forall a :: a in loose ==> Foreign(l, a))
    && Sum(mem, l.used) + Sum(mem, l.cache) + Sum(mem, loose) < WORD
  }

  /** Only fields that say nothing about the block differ. */
  ghost predicate SameBlocks(mem: Memory, mem': Memory) {
    && mem.Keys == mem'.Keys
    && forall a :: a in mem ==>
         && mem'[a].userStack == mem[a].userStack && mem'[a].stackBlock == mem[a].stackBlock
         && mem'[a].blockSize == mem[a].blockSize && mem'[a].guardSize == mem[a].guardSize
  }

  lemma Relabelled(mem: Memory, mem': Memory, sealed: map<Addr, Protection>, l: Lists, loose: seq<Addr>)
    requires SameBlocks(mem, mem') && Books(mem, l, loose)
    ensures Books(mem', l, loose)
    ensures Blocks(mem, sealed) ==> Blocks(mem', sealed)
    ensures Sum(mem', l.cache) == Sum(mem, l.cache) && Sum(mem', l.used) == Sum(mem, l.used)
    ensures Sum(mem', loose) == Sum(mem, loose)
  {
    BooksFrame(mem, mem', l, loose);
    hide Sum, Books;
  }

  lemma InTransit(mem: Memory, l: Lists, pd: Addr)
    requires Books(mem, l, [pd])
    ensures pd in mem && !mem[pd].userStack && SizeAt(mem, pd) == mem[pd].blockSize
  {
    assert pd in [pd];
  }

  lemma LooseKnown(mem: Memory, l: Lists, e: Addr)
    requires Books(mem, l, [e])
    ensures Foreign(l, e) && e in mem && e != NULL && e % 2 == 0
    ensures forall a :: a in l.used ==> a in mem
  {
    assert e in [e];
  }

  lemma ListedKnown(mem: Memory, l: Lists, w: Which, k: nat)
    requires Books(mem, l, []) && k < |w.Of(l)|
    ensures w.Of(l)[k] in mem && w.Of(l)[k] != NULL && w.Of(l)[k] % 2 == 0
    ensures forall a :: a in l.used ==> a in mem
  {
  }

  lemma NoneSearched(mem: Memory, s: seq<Addr>, size: Size)
    ensures Searched(mem, s, size, 0, 0)
  {
  }

  lemma UsedKnown(mem: Memory, l: Lists, loose: seq<Addr>)
    requires Books(mem, l, loose)
    ensures forall a :: a in l.used ==> a in mem
  {
  }

  lemma FewerUsed(mem: Memory, l: Lists, w: Which, k: nat)
    requires k < |w.Of(l)| && forall a :: a in l.used ==> a in mem
    ensures forall a :: a in w.Put(l, Without(w.Of(l), k)).used ==> a in mem
  {
  }

  lemma MoreUsed(mem: Memory, l: Lists, e: Addr, w: Which)
    requires e in mem && forall a :: a in l.used ==> a in mem
    ensures forall a :: a in w.Put(l, [e] + w.Of(l)).used ==> a in mem
  {
  }

  /** One more moment leaves the cuts before it. */
  lemma CutsSoFar(m: Links, l: Lists, seen: seq<Moment>, next: Moment, start: nat)
    requires AllCuts(m, l, seen, start)
    ensures AllCuts(m, l, (seen + [next])[..|seen|], start)
  {
    assert (seen + [next])[..|seen|] == seen;
  }

  lemma NoneYet(m: Links, l: Lists, seen: seq<Moment>)
    ensures AllCuts(m, l, seen, |seen|)
  {
  }

  lemma BlocksWith(mem: Memory, sealed: map<Addr, Protection>, pd: Addr, d: Descriptor, p: Protection)
    requires Blocks(mem, sealed)
    requires !d.userStack ==> (
      d.stackBlock <= pd < d.stackBlock + d.blockSize && d.guardSize <= d.blockSize
      && SealsFirst(p, d.guardSize, d.blockSize))
    ensures Blocks(mem[pd := d], sealed[pd := p])
  {
    hide SealsFirst;
  }

  lemma FreshBooks(mem: Memory, l: Lists, pd: Addr, d: Descriptor)
    requires Books(mem, l, []) && pd !in mem && Foreign(l, pd) && pd > STACK_USER && pd % 2 == 0 && !d.userStack
    requires Sum(mem[pd := d], l.used) == Sum(mem, l.used) && Sum(mem[pd := d], l.cache) == Sum(mem, l.cache)
    requires Sum(mem, l.used) + Sum(mem, l.cache) + d.blockSize < WORD
    ensures Books(mem[pd := d], l, [pd])
  {
    assert Sum(mem[pd := d], [pd]) == d.blockSize;
    hide Sum, Foreign;
  }

  /** A freshly mapped block starts in transit. */
  lemma FreshInTransit(cfg: Config, mem: Memory, sealed: map<Addr, Protection>, l: Lists, pd: Addr, d: Descriptor,
        p: Protection)
    requires Books(mem, l, []) && Blocks(mem, sealed)
    requires Grants(mem, l, d.stackBlock, d.blockSize) && !d.userStack && pd % 2 == 0
    requires d.stackBlock <= pd < d.stackBlock + d.blockSize
    requires d.guardSize <= d.blockSize && SealsFirst(p, d.guardSize, d.blockSize)
    ensures Books(mem[pd := d], l, [pd]) && Blocks(mem[pd := d], sealed[pd := p])
    ensures Sum(mem[pd := d], l.cache) == Sum(mem, l.cache)
  {
    hide Books, Blocks, Foreign, Sum, SealsFirst;
    assert pd !in mem && Foreign(l, pd);
    SumsBeside(mem, l, pd, d);
    FreshBooks(mem, l, pd, d);
    BlocksWith(mem, sealed, pd, d, p);
  }

  /** A descriptor that is on no library-owned list weighs nothing there. */
  lemma SumsBeside(mem: Memory, l: Lists, pd: Addr, d: Descriptor)
    requires Foreign(l, pd)
    ensures Sum(mem[pd := d], l.used) == Sum(mem, l.used) && Sum(mem[pd := d], l.cache) == Sum(mem, l.cache)
    ensures pd !in l.used && pd !in l.cache
  {
    assert pd !in Used.Nodes(l) && pd !in Cache.Nodes(l);
    SumFrame(mem, mem[pd := d], l.used);
    SumFrame(mem, mem[pd := d], l.cache);
  }

  lemma UserBooks(mem: Memory, l: Lists, pd: Addr, d: Descriptor)
    requires Books(mem, l, []) && d.userStack && pd > STACK_USER && pd % 2 == 0 && pd !in l.used && pd !in l.cache
    requires pd in mem ==> mem[pd].userStack
    requires Sum(mem[pd := d], l.used) == Sum(mem, l.used) && Sum(mem[pd := d], l.cache) == Sum(mem, l.cache)
    ensures Books(mem[pd := d], l, [])
  {
    hide Sum;
    assert Sum(mem[pd := d], []) == Sum(mem, []) by { SumFrame(mem, mem[pd := d], []); }
  }

  lemma UserFirst(mem: Memory, l: Lists, pd: Addr)
    requires Books(mem, l, []) && pd in mem && mem[pd].userStack
    ensures Books(mem, l.(user := [pd] + l.user), [])
  {
    hide Sum;
    assert forall a :: a in [pd] + l.user ==> a == pd || a in l.user;
  }

  /** The descriptor a user-provided stack will get is in nobody else's memory. */
  lemma UserListed(mem: Memory, sealed: map<Addr, Protection>, l: Lists, pd: Addr, d: Descriptor)
    requires Books(mem, l, []) && Blocks(mem, sealed) && d.userStack
    requires pd > STACK_USER && pd % 2 == 0 && Foreign(l, pd) && (pd in mem ==> mem[pd].userStack)
    ensures Books(mem[pd := d], l, []) && Books(mem[pd := d], l.(user := [pd] + l.user), [])
    ensures Blocks(mem[pd := d], sealed)
    ensures Sum(mem[pd := d], l.cache) == Sum(mem, l.cache)
  {
    hide Books, Blocks, Foreign, Sum;
    SumsBeside(mem, l, pd, d);
    UserBooks(mem, l, pd, d);
    UserFirst(mem[pd := d], l, pd);
    BlocksBeside(mem, sealed, pd, d);
  }

  lemma BlocksBeside(mem: Memory, sealed: map<Addr, Protection>, pd: Addr, d: Descriptor)
    requires Blocks(mem, sealed) && d.userStack
    ensures Blocks(mem[pd := d], sealed)
  {
  }

  /** Moving the boundary of the guard of one block. */
  lemma Reguarded(mem: Memory, sealed: map<Addr, Protection>, l: Lists, pd: Addr, guard: Size, p: Protection)
    requires Books(mem, l, []) && Blocks(mem, sealed) && pd in mem && guard <= mem[pd].blockSize
    requires SealsFirst(p, guard, mem[pd].blockSize)
    ensures var mem' := mem[pd := mem[pd].(guardSize := guard)];
      && Books(mem', l, []) && Blocks(mem', sealed[pd := p])
      && Sum(mem', l.cache) == Sum(mem, l.cache)
  {
    var d := mem[pd].(guardSize := guard);
    assert !d.userStack ==> d.stackBlock <= pd < d.stackBlock + d.blockSize;
    hide Blocks, SealsFirst, Sum, Books;
    BlocksWith(mem, sealed, pd, d, p);
    BooksFrame(mem, mem[pd := d], l, []);
  }

  /** What the books say depends on sizes and owners alone. */
  lemma BooksFrame(mem: Memory, mem': Memory, l: Lists, loose: seq<Addr>)
    requires Books(mem, l, loose) && mem'.Keys == mem.Keys
    requires forall a :: a in mem ==> mem'[a].userStack == mem[a].userStack && mem'[a].blockSize == mem[a].blockSize
    ensures Books(mem', l, loose)
    ensures Sum(mem', l.cache) == Sum(mem, l.cache) && Sum(mem', l.used) == Sum(mem, l.used)
    ensures Sum(mem', loose) == Sum(mem, loose)
  {
    SumFrame(mem, mem', l.used);
    SumFrame(mem, mem', l.cache);
    SumFrame(mem, mem', loose);
    hide Sum, Foreign;
  }

  lemma UnmappedBooks(mem: Memory, l: Lists, pd: Addr)
    requires Books(mem, l, [pd]) && pd in [pd]
    ensures Books(mem - {pd}, l, []) && Sum(mem - {pd}, l.cache) == Sum(mem, l.cache)
  {
    assert pd !in Used.Nodes(l) && pd !in Cache.Nodes(l) && pd !in User.Nodes(l);
    assert pd !in l.used && pd !in l.cache && pd !in l.user;
    SumFrame(mem, mem - {pd}, l.used);
    SumFrame(mem, mem - {pd}, l.cache);
    SumFrame(mem, mem - {pd}, []);
    hide Sum, Foreign;
  }

  /** Unmapping a block in transit ends the transit. */
  lemma Unmapped(mem: Memory, sealed: map<Addr, Protection>, l: Lists, pd: Addr)
    requires Books(mem, l, [pd]) && Blocks(mem, sealed)
    ensures Books(mem - {pd}, l, []) && Blocks(mem - {pd}, sealed)
    ensures Sum(mem - {pd}, l.cache) == Sum(mem, l.cache)
  {
    hide Books;
    UnmappedBooks(mem, l, pd);
  }

  lemma BestIsFree(mem: Memory, s: seq<Addr>, size: Size, k: nat)
    requires BestFit(mem, s, size, k)
    ensures k < |s| && Fits(mem, s[k], size)
    ensures forall j: nat :: BestFit(mem, s, size, j) ==> mem[s[j]].blockSize == mem[s[k]].blockSize
  {
  }

  lemma DistinctElements(m: Links, l: Lists, w: Which, k: nat)
    requires WellFormed(m, l) && k < |w.Of(l)|
    ensures forall a :: a in w.Of(l) <==> a == w.Of(l)[k] || a in Without(w.Of(l), k)
    ensures w.Of(l)[k] !in Without(w.Of(l), k)
  {
    assert RingOf(m, l, w);
    RingDistinct(m, w.Head(), w.Of(l));
    DistinctWithout(w.Of(l), k);
  }

  /** Taking a block off a list leaves it in transit. */
  lemma TakenOff(m: Links, mem: Memory, l: Lists, w: Which, k: nat)
    requires WellFormed(m, l) && Books(mem, l, []) && k < |w.Of(l)|
    ensures var r := w.Put(l, Without(w.Of(l), k)); var e := w.Of(l)[k];
      && Books(mem, r, if w == User then [] else [e])
      && Sum(mem, r.cache) == Sum(mem, l.cache) - (if w == Cache then SizeAt(mem, e) else 0)
  {
    var e, r := w.Of(l)[k], w.Put(l, Without(w.Of(l), k));
    DistinctElements(m, l, w, k);
    DelKeeps(m, l, w, k);
    SumWithout(mem, w.Of(l), k);
    assert Sum(mem, [e]) == SizeAt(mem, e);
  }

  /** Putting it on a list ends the transit. */
  lemma PutOn(mem: Memory, l: Lists, e: Addr, w: Which)
    requires Books(mem, l, [e]) && w != User && e in [e]
    ensures Foreign(l, e) && e % 2 == 0
    ensures var r := w.Put(l, [e] + w.Of(l));
      && Books(mem, r, []) && Sum(mem, r.cache) < WORD
      && Sum(mem, r.cache) == Sum(mem, l.cache) + (if w == Cache then SizeAt(mem, e) else 0)
  {
    var r := w.Put(l, [e] + w.Of(l));
    assert ([e] + w.Of(l))[1..] == w.Of(l);
    assert Sum(mem, [e]) == SizeAt(mem, e);
  }

  /** The effect of queueing: the block comes first in the cache, and the cache is
      trimmed at entry k if it is then over the limit. */
  ghost predicate Queued(cfg: Config, mem: Memory, l: Lists, pd: Addr, mem': Memory, l': Lists, k: nat) {
    var full := [pd] + l.cache;
    && l'.used == l.used && l'.user == l.user
    && if Sum(mem, full) <= cfg.cacheMaxSize then mem' == mem && l'.cache == full
       else StopsAt(mem, full, cfg.cacheMaxSize, k) && l'.cache == Trimmed(mem, full, k)
            && mem' == mem - Elements(Removed(mem, full[k..]))
  }

  /** The block `pd` came into use: the free cached entry k, or a new block; no
      other descriptor changed. */
  ghost predicate Taken(mem: Memory, l: Lists, pd: Addr, k: nat, mem': Memory, l': Lists) {
    && pd in mem' && mem'.Keys == mem.Keys + {pd}
    && (forall a :: a in mem && a != pd ==> mem'[a] == mem[a])
    && l'.used == [pd] + l.used && l'.user == l.user
    && if pd in mem then k < |l.cache| && l.cache[k] == pd && mem[pd].tid <= 0 && l'.cache == Without(l.cache, k)
       else l'.cache == l.cache
  }

  /** Every cached block whose thread is gone is too small, or over four times the
      size as the code computes it. */
  ghost predicate NoneReusable(mem: Memory, cache: seq<Addr>, size: Size) {
    forall a :: a in cache && a in mem && mem[a].tid <= 0 && mem[a].blockSize >= size ==>
      mem[a].blockSize > (4 * size) % WORD
  }

  /** The smallest of those large enough, the first of them in the list. */
  ghost predicate Smallest(mem: Memory, cache: seq<Addr>, size: Size, k: nat) {
    && k < |cache| && cache[k] in mem && mem[cache[k]].tid <= 0 && mem[cache[k]].blockSize >= size
    && forall j: nat :: j < |cache| && cache[j] in mem && mem[cache[j]].tid <= 0 && mem[cache[j]].blockSize >= size ==>
         if j < k then mem[cache[k]].blockSize < mem[cache[j]].blockSize
         else mem[cache[k]].blockSize <= mem[cache[j]].blockSize
  }

  lemma BestIsSmallest(mem: Memory, cache: seq<Addr>, size: Size, k: nat)
    ensures BestFit(mem, cache, size, k) <==> Smallest(mem, cache, size, k)
  {
    assert forall j: nat :: j < |cache| ==>
      (Fits(mem, cache[j], size) <==> cache[j] in mem && mem[cache[j]].tid <= 0 && mem[cache[j]].blockSize >= size);
  }

  lemma SmallestIsFree(mem: Memory, cache: seq<Addr>, size: Size, k: nat)
    requires Smallest(mem, cache, size, k)
    ensures k < |cache| && cache[k] in mem && mem[cache[k]].tid <= 0 && mem[cache[k]].blockSize >= size
  {
  }

  lemma Reusable(mem: Memory, cache: seq<Addr>, size: Size, best: Option<Addr>, k: nat)
    requires best.None? ==> forall j: nat :: !BestFit(mem, cache, size, j)
    requires best.Some? ==> BestFit(mem, cache, size, k) && best.value == cache[k] && best.value in mem
    ensures NoneReusable(mem, cache, size) <==> best.None? || mem[best.value].blockSize > (4 * size) % WORD
    ensures best.Some? ==> Smallest(mem, cache, size, k)
  {
    BestFitExists(mem, cache, size);
    if best.Some? {
      BestIsSmallest(mem, cache, size, k);
    }
    forall a | a in cache && a in mem && mem[a].tid <= 0 && mem[a].blockSize >= size
      ensures best.Some? && mem[a].blockSize >= mem[best.value].blockSize
    {
      assert Fits(mem, a, size);
    }
  }

  /** A new block cannot be had. */
  predicate CannotMap(ans: Answers, guard: Size) {
    ans.mmap.None? || (guard > 0 && !ans.setupOk) || !ans.tlsOk
  }

  /** With a reusable cached block that one is used, and only a refused guard
      change makes the request fail; without one it is a new block that cannot
      be had. */
  ghost predicate Served(mem: Memory, cache: seq<Addr>, total: Size, guard: Size, ans: Answers, k: nat, out: Outcome) {
    && (out.Failed? ==> out.errno == ans.errno)
    && if NoneReusable(mem, cache, total) then
         (out.Done? <==> !CannotMap(ans, guard)) && (out.Done? ==> out.pd !in mem)
       else
         (ans.guardOk ==> out.Done?) && (out.Done? ==> Smallest(mem, cache, total, k) && out.pd == cache[k])
  }

  /** The free cached entry k was unmapped. */
  ghost predicate Lost(mem: Memory, l: Lists, k: nat, mem': Memory, l': Lists) {
    && k < |l.cache| && l.cache[k] in mem && mem[l.cache[k]].tid <= 0
    && mem' == mem - {l.cache[k]} && l' == l.(cache := Without(l.cache, k))
  }

  /** What a new thread needs of its descriptor: not cloned yet, not cancelled, and
      the guard to report. */
  ghost predicate Reset(mem: Memory, pd: Addr, guard: nat) {
    && pd in mem && mem[pd].setxidFutex == -1 && mem[pd].cancelHandling == 0
    && mem[pd].reportedGuardSize == guard && !mem[pd].userStack
  }

  /** No thread yet and no data. */
  ghost predicate Blank(d: Descriptor) {
    && d.tid == 0 && !d.specificUsed && d.level2 == map[]
    && |d.firstBlock| == KEYS_PER_BLOCK && forall i: nat :: i < |d.firstBlock| ==> d.firstBlock[i] == KeyData(0, 0)
  }

  /** The block has the size asked for beside a guard of the size asked for, and
      exactly its guard is inaccessible. */
  ghost predicate Roomy(mem: Memory, sealed: map<Addr, Protection>, pd: Addr, size: nat, guard: nat) {
    && pd in mem && BlockOk(mem, sealed, pd)
    && mem[pd].guardSize >= guard && mem[pd].blockSize - mem[pd].guardSize >= size
    && mem[pd].reportedGuardSize == guard
  }

  /** One stack further in marking them free. */
  lemma MarkStep(m0: Memory, mem: Memory, used: seq<Addr>, self: Addr, i: nat, start: Size)
    requires Distinct(used) && i < |used| && used[i] in m0 && RecycledAll(m0, mem, used[..i], self)
    ensures var a := used[i];
      && a in mem
      && RecycledAll(m0, if a == self then mem else mem[a := Recycled(mem[a])], used[..i + 1], self)
      && (start + Sum(m0, Others(used[..i + 1], self))) % WORD
         == if a == self then (start + Sum(m0, Others(used[..i], self))) % WORD
            else Add64((start + Sum(m0, Others(used[..i], self))) % WORD, mem[a].blockSize)
  {
    hide Recycled, RecycledAll, Others, Sum;
    OthersStep(m0, used, self, i);
    RecycledStep(m0, mem, used, self, i);
  }

  /** The two lists the child starts from are whole, and the running thread can
      be taken off its list. */
  ghost predicate Resettable(m: Links, l: Lists, self: Addr, user: bool) {
    && RingOf(m, l, Used) && RingOf(m, l, Cache) && Disjoint(Used.Nodes(l), Cache.Nodes(l))
    && STACK_USER !in Used.Nodes(l) && STACK_USER !in Cache.Nodes(l)
    && if user then Removable(m, l, self) else self in l.used
  }

  lemma SelfRemovable(m: Links, l: Lists, c: Cut, self: Addr, user: bool)
    requires Possible(l, c) && Repaired(m, l, c)
    requires var r := Resolved(l, c); if user then self in r.user else self in r.used
    ensures Resettable(m, Resolved(l, c), self, user)
  {
    var r := Resolved(l, c);
    if user {
      var k := Position(r.user, self);
      assert Removable(m, r, r.user[k]);
    }
  }

  lemma RecycledSameBlocks(mem: Memory, mem': Memory, s: seq<Addr>, self: Addr)
    requires RecycledAll(mem, mem', s, self)
    ensures SameBlocks(mem, mem')
  {
  }

  /** The reclaimed cache is all the other stacks in use, then the old cache. */
  lemma ReclaimedCache(m: Links, mem: Memory, l: Lists, self: Addr, user: bool)
    requires WellFormed(m, l) && if user then self in l.user else self in l.used
    ensures var r := Reclaimed(l, self, user);
      && r.cache == Others(l.used, self) + l.cache
      && Sum(mem, r.cache) == Sum(mem, l.cache) + Sum(mem, Others(l.used, self))
      && Sum(mem, r.used) + Sum(mem, r.cache) == Sum(mem, l.used) + Sum(mem, l.cache)
      && forall a :: a in l.used || a in l.cache <==> a in r.used || a in r.cache
  {
    assert RingOf(m, l, Used) && Disjoint(Used.Nodes(l), User.Nodes(l));
    RingDistinct(m, STACK_USED, l.used);
    SumConcat(mem, Others(l.used, self), l.cache);
    if user {
      assert self in User.Nodes(l);
      OthersAll(l.used, self);
    } else {
      var k := Position(l.used, self);
      hide WellFormed, RingOf, Distinct;
      OthersWithout(l.used, k);
      DistinctElements(m, l, Used, k);
      SumWithout(mem, l.used, k);
      SumConcat(mem, [self], []);
    }
  }

  lemma ReclaimedUsed(mem: Memory, mem': Memory, l: Lists, self: Addr, user: bool)
    requires RecycledAll(mem, mem', l.used, self) && self in mem && (user || self in l.used)
    ensures forall a :: a in Reclaimed(l, self, user).used ==> a in mem'
  {
  }

  /** Reclaiming from a quiescent state keeps the books. */
  lemma ReclaimBooks(m: Links, mem: Memory, mem': Memory, sealed: map<Addr, Protection>, l: Lists, self: Addr,
        user: bool)
    requires WellFormed(m, l) && Books(mem, l, []) && Blocks(mem, sealed)
    requires RecycledAll(mem, mem', l.used, self)
    requires self in mem && mem[self].userStack == user && if user then self in l.user else self in l.used
    ensures Blocks(mem', sealed) && Books(mem', Reclaimed(l, self, user), [])
    ensures Sum(mem', Reclaimed(l, self, user).cache) == Sum(mem, l.cache) + Sum(mem, Others(l.used, self)) < WORD
  {
    RecycledSameBlocks(mem, mem', l.used, self);
    Relabelled(mem, mem', sealed, l, []);
    hide WellFormed, RecycledAll, Blocks;
    ReclaimedCache(m, mem', l, self, user);
    ReclaimedCache(m, mem, l, self, user);
    assert Sum(mem', Reclaimed(l, self, user).cache) == Sum(mem, Reclaimed(l, self, user).cache) by {
      SumFrame(mem, mem', Reclaimed(l, self, user).cache);
    }
    Rebooked(mem', l, Reclaimed(l, self, user));
  }

  lemma Rebooked(mem: Memory, l: Lists, r: Lists)
    requires Books(mem, l, []) && Sum(mem, r.used) + Sum(mem, r.cache) == Sum(mem, l.used) + Sum(mem, l.cache)
    requires forall a :: a in l.used || a in l.cache <==> a in r.used || a in r.cache
    requires forall a :: a in r.user ==> a in l.user
    ensures Books(mem, r, [])
  {
  }

  class Allocator {
    const cfg: Config
    /** The link fields of all nodes, the descriptors, and the protection of each
        mapped block. */
    var links: Links
    var mem: Memory
    var sealed: map<Addr, Protection>
    var inFlight: Addr
    var actsize: Size
    var nthreads: nat
    ghost var lists: Lists
    /** What a fork would have found, store by store. */
    ghost var seen: seq<Moment>

    /** Nothing allocated yet. */
    constructor (cfg: Config, limit: nat)
      requires cfg.Sane()
      ensures Valid() && this.cfg == cfg && mem == map[] && lists == Lists([], [], []) && nthreads == limit
    {
      this.cfg := cfg;
      links := InitHead(InitHead(InitHead(Links(map[], map[]), STACK_CACHE), STACK_USED), STACK_USER);
      mem, sealed, inFlight, actsize, nthreads := map[], map[], 0, 0, limit;
      lists := Lists([], [], []);
      RingInit(Links(map[], map[]), STACK_CACHE);
      HeadsEmptied(InitHead(Links(map[], map[]), STACK_CACHE), []);
      seen := [Moment(InitHead(InitHead(InitHead(Links(map[], map[]), STACK_CACHE), STACK_USED), STACK_USER), 0, {})];
      new;
      QuietWatched(links, lists, {});
    }

    ghost function Now(): Moment
      reads this
    {
      Moment(links, inFlight, mem.Keys)
    }

    ghost predicate Consistent(loose: seq<Addr>)
      reads this
    {
      && cfg.Sane()
      && WellFormed(links, lists) && inFlight == 0
      && Books(mem, lists, loose) && Blocks(mem, sealed)
      && Watched(seen, Now())
    }

    /** The state whenever the cache lock is free: each library-owned block is on
        exactly one of the two lists (they are apart), and the recorded size is
        that of the cached blocks; and a fork at any moment so far left something that
        can be repaired. */
    ghost predicate Valid()
      reads this
    {
      Consistent([]) && actsize == Sum(mem, lists.cache)
    }

    /** Conservation: each library-owned block is on exactly one of the two
        lists, and there once; and the recorded size is the cached blocks'. */
    lemma OnOneList(a: Addr)
      requires Valid() && a in mem && !mem[a].userStack
      ensures a in lists.used <==> a !in lists.cache
      ensures forall i: nat, j: nat :: i < j < |lists.used| ==> lists.used[i] != lists.used[j]
      ensures forall i: nat, j: nat :: i < j < |lists.cache| ==> lists.cache[i] != lists.cache[j]
      ensures actsize == Sum(mem, lists.cache)
    {
      assert RingOf(links, lists, Used) && RingOf(links, lists, Cache) && Disjoint(Used.Nodes(lists), Cache.Nodes(lists));
      assert a in lists.used ==> a in Used.Nodes(lists);
      assert a in lists.cache ==> a in Cache.Nodes(lists);
      RingDistinct(links, STACK_USED, lists.used);
      RingDistinct(links, STACK_CACHE, lists.cache);
    }

    // ----- the recorded list primitives

    /** A store to a link field or to in_flight_stack, noted in the history. */
    method Put(st: Store, ghost m0: Links, ghost l: Lists, ghost c: Cut)
      requires !st.Mapping? && Watched(seen, Now()) && CutAt(m0, l, c, Stored(Now(), st))
      modifies this`links, this`inFlight, this`seen
      ensures Now() == Stored(old(Now()), st) && seen == old(seen) + [Now()] && Watched(seen, Now())
      ensures forall start: nat :: start <= |old(seen)| && AllCuts(m0, l, old(seen), start) ==> AllCuts(m0, l, seen, start)
    {
      WatchedMore(seen, Now(), st, m0, l, c);
      match st {
        case Next(a, v) => links := SetNext(links, a, v);
        case Prev(a, v) => links := SetPrev(links, a, v);
        case Record(v) => inFlight := v;
      }
      hide Watched, AllCuts, CutAt;
      seen := seen + [Now()];
    }

    /** A change of what is mapped, noted as well. */
    method Remap(m: Memory)
      requires WellFormed(links, lists) && inFlight == 0 && Watched(seen, Now())
      requires forall a :: a in lists.used ==> a in m
      modifies this`mem, this`seen
      ensures mem == m && Watched(seen, Now())
    {
      QuietCut(links, lists, m.Keys);
      WatchedMore(seen, Now(), Mapping(m.Keys), links, lists, Quiet);
      hide Watched, WellFormed, CutAt, AllCuts;
      mem := m;
      seen := seen + [Now()];
    }

    /** list_add, the front pointer last; with any of its stores made it is a cut. */
    method ListAddStores(elem: Addr, head: Addr, ghost l: Lists, ghost cut: AddStores -> Cut)
      requires head in links.next && head in links.prev && Watched(seen, Now())
      requires forall s: AddStores :: BarrierOrder(s) ==>
        CutAt(links, l, cut(s), Adding(links, elem, head, s, inFlight, mem.Keys))
      modifies this`links, this`inFlight, this`seen
      ensures links == ListAdd(old(links), elem, head) && inFlight == old(inFlight)
      ensures Watched(seen, Now()) && old(seen) <= seen && |seen| == |old(seen)| + 4
      ensures forall start: nat :: start <= |old(seen)| && AllCuts(old(links), l, old(seen), start) ==>
        AllCuts(old(links), l, seen, start)
    {
      ghost var m0 := links;
      AddInOrder(m0, elem, head, inFlight, mem.Keys);
      hide Watched, AllCuts, CutAt, Adding, ListAdd;
      var first := links.next[head];
      Put(Next(elem, first), m0, l, cut(AddStores(true, false, false, false)));
      Put(Prev(elem, head), m0, l, cut(AddStores(true, true, false, false)));
      Put(Prev(first, elem), m0, l, cut(AddStores(true, true, true, false)));
      Put(Next(head, elem), m0, l, cut(ALL_ADD_STORES));
    }

    /** list_del likewise. */
    method ListDelStores(elem: Addr, ghost l: Lists, ghost cut: DelStores -> Cut)
      requires elem in links.next && elem in links.prev && inFlight == elem && Watched(seen, Now())
      requires forall s: DelStores :: CutAt(links, l, cut(s), Deleting(links, elem, s, mem.Keys))
      modifies this`links, this`inFlight, this`seen
      ensures links == ListDel(old(links), elem) && inFlight == old(inFlight)
      ensures Watched(seen, Now()) && old(seen) <= seen && |seen| == |old(seen)| + 2
      ensures forall start: nat :: start <= |old(seen)| && AllCuts(old(links), l, old(seen), start) ==>
        AllCuts(old(links), l, seen, start)
    {
      ghost var m0 := links;
      DelInOrder(m0, elem, mem.Keys);
      hide Watched, AllCuts, CutAt, Deleting, ListDel;
      var next, prev := links.next[elem], links.prev[elem];
      Put(Prev(next, prev), m0, l, cut(DelStores(true, false)));
      Put(Next(prev, next), m0, l, cut(DelStores(true, true)));
    }

    /** The store to in_flight_stack that ends an operation on the lists l. */
    method EndRecord(ghost m0: Links, ghost l: Lists, ghost start: nat)
      requires WellFormed(links, lists) && Watched(seen, Now()) && start <= |seen| && AllCuts(m0, l, seen, start)
      requires forall a :: a in lists.used ==> a in mem
      modifies this`links, this`inFlight, this`seen
      ensures links == old(links) && inFlight == 0 && Watched(seen, Now()) && seen == old(seen) + [Now()]
      ensures AllCuts(m0, l, seen[..|seen| - 1], start)
    {
      QuietCut(links, lists, mem.Keys);
      hide WellFormed, Watched, CutAt, AllCuts;
      CutsSoFar(m0, l, seen, Stored(Now(), Record(0)), start);
      Put(Record(0), links, lists, Quiet);
    }

    /** A fork at any moment of it cuts this very deletion, or finds it done. */
    method StackListDel(elem: Addr, ghost w: Which, ghost k: nat)
      requires WellFormed(links, lists) && Books(mem, lists, []) && k < |w.Of(lists)| && elem == w.Of(lists)[k]
      requires inFlight == 0 && Watched(seen, Now())
      modifies this`links, this`inFlight, this`lists, this`seen
      ensures elem in old(links).next && elem in old(links).prev
      ensures links == ListDel(old(links), elem) && inFlight == 0
      ensures lists == w.Put(old(lists), Without(w.Of(old(lists)), k))
      ensures WellFormed(links, lists) && Foreign(lists, elem)
      ensures Watched(seen, Now()) && old(seen) <= seen && |seen| == |old(seen)| + 4
      ensures AllCuts(old(links), old(lists), seen[..|seen| - 1], |old(seen)|)
    {
      hide WellFormed, Books, Watched, AllCuts, CutAt, Foreign, Deleting, ListDel, Without, Which.Put, Which.Of;
      ghost var m0, l := links, lists;
      DelKeeps(links, lists, w, k);
      ListedKnown(mem, lists, w, k);
      DelCuts(m0, l, w, k, mem.Keys);
      DelInOrder(m0, elem, mem.Keys);
      NoneYet(m0, l, seen);
      Put(Record(elem), m0, l, InDel(w, k, DelStores(false, false)));
      ListDelStores(elem, l, s => InDel(w, k, s));
      lists := w.Put(lists, Without(w.Of(lists), k));
      FewerUsed(mem, l, w, k);
      EndRecord(m0, l, |old(seen)|);
    }

    /** A fork at any moment of it cuts this very addition, or finds it done. */
    method StackListAdd(elem: Addr, w: Which)
      requires WellFormed(links, lists) && Books(mem, lists, [elem]) && w != User
      requires inFlight == 0 && Watched(seen, Now())
      modifies this`links, this`inFlight, this`lists, this`seen
      ensures w.Head() in old(links).next && links == ListAdd(old(links), elem, w.Head()) && inFlight == 0
      ensures lists == w.Put(old(lists), [elem] + w.Of(old(lists)))
      ensures WellFormed(links, lists)
      ensures Watched(seen, Now()) && old(seen) <= seen && |seen| == |old(seen)| + 6
      ensures AllCuts(old(links), old(lists), seen[..|seen| - 1], |old(seen)|)
    {
      hide WellFormed, Books, Watched, AllCuts, CutAt, Foreign, Adding, ListAdd, Which.Head, Which.Put, Which.Of;
      ghost var m0, l := links, lists;
      LooseKnown(mem, lists, elem);
      AddKeeps(links, lists, elem, w);
      AddCuts(m0, l, elem, w, mem.Keys);
      AddInOrder(m0, elem, w.Head(), elem + 1, mem.Keys);
      NoneYet(m0, l, seen);
      Put(Record(elem + 1), m0, l, InAdd(elem, w, AddStores(false, false, false, false)));
      ListAddStores(elem, w.Head(), l, s => InAdd(elem, w, s));
      lists := w.Put(lists, [elem] + w.Of(lists));
      MoreUsed(mem, l, elem, w);
      EndRecord(m0, l, |old(seen)|);
    }

    /** One turn of the scan: an exact match ends it, a smaller fit replaces the
        candidate. */
    method Consider(curr: Addr, size: Size, candidate: Option<Addr>, ghost s: seq<Addr>, ghost i: nat, ghost k: nat)
      returns (exact: bool, result: Option<Addr>, ghost best: nat)
      requires i < |s| && curr == s[i] && k <= i && Searched(mem, s, size, i, k)
      requires candidate == if k == i then None else Some(s[k])
      ensures exact ==> BestFit(mem, s, size, best) && best < |s| && result == Some(s[best])
      ensures !exact ==> best <= i + 1 && Searched(mem, s, size, i + 1, best)
      ensures !exact ==> result == if best == i + 1 then None else Some(s[best])
    {
      SearchStep(mem, s, size, i, k);
      hide Searched, BestFit;
      result, best := candidate, Candidate(mem, s, size, i, k);
      if IsFree(mem, curr) && mem[curr].blockSize >= size {
        if mem[curr].blockSize == size {
          return true, Some(curr), i;
        }
        if result.None? || mem[result.value].blockSize > mem[curr].blockSize {
          result := Some(curr);
        }
      }
      exact := false;
    }

    /** The scan of the cache from its front, up to an exact match or the end. */
    method ScanCache(size: Size) returns (exact: bool, result: Option<Addr>, ghost k: nat)
      requires Valid()
      ensures exact ==> BestFit(mem, lists.cache, size, k)
      ensures !exact ==> k <= |lists.cache| && Searched(mem, lists.cache, size, |lists.cache|, k)
      ensures k < |lists.cache| ==> result == Some(lists.cache[k])
      ensures k >= |lists.cache| ==> !exact && result == None
    {
      hide *;
      ghost var s, i := lists.cache, 0 as nat;
      NoneSearched(mem, s, size);
      CacheRing();
      exact, result, k := false, None, 0;
      Walk(links, STACK_CACHE, s, 0);
      var entry := links.next[STACK_CACHE];
      while entry != STACK_CACHE
        invariant i <= |s| && entry == Entry(STACK_CACHE, s, i) && (i < |s| ==> entry == s[i])
        invariant entry == STACK_CACHE <==> i == |s|
        invariant !exact && k <= i && Searched(mem, s, size, i, k)
        invariant result == if k == i then None else Some(s[k])
        decreases |s| - i
      {
        exact, result, k := Consider(entry, size, result, s, i, k);
        if exact {
          return;
        }
        Walk(links, STACK_CACHE, s, i);
        i := i + 1;
        Walk(links, STACK_CACHE, s, i);
        entry := links.next[entry];
      }
    }

    /** The best fit among the cached blocks, if anything fits. */
    method FindBestFit(size: Size) returns (result: Option<Addr>, ghost k: nat)
      requires Valid()
      ensures result.None? <==> forall j: nat :: !BestFit(mem, lists.cache, size, j)
      ensures result.Some? ==> BestFit(mem, lists.cache, size, k) && result.value == lists.cache[k]
      ensures result.Some? ==> k < |lists.cache| && result.value in mem
      ensures result.Some? ==> forall j: nat :: BestFit(mem, lists.cache, size, j) ==>
        mem[lists.cache[j]].blockSize == mem[result.value].blockSize
    {
      hide Valid, BestFit, Searched;
      var exact;
      exact, result, k := ScanCache(size);
      if !exact {
        SearchEnd(mem, lists.cache, size, k);
      }
      if result.Some? {
        BestIsFree(mem, lists.cache, size, k);
      }
    }

    /** Stores to fields of a descriptor that say nothing about its block. */
    method SetFields(pd: Addr, d: Descriptor)
      requires Valid() && pd in mem
      requires var was := mem[pd];
        && d.userStack == was.userStack && d.stackBlock == was.stackBlock
        && d.blockSize == was.blockSize && d.guardSize == was.guardSize
      modifies this`mem
      ensures Valid() && mem == old(mem)[pd := d]
    {
      hide WellFormed, Books, Blocks, Watched;
      Relabelled(mem, mem[pd := d], sealed, lists, []);
      mem := mem[pd := d];
    }

    /** Dequeue a cached block, add it to the blocks in use, account for it. */
    method MoveToUsed(pd: Addr, ghost k: nat)
      requires Valid() && k < |lists.cache| && pd == lists.cache[k]
      modifies this`links, this`inFlight, this`lists, this`seen, this`actsize
      ensures Valid()
      ensures lists == Lists([pd] + old(lists).used, Without(old(lists).cache, k), old(lists).user)
    {
      hide WellFormed, Books, Blocks;
      TakenOff(links, mem, lists, Cache, k);
      StackListDel(pd, Cache, k);
      PutOn(mem, lists, pd, Used);
      StackListAdd(pd, Used);
      actsize := actsize - mem[pd].blockSize;
    }

    /** Reuse of a cached stack: the best fit, unless it is over four times the
        size asked for. */
    method GetCachedStack(size: Size) returns (result: Option<Addr>, ghost k: nat)
      requires Valid()
      modifies this
      ensures Valid()
      ensures result.None? <==> NoneReusable(old(mem), old(lists).cache, size)
      ensures result.None? ==> unchanged(this)
      ensures result.Some? ==>
        && Smallest(old(mem), old(lists).cache, size, k) && result.value == old(lists).cache[k]
        && lists == Lists([result.value] + old(lists).used, Without(old(lists).cache, k), old(lists).user)
        && mem == old(mem)[result.value := old(mem)[result.value].(setxidFutex := -1, cancelHandling := 0)]
        && sealed == old(sealed) && nthreads == old(nthreads)
    {
      hide *;
      result, k := FindBestFit(size);
      Reusable(mem, lists.cache, size, result, k);
      if result.None? || mem[result.value].blockSize > (4 * size) % WORD {
        result := None;
        return;
      }
      var pd := result.value;
      SetFields(pd, mem[pd].(setxidFutex := -1));
      MoveToUsed(pd, k);
      SetFields(pd, mem[pd].(cancelHandling := 0));
    }

    /** Unlinks and unmaps one free cached block. */
    method Release(pd: Addr, ghost k: nat)
      requires Valid() && k < |lists.cache| && pd == lists.cache[k]
      modifies this`links, this`inFlight, this`lists, this`seen, this`actsize, this`mem
      ensures Valid()
      ensures lists == old(lists).(cache := Without(old(lists).cache, k))
      ensures pd in old(mem) && mem == old(mem) - {pd}
      ensures actsize == old(actsize) - old(mem)[pd].blockSize
    {
      hide WellFormed, Books, Blocks;
      TakenOff(links, mem, lists, Cache, k);
      StackListDel(pd, Cache, k);
      InTransit(mem, lists, pd);
      actsize := actsize - mem[pd].blockSize;
      Unmapped(mem, sealed, lists, pd);
      UsedKnown(mem - {pd}, lists, []);
      Remap(mem - {pd});
    }

    /** Removes free blocks from the end of the cache until its size is within the
        limit. */
    method FreeStacks(limit: Size) returns (ghost k: nat)
      requires Valid()
      modifies this`links, this`inFlight, this`lists, this`seen, this`actsize, this`mem
      ensures Valid()
      ensures StopsAt(old(mem), old(lists).cache, limit, k)
      ensures lists == old(lists).(cache := Trimmed(old(mem), old(lists).cache, k))
      ensures mem == old(mem) - Elements(Removed(old(mem), old(lists).cache[k..]))
      ensures forall a :: a in old(mem) && a !in mem ==> a in old(lists).cache && old(mem)[a].tid <= 0
      ensures actsize <= limit || forall a :: a in lists.cache && a in mem ==> mem[a].tid > 0
    {
      hide Valid, Distinct, Kept, Removed, Sum, StopsAt, Elements, Books, Blocks, WellFormed, Trimming, Trimmed, Without;
      Facts();
      ghost var c0, m0 := lists.cache, mem;
      k := |c0|;
      ghost var i: nat := |c0|;
      TrimStart(m0, c0, limit);
      TrimHolds(m0, c0, limit, mem, c0, i, k);
      CacheWalk(m0, c0, i, k);
      var entry := links.prev[STACK_CACHE];
      var prev := links.prev[entry];
      while entry != STACK_CACHE
        invariant Valid() && Distinct(c0) && i <= k <= |c0|
        invariant lists == old(lists).(cache := lists.cache)
        invariant Trimming(m0, c0, limit, mem, lists.cache, i, k)
        invariant actsize == Sum(m0, Trimmed(m0, c0, k))
        invariant entry == At(STACK_CACHE, c0, i) && (i == 0 <==> entry == STACK_CACHE)
        invariant i > 0 ==> prev == At(STACK_CACHE, c0, i - 1)
        decreases i
      {
        var curr := entry;
        TrimHolds(m0, c0, limit, mem, lists.cache, i, k);
        TrimSees(m0, c0, limit, mem, lists.cache, i, k);
        if IsFree(mem, curr) {
          TrimStep(m0, c0, limit, mem, lists.cache, i, k);
          Release(entry, i - 1);
          k := i - 1;
          if actsize <= limit {
            OnlyFree(m0, c0, limit, k, mem);
            return;
          }
        }
        i := i - 1;
        TrimHolds(m0, c0, limit, mem, lists.cache, i, k);
        CacheWalk(m0, c0, i, k);
        entry := prev;
        prev := links.prev[entry];
      }
      TrimHolds(m0, c0, limit, mem, lists.cache, 0, k);
      TrimEnd(m0, c0, limit, mem, lists.cache, k);
      OnlyFree(m0, c0, limit, k, mem);
    }

    /** Walking the cache backwards over the entries not yet looked at. */
    lemma CacheWalk(m0: Memory, c0: seq<Addr>, i: nat, k: nat)
      requires Valid() && i <= k <= |c0| && lists.cache == Trimmed(m0, c0, k)
      ensures At(STACK_CACHE, c0, i) in links.prev && (i == 0 <==> At(STACK_CACHE, c0, i) == STACK_CACHE)
      ensures i > 0 ==> links.prev[At(STACK_CACHE, c0, i)] == At(STACK_CACHE, c0, i - 1)
      ensures k == |c0| ==> STACK_CACHE in links.prev && links.prev[STACK_CACHE] == At(STACK_CACHE, c0, k)
      ensures k == |c0| ==> Distinct(c0)
    {
      hide Valid;
      CacheRing();
      assert lists.cache[..i] == c0[..i];
      hide *;
      BackWalk(links, STACK_CACHE, lists.cache, c0, i);
      if k == |c0| {
        TrimmedNothing(m0, c0);
        RingEnds(links, STACK_CACHE, c0);
        RingDistinct(links, STACK_CACHE, c0);
      }
    }

    lemma CacheRing()
      requires Valid()
      ensures Ring(links, STACK_CACHE, lists.cache)
    {
      assert RingOf(links, lists, Cache);
    }

    /** Queues a block that is on no list; over the limit, trims the cache. */
    method QueueStack(pd: Addr) returns (ghost k: nat)
      requires Consistent([pd]) && actsize == Sum(mem, lists.cache)
      modifies this`links, this`inFlight, this`lists, this`seen, this`actsize, this`mem
      ensures Valid()
      ensures Queued(cfg, old(mem), old(lists), pd, mem, lists, k)
    {
      hide WellFormed, Books, Blocks, StopsAt;
      PutOn(mem, lists, pd, Cache);
      InTransit(mem, lists, pd);
      StackListAdd(pd, Cache);
      actsize := actsize + mem[pd].blockSize;
      k := |lists.cache|;
      if actsize > cfg.cacheMaxSize {
        k := FreeStacks(cfg.cacheMaxSize);
      }
    }

    /** Gives back a stack: a library-owned one to the cache, a user-provided one
        to its owner. */
    method DeallocateStack(pd: Addr, ghost j: nat) returns (ghost k: nat)
      requires Valid() && pd in mem
      requires var s := if mem[pd].userStack then lists.user else lists.used; j < |s| && s[j] == pd
      modifies this`links, this`inFlight, this`lists, this`seen, this`actsize, this`mem
      ensures Valid()
      ensures old(mem)[pd].userStack ==>
        lists == old(lists).(user := Without(old(lists).user, j)) && mem == old(mem) && actsize == old(actsize)
      ensures !old(mem)[pd].userStack ==>
        Queued(cfg, old(mem), old(lists).(used := Without(old(lists).used, j)), pd, mem, lists, k)
    {
      hide WellFormed, Books, Blocks, Queued;
      ghost var w := if mem[pd].userStack then User else Used;
      TakenOff(links, mem, lists, w, j);
      StackListDel(pd, w, j);
      k := 0;
      if !mem[pd].userStack {
        k := QueueStack(pd);
      }
    }

    /** A fresh block.  It is mapped inaccessible when a guard is asked for, and
        everything behind the guard is then opened. */
    method MapStack(total: Size, guard: Size, ans: Answers) returns (pd: Option<Addr>)
      requires Valid() && guard <= total && total >= cfg.tcbSize + cfg.tlsAlign
      requires ans.mmap.Some? ==> Grants(mem, lists, ans.mmap.value, MapSize(cfg, total))
      modifies this
      ensures Valid() && nthreads == old(nthreads)
      ensures pd.None? <==> CannotMap(ans, guard)
      ensures pd.None? ==> mem == old(mem) && lists == old(lists)
      ensures pd.Some? ==>
        && ans.mmap.Some? && total <= MapSize(cfg, total)
        && pd.value == DescriptorAt(cfg, ans.mmap.value, MapSize(cfg, total)) && pd.value !in old(mem)
        && mem == old(mem)[pd.value := NewDescriptor(ans.mmap.value, MapSize(cfg, total), guard, false)]
        && lists == old(lists).(used := [pd.value] + old(lists).used)
    {
      hide WellFormed, Books, Blocks;
      var size := MapSize(cfg, total);
      if ans.mmap.None? {
        return None;
      }
      MapSizeGrows(cfg, total);
      var block := ans.mmap.value;
      var prot := Mapped(guard > 0);
      if guard > 0 {
        if !ans.setupOk {
          return None;
        }
        prot := Protect(prot, guard, size - guard, false);
      }
      if !ans.tlsOk {
        return None;
      }
      DescriptorInside(cfg, block, size);
      var d := DescriptorAt(cfg, block, size);
      Admit(d, NewDescriptor(block, size, guard, false), prot);
      return Some(d);
    }

    /** A new block joins the blocks in use. */
    method Admit(pd: Addr, d: Descriptor, p: Protection)
      requires Valid() && Grants(mem, lists, d.stackBlock, d.blockSize) && !d.userStack && pd % 2 == 0
      requires d.stackBlock <= pd < d.stackBlock + d.blockSize
      requires d.guardSize <= d.blockSize && SealsFirst(p, d.guardSize, d.blockSize)
      modifies this`links, this`inFlight, this`lists, this`seen, this`mem, this`sealed
      ensures Valid() && pd !in old(mem)
      ensures mem == old(mem)[pd := d] && lists == old(lists).(used := [pd] + old(lists).used)
    {
      hide WellFormed, Books, Blocks;
      FreshInTransit(cfg, mem, sealed, lists, pd, d, p);
      UsedKnown(mem[pd := d], lists, [pd]);
      Remap(mem[pd := d]);
      sealed := sealed[pd := p];
      PutOn(mem, lists, pd, Used);
      StackListAdd(pd, Used);
    }

    /** Makes the guard at least `guard`, and gives memory of a larger one back when
        otherwise less than was asked for would remain.  When the kernel refuses,
        the block is unmapped. */
    method FitGuard(pd: Addr, guard: Size, reqsize: Size, guardOk: bool) returns (ok: bool)
      requires Valid() && pd in mem && lists.used != [] && lists.used[0] == pd
      requires guard <= reqsize <= mem[pd].blockSize
      modifies this
      ensures Valid() && nthreads == old(nthreads)
      ensures old(mem)[pd].guardSize == guard ==> ok
      ensures ok ==> lists == old(lists) && mem.Keys == old(mem).Keys
      ensures ok ==> guard <= mem[pd].guardSize && reqsize - guard <= mem[pd].blockSize - mem[pd].guardSize
      ensures ok ==> mem == old(mem)[pd := old(mem)[pd].(guardSize := mem[pd].guardSize)]
      ensures ok ==> mem[pd].guardSize in {guard, old(mem)[pd].guardSize}
      ensures !ok ==> lists == old(lists).(used := old(lists).used[1..]) && mem == old(mem) - {pd} && !guardOk
    {
      var size, was := mem[pd].blockSize, mem[pd].guardSize;
      UsedBlock(0);
      ok := true;
      if guard > was {
        if !guardOk {
          Drop(pd);
          return false;
        }
        SetGuard(pd, guard, Protect(sealed[pd], 0, guard, true));
      } else if was - guard > size - reqsize {
        if !guardOk {
          Drop(pd);
          return false;
        }
        SetGuard(pd, guard, Protect(sealed[pd], guard, was - guard, false));
      }
    }

    lemma UsedBlock(j: nat)
      requires Valid() && j < |lists.used|
      ensures lists.used[j] in mem && !mem[lists.used[j]].userStack && BlockOk(mem, sealed, lists.used[j])
    {
      assert lists.used[j] in lists.used;
    }

    method SetGuard(pd: Addr, guard: Size, p: Protection)
      requires Valid() && pd in mem && guard <= mem[pd].blockSize
      requires SealsFirst(p, guard, mem[pd].blockSize)
      modifies this`mem, this`sealed
      ensures Valid() && mem == old(mem)[pd := old(mem)[pd].(guardSize := guard)]
    {
      hide WellFormed, Books, Blocks;
      Reguarded(mem, sealed, lists, pd, guard, p);
      mem, sealed := mem[pd := mem[pd].(guardSize := guard)], sealed[pd := p];
    }

    /** The stack that caused trouble is not used any more. */
    method Drop(pd: Addr)
      requires Valid() && lists.used != [] && lists.used[0] == pd
      modifies this`links, this`inFlight, this`lists, this`seen, this`mem
      ensures Valid()
      ensures lists == old(lists).(used := old(lists).used[1..]) && mem == old(mem) - {pd}
    {
      hide WellFormed, Books, Blocks;
      TakenOff(links, mem, lists, Used, 0);
      StackListDel(pd, Used, 0);
      InTransit(mem, lists, pd);
      Unmapped(mem, sealed, lists, pd);
      UsedKnown(mem - {pd}, lists, []);
      Remap(mem - {pd});
    }

    /** The list of user-provided stacks; its additions are not recorded. */
    method AdoptUserStack(pd: Addr, d: Descriptor, tlsOk: bool)
      requires Valid() && d.userStack && pd > STACK_USER && pd % 2 == 0
      requires Foreign(lists, pd) && (pd in mem ==> mem[pd].userStack)
      modifies this`mem, this`links, this`inFlight, this`lists, this`seen
      ensures Valid() && mem == old(mem)[pd := d]
      ensures lists == if tlsOk then old(lists).(user := [pd] + old(lists).user) else old(lists)
    {
      hide Books, Blocks, WellFormed;
      UserListed(mem, sealed, lists, pd, d);
      UsedKnown(mem[pd := d], lists, []);
      Remap(mem[pd := d]);
      if tlsOk {
        UserListAdd(pd);
      }
    }

    /** list_add on the list of user-provided stacks; a fork at any moment of it
        cuts this very addition. */
    method UserListAdd(elem: Addr)
      requires WellFormed(links, lists) && Foreign(lists, elem) && inFlight == 0 && Watched(seen, Now())
      requires forall a :: a in lists.used ==> a in mem
      modifies this`links, this`inFlight, this`lists, this`seen
      ensures inFlight == 0 && lists == old(lists).(user := [elem] + old(lists).user)
      ensures WellFormed(links, lists)
      ensures Watched(seen, Now()) && old(seen) <= seen && |seen| == |old(seen)| + 4
      ensures AllCuts(old(links), old(lists), seen, |old(seen)|)
    {
      ghost var m0, l := links, lists;
      AddKeeps(links, lists, elem, User);
      UserAddCuts(m0, l, elem, mem.Keys);
      NoneYet(m0, l, seen);
      hide WellFormed, Watched, AllCuts, CutAt, Foreign, Adding, ListAdd;
      ListAddStores(elem, STACK_USER, l, s => InUserAdd(elem, s));
      lists := lists.(user := [elem] + lists.user);
    }

    /** A stack of the size asked for (the default size for 0). */
    function Asked(attr: Attr): Size
      reads this
    {
      if attr.stackSize != 0 then attr.stackSize else cfg.defaultStackSize
    }

    /** What the caller and the kernel bring: a user-provided block holds nobody
        else's descriptor, and mmap does not hand out memory in use. */
    ghost predicate Serves(attr: Attr, ans: Answers)
      requires cfg.Sane()
      reads this
    {
      if attr.onUserStack then
        && attr.stackAddr >= cfg.tcbSize
        && (var pd := DescriptorAt(cfg, attr.stackAddr, 0);
            pd > STACK_USER && Foreign(lists, pd) && (pd in mem ==> mem[pd].userStack))
      else
        (var p := PlanStack(cfg, Asked(attr), attr.guardSize);
         p.Go? && ans.mmap.Some? ==> Grants(mem, lists, ans.mmap.value, MapSize(cfg, p.total)))
    }

    /** A size given with the memory must leave the minimal rest beside static TLS. */
    predicate UserSizeRejected(attr: Attr) {
      attr.stackSize != 0 && attr.stackSize < cfg.staticTlsSize + MINIMAL_REST_STACK
    }

    /** What alignment costs at the top of the memory. */
    function TopGap(attr: Attr): nat
      requires cfg.Sane() && attr.stackAddr >= cfg.tcbSize
    {
      (attr.stackAddr - cfg.tcbSize) % cfg.tlsAlign
    }

    /** A stack on memory the caller provides. */
    method AllocateOnUserStack(attr: Attr, ans: Answers) returns (out: Outcome)
      requires Valid() && attr.onUserStack && Serves(attr, ans)
      modifies this`mem, this`links, this`inFlight, this`lists, this`seen
      ensures Valid()
      ensures out == Failed(EINVAL) <==> UserSizeRejected(attr)
      ensures out.Aborted? <==> !UserSizeRejected(attr) && Asked(attr) <= TopGap(attr) + cfg.tcbSize
      ensures out == Failed(ENOMEM) <==> !UserSizeRejected(attr) && TopGap(attr) + cfg.tcbSize < Asked(attr) && !ans.tlsOk
      ensures out == Failed(EINVAL) || out.Aborted? ==> unchanged(this)
      ensures out.Failed? ==> lists == old(lists)
      ensures out.Done? ==>
        && out.pd in mem && mem == old(mem)[out.pd := mem[out.pd]]
        && mem[out.pd] == NewDescriptor(Sub64(attr.stackAddr, Asked(attr)), Asked(attr), 0, true)
        && lists == old(lists).(user := [out.pd] + old(lists).user)
        && out.pd + cfg.tcbSize <= attr.stackAddr < out.pd + cfg.tcbSize + cfg.tlsAlign
        && attr.stackAddr < out.pd + Asked(attr)
    {
      if attr.stackSize != 0 && attr.stackSize < cfg.staticTlsSize + MINIMAL_REST_STACK {
        return Failed(EINVAL);
      }
      var size := Asked(attr);
      var adj := (attr.stackAddr - cfg.tcbSize) % cfg.tlsAlign;
      if size <= adj + cfg.tcbSize {
        return Aborted;
      }
      var pd := attr.stackAddr - cfg.tcbSize - adj;
      EvenAligned(attr.stackAddr - cfg.tcbSize, cfg.tlsAlign);
      AdoptUserStack(pd, NewDescriptor(Sub64(attr.stackAddr, size), size, 0, true), ans.tlsOk);
      return if ans.tlsOk then Done(pd) else Failed(ENOMEM);
    }

    /** A block of the planned size: from the cache, or a new one. */
    method TakeStack(total: Size, guard: Size, ans: Answers) returns (pd: Option<Addr>, ghost k: nat)
      requires Valid() && guard <= total && total >= cfg.tcbSize + cfg.tlsAlign
      requires ans.mmap.Some? ==> Grants(mem, lists, ans.mmap.value, MapSize(cfg, total))
      modifies this
      ensures Valid() && nthreads == old(nthreads)
      ensures pd.None? <==> NoneReusable(old(mem), old(lists).cache, total) && CannotMap(ans, guard)
      ensures pd.Some? ==> (pd.value !in old(mem) <==> NoneReusable(old(mem), old(lists).cache, total))
      ensures pd.Some? && pd.value in old(mem) ==> Smallest(old(mem), old(lists).cache, total, k)
      ensures pd.None? ==> mem == old(mem) && lists == old(lists)
      ensures pd.Some? ==> Taken(old(mem), old(lists), pd.value, k, mem, lists)
      ensures pd.Some? ==> total <= mem[pd.value].blockSize
      ensures pd.Some? && pd.value !in old(mem) ==> mem[pd.value].guardSize == guard && Blank(mem[pd.value])
      ensures pd.Some? ==> mem[pd.value].setxidFutex == -1 && mem[pd.value].cancelHandling == 0
    {
      hide Valid, Smallest, NoneReusable, CannotMap, Grants, MapSize, DescriptorAt;
      ghost var m0, l0 := mem, lists;
      pd, k := GetCachedStack(total);
      if pd.None? {
        pd := MapStack(total, guard, ans);
      } else {
        SmallestIsFree(m0, l0.cache, total, k);
      }
    }

    /** allocate_stack.  A library-owned stack has at least the page-rounded guard
        and, beside it, at least the aligned size; it is a block whose thread is
        gone or a new one; and a failure changes nothing, except that a cached
        block whose guard could not be fitted is lost. */
    method AllocateStack(attr: Attr, ans: Answers) returns (out: Outcome, ghost k: nat)
      requires Valid() && !attr.onUserStack && Serves(attr, ans)
      modifies this
      ensures Valid() && nthreads == old(nthreads)
      ensures out.Aborted? <==> PlanStack(cfg, Asked(attr), attr.guardSize).Abort?
      ensures PlanStack(cfg, Asked(attr), attr.guardSize).Reject? ==> out == Failed(EINVAL)
      ensures !PlanStack(cfg, Asked(attr), attr.guardSize).Go? ==> unchanged(this)
      ensures var p := PlanStack(cfg, Asked(attr), attr.guardSize); p.Go? ==>
        Served(old(mem), old(lists).cache, p.total, p.guard, ans, k, out)
      ensures out.Done? ==> Taken(old(mem), old(lists), out.pd, k, mem, lists)
      ensures out.Done? ==>
        Roomy(mem, sealed, out.pd, AlignDown(Asked(attr), cfg.tlsAlign), RoundUp(attr.guardSize, cfg.pageSize))
      ensures out.Done? ==> Reset(mem, out.pd, RoundUp(attr.guardSize, cfg.pageSize))
      ensures out.Done? && out.pd !in old(mem) ==> Blank(mem[out.pd])
      ensures out.Failed? && (mem != old(mem) || lists != old(lists)) ==>
        !ans.guardOk && Lost(old(mem), old(lists), k, mem, lists)
    {
      k := 0;
      var plan := PlanStack(cfg, Asked(attr), attr.guardSize);
      PlanExact(cfg, Asked(attr), attr.guardSize);
      if plan.Abort? {
        return Aborted, k;
      }
      if plan.Reject? {
        return Failed(EINVAL), k;
      }
      out, k := AllocatePlanned(plan.guard, plan.total, ans);
    }

    method AllocatePlanned(guard: Size, total: Size, ans: Answers) returns (out: Outcome, ghost k: nat)
      requires Valid() && guard <= total && total >= cfg.tcbSize + cfg.tlsAlign
      requires ans.mmap.Some? ==> Grants(mem, lists, ans.mmap.value, MapSize(cfg, total))
      modifies this
      ensures Valid() && nthreads == old(nthreads) && !out.Aborted?
      ensures Served(old(mem), old(lists).cache, total, guard, ans, k, out)
      ensures out.Done? ==> Taken(old(mem), old(lists), out.pd, k, mem, lists)
      ensures out.Done? ==> Roomy(mem, sealed, out.pd, total - guard, guard)
      ensures out.Done? ==> Reset(mem, out.pd, guard) && (out.pd !in old(mem) ==> Blank(mem[out.pd]))
      ensures out.Failed? && (mem != old(mem) || lists != old(lists)) ==>
        !ans.guardOk && Lost(old(mem), old(lists), k, mem, lists)
    {
      hide Valid, Grants, MapSize, BlockOk, NoneReusable, CannotMap, Smallest;
      var pd;
      pd, k := TakeStack(total, guard, ans);
      if pd.None? {
        return Failed(ans.errno), k;
      }
      var ok := FitGuard(pd.value, guard, total, ans.guardOk);
      if !ok {
        return Failed(ans.errno), k;
      }
      SetFields(pd.value, mem[pd.value].(reportedGuardSize := guard));
      UsedBlock(0);
      return Done(pd.value), k;
    }

    // ----- after a fork, in the child

    /** Completes or replays the list primitive the fork interrupted. */
    method RepairInFlight(ghost m0: Links, ghost l: Lists, ghost c: Cut)
      requires WellFormed(m0, l) && Possible(l, c)
      requires links == Snapshot(m0, l, c) && inFlight == InFlight(l, c)
      modifies this`links
      ensures Repaired(links, l, c)
    {
      match c {
        case InAdd(e, w, s) => AddRepaired(m0, l, e, w, s);
        case InDel(w, k, s) => DelRepaired(m0, l, w, k, s);
        case _ => UnrecordedRepaired(m0, l, c);
      }
      hide WellFormed, Repaired, Snapshot, Foreign;
      if inFlight != 0 {
        if inFlight % 2 == 1 {
          var elem := inFlight - 1;
          var torn := TornList(links);
          if torn != NULL {
            assert links.prev[links.next[torn]] == elem;
            links := SetNext(links, elem, links.next[torn]);
            links := SetPrev(links, elem, torn);
            links := SetNext(links, torn, elem);
          }
        } else {
          var elem := inFlight;
          links := SetPrev(links, links.next[elem], links.prev[elem]);
          links := SetNext(links, links.prev[elem], links.next[elem]);
        }
      }
    }

    method RecycleOne(a: Addr)
      requires a in mem
      modifies this`mem, this`actsize
      ensures mem == old(mem)[a := Recycled(old(mem)[a])]
      ensures actsize == Add64(old(actsize), old(mem)[a].blockSize)
    {
      actsize := Add64(actsize, mem[a].blockSize);
      var d := ClearSpecific(mem[a].(tid := 0));
      RecycledTid(mem[a]);
      mem := mem[a := d];
    }

    /** Marks every stack in use, except the running thread's, as free. */
    method MarkFree(self: Addr, ghost used: seq<Addr>)
      requires Ring(links, STACK_USED, used) && forall a :: a in used ==> a in mem
      modifies this`mem, this`actsize
      ensures RecycledAll(old(mem), mem, used, self)
      ensures actsize == (old(actsize) + Sum(old(mem), Others(used, self))) % WORD
    {
      hide Ring, Distinct, Others, Sum, Recycled, RecycledAll, Add64;
      ghost var i, m0 := 0 as nat, mem;
      RingDistinct(links, STACK_USED, used);
      Walk(links, STACK_USED, used, 0);
      assert forall j: nat :: j < |used| ==> used[j] in used;
      OthersNone(m0, used, self);
      RecycledNone(m0, used, self);
      var runp := links.next[STACK_USED];
      while runp != STACK_USED
        invariant i <= |used| && runp == Entry(STACK_USED, used, i) && (runp == STACK_USED <==> i == |used|)
        invariant RecycledAll(m0, mem, used[..i], self)
        invariant actsize == (old(actsize) + Sum(m0, Others(used[..i], self))) % WORD
        decreases |used| - i
      {
        var curp := runp;
        MarkStep(m0, mem, used, self, i, old(actsize));
        if curp != self {
          RecycleOne(curp);
        }
        Walk(links, STACK_USED, used, i);
        i := i + 1;
        Walk(links, STACK_USED, used, i);
        runp := links.next[runp];
      }
      assert used[..i] == used;
    }

    /** __reclaim_stacks in the child of a fork that struck anywhere.  The lists are
        the contents decided by the cut, everything in use recycled and cached
        except the running thread, which is alone on its proper list. */
    method ReclaimStacks(self: Addr, ghost m0: Links, ghost c: Cut)
      requires CutAt(m0, lists, c, Now())
      requires self > STACK_USER && self in mem
      requires var r := Resolved(lists, c); if mem[self].userStack then self in r.user else self in r.used
      modifies this
      ensures var r := Resolved(old(lists), c);
        && lists == Reclaimed(r, self, old(mem)[self].userStack)
        && RecycledAll(old(mem), mem, r.used, self)
        && actsize == (old(actsize) + Sum(old(mem), Others(r.used, self))) % WORD
      ensures WellFormed(links, lists) && inFlight == 0 && nthreads == 1
      ensures c.Quiet? && old(Valid()) ==> Valid()
    {
      hide Valid, Consistent, WellFormed, Books, Blocks, Snapshot, Sum, RecycledAll, Resettable, Reclaimed;
      ghost var was, mem0, r := links, mem, Resolved(lists, c);
      assert forall a :: a in r.used ==> a in mem;
      if Valid() {
        Facts();
      }
      var user := mem[self].userStack;
      RepairAndMark(self, m0, c);
      if c.Quiet? && old(Valid()) {
        ReclaimBooks(was, mem0, mem, sealed, lists, self, user);
      }
      ResetLists(self, user, r);
      nthreads := 1;
      inFlight := 0;
      seen := [Now()];
      ReclaimedUsed(mem0, mem, r, self, user);
      QuietWatched(links, lists, mem.Keys);
      if c.Quiet? && old(Valid()) {
        Establish();
      }
    }

    lemma Facts()
      requires Valid()
      ensures cfg.Sane() && WellFormed(links, lists) && Books(mem, lists, []) && Blocks(mem, sealed)
      ensures inFlight == 0 && Watched(seen, Now()) && actsize == Sum(mem, lists.cache)
    {
    }

    lemma Establish()
      requires cfg.Sane() && WellFormed(links, lists) && Books(mem, lists, []) && Blocks(mem, sealed)
      requires inFlight == 0 && Watched(seen, Now()) && actsize == Sum(mem, lists.cache)
      ensures Valid()
    {
    }

    method RepairAndMark(self: Addr, ghost m0: Links, ghost c: Cut)
      requires WellFormed(m0, lists) && Possible(lists, c)
      requires links == Snapshot(m0, lists, c) && inFlight == InFlight(lists, c) && self in mem
      requires var r := Resolved(lists, c); if mem[self].userStack then self in r.user else self in r.used
      requires forall a :: a in Resolved(lists, c).used ==> a in mem
      modifies this`links, this`mem, this`actsize
      ensures var r := Resolved(lists, c);
        && RecycledAll(old(mem), mem, r.used, self)
        && actsize == (old(actsize) + Sum(old(mem), Others(r.used, self))) % WORD
        && Resettable(links, r, self, old(mem)[self].userStack)
    {
      hide WellFormed, Repaired, Removable, Snapshot, Sum, Possible, Resolved, RecycledAll;
      RepairInFlight(m0, lists, c);
      SelfRemovable(links, lists, c, self, mem[self].userStack);
      MarkFree(self, Resolved(lists, c).used);
    }

    /** Splices the stacks in use onto the cache and starts the other two lists
        afresh with the running thread. */
    method ResetLists(self: Addr, user: bool, ghost l: Lists)
      requires self > STACK_USER && Resettable(links, l, self, user)
      modifies this`links, this`lists
      ensures lists == Reclaimed(l, self, user) && WellFormed(links, lists)
    {
      ReclaimShape(links, l, self, user);
      hide *;
      links := ListSplice(links, STACK_USED, STACK_CACHE);
      links := ListDel(links, self);
      links := InitHead(links, STACK_USED);
      links := InitHead(links, STACK_USER);
      links := ListAdd(links, self, if user then STACK_USER else STACK_USED);
      lists := Reclaimed(l, self, user);
    }
  }
}
