/** The size and guard computations of allocate_stack, in 64-bit arithmetic. */
module StackArithmetic {

  const WORD := 0x1_0000_0000_0000_0000

  const HALF_WORD := 0x8000_0000_0000_0000

  type Size = n: nat | n < WORD

  const MINIMAL_REST_STACK: Size := 4096

  function Add64(x: Size, y: Size): Size { (x + y) % WORD }

  function Sub64(x: Size, y: Size): Size { (x - y) % WORD }

  /** x & ~(a - 1), for the powers of two used as alignments. */
  function AlignDown(x: nat, a: nat): (r: nat)
    requires a > 0
    ensures r <= x < r + a && r % a == 0
  {
    AlignmentExact(x, a);
    x - x % a
  }

  lemma AlignmentExact(x: nat, a: nat)
    requires a > 0
    ensures (x - x % a) % a == 0
  {
    var q := x / a;
    assert x - x % a == q * a;
    MultipleOf(q, a);
  }

  lemma OrderedProducts(p: int, q: int, a: nat)
    requires p <= q
    ensures p * a <= q * a
  {
  }

  lemma MultipleOf(q: nat, a: nat)
    requires a > 0
    ensures (q * a) % a == 0
  {
    var d, r := (q * a) / a, (q * a) % a;
    assert q * a == d * a + r;
    if q < d {
      OrderedProducts(q + 1, d, a);
    } else if q > d {
      OrderedProducts(d + 1, q, a);
    }
  }

  /** The system's parameters that enter the computation. */
  datatype Config = Config(pageSize: Size, tlsAlign: Size, staticTlsSize: Size, tcbSize: Size,
                           aliasing: Size, cacheMaxSize: Size, defaultStackSize: Size) {
    /** Powers of two where the code takes masks, and block sizes in reach of a
        machine: what the initialisation of the library establishes. */
    predicate Sane() {
      && pageSize > 0 && WORD % pageSize == 0
      && tlsAlign > 0 && tlsAlign % 2 == 0 && tlsAlign <= MINIMAL_REST_STACK
      && 0 < tcbSize <= staticTlsSize
      && staticTlsSize + MINIMAL_REST_STACK + pageSize < HALF_WORD
      && (aliasing != 0 ==> pageSize <= aliasing && WORD % aliasing == 0)
    }
  }

  /** The guard request rounded to pages, wrapping. */
  function RoundGuard(guard: Size, page: Size): Size
    requires page > 0
  {
    AlignDown(Add64(guard, page - 1), page)
  }

  /** The same without a word size. */
  function RoundUp(x: nat, page: nat): (r: nat)
    requires page > 0
    ensures x <= r < x + page && r % page == 0
  {
    AlignDown(x + page - 1, page)
  }

  /** The two tests for arithmetic overflow. */
  predicate GuardOverflows(size: Size, guard: Size, page: Size)
    requires page > 0
  {
    var g := RoundGuard(guard, page);
    g < guard || Add64(size, g) < g
  }

  /** The test whether what remains beside the guard is enough. */
  predicate TooSmall(total: Size, g: Size, cfg: Config)
    requires cfg.pageSize > 0
  {
    total < AlignDown(Add64(Add64(Add64(g, cfg.staticTlsSize), MINIMAL_REST_STACK), cfg.pageSize - 1), cfg.pageSize)
  }

  lemma MultiplesApart(x: nat, y: nat, a: nat)
    requires a > 0 && x % a == 0 && y % a == 0 && x < y + a
    ensures x <= y
  {
    var p, q := x / a, y / a;
    assert x == p * a && y == q * a;
    if p > q {
      OrderedProducts(q + 1, p, a);
    } else {
      OrderedProducts(p, q, a);
    }
  }

  lemma RoundGuardExact(guard: Size, page: Size)
    requires page > 0 && WORD % page == 0
    ensures RoundUp(guard, page) < WORD ==> RoundGuard(guard, page) == RoundUp(guard, page)
    ensures RoundUp(guard, page) >= WORD ==> RoundGuard(guard, page) < guard
  {
    if guard + page - 1 < WORD {
      assert RoundUp(guard, page) < WORD;
    } else {
      MultiplesApart(WORD, RoundUp(guard, page), page);
    }
  }

  /** The sum wraps exactly when it is smaller than one of its terms. */
  lemma WrapSeen(x: Size, y: Size)
    ensures Add64(x, y) < y <==> x + y >= WORD
    ensures x + y < WORD ==> Add64(x, y) == x + y
  {
  }

  /** The two tests fire exactly when size plus rounded guard does not fit. */
  lemma OverflowTestsExact(size: Size, guard: Size, page: Size)
    requires page > 0 && WORD % page == 0
    ensures GuardOverflows(size, guard, page) <==> size + RoundUp(guard, page) >= WORD
    ensures !GuardOverflows(size, guard, page) ==>
      && RoundGuard(guard, page) == RoundUp(guard, page)
      && Add64(size, RoundGuard(guard, page)) == size + RoundUp(guard, page)
  {
    hide RoundGuard, RoundUp, Add64;
    RoundGuardExact(guard, page);
    WrapSeen(size, RoundGuard(guard, page));
  }

  /** What the test for too small a stack means to decide. */
  predicate LacksRoom(total: Size, g: Size, cfg: Config)
    requires cfg.pageSize > 0
  {
    total < RoundUp(g + cfg.staticTlsSize + MINIMAL_REST_STACK, cfg.pageSize)
  }

  lemma AddTwice(x: Size, y: Size, z: Size)
    requires y + z < WORD
    ensures Add64(Add64(x, y), z) == Add64(x, y + z)
  {
    assert Add64(x, y) == if x + y < WORD then x + y else x + y - WORD;
  }

  /** The test with its right-hand side as one wrapping sum. */
  lemma TooSmallIs(total: Size, g: Size, cfg: Config)
    requires cfg.Sane()
    ensures TooSmall(total, g, cfg) <==>
      total < AlignDown((g + cfg.staticTlsSize + MINIMAL_REST_STACK + cfg.pageSize - 1) % WORD, cfg.pageSize)
  {
    AddTwice(g, cfg.staticTlsSize, MINIMAL_REST_STACK);
    AddTwice(g, cfg.staticTlsSize + MINIMAL_REST_STACK, cfg.pageSize - 1);
  }

  lemma RoomTestExact(total: Size, need: nat, page: Size)
    requires page > 0 && WORD % page == 0 && need + page - 1 < WORD + total
    ensures var test := total < AlignDown((need + page - 1) % WORD, page);
      && (test ==> total < RoundUp(need, page))
      && ((test <==> total < RoundUp(need, page)) <==> need + page - 1 < WORD)
  {
    if need + page - 1 >= WORD {
      MultiplesApart(WORD, RoundUp(need, page), page);
      assert (need + page - 1) % WORD == need + page - 1 - WORD;
    } else {
      assert (need + page - 1) % WORD == need + page - 1;
    }
  }

  /** The sum in that test can wrap, and then it lets every stack pass; it decides
      rightly exactly when the sum does not wrap. */
  lemma TooSmallExact(total: Size, g: Size, cfg: Config)
    requires cfg.Sane() && g <= total
    ensures (TooSmall(total, g, cfg) <==> LacksRoom(total, g, cfg))
       <==> g + cfg.staticTlsSize + MINIMAL_REST_STACK + cfg.pageSize - 1 < WORD
    ensures TooSmall(total, g, cfg) ==> LacksRoom(total, g, cfg)
  {
    hide TooSmall, AlignDown, RoundUp;
    TooSmallIs(total, g, cfg);
    RoomTestExact(total, g + cfg.staticTlsSize + MINIMAL_REST_STACK, cfg.pageSize);
  }

  // ----- the request as a whole

  /** What a request for a library-owned stack comes to: the failed assertion on
      an empty stack, EINVAL, or a guard and a total size to look for. */
  datatype Plan = Abort | Reject | Go(guard: Size, total: Size)

  function PlanStack(cfg: Config, stackSize: Size, guardSize: Size): Plan
    requires cfg.Sane()
  {
    var size := AlignDown(stackSize, cfg.tlsAlign);
    var guard := RoundGuard(guardSize, cfg.pageSize);
    if size == 0 then Abort
    else if GuardOverflows(size, guardSize, cfg.pageSize) then Reject
    else if TooSmall(Add64(size, guard), guard, cfg) then Reject
    else Go(guard, Add64(size, guard))
  }

  lemma SmallIsEmpty(x: nat, a: nat)
    requires a > 0
    ensures AlignDown(x, a) == 0 <==> x < a
  {
  }

  lemma RoomForDescriptor(total: Size, g: Size, cfg: Config)
    requires cfg.Sane() && g <= total && !TooSmall(total, g, cfg)
    ensures total >= cfg.tcbSize + cfg.tlsAlign
  {
    TooSmallExact(total, g, cfg);
  }

  /** A plan grants the page-rounded guard and, beside it, the aligned size, with
      room for the descriptor; a request is turned down only when it cannot be
      represented or leaves no room. */
  lemma PlanExact(cfg: Config, stackSize: Size, guardSize: Size)
    requires cfg.Sane()
    ensures var p := PlanStack(cfg, stackSize, guardSize);
      var size, guard := AlignDown(stackSize, cfg.tlsAlign), RoundUp(guardSize, cfg.pageSize);
      && (p.Abort? <==> stackSize < cfg.tlsAlign)
      && (p.Go? ==> p.guard == guard && p.total == size + guard
                    && p.total >= cfg.tcbSize + cfg.tlsAlign)
      && (p.Go? && guard + cfg.staticTlsSize + MINIMAL_REST_STACK + cfg.pageSize - 1 < WORD ==>
            !LacksRoom(p.total, guard, cfg))
      && (p.Reject? ==> size + guard >= WORD || LacksRoom(size + guard, guard, cfg))
  {
    var size := AlignDown(stackSize, cfg.tlsAlign);
    SmallIsEmpty(stackSize, cfg.tlsAlign);
    OverflowTestsExact(size, guardSize, cfg.pageSize);
    var guard := RoundGuard(guardSize, cfg.pageSize);
    if size != 0 && !GuardOverflows(size, guardSize, cfg.pageSize) {
      var total := Add64(size, guard);
      hide GuardOverflows, AlignDown, RoundGuard, Add64;
      TooSmallExact(total, guard, cfg);
      if !TooSmall(total, guard, cfg) {
        RoomForDescriptor(total, guard, cfg);
      }
    }
  }

  /** Such a wrap: a request for 16384 bytes behind a guard of nearly the whole
      address space is accepted, though static TLS alone needs more than that. */
  lemma TooSmallMissed()
    ensures var cfg := Config(4096, 64, 65536, 2304, 0, 41943040, 8388608);
      var p := PlanStack(cfg, 16384, WORD - 20480);
      cfg.Sane() && p.Go? && LacksRoom(p.total, p.guard, cfg)
  {
  }
}
