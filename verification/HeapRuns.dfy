/** kmalloc and kfree called by any number of threads, with kmalloc_spinlock dropped
    around alloc_kpages and free_kpages: the locked regions interleave in any order. The
    heap refines an allocator that hands out disjoint blocks. */
module HeapRuns {
  import opened HeapState
  import opened HeapOps
  import opened HeapGrow
  import opened HeapLink
  import opened HeapRegions
  import opened Runs

  /** Where a thread is between its locked regions. */
  datatype Pc =
    | Idle
    | NeedPage(sz: nat, blk: nat)
    | HavePage(sz: nat, blk: nat, page: nat)
    | NeedRootPage(sz: nat, blk: nat, page: nat, slot: Slot)
    | GotRootPage(sz: nat, blk: nat, page: nat, slot: Slot, va: nat)
    | FreeSpare(sz: nat, blk: nat, page: nat, slot: Slot, va: nat)
    | HaveSlot(sz: nat, blk: nat, page: nat, slot: Slot)
    | GivePage(page: nat, refused: bool)
    | GiveBig(ptr: nat)

  /** The heap, the threads, and the blocks in clients' hands with their sizes. */
  datatype State = State(h: Heap, pc: map<nat, Pc>, client: map<nat, nat>)

  /** What a step is to clients: nothing, kmalloc returning a, kmalloc returning NULL, or kfree. */
  datatype Event = Quiet | Gave(sz: nat, a: nat) | Refused | Released(ptr: nat)

  datatype Action =
    | Kmalloc(sz: nat, blk: nat, ret: Option<nat>)
    | GetPage(va: nat)
    | GrowHeap(growth: Growth)
    | GetRootPage(va: nat)
    | UseRootPage(rooting: Rooting)
    | ReturnSpare
    | UseSlot(a: nat)
    | ReturnPage
    | KmallocPages(sz: nat, va: nat)
    | Kfree(ptr: nat, freeing: Freeing)
    | ReturnBig
    | Write(a: nat, v: nat)

  /** (sz + PAGE_SIZE - 1) / PAGE_SIZE in the 32 bits of size_t. */
  function NPages(sz: nat): nat {
    ((sz + PAGE_SIZE - 1) % 0x1_0000_0000) / PAGE_SIZE
  }

  /** A whole-page request is rounded up to enough pages exactly when the sum does not wrap. */
  lemma EnoughPages(sz: nat)
    requires sz < 0x1_0000_0000
    ensures NPages(sz) * PAGE_SIZE >= sz <==> sz <= 0x1_0000_0000 - PAGE_SIZE
    ensures NPages(sz) * PAGE_SIZE < sz + PAGE_SIZE
  {
  }

  ghost predicate Goto(s: State, s': State, t: nat, pc: Pc) {
    s'.pc == s.pc[t := pc]
  }

  ghost predicate Gives(s: State, s': State, a: nat, n: nat) {
    s'.client == s.client[a := n]
  }

  /** alloc_kpages(1): 0, or a page nobody has. */
  ghost predicate GotPage(h: Heap, h': Heap, t: nat, va: nat, spare: bool) {
    if va == 0 then h' == h else FreshPage(h, va) && h' == Take(h, va, t, spare)
  }

  /** kmalloc of a small block, up to the first release of the lock. */
  ghost predicate KmallocStep(s: State, s': State, t: nat, sz: nat, blk: nat, ret: Option<nat>, e: Event)
    requires t in s.pc
  {
    && s.pc[t].Idle? && SizeClass(sz, blk) && Took(s.h, s'.h, blk, ret)
    && (match ret
        case Some(a) => e == Gave(sz, a) && s'.pc == s.pc && Gives(s, s', a, SIZES[blk])
        case None => e == Quiet && Goto(s, s', t, NeedPage(sz, blk)) && s'.client == s.client)
  }

  /** alloc_kpages for a heap page. */
  ghost predicate GetPageStep(s: State, s': State, t: nat, va: nat, e: Event)
    requires t in s.pc
  {
    && s.pc[t].NeedPage? && GotPage(s.h, s'.h, t, va, false) && s'.client == s.client
    && (if va == 0 then e == Refused && Goto(s, s', t, Idle)
        else e == Quiet && Goto(s, s', t, HavePage(s.pc[t].sz, s.pc[t].blk, va)))
  }

  /** allocpageref, and the rest of subpage_kmalloc if the slot has a page. */
  ghost predicate GrowHeapStep(s: State, s': State, t: nat, g: Growth, e: Event)
    requires t in s.pc
  {
    && s.pc[t].HavePage? && Grew(s.h, s'.h, t, s.pc[t].page, s.pc[t].blk, g)
    && (match g
        case NoSlot => e == Quiet && Goto(s, s', t, GivePage(s.pc[t].page, true)) && s'.client == s.client
        case NeedRoot(x) =>
          e == Quiet && Goto(s, s', t, NeedRootPage(s.pc[t].sz, s.pc[t].blk, s.pc[t].page, x)) && s'.client == s.client
        case GotBlock(a) =>
          && e == Gave(s.pc[t].sz, a) && Goto(s, s', t, Idle)
          && s.pc[t].blk < NSIZES && Gives(s, s', a, SIZES[s.pc[t].blk]))
  }

  /** alloc_kpages for a pageref page. */
  ghost predicate GetRootPageStep(s: State, s': State, t: nat, va: nat, e: Event)
    requires t in s.pc
  {
    && s.pc[t].NeedRootPage? && GotPage(s.h, s'.h, t, va, true) && s'.client == s.client && e == Quiet
    && Goto(s, s', t, GotRootPage(s.pc[t].sz, s.pc[t].blk, s.pc[t].page, s.pc[t].slot, va))
  }

  /** The rest of allocpagerefpage, and of subpage_kmalloc if it got a page. */
  ghost predicate UseRootPageStep(s: State, s': State, t: nat, g: Rooting, e: Event)
    requires t in s.pc
  {
    && s.pc[t].GotRootPage? && Rooted(s.h, s'.h, s.pc[t].page, s.pc[t].blk, s.pc[t].slot, s.pc[t].va, g)
    && (match g
        case GiveUp => e == Quiet && Goto(s, s', t, GivePage(s.pc[t].page, true)) && s'.client == s.client
        case Spare =>
          && e == Quiet && s'.client == s.client
          && Goto(s, s', t, FreeSpare(s.pc[t].sz, s.pc[t].blk, s.pc[t].page, s.pc[t].slot, s.pc[t].va))
        case Block(a) =>
          && e == Gave(s.pc[t].sz, a) && Goto(s, s', t, Idle)
          && s.pc[t].blk < NSIZES && Gives(s, s', a, SIZES[s.pc[t].blk]))
  }

  /** free_kpages of a pageref page somebody else got first. */
  ghost predicate ReturnSpareStep(s: State, s': State, t: nat, e: Event)
    requires t in s.pc
  {
    && s.pc[t].FreeSpare? && s'.h == Give(s.h, s.pc[t].va) && s'.client == s.client && e == Quiet
    && Goto(s, s', t, HaveSlot(s.pc[t].sz, s.pc[t].blk, s.pc[t].page, s.pc[t].slot))
  }

  /** The rest of subpage_kmalloc after that. */
  ghost predicate UseSlotStep(s: State, s': State, t: nat, a: nat, e: Event)
    requires t in s.pc
  {
    && s.pc[t].HaveSlot? && Populated(s.h, s'.h, s.pc[t].slot, s.pc[t].page, s.pc[t].blk, a)
    && e == Gave(s.pc[t].sz, a) && Goto(s, s', t, Idle)
    && s.pc[t].blk < NSIZES && Gives(s, s', a, SIZES[s.pc[t].blk])
  }

  /** free_kpages of a heap page. */
  ghost predicate ReturnPageStep(s: State, s': State, t: nat, e: Event)
    requires t in s.pc
  {
    && s.pc[t].GivePage? && s'.h == Give(s.h, s.pc[t].page) && s'.client == s.client
    && Goto(s, s', t, Idle) && e == (if s.pc[t].refused then Refused else Quiet)
  }

  /** kmalloc of whole pages. */
  ghost predicate KmallocPagesStep(s: State, s': State, t: nat, sz: nat, va: nat, e: Event)
    requires t in s.pc
  {
    && s.pc[t].Idle? && LARGEST_SUBPAGE_SIZE <= sz <= 0x1_0000_0000 - PAGE_SIZE && s'.pc == s.pc
    && (if va == 0 then s' == s && e == Refused
        else FreshPages(s.h, va, NPages(sz)) && s'.h == BigAlloc(s.h, va, NPages(sz))
             && e == Gave(sz, va) && Gives(s, s', va, NPages(sz) * PAGE_SIZE))
  }

  /** kfree up to the release of the lock. */
  ghost predicate KfreeStep(s: State, s': State, t: nat, ptr: nat, g: Freeing, e: Event)
    requires t in s.pc
  {
    && s.pc[t].Idle? && ptr in s.client && Kfreed(s.h, s'.h, t, ptr, g) && s'.client == s.client - {ptr} && e == Released(ptr)
    && (match g
        case NotOurs => Goto(s, s', t, GiveBig(ptr))
        case Freed => s'.pc == s.pc
        case PageFree(page) => Goto(s, s', t, GivePage(page, false))
        case Panic => false)
  }

  /** free_kpages of a whole-page allocation. */
  ghost predicate ReturnBigStep(s: State, s': State, t: nat, e: Event)
    requires t in s.pc
  {
    && s.pc[t].GiveBig? && s.pc[t].ptr in s.h.bigs && s'.h == BigFree(s.h, s.pc[t].ptr)
    && s'.client == s.client && Goto(s, s', t, Idle) && e == Quiet
  }

  /** A client stores into a block. */
  ghost predicate WriteStep(s: State, s': State, t: nat, a: nat, v: nat, e: Event)
    requires t in s.pc
  {
    && (exists b :: b in s.client && Within(a, b, s.client[b])) && s'.h == Store(s.h, a, v)
    && s'.pc == s.pc && s'.client == s.client && e == Quiet
  }

  /** One step of thread t. */
  ghost predicate Step(s: State, s': State, t: nat, act: Action, e: Event) {
    t in s.pc && match act
    case Kmalloc(sz, blk, ret) => KmallocStep(s, s', t, sz, blk, ret, e)
    case GetPage(va) => GetPageStep(s, s', t, va, e)
    case GrowHeap(g) => GrowHeapStep(s, s', t, g, e)
    case GetRootPage(va) => GetRootPageStep(s, s', t, va, e)
    case UseRootPage(g) => UseRootPageStep(s, s', t, g, e)
    case ReturnSpare => ReturnSpareStep(s, s', t, e)
    case UseSlot(a) => UseSlotStep(s, s', t, a, e)
    case ReturnPage => ReturnPageStep(s, s', t, e)
    case KmallocPages(sz, va) => KmallocPagesStep(s, s', t, sz, va, e)
    case Kfree(ptr, g) => KfreeStep(s, s', t, ptr, g, e)
    case ReturnBig => ReturnBigStep(s, s', t, e)
    case Write(a, v) => WriteStep(s, s', t, a, v, e)
  }

  // ---------------------------------------------------------------- the invariant

  ghost predicate HeldBy(h: Heap, a: nat, t: nat, spare: bool) {
    a > 0 && a in h.owner && h.owner[a] == Held(t, spare)
  }

  ghost predicate SlotOf(h: Heap, x: Slot, t: nat) {
    x in h.reserved && h.reserved[x] == Some(t) && x.r < NUM_PAGEREFPAGES && x.r < |h.roots|
  }

  /** What a thread between regions holds. */
  ghost predicate Hand(h: Heap, t: nat, pc: Pc) {
    match pc
    case Idle => true
    case NeedPage(sz, blk) => SizeClass(sz, blk)
    case HavePage(sz, blk, page) => SizeClass(sz, blk) && HeldBy(h, page, t, false)
    case NeedRootPage(sz, blk, page, x) => SizeClass(sz, blk) && HeldBy(h, page, t, false) && SlotOf(h, x, t)
    case GotRootPage(sz, blk, page, x, va) =>
      SizeClass(sz, blk) && HeldBy(h, page, t, false) && SlotOf(h, x, t) && (va != 0 ==> HeldBy(h, va, t, true))
    case FreeSpare(sz, blk, page, x, va) =>
      && SizeClass(sz, blk) && HeldBy(h, page, t, false) && SlotOf(h, x, t) && HeldBy(h, va, t, true)
      && h.roots[x.r].page != 0
    case HaveSlot(sz, blk, page, x) =>
      SizeClass(sz, blk) && HeldBy(h, page, t, false) && SlotOf(h, x, t) && h.roots[x.r].page != 0
    case GivePage(page, _) => HeldBy(h, page, t, false)
    case GiveBig(ptr) => ptr in h.bigs
  }

  /** Some thread is about to return the pages of the whole-page allocation b. */
  ghost predicate BeingFreed(pc: map<nat, Pc>, b: nat) {
    exists t :: t in pc && pc[t] == GiveBig(b)
  }

  ghost predicate OneFreer(pc: map<nat, Pc>) {
    forall t, u :: t in pc && u in pc && pc[t].GiveBig? && pc[u] == pc[t] ==> t == u
  }

  /** Clients have the live blocks and the whole-page allocations not being freed. */
  ghost predicate Clients(s: State) {
    && (forall a :: a in s.h.live ==> a in s.client && s.client[a] == s.h.live[a])
    && (forall b :: b in s.h.bigs && !BeingFreed(s.pc, b) ==> b in s.client && s.client[b] == s.h.bigs[b] * PAGE_SIZE)
    && (forall a :: a in s.client ==> a in s.h.live || (a in s.h.bigs && !BeingFreed(s.pc, a)))
  }

  ghost predicate Hands(s: State) {
    forall t :: t in s.pc ==> Hand(s.h, t, s.pc[t])
  }

  ghost predicate Inv(s: State) {
    Ok(s.h) && Hands(s) && OneFreer(s.pc) && Clients(s)
  }

  /** A step of t leaves what other threads hold. */
  ghost predicate OthersKept(h: Heap, h': Heap, t: nat) {
    && (forall a :: a in h.owner && h.owner[a].Held? && h.owner[a].t != t ==> a in h'.owner && h'.owner[a] == h.owner[a])
    && (forall x :: x in h.reserved && h.reserved[x] != Some(t) ==> x in h'.reserved && h'.reserved[x] == h.reserved[x])
    && |h'.roots| == |h.roots| && (forall r: nat :: r < |h.roots| && h.roots[r].page != 0 ==> h'.roots[r].page != 0)
  }

  /** Whole-page allocations stay, but for one t is freeing. */
  ghost predicate BigsKept(s: State, s': State, t: nat) {
    t in s.pc && forall b :: b in s.h.bigs && s.pc[t] != GiveBig(b) ==> b in s'.h.bigs && s'.h.bigs[b] == s.h.bigs[b]
  }

  lemma HandsKept(s: State, s': State, t: nat, pc: Pc)
    requires Hands(s) && OneFreer(s.pc) && OthersKept(s.h, s'.h, t) && BigsKept(s, s', t)
    requires s'.pc == s.pc[t := pc] && Hand(s'.h, t, pc)
    ensures Hands(s')
  {
    forall u | u in s'.pc ensures Hand(s'.h, u, s'.pc[u]) {
      if u != t { assert Hand(s.h, u, s.pc[u]); }
    }
  }

  /** A thread not freeing a whole-page allocation before or after changes no one's claim to one. */
  lemma FreersKept(pc: map<nat, Pc>, t: nat, p: Pc)
    requires OneFreer(pc) && t in pc && !pc[t].GiveBig? && !p.GiveBig?
    ensures OneFreer(pc[t := p]) && forall b :: BeingFreed(pc[t := p], b) == BeingFreed(pc, b)
  {
    var pc' := pc[t := p];
    forall b ensures BeingFreed(pc', b) == BeingFreed(pc, b) {
      if u :| u in pc && pc[u] == GiveBig(b) { assert u in pc' && pc'[u] == GiveBig(b); }
    }
  }

  // ---------------------------------------------------------------- the abstract allocator

  /** Blocks in clients' hands are pairwise disjoint and not NULL. */
  ghost predicate Separate(client: map<nat, nat>) {
    && 0 !in client
    && forall a, b :: a in client && b in client && a != b ==> Disjoint(a, client[a], b, client[b])
  }

  /** A block of n bytes for a request of sz: below the large threshold one of the size of its
      class, aligned to that size within a page; else whole pages, no more than needed. */
  ghost predicate Fits(sz: nat, a: nat, n: nat) {
    if sz < LARGEST_SUBPAGE_SIZE
    then (exists blk: nat :: SizeClass(sz, blk) && n == SIZES[blk]) && InPage(PageOf(a), a, n)
    else a % PAGE_SIZE == 0 && n % PAGE_SIZE == 0 && sz <= n < sz + PAGE_SIZE
  }

  /** The specification: kmalloc hands out a block nobody has that fits; kfree takes exactly
      the block it is given. */
  ghost predicate AllocatorStep(c: map<nat, nat>, c': map<nat, nat>, e: Event) {
    match e
    case Quiet => c' == c
    case Refused => c' == c
    case Gave(sz, a) => a !in c && a in c' && c' == c[a := c'[a]] && sz <= c'[a] && Fits(sz, a, c'[a])
    case Released(ptr) => ptr in c && c' == c - {ptr}
  }

  // ---------------------------------------------------------------- clients' view of a step

  /** Neither blocks nor claims to them change. */
  lemma ClientsSame(s: State, s': State, t: nat, pc: Pc)
    requires Clients(s) && OneFreer(s.pc) && t in s.pc && !s.pc[t].GiveBig? && !pc.GiveBig? && s'.pc == s.pc[t := pc]
    requires s'.h.live == s.h.live && s'.h.bigs == s.h.bigs && s'.client == s.client
    ensures Clients(s')
  {
    FreersKept(s.pc, t, pc);
  }

  lemma LiveNotBig(h: Heap, a: nat)
    requires Owners(h) && Homes(h) && Bigs(h) && a in h.live
    ensures a !in h.bigs && a > 0
  {
    LiveInside(h, a);
    assert PageAt(a, 0) == a;
    if a in h.bigs {
      assert BigPage(h, a, 0);
      OnPage(a, a);
    }
  }

  /** One more small block. */
  lemma ClientsGave(s: State, s': State, t: nat, pc: Pc, a: nat, n: nat)
    requires Clients(s) && OneFreer(s.pc) && t in s.pc && !s.pc[t].GiveBig? && !pc.GiveBig? && s'.pc == s.pc[t := pc]
    requires Ok(s'.h) && NewBlock(s.h, s'.h, a, n) && Gives(s, s', a, n)
    ensures Clients(s') && a !in s.client
  {
    FreersKept(s.pc, t, pc);
    LiveNotBig(s'.h, a);
  }

  lemma GaveStep(s: State, s': State, sz: nat, a: nat, blk: nat)
    requires SizeClass(sz, blk)
    requires a !in s.client && Gives(s, s', a, SIZES[blk]) && NewBlock(s.h, s'.h, a, SIZES[blk])
    ensures AllocatorStep(s.client, s'.client, Gave(sz, a))
  {
    SizeFacts(blk);
    assert a - PageOf(a) == a % PAGE_SIZE;
  }

  // ---------------------------------------------------------------- each action

  /** Inv and the specification, for an action that moves t from its pc to another, neither of
      them freeing a whole-page allocation. */
  ghost predicate Good(s: State, s': State, e: Event) {
    Inv(s') && AllocatorStep(s.client, s'.client, e)
  }

  lemma QuietGood(s: State, s': State, t: nat, pc: Pc, e: Event)
    requires Inv(s) && t in s.pc && !s.pc[t].GiveBig? && !pc.GiveBig? && s'.pc == s.pc[t := pc] && s'.client == s.client
    requires Ok(s'.h) && OthersKept(s.h, s'.h, t) && s'.h.live == s.h.live && s'.h.bigs == s.h.bigs
    requires Hand(s'.h, t, pc) && (e.Quiet? || e.Refused?)
    ensures Good(s, s', e)
  {
    assert Hands(s') by { HandsKept(s, s', t, pc); }
    assert OneFreer(s'.pc) by { FreersKept(s.pc, t, pc); }
    assert Clients(s') by { ClientsSame(s, s', t, pc); }
  }

  lemma GaveGood(s: State, s': State, t: nat, sz: nat, a: nat, blk: nat)
    requires Inv(s) && t in s.pc && !s.pc[t].GiveBig? && s'.pc == s.pc[t := Idle] && SizeClass(sz, blk)
    requires Ok(s'.h) && OthersKept(s.h, s'.h, t) && NewBlock(s.h, s'.h, a, SIZES[blk]) && Gives(s, s', a, SIZES[blk])
    ensures Good(s, s', Gave(sz, a))
  {
    assert Hands(s') by { HandsKept(s, s', t, Idle); }
    assert OneFreer(s'.pc) by { FreersKept(s.pc, t, Idle); }
    assert Clients(s') && a !in s.client by { ClientsGave(s, s', t, Idle, a, SIZES[blk]); }
    GaveStep(s, s', sz, a, blk);
  }

  lemma SameHandsKept(h: Heap, h': Heap, t: nat)
    requires SameHands(h, h')
    ensures OthersKept(h, h', t)
  {
  }

  lemma KmallocNoneGood(s: State, s': State, t: nat, sz: nat, blk: nat)
    requires Inv(s) && t in s.pc && s.pc[t].Idle? && SizeClass(sz, blk)
    requires s' == s.(pc := s.pc[t := NeedPage(sz, blk)])
    ensures Good(s, s', Quiet)
  {
    QuietGood(s, s', t, NeedPage(sz, blk), Quiet);
  }

  lemma KmallocSomeGood(s: State, s': State, t: nat, sz: nat, blk: nat, a: nat)
    requires Inv(s) && t in s.pc && s.pc[t].Idle? && SizeClass(sz, blk) && s'.pc == s.pc
    requires Ok(s'.h) && SameHands(s.h, s'.h) && NewBlock(s.h, s'.h, a, SIZES[blk]) && Gives(s, s', a, SIZES[blk])
    ensures Good(s, s', Gave(sz, a))
  {
    SameHandsKept(s.h, s'.h, t);
    assert s'.pc == s.pc[t := Idle];
    GaveGood(s, s', t, sz, a, blk);
  }

  lemma KmallocGood(s: State, s': State, t: nat, sz: nat, blk: nat, ret: Option<nat>, e: Event)
    requires Inv(s) && t in s.pc && KmallocStep(s, s', t, sz, blk, ret, e)
    ensures Good(s, s', e)
  {
    match ret
    case Some(a) =>
      assert Ok(s'.h) && SameHands(s.h, s'.h) && NewBlock(s.h, s'.h, a, SIZES[blk]) by { TookOk(s.h, s'.h, blk, ret); }
      KmallocSomeGood(s, s', t, sz, blk, a);
    case None => KmallocNoneGood(s, s', t, sz, blk);
  }

  lemma GotPageKeeps(h: Heap, h': Heap, t: nat, va: nat, spare: bool)
    requires Ok(h) && GotPage(h, h', t, va, spare)
    ensures Ok(h') && OthersKept(h, h', t) && h'.live == h.live && h'.bigs == h.bigs
    ensures va != 0 ==> HeldBy(h', va, t, spare)
    ensures h'.reserved == h.reserved && h'.roots == h.roots
    ensures forall a :: a in h.owner ==> a in h'.owner && h'.owner[a] == h.owner[a]
  {
    if va != 0 { TakeOk(h, va, t, spare); }
  }

  lemma GetPageGood(s: State, s': State, t: nat, va: nat, e: Event)
    requires Inv(s) && t in s.pc && GetPageStep(s, s', t, va, e)
    ensures Good(s, s', e)
  {
    assert Hand(s.h, t, s.pc[t]);
    GotPageKeeps(s.h, s'.h, t, va, false);
    QuietGood(s, s', t, if va == 0 then Idle else HavePage(s.pc[t].sz, s.pc[t].blk, va), e);
  }

  lemma GetRootPageGood(s: State, s': State, t: nat, va: nat, e: Event)
    requires Inv(s) && t in s.pc && GetRootPageStep(s, s', t, va, e)
    ensures Good(s, s', e)
  {
    assert Hand(s.h, t, s.pc[t]);
    GotPageKeeps(s.h, s'.h, t, va, true);
    QuietGood(s, s', t, GotRootPage(s.pc[t].sz, s.pc[t].blk, s.pc[t].page, s.pc[t].slot, va), e);
  }

  lemma GrowHeapGood(s: State, s': State, t: nat, g: Growth, e: Event)
    requires Inv(s) && t in s.pc && GrowHeapStep(s, s', t, g, e)
    ensures Good(s, s', e)
  {
    var pc := s.pc[t];
    assert Hand(s.h, t, pc);
    assert Ok(s'.h) && GrowthHands(s.h, s'.h, t, pc.page, pc.blk, g) by { GrewOk(s.h, s'.h, t, pc.page, pc.blk, g); }
    assert OthersKept(s.h, s'.h, t) by { GrowthKept(s.h, s'.h, t, pc.page, pc.blk, g); }
    match g
    case NoSlot => assert Good(s, s', e) by { QuietGood(s, s', t, GivePage(pc.page, true), e); }
    case NeedRoot(x) => assert Good(s, s', e) by { QuietGood(s, s', t, NeedRootPage(pc.sz, pc.blk, pc.page, x), e); }
    case GotBlock(a) => assert Good(s, s', e) by { GaveGood(s, s', t, pc.sz, a, pc.blk); }
  }

  lemma GrowthKept(h: Heap, h': Heap, t: nat, page: nat, blk: nat, g: Growth)
    requires GrowthHands(h, h', t, page, blk, g) && HeldBy(h, page, t, false)
    ensures OthersKept(h, h', t)
  {
  }

  lemma PopulatedKept(h: Heap, h': Heap, x: Slot, page: nat, t: nat)
    requires HandsPopulated(h, h', x, page) && HeldBy(h, page, t, false) && SlotOf(h, x, t)
    ensures OthersKept(h, h', t)
  {
  }

  lemma InstallKept(h: Heap, h': Heap, x: Slot, page: nat, va: nat, t: nat)
    requires x.r < |h.roots| && HandsPopulated(Install(h, x.r, va), h', x, page)
    requires HeldBy(h, page, t, false) && HeldBy(h, va, t, true) && SlotOf(h, x, t)
    ensures OthersKept(h, h', t)
  {
  }

  lemma UseRootPageGood(s: State, s': State, t: nat, g: Rooting, e: Event)
    requires Inv(s) && t in s.pc && UseRootPageStep(s, s', t, g, e)
    ensures Good(s, s', e)
  {
    var pc := s.pc[t];
    assert Hand(s.h, t, pc);
    match g
    case GiveUp => RootGivenUp(s, s', t, pc);
    case Spare => QuietGood(s, s', t, FreeSpare(pc.sz, pc.blk, pc.page, pc.slot, pc.va), e);
    case Block(a) => RootBlockGood(s, s', t, pc, a);
  }

  lemma RootGivenUp(s: State, s': State, t: nat, pc: Pc)
    requires Inv(s) && t in s.pc && pc == s.pc[t] && pc.GotRootPage? && Hand(s.h, t, pc)
    requires s'.h == Leak(s.h, pc.slot) && s'.pc == s.pc[t := GivePage(pc.page, true)] && s'.client == s.client
    ensures Good(s, s', Quiet)
  {
    LeakOk(s.h, pc.slot);
    QuietGood(s, s', t, GivePage(pc.page, true), Quiet);
  }

  lemma RootBlockGood(s: State, s': State, t: nat, pc: Pc, a: nat)
    requires Inv(s) && t in s.pc && pc == s.pc[t] && pc.GotRootPage? && s'.pc == s.pc[t := Idle] && Hand(s.h, t, pc)
    requires Rooted(s.h, s'.h, pc.page, pc.blk, pc.slot, pc.va, Block(a))
    requires Gives(s, s', a, SIZES[pc.blk])
    ensures Good(s, s', Gave(pc.sz, a))
  {
    RootedOk(s.h, s'.h, pc.page, pc.blk, pc.slot, pc.va, Block(a));
    assert OthersKept(s.h, s'.h, t) by { RootedKept(s.h, s'.h, pc.slot, pc.page, pc.va, t); }
    GaveGood(s, s', t, pc.sz, a, pc.blk);
  }

  lemma RootedKept(h: Heap, h': Heap, x: Slot, page: nat, va: nat, t: nat)
    requires SlotOf(h, x, t) && HeldBy(h, page, t, false) && (va != 0 ==> HeldBy(h, va, t, true) && va != page)
    requires HandsPopulated(if va == 0 then h else Install(h, x.r, va), h', x, page)
    ensures OthersKept(h, h', t)
  {
    if va == 0 { PopulatedKept(h, h', x, page, t); } else { InstallKept(h, h', x, page, va, t); }
  }

  lemma UseSlotGood(s: State, s': State, t: nat, a: nat, e: Event)
    requires Inv(s) && t in s.pc && UseSlotStep(s, s', t, a, e)
    ensures Good(s, s', e)
  {
    var pc := s.pc[t];
    assert Hand(s.h, t, pc);
    PopulatedOk(s.h, s'.h, pc.slot, pc.page, pc.blk, a);
    assert OthersKept(s.h, s'.h, t) by { PopulatedKept(s.h, s'.h, pc.slot, pc.page, t); }
    GaveGood(s, s', t, pc.sz, a, pc.blk);
  }

  lemma GiveKeeps(h: Heap, a: nat, t: nat, spare: bool)
    requires Ok(h) && HeldBy(h, a, t, spare)
    ensures Ok(Give(h, a)) && OthersKept(h, Give(h, a), t)
  {
    GiveOk(h, a);
  }

  lemma ReturnSpareGood(s: State, s': State, t: nat, e: Event)
    requires Inv(s) && t in s.pc && ReturnSpareStep(s, s', t, e)
    ensures Good(s, s', e)
  {
    assert Hand(s.h, t, s.pc[t]);
    SpareReturned(s, s', t, s.pc[t]);
  }

  lemma SpareReturned(s: State, s': State, t: nat, pc: Pc)
    requires Inv(s) && t in s.pc && pc == s.pc[t] && pc.FreeSpare? && Hand(s.h, t, pc)
    requires s'.h == Give(s.h, pc.va) && s'.client == s.client && s'.pc == s.pc[t := HaveSlot(pc.sz, pc.blk, pc.page, pc.slot)]
    ensures Good(s, s', Quiet)
  {
    GiveKeeps(s.h, pc.va, t, true);
    QuietGood(s, s', t, HaveSlot(pc.sz, pc.blk, pc.page, pc.slot), Quiet);
  }

  lemma ReturnPageGood(s: State, s': State, t: nat, e: Event)
    requires Inv(s) && t in s.pc && ReturnPageStep(s, s', t, e)
    ensures Good(s, s', e)
  {
    assert Hand(s.h, t, s.pc[t]);
    GiveKeeps(s.h, s.pc[t].page, t, false);
    QuietGood(s, s', t, Idle, e);
  }

  // ---------------------------------------------------------------- whole pages

  lemma BigIsBig(h: Heap, b: nat)
    requires Owners(h) && Bigs(h) && b in h.bigs
    ensures b > 0 && b % PAGE_SIZE == 0 && PageOf(b) == b && b in h.owner && h.owner[b] == Big(b)
  {
    assert PageAt(b, 0) == b;
    assert BigPage(h, b, 0);
  }

  lemma FreshNotClient(s: State, b: nat, n: nat)
    requires Ok(s.h) && Clients(s) && FreshPages(s.h, b, n)
    ensures b !in s.client && b !in s.h.bigs && b !in s.h.live
  {
    assert PageAt(b, 0) == b;
    if b in s.h.live { LiveInside(s.h, b); }
    if b in s.h.bigs { BigIsBig(s.h, b); }
  }

  /** Nobody frees what is not allocated. */
  lemma NotBeingFreed(s: State, b: nat)
    requires Hands(s) && b !in s.h.bigs
    ensures !BeingFreed(s.pc, b)
  {
    forall u | u in s.pc ensures s.pc[u] != GiveBig(b) { assert Hand(s.h, u, s.pc[u]); }
  }

  lemma BigAllocKept(h: Heap, b: nat, n: nat, t: nat)
    requires Ok(h) && FreshPages(h, b, n)
    ensures Ok(BigAlloc(h, b, n)) && OthersKept(h, BigAlloc(h, b, n), t)
  {
    BigAllocOk(h, b, n);
    BigAllocOnly(h, b, n);
  }

  lemma BigGaveClients(s: State, s': State, b: nat, n: nat)
    requires Clients(s) && !BeingFreed(s.pc, b) && s'.pc == s.pc && b !in s.client && b !in s.h.bigs && b !in s.h.live
    requires s'.h == BigAlloc(s.h, b, n) && Gives(s, s', b, n * PAGE_SIZE)
    ensures Clients(s')
  {
  }

  lemma PagesGood(s: State, s': State, t: nat, sz: nat, b: nat, n: nat, m: nat)
    requires Inv(s) && t in s.pc && s.pc[t].Idle? && s'.pc == s.pc && FreshPages(s.h, b, n)
    requires LARGEST_SUBPAGE_SIZE <= sz <= m < sz + PAGE_SIZE && m == n * PAGE_SIZE
    requires s'.h == BigAlloc(s.h, b, n) && Gives(s, s', b, m)
    ensures Good(s, s', Gave(sz, b))
  {
    assert b !in s.client && b !in s.h.bigs && b !in s.h.live by { FreshNotClient(s, b, n); }
    BigAllocKept(s.h, b, n, t);
    assert Hands(s') by { assert s'.pc == s.pc[t := Idle]; HandsKept(s, s', t, Idle); }
    assert Clients(s') by { NotBeingFreed(s, b); BigGaveClients(s, s', b, n); }
    WholePages(n, m);
    PagesStep(s.client, s'.client, sz, b, m);
  }

  lemma WholePages(n: nat, m: nat)
    requires m == n * PAGE_SIZE
    ensures m % PAGE_SIZE == 0
  {
  }

  lemma PagesStep(c: map<nat, nat>, c': map<nat, nat>, sz: nat, b: nat, m: nat)
    requires b !in c && c' == c[b := m] && LARGEST_SUBPAGE_SIZE <= sz <= m < sz + PAGE_SIZE && m % PAGE_SIZE == 0 && b % PAGE_SIZE == 0
    ensures AllocatorStep(c, c', Gave(sz, b))
  {
  }

  lemma KmallocPagesGood(s: State, s': State, t: nat, sz: nat, va: nat, e: Event)
    requires Inv(s) && t in s.pc && KmallocPagesStep(s, s', t, sz, va, e)
    ensures Good(s, s', e)
  {
    if va != 0 {
      assert sz <= NPages(sz) * PAGE_SIZE < sz + PAGE_SIZE by { EnoughPages(sz); }
      PagesGood(s, s', t, sz, va, NPages(sz), NPages(sz) * PAGE_SIZE);
    }
  }

  lemma BigNotFound(h: Heap, h': Heap, t: nat, b: nat, g: Freeing)
    requires Ok(h) && b in h.bigs && Kfreed(h, h', t, b, g)
    ensures g.NotOurs? && h' == h
  {
    BigIsBig(h, b);
    if !g.NotOurs? {
      var p: nat, off: nat, i: nat, j: nat :| FoundAndFreed(h, h', t, b, p, off, i, j, g);
      OnPage(PageAddr(h.refs[p]), b);
      assert false;
    }
  }

  ghost function AfterFree(g: Freeing): Pc {
    if g.PageFree? then GivePage(g.page, false) else Idle
  }

  lemma FreedKept(h: Heap, h': Heap, t: nat, a: nat, g: Freeing)
    requires Ok(h) && FreedHands(h, h', t, a, g)
    ensures OthersKept(h, h', t) && Hand(h', t, AfterFree(g))
  {
    if g.PageFree? { assert g.page > 0 by { assert Owners(h); } }
  }

  lemma FreedClients(s: State, s': State, t: nat, a: nat, g: Freeing)
    requires Clients(s) && OneFreer(s.pc) && t in s.pc && s.pc[t].Idle? && s'.pc == s.pc[t := AfterFree(g)]
    requires a in s.h.live && a !in s.h.bigs && FreedHands(s.h, s'.h, t, a, g) && s'.client == s.client - {a}
    ensures OneFreer(s'.pc) && Clients(s')
  {
    FreersKept(s.pc, t, AfterFree(g));
  }

  lemma KfreeBlockGood(s: State, s': State, t: nat, ptr: nat, g: Freeing, e: Event)
    requires Inv(s) && t in s.pc && KfreeStep(s, s', t, ptr, g, e) && ptr in s.h.live
    ensures Good(s, s', e)
  {
    assert !g.Panic?;
    assert !g.NotOurs? by { LiveIsFound(s.h, ptr); }
    FreedGood(s, s', t, ptr, g, AfterFree(g));
  }

  lemma FreedGood(s: State, s': State, t: nat, a: nat, g: Freeing, pc: Pc)
    requires Inv(s) && t in s.pc && s.pc[t].Idle? && a in s.h.live && s'.client == s.client - {a}
    requires !g.Panic? && Kfreed(s.h, s'.h, t, a, g) && pc == AfterFree(g) && s'.pc == s.pc[t := pc]
    ensures Good(s, s', Released(a))
  {
    KfreedOk(s.h, s'.h, t, a, g);
    assert OthersKept(s.h, s'.h, t) && Hand(s'.h, t, pc) by { FreedKept(s.h, s'.h, t, a, g); }
    assert a !in s.h.bigs by { LiveNotBig(s.h, a); }
    assert Hands(s') by { HandsKept(s, s', t, pc); }
    assert OneFreer(s'.pc) && Clients(s') by { FreedClients(s, s', t, a, g); }
  }

  lemma KfreePagesGood(s: State, s': State, t: nat, ptr: nat, g: Freeing, e: Event)
    requires Inv(s) && t in s.pc && KfreeStep(s, s', t, ptr, g, e) && ptr !in s.h.live
    ensures Good(s, s', e)
  {
    assert ptr in s.h.bigs && !BeingFreed(s.pc, ptr);
    BigNotFound(s.h, s'.h, t, ptr, g);
    assert s'.pc == s.pc[t := GiveBig(ptr)];
    assert Hands(s') by { HandsKept(s, s', t, GiveBig(ptr)); }
    forall b ensures BeingFreed(s'.pc, b) == (b == ptr || BeingFreed(s.pc, b)) {
      assert s'.pc[t] == GiveBig(ptr);
      if u :| u in s.pc && s.pc[u] == GiveBig(b) { assert u in s'.pc && s'.pc[u] == GiveBig(b); }
    }
    assert Clients(s');
  }

  lemma BigFreeKept(h: Heap, b: nat, t: nat)
    requires Ok(h) && b in h.bigs
    ensures Ok(BigFree(h, b)) && OthersKept(h, BigFree(h, b), t)
  {
    BigFreeOk(h, b);
    BigFreeBigs(h, b);
  }

  lemma BigFreeClients(s: State, s': State, t: nat, b: nat)
    requires Clients(s) && OneFreer(s.pc) && t in s.pc && s.pc[t] == GiveBig(b) && b in s.h.bigs
    requires s'.h == BigFree(s.h, b) && s'.client == s.client && s'.pc == s.pc[t := Idle]
    ensures OneFreer(s'.pc) && Clients(s')
  {
    forall c | c != b ensures BeingFreed(s'.pc, c) == BeingFreed(s.pc, c) {
      if u :| u in s.pc && s.pc[u] == GiveBig(c) { assert u in s'.pc && s'.pc[u] == GiveBig(c); }
    }
    assert BeingFreed(s.pc, b);
  }

  lemma ReturnBigGood(s: State, s': State, t: nat, e: Event)
    requires Inv(s) && t in s.pc && ReturnBigStep(s, s', t, e)
    ensures Good(s, s', e)
  {
    BigReturned(s, s', t, s.pc[t].ptr);
  }

  lemma BigReturned(s: State, s': State, t: nat, b: nat)
    requires Inv(s) && t in s.pc && s.pc[t] == GiveBig(b) && b in s.h.bigs
    requires s'.h == BigFree(s.h, b) && s'.client == s.client && s'.pc == s.pc[t := Idle]
    ensures Good(s, s', Quiet)
  {
    assert Ok(s'.h) && OthersKept(s.h, s'.h, t) by { BigFreeKept(s.h, b, t); }
    assert Hands(s') by { HandsKept(s, s', t, Idle); }
    assert OneFreer(s'.pc) && Clients(s') by { BigFreeClients(s, s', t, b); }
  }

  lemma ClientWritable(s: State, a: nat, b: nat)
    requires Ok(s.h) && Clients(s) && b in s.client && Within(a, b, s.client[b])
    ensures Writable(s.h, a)
  {
    if b !in s.h.live {
      BigIsBig(s.h, b);
      var i := (a - b) / PAGE_SIZE;
      assert BigPage(s.h, b, i);
      OnPage(PageAt(b, i), a);
    }
  }

  lemma WriteGood(s: State, s': State, t: nat, a: nat, v: nat, e: Event)
    requires Inv(s) && t in s.pc && WriteStep(s, s', t, a, v, e)
    ensures Good(s, s', e)
  {
    var b :| b in s.client && Within(a, b, s.client[b]);
    assert Ok(s'.h) by { ClientWritable(s, a, b); StoreOk(s.h, a, v); }
    assert Hands(s') by {
      forall u | u in s'.pc ensures Hand(s'.h, u, s'.pc[u]) { assert Hand(s.h, u, s.pc[u]); }
    }
  }

  // ---------------------------------------------------------------- all steps, all runs

  /** Every step keeps the invariant and is a step of the specification. */
  lemma StepGood(s: State, s': State, t: nat, act: Action, e: Event)
    requires Inv(s) && Step(s, s', t, act, e)
    ensures Inv(s') && AllocatorStep(s.client, s'.client, e)
  {
    match act
    case Kmalloc(sz, blk, ret) => KmallocGood(s, s', t, sz, blk, ret, e);
    case GetPage(va) => GetPageGood(s, s', t, va, e);
    case GrowHeap(g) => GrowHeapGood(s, s', t, g, e);
    case GetRootPage(va) => GetRootPageGood(s, s', t, va, e);
    case UseRootPage(g) => UseRootPageGood(s, s', t, g, e);
    case ReturnSpare => ReturnSpareGood(s, s', t, e);
    case UseSlot(a) => UseSlotGood(s, s', t, a, e);
    case ReturnPage => ReturnPageGood(s, s', t, e);
    case KmallocPages(sz, va) => KmallocPagesGood(s, s', t, sz, va, e);
    case Kfree(ptr, g) =>
      if ptr in s.h.live { KfreeBlockGood(s, s', t, ptr, g, e); } else { KfreePagesGood(s, s', t, ptr, g, e); }
    case ReturnBig => ReturnBigGood(s, s', t, e);
    case Write(a, v) => WriteGood(s, s', t, a, v, e);
  }

  /** Whole-page allocations do not overlap. */
  lemma BigsApart(h: Heap, a: nat, b: nat)
    requires Owners(h) && Bigs(h) && a in h.bigs && b in h.bigs && a != b
    ensures Disjoint(a, h.bigs[a] * PAGE_SIZE, b, h.bigs[b] * PAGE_SIZE)
  {
    BigIsBig(h, a);
    BigIsBig(h, b);
    if b <= a < b + h.bigs[b] * PAGE_SIZE { OnBigPage(h, a, b); }
    if a <= b < a + h.bigs[a] * PAGE_SIZE { OnBigPage(h, b, a); }
  }

  /** Whole-page allocations and small blocks do not overlap. */
  lemma BigApart(h: Heap, a: nat, b: nat)
    requires Ok(h) && b in h.bigs && a in h.live
    ensures Disjoint(a, h.live[a], b, h.bigs[b] * PAGE_SIZE)
  {
    assert b % PAGE_SIZE == 0 by { BigIsBig(h, b); }
    assert InPage(PageOf(a), a, h.live[a]) && PageOf(a) in h.owner && h.owner[PageOf(a)].HeapPage? by { LiveInside(h, a); }
    assert !(b <= PageOf(a) < b + h.bigs[b] * PAGE_SIZE) by {
      if b <= PageOf(a) < b + h.bigs[b] * PAGE_SIZE { OnBigPage(h, PageOf(a), b); }
    }
    AlignedApart(PageOf(a), a, h.live[a], b, h.bigs[b]);
  }

  /** A page start within a whole-page allocation is one of its pages. */
  lemma OnBigPage(h: Heap, p: nat, b: nat)
    requires Bigs(h) && b in h.bigs && p % PAGE_SIZE == 0 && b % PAGE_SIZE == 0 && b <= p < b + h.bigs[b] * PAGE_SIZE
    ensures p in h.owner && h.owner[p] == Big(b)
  {
    var i := (p - b) / PAGE_SIZE;
    assert p == PageAt(b, i) && i < h.bigs[b];
    assert BigPage(h, b, i);
  }

  lemma AlignedApart(p: nat, a: nat, n: nat, b: nat, k: nat)
    requires InPage(p, a, n) && b % PAGE_SIZE == 0 && !(b <= p < b + k * PAGE_SIZE)
    ensures Disjoint(a, n, b, k * PAGE_SIZE)
  {
  }

  /** In every state of the invariant the blocks in clients' hands are disjoint. */
  lemma InvSeparate(s: State)
    requires Inv(s)
    ensures Separate(s.client)
  {
    forall a, b | a in s.client && b in s.client && a != b ensures Disjoint(a, s.client[a], b, s.client[b]) {
      if a in s.h.live && b in s.h.live {
        if a < b { LiveApart(s.h, a, b); } else { LiveApart(s.h, b, a); }
      } else if a !in s.h.live && b !in s.h.live {
        BigsApart(s.h, a, b);
      } else if a in s.h.live {
        BigApart(s.h, a, b);
      } else {
        BigApart(s.h, b, a);
      }
    }
    if 0 in s.client {
      if 0 in s.h.live { LiveNotBig(s.h, 0); } else { BigIsBig(s.h, 0); }
    }
  }

  /** A client's block: on pages used for heap blocks or for it alone, so on no pageref page
      and no page in a thread's hands; apart from every free block; and if small, aligned to
      its size in its page. */
  ghost predicate ClearOfHeap(h: Heap, b: nat, n: nat) {
    && (forall a {:trigger PageOf(a)} :: Within(a, b, n) ==> PageOf(a) in h.owner && (h.owner[PageOf(a)].HeapPage? || h.owner[PageOf(a)] == Big(b)))
    && (forall p, i: nat :: p in h.all && p in h.refs && p in h.free && i < |h.free[p]| ==> ApartFromFree(h, p, i, b, n))
    && (b % PAGE_SIZE == 0 || InPage(PageOf(b), b, n))
  }

  lemma BlockClear(h: Heap, b: nat)
    requires Ok(h) && b in h.live
    ensures ClearOfHeap(h, b, h.live[b])
  {
    LiveInside(h, b);
    forall a | Within(a, b, h.live[b]) ensures PageOf(a) in h.owner && h.owner[PageOf(a)].HeapPage? { LiveOnHeap(h, b, a); }
    forall p, i: nat | p in h.all && p in h.refs && p in h.free && i < |h.free[p]| ensures ApartFromFree(h, p, i, b, h.live[b]) {
      LiveNotLink(h, b, p, i);
    }
  }

  lemma BigClear(h: Heap, b: nat)
    requires Ok(h) && b in h.bigs
    ensures ClearOfHeap(h, b, h.bigs[b] * PAGE_SIZE)
  {
    BigIsBig(h, b);
    forall a | Within(a, b, h.bigs[b] * PAGE_SIZE) ensures PageOf(a) in h.owner && h.owner[PageOf(a)] == Big(b) {
      OnBigPage(h, PageOf(a), b);
    }
    forall p, i: nat | p in h.all && p in h.refs && p in h.free && i < |h.free[p]|
      ensures ApartFromFree(h, p, i, b, h.bigs[b] * PAGE_SIZE)
    {
      BigApartFromFree(h, b, p, i);
    }
  }

  lemma BigApartFromFree(h: Heap, b: nat, p: nat, i: nat)
    requires Ok(h) && b in h.bigs && p in h.all && p in h.refs && p in h.free && i < |h.free[p]|
    ensures ApartFromFree(h, p, i, b, h.bigs[b] * PAGE_SIZE)
  {
    var page, off, blk := PageAddr(h.refs[p]), h.free[p][i], BlockType(h.refs[p]);
    LinkIsBlock(h, p, i, b);
    SizeFacts(blk);
    BlockInside(off, blk);
    assert b % PAGE_SIZE == 0 by { BigIsBig(h, b); }
    assert !(b <= page < b + h.bigs[b] * PAGE_SIZE) by {
      if b <= page < b + h.bigs[b] * PAGE_SIZE { OnBigPage(h, page, b); }
    }
    AlignedApart(page, page + off, SIZES[blk], b, h.bigs[b]);
  }

  /** In every state of the invariant clients' blocks keep clear of the heap's own data. */
  lemma InvClear(s: State)
    requires Inv(s)
    ensures forall b :: b in s.client ==> ClearOfHeap(s.h, b, s.client[b])
  {
    forall b | b in s.client ensures ClearOfHeap(s.h, b, s.client[b]) {
      if b in s.h.live { BlockClear(s.h, b); } else { BigClear(s.h, b); }
    }
  }

  datatype Move = Move(t: nat, act: Action, e: Event)

  /** A run: moves[i] takes states[i] to states[i + 1]. */
  ghost predicate Run(states: seq<State>, moves: seq<Move>) {
    && |states| == |moves| + 1
    && forall i :: 0 <= i < |moves| ==> StepAt(states, moves, i)
  }

  ghost predicate StepAt(states: seq<State>, moves: seq<Move>, i: nat)
    requires i < |moves| && |states| == |moves| + 1
  {
    Step(states[i], states[i + 1], moves[i].t, moves[i].act, moves[i].e)
  }

  ghost predicate Boot(s: State) {
    && Ok(s.h) && s.h.live == map[] && s.h.bigs == map[] && s.client == map[]
    && forall t :: t in s.pc ==> s.pc[t] == Idle
  }

  lemma RunStep(states: seq<State>, moves: seq<Move>, i: nat)
    requires Run(states, moves) && i < |moves| && Inv(states[i])
    ensures Inv(states[i + 1]) && AllocatorStep(states[i].client, states[i + 1].client, moves[i].e)
  {
    assert StepAt(states, moves, i);
    StepGood(states[i], states[i + 1], moves[i].t, moves[i].act, moves[i].e);
  }

  lemma RunKeeps(states: seq<State>, moves: seq<Move>, i: nat)
    requires Run(states, moves) && i < |moves|
    ensures Keeps(states, Inv, i)
  {
    if Inv(states[i]) { RunStep(states, moves, i); }
  }

  lemma BootInv(s: State)
    requires Boot(s)
    ensures Inv(s)
  {
  }

  lemma RunInv(states: seq<State>, moves: seq<Move>, n: nat)
    requires Run(states, moves) && Boot(states[0]) && n < |states|
    ensures Inv(states[n])
  {
    BootInv(states[0]);
    forall j: nat | j < n ensures Keeps(states, Inv, j) { RunKeeps(states, moves, j); }
    Throughout(states, Inv, n);
  }

  /** Over every run from boot, whatever the interleaving: the heap's invariant holds whenever
      the lock is free, clients' blocks are disjoint from one another and from all the heap's
      own data, and every step is one the specification allows. */
  lemma RunSafe(states: seq<State>, moves: seq<Move>, i: nat)
    requires Run(states, moves) && Boot(states[0]) && i <= |moves|
    ensures Ok(states[i].h) && Separate(states[i].client)
    ensures forall b :: b in states[i].client ==> ClearOfHeap(states[i].h, b, states[i].client[b])
    ensures i < |moves| ==> AllocatorStep(states[i].client, states[i + 1].client, moves[i].e)
  {
    RunInv(states, moves, i);
    InvSeparate(states[i]);
    InvClear(states[i]);
    if i < |moves| { RunStep(states, moves, i); }
  }
}
