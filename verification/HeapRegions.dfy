/** What each locked region of kmalloc.c does, from one acquisition of kmalloc_spinlock
    to the next release, and that it keeps the invariant. */
module HeapRegions {
  import opened HalfWords
  import opened HeapState
  import opened HeapOps
  import opened HeapPages
  import opened HeapGrow
  import opened HeapLink

  // ---------------------------------------------------------------- threading a fresh page

  function Times(i: nat, n: nat): nat {
    if i == 0 then 0 else Times(i - 1, n) + n
  }

  lemma {:induction false} TimesIsProduct(i: nat, n: nat)
    ensures Times(i, n) == i * n
  {
    if i > 0 { TimesIsProduct(i - 1, n); }
  }

  lemma {:induction false} TimesMultiple(i: nat, n: nat)
    requires n > 0
    ensures Multiple(Times(i, n), n)
  {
    if i > 0 { TimesMultiple(i - 1, n); }
  }

  lemma {:induction false} TimesLess(i: nat, j: nat, n: nat)
    requires i < j && n > 0
    ensures Times(i, n) + n <= Times(j, n)
  {
    if i < j - 1 { TimesLess(i, j - 1, n); }
  }

  /** The offsets of k blocks of n bytes, last first. */
  function Descending(k: nat, n: nat): (fs: seq<nat>)
    ensures |fs| == k && forall i :: 0 <= i < k ==> fs[i] == Times(k - 1 - i, n)
  {
    if k == 0 then [] else [Times(k - 1, n)] + Descending(k - 1, n)
  }

  /** Memory after the first k blocks of the page have been linked, each to the one before. */
  function Threading(mem: map<nat, nat>, page: nat, k: nat, n: nat): map<nat, nat> {
    if k == 0 then mem
    else Threading(mem, page, k - 1, n)[page + Times(k - 1, n) := if k == 1 then 0 else page + Times(k - 2, n)]
  }

  lemma {:induction false} ThreadingOutside(mem: map<nat, nat>, page: nat, k: nat, n: nat, x: nat)
    requires n > 0 && (x < page || page + Times(k, n) <= x)
    ensures x in Threading(mem, page, k, n) <==> x in mem
    ensures x in mem ==> Threading(mem, page, k, n)[x] == mem[x]
  {
    if k > 0 { ThreadingOutside(mem, page, k - 1, n, x); }
  }

  lemma {:induction false} ThreadingAt(mem: map<nat, nat>, page: nat, k: nat, n: nat, i: nat)
    requires n > 0 && i < k
    ensures page + Times(i, n) in Threading(mem, page, k, n)
    ensures Threading(mem, page, k, n)[page + Times(i, n)] == if i == 0 then 0 else page + Times(i - 1, n)
  {
    if i < k - 1 {
      ThreadingAt(mem, page, k - 1, n, i);
      TimesLess(i, k - 1, n);
    }
  }

  lemma DescendingNoDup(k: nat, n: nat)
    requires n > 0
    ensures NoDup(Descending(k, n))
  {
    var fs := Descending(k, n);
    forall i, j | 0 <= i < j < |fs| ensures fs[i] != fs[j] { TimesLess(k - 1 - j, k - 1 - i, n); }
  }

  lemma PageFull(blk: nat)
    requires blk < NSIZES
    ensures Times(CAPS[blk], SIZES[blk]) == PAGE_SIZE
  {
    TimesIsProduct(CAPS[blk], SIZES[blk]);
  }

  lemma OffsetsFit(k: nat, n: nat, i: nat)
    requires n > 0 && Times(k, n) == PAGE_SIZE && i < k
    ensures Descending(k, n)[i] < PAGE_SIZE && Multiple(Descending(k, n)[i], n)
  {
    TimesLess(k - 1 - i, k, n);
    TimesMultiple(k - 1 - i, n);
  }

  lemma ThreadedWhole(mem: map<nat, nat>, page: nat, k: nat, n: nat)
    requires n > 0 && Times(k, n) == PAGE_SIZE
    ensures Threaded(Threading(mem, page, k, n), page, n, Descending(k, n))
  {
    var mem' := Threading(mem, page, k, n);
    var fs := Descending(k, n);
    forall i | 0 <= i < |fs| ensures fs[i] < PAGE_SIZE && Multiple(fs[i], n) { OffsetsFit(k, n, i); }
    forall i | 0 <= i < |fs| ensures ThreadAt(mem', page, fs, i) { ThreadingAt(mem, page, k, n, k - 1 - i); }
  }

  /** Linking all the blocks of a page gives a list of all of them. */
  lemma FreshPageList(mem: map<nat, nat>, page: nat, blk: nat)
    requires blk < NSIZES
    ensures var mem' := Threading(mem, page, CAPS[blk], SIZES[blk]);
            OnlyPage(mem, mem', page) && FreshList(mem', page, blk, Descending(CAPS[blk], SIZES[blk]))
  {
    var n, k := SIZES[blk], CAPS[blk];
    var mem' := Threading(mem, page, k, n);
    SizeFacts(blk);
    PageFull(blk);
    DescendingNoDup(k, n);
    ThreadedWhole(mem, page, k, n);
    forall x | x in mem && !(page <= x < page + PAGE_SIZE) ensures x in mem' && mem'[x] == mem[x] {
      ThreadingOutside(mem, page, k, n, x);
    }
  }

  // ---------------------------------------------------------------- subpage_kmalloc

  /** blocktype: the smallest size that fits. */
  ghost predicate SizeClass(sz: nat, blk: nat) {
    blk < NSIZES && sz < LARGEST_SUBPAGE_SIZE && sz <= SIZES[blk] && (blk > 0 ==> SIZES[blk - 1] < sz)
  }

  lemma SizesGrow(i: nat, j: nat)
    requires i < j < NSIZES
    ensures SIZES[i] < SIZES[j]
  {
  }

  /** Every request subpage_kmalloc gets has exactly one size. */
  lemma OneSizeClass(sz: nat) returns (blk: nat)
    requires sz < LARGEST_SUBPAGE_SIZE
    ensures SizeClass(sz, blk) && forall b: nat :: SizeClass(sz, b) ==> b == blk
  {
    blk := if sz <= 16 then 0 else if sz <= 32 then 1 else if sz <= 64 then 2 else if sz <= 128 then 3
           else if sz <= 256 then 4 else if sz <= 512 then 5 else if sz <= 1024 then 6 else 7;
    forall b: nat | SizeClass(sz, b) ensures b == blk {
      if b < blk { if b < blk - 1 { SizesGrow(b, blk - 1); } }
      if blk < b { if blk < b - 1 { SizesGrow(blk, b - 1); } }
    }
  }

  /** The first pageref of the size's list with a free block is the i-th. */
  ghost predicate FirstFree(h: Heap, blk: nat, i: nat) {
    && blk < |h.same| && i < |h.same[blk]|
    && (forall k :: 0 <= k <= i ==> h.same[blk][k] in h.refs)
    && h.refs[h.same[blk][i]].nfree > 0 && forall k :: 0 <= k < i ==> h.refs[h.same[blk][k]].nfree == 0
  }

  ghost predicate NoneFree(h: Heap, blk: nat) {
    blk < |h.same| && forall k :: 0 <= k < |h.same[blk]| ==> h.same[blk][k] in h.refs && h.refs[h.same[blk][k]].nfree == 0
  }

  /** The search of sizebases, and doalloc when it finds a block at a. */
  ghost predicate Took(h: Heap, h': Heap, blk: nat, ret: Option<nat>) {
    match ret
    case None => h' == h && NoneFree(h, blk)
    case Some(a) => exists i: nat :: FirstFree(h, blk, i) && TookAt(h, h', h.same[blk][i], a)
  }

  ghost predicate TookAt(h: Heap, h': Heap, p: nat, a: nat) {
    Poppable(h, p) && h' == Pop(h, p) && a == HeadAddr(h.refs[p])
  }

  /** A block of a size, newly live. */
  ghost predicate NewBlock(h: Heap, h': Heap, a: nat, n: nat) {
    a !in h.live && h'.live == h.live[a := n] && h'.bigs == h.bigs && Multiple(a % PAGE_SIZE, n) && a % PAGE_SIZE + n <= PAGE_SIZE
  }

  lemma BlockPlace(h: Heap, p: nat, off: nat)
    requires Owners(h) && IsBlock(h, p, off)
    ensures var a := PageAddr(h.refs[p]) + off; a % PAGE_SIZE == off && off + SIZES[BlockType(h.refs[p])] <= PAGE_SIZE
  {
    BlockAddr(h, p, off);
    BlockInside(off, BlockType(h.refs[p]));
  }

  lemma PopIsNew(h: Heap, p: nat)
    requires Owners(h) && Poppable(h, p) && IsBlock(h, p, h.refs[p].freelistOffset) && HeadAddr(h.refs[p]) !in h.live
    ensures NewBlock(h, Pop(h, p), HeadAddr(h.refs[p]), SIZES[BlockType(h.refs[p])])
  {
    BlockPlace(h, p, h.refs[p].freelistOffset);
  }

  lemma PopNewBlock(h: Heap, full: nat, p: nat)
    requires CanPop(h, full, p)
    ensures Poppable(h, p) && OkBut(Pop(h, p), if full == p then 0 else full)
    ensures BlockType(h.refs[p]) < NSIZES
    ensures NewBlock(h, Pop(h, p), HeadAddr(h.refs[p]), SIZES[BlockType(h.refs[p])])
  {
    assert Poppable(h, p) && IsBlock(h, p, h.refs[p].freelistOffset) by { PopReady(h, full, p); }
    PopOk(h, full, p);
    PopIsNew(h, p);
  }

  /** A pageref on a size's list. */
  lemma OnSizeList(h: Heap, blk: nat, i: nat)
    requires Lists(h) && blk < NSIZES && i < |h.same[blk]|
    ensures h.same[blk][i] in h.all && h.same[blk][i] in h.refs && BlockType(h.refs[h.same[blk][i]]) == blk
  {
    assert h.same[blk][i] in h.same[blk];
  }

  /** Taking a block from a page that has one gives a new block of the size asked for. */
  lemma TookOk(h: Heap, h': Heap, blk: nat, ret: Option<nat>)
    requires Ok(h) && blk < NSIZES && Took(h, h', blk, ret)
    ensures Ok(h') && SameHands(h, h')
    ensures ret.Some? ==> NewBlock(h, h', ret.value, SIZES[blk])
  {
    if ret.Some? {
      var i: nat :| FirstFree(h, blk, i) && TookAt(h, h', h.same[blk][i], ret.value);
      OnSizeList(h, blk, i);
      PopNewBlock(h, 0, h.same[blk][i]);
    }
  }

  /** Neither pages nor slots changed hands. */
  ghost predicate SameHands(h: Heap, h': Heap) {
    h'.owner == h.owner && h'.reserved == h.reserved && h'.roots == h.roots
  }

  // ---------------------------------------------------------------- allocpageref

  /** The least slot whose bit is clear. */
  ghost predicate FirstSlot(h: Heap, s: Slot) {
    FreeSlot(h, s) && forall x: Slot :: x.r < s.r || (x.r == s.r && x.k < s.k) ==> x.k < NPAGEREFS_PER_PAGE ==> BitOf(h, x)
  }

  ghost predicate AllSlotsUsed(h: Heap) {
    forall x: Slot :: x.r < NUM_PAGEREFPAGES && x.k < NPAGEREFS_PER_PAGE ==> BitOf(h, x)
  }

  datatype Growth = NoSlot | NeedRoot(s: Slot) | GotBlock(a: nat)

  /** From the slot of a pageref on a page in hand to a block of the page: the rest of
      subpage_kmalloc. */
  ghost predicate Populated(h: Heap, h': Heap, s: Slot, page: nat, blk: nat, a: nat) {
    && s.r < |h.roots| && blk < NSIZES && blk < |h.sizebases| && blk < |h.same|
    && var fs := Descending(CAPS[blk], SIZES[blk]);
       var h1 := Link(h, s, page, blk, Threading(h.mem, page, CAPS[blk], SIZES[blk]), fs);
       TookAt(h1, h', SlotAddr(h.roots, s), a)
  }

  /** Page and slot become one listed pageref's. */
  ghost predicate HandsPopulated(h: Heap, h': Heap, s: Slot, page: nat) {
    && s.r < |h.roots|
    && h'.owner == h.owner[page := HeapPage(SlotAddr(h.roots, s))] && h'.reserved == h.reserved - {s} && h'.roots == h.roots
  }

  ghost predicate CanPopulate(h: Heap, s: Slot, page: nat, blk: nat) {
    && Ok(h) && blk < NSIZES && s in h.reserved && s.r < NUM_PAGEREFPAGES && h.roots[s.r].page != 0
    && page in h.owner && h.owner[page].Held?
  }

  lemma PopulatedOk(h: Heap, h': Heap, s: Slot, page: nat, blk: nat, a: nat)
    requires CanPopulate(h, s, page, blk) && Populated(h, h', s, page, blk, a)
    ensures Ok(h') && NewBlock(h, h', a, SIZES[blk]) && HandsPopulated(h, h', s, page)
  {
    var fs := Descending(CAPS[blk], SIZES[blk]);
    var mem' := Threading(h.mem, page, CAPS[blk], SIZES[blk]);
    var p := SlotAddr(h.roots, s);
    FreshPageList(h.mem, page, blk);
    LinkOk(h, s, page, blk, mem', fs);
    var h1 := Link(h, s, page, blk, mem', fs);
    assert page % PAGE_SIZE == 0;
    PabParts(page, blk, h1.refs[p]);
    assert CanPop(h1, p, p);
    PopNewBlock(h1, p, p);
  }

  /** The region that starts with a fresh page in hand. */
  ghost predicate Grew(h: Heap, h': Heap, t: nat, page: nat, blk: nat, g: Growth) {
    match g
    case NoSlot => h' == h && AllSlotsUsed(h)
    case NeedRoot(s) => FirstSlot(h, s) && h.roots[s.r].page == 0 && h' == Reserve(h, s, t)
    case GotBlock(a) => exists s :: FirstSlot(h, s) && h.roots[s.r].page != 0 && Populated(Reserve(h, s, t), h', s, page, blk, a)
  }

  lemma GrewOk(h: Heap, h': Heap, t: nat, page: nat, blk: nat, g: Growth)
    requires Ok(h) && blk < NSIZES && page in h.owner && h.owner[page].Held? && Grew(h, h', t, page, blk, g)
    ensures Ok(h') && GrowthHands(h, h', t, page, blk, g)
  {
    match g
    case NoSlot =>
    case NeedRoot(s) => ReserveOk(h, s, t);
    case GotBlock(a) =>
      var s :| FirstSlot(h, s) && h.roots[s.r].page != 0 && Populated(Reserve(h, s, t), h', s, page, blk, a);
      GrewBlock(h, h', t, page, blk, s, a);
  }

  lemma GrewBlock(h: Heap, h': Heap, t: nat, page: nat, blk: nat, s: Slot, a: nat)
    requires Ok(h) && blk < NSIZES && page in h.owner && h.owner[page].Held?
    requires FreeSlot(h, s) && h.roots[s.r].page != 0 && Populated(Reserve(h, s, t), h', s, page, blk, a)
    ensures Ok(h') && GrowthHands(h, h', t, page, blk, GotBlock(a))
  {
    var h1 := Reserve(h, s, t);
    assert Ok(h1) && s !in h.reserved by { ReserveOk(h, s, t); }
    assert Ok(h') && NewBlock(h1, h', a, SIZES[blk]) && HandsPopulated(h1, h', s, page) by {
      PopulatedOk(h1, h', s, page, blk, a);
    }
    ReservedThenListed(h, h', t, page, blk, s, a);
  }

  lemma ReservedThenListed(h: Heap, h': Heap, t: nat, page: nat, blk: nat, s: Slot, a: nat)
    requires blk < NSIZES && FreeSlot(h, s) && s !in h.reserved
    requires NewBlock(Reserve(h, s, t), h', a, SIZES[blk]) && HandsPopulated(Reserve(h, s, t), h', s, page)
    ensures GrowthHands(h, h', t, page, blk, GotBlock(a))
  {
    assert h'.reserved == h.reserved;
    assert h'.owner == h.owner[page := HeapPage(SlotAddr(h.roots, s))];
  }

  /** What the region did with blocks, pages and slots. */
  ghost predicate GrowthHands(h: Heap, h': Heap, t: nat, page: nat, blk: nat, g: Growth) {
    && SameRootPages(h, h')
    && match g
       case NoSlot => h' == h
       case NeedRoot(s) =>
         && h'.live == h.live && h'.bigs == h.bigs && h'.owner == h.owner
         && s.r < |h.roots| && s !in h.reserved && h'.reserved == h.reserved[s := Some(t)]
       case GotBlock(a) =>
         && blk < NSIZES && NewBlock(h, h', a, SIZES[blk]) && h'.reserved == h.reserved
         && exists p: nat :: h'.owner == h.owner[page := HeapPage(p)]
  }

  // ---------------------------------------------------------------- allocpagerefpage

  datatype Rooting = GiveUp | Spare | Block(a: nat)

  /** The region that starts after alloc_kpages for the pageref page of slot s returned va. */
  ghost predicate Rooted(h: Heap, h': Heap, page: nat, blk: nat, s: Slot, va: nat, g: Rooting) {
    s.r < |h.roots| && match g
    case GiveUp => va == 0 && h.roots[s.r].page == 0 && h' == Leak(h, s)
    case Spare => va != 0 && h.roots[s.r].page != 0 && h' == h
    case Block(a) =>
      (va == 0 <==> h.roots[s.r].page != 0) && Populated(if va == 0 then h else Install(h, s.r, va), h', s, page, blk, a)
  }

  lemma RootedOk(h: Heap, h': Heap, page: nat, blk: nat, s: Slot, va: nat, g: Rooting)
    requires Ok(h) && blk < NSIZES && s in h.reserved && s.r < NUM_PAGEREFPAGES && page in h.owner && h.owner[page].Held?
    requires va != 0 ==> va in h.owner && h.owner[va].Held? && va != page
    requires Rooted(h, h', page, blk, s, va, g)
    ensures Ok(h')
    ensures g.GiveUp? ==> h' == Leak(h, s)
    ensures g.Spare? ==> h' == h
    ensures g.Block? ==> NewBlock(h, h', g.a, SIZES[blk])
                         && HandsPopulated(if va == 0 then h else Install(h, s.r, va), h', s, page)
  {
    match g
    case GiveUp => LeakOk(h, s);
    case Spare =>
    case Block(a) =>
      var h1 := if va == 0 then h else Install(h, s.r, va);
      if va != 0 { InstallOk(h, s.r, va); }
      PopulatedOk(h1, h', s, page, blk, a);
  }

  // ---------------------------------------------------------------- subpage_kfree

  datatype Freeing = NotOurs | Freed | PageFree(page: nat) | Panic

  /** freepageref's assertion: a root without a page has no slot in use. It is made for
      every root before the pageref's own. */
  ghost predicate RootsInOrder(h: Heap, r: nat) {
    forall k: nat :: k < r && k < |h.roots| ==> h.roots[k].page == 0 ==> h.roots[k].numinuse == 0
  }

  /** p is the i-th pageref and the j-th of its size. */
  ghost predicate OnLists(h: Heap, p: nat, i: nat, j: nat) {
    && i < |h.all| && p == h.all[i] && p in h.refs
    && BlockType(h.refs[p]) < |h.same| && j < |h.same[BlockType(h.refs[p])]| && h.same[BlockType(h.refs[p])][j] == p
  }

  /** Freeing the block at off of page p, and the page when it becomes wholly free. */
  ghost predicate FreedBlock(h: Heap, h': Heap, t: nat, p: nat, off: nat, i: nat, j: nat, g: Freeing) {
    && IsBlock(h, p, off) && p in h.free
    && if h.refs[p].nfree + 1 < CAPS[BlockType(h.refs[p])] then g == Freed && h' == Push(h, p, off)
       else p in h.slot && if !RootsInOrder(h, h.slot[p].r) then g == Panic
                           else g == PageFree(PageAddr(h.refs[p])) && Dropping(Push(h, p, off), h', p, i, j, t)
  }

  ghost predicate Dropping(h1: Heap, h': Heap, p: nat, i: nat, j: nat, t: nat) {
    Droppable(h1, p, i, j) && h' == Drop(h1, p, i, j, t)
  }

  /** a is on the page that q describes. */
  predicate Covers(q: PageRef, a: nat) {
    PageAddr(q) <= a < PageAddr(q) + PAGE_SIZE
  }

  ghost predicate NotOnHeap(h: Heap, a: nat) {
    forall p :: p in h.all ==> p in h.refs && !Covers(h.refs[p], a)
  }

  /** subpage_kfree of a. */
  ghost predicate Kfreed(h: Heap, h': Heap, t: nat, a: nat, g: Freeing) {
    if g.NotOurs? then h' == h && NotOnHeap(h, a)
    else exists p: nat, off: nat, i: nat, j: nat :: FoundAndFreed(h, h', t, a, p, off, i, j, g)
  }

  /** p is the pageref of the page a is on. */
  ghost predicate FoundAndFreed(h: Heap, h': Heap, t: nat, a: nat, p: nat, off: nat, i: nat, j: nat, g: Freeing) {
    OnLists(h, p, i, j) && a == PageAddr(h.refs[p]) + off && FreedBlock(h, h', t, p, off, i, j, g)
  }

  lemma FreedKeeps(h: Heap, p: nat, off: nat)
    requires CanPush(h, p, off) && |h.free[p]| + 1 < CAPS[BlockType(h.refs[p])]
    ensures Ok(Push(h, p, off))
  {
    var h1 := Push(h, p, off);
    assert OkBut(h1, p) by { PushOk(h, p, off); }
    assert Pages(h1, 0) by { PushedPages(h1, p); }
  }

  lemma PushedPages(h: Heap, p: nat)
    requires Pages(h, p) && (p in h.all ==> |h.free[p]| < CAPS[BlockType(h.refs[p])])
    ensures Pages(h, 0)
  {
  }

  lemma FreedDrops(h: Heap, p: nat, off: nat, i: nat, j: nat)
    requires CanPush(h, p, off) && OnLists(h, p, i, j) && |h.free[p]| + 1 >= CAPS[BlockType(h.refs[p])]
    ensures CanDrop(Push(h, p, off), p, i, j)
  {
    var h1 := Push(h, p, off);
    assert OkBut(h1, p) by { PushOk(h, p, off); }
    assert |h.free[p]| < CAPS[BlockType(h.refs[p])] by { assert Pages(h, 0); }
  }

  /** What freeing a live block did with blocks, pages and slots. */
  ghost predicate FreedHands(h: Heap, h': Heap, t: nat, a: nat, g: Freeing) {
    && h'.live == h.live - {a} && h'.bigs == h.bigs && h'.reserved == h.reserved && SameRootPages(h, h')
    && match g
       case Freed => h'.owner == h.owner
       case PageFree(page) => page in h.owner && h.owner[page].HeapPage? && h'.owner == h.owner[page := Held(t, false)]
       case _ => false
  }

  lemma DropHands(h: Heap, h': Heap, t: nat, a: nat, p: nat, off: nat, i: nat, j: nat)
    requires p in h.refs && a == PageAddr(h.refs[p]) + off
    requires Owners(h) && IsBlock(h, p, off) && p in h.free && Dropping(Push(h, p, off), h', p, i, j, t)
    ensures FreedHands(h, h', t, a, PageFree(PageAddr(h.refs[p])))
  {
    var h1 := Push(h, p, off);
    assert h1.refs[p].pab == h.refs[p].pab;
    assert SameRootPages(h1, h');
  }

  lemma KeepHands(h: Heap, t: nat, a: nat, p: nat, off: nat)
    requires IsBlock(h, p, off) && p in h.free && a == PageAddr(h.refs[p]) + off
    ensures FreedHands(h, Push(h, p, off), t, a, Freed)
  {
  }

  lemma FreedBlockOk(h: Heap, h': Heap, t: nat, a: nat, p: nat, off: nat, i: nat, j: nat, g: Freeing)
    requires p in h.refs && a == PageAddr(h.refs[p]) + off
    requires CanPush(h, p, off) && OnLists(h, p, i, j) && !g.Panic? && FreedBlock(h, h', t, p, off, i, j, g)
    requires h.refs[p].nfree == |h.free[p]|
    ensures Ok(h') && FreedHands(h, h', t, a, g)
  {
    if h.refs[p].nfree + 1 < CAPS[BlockType(h.refs[p])] {
      assert Ok(h') by { FreedKeeps(h, p, off); }
      assert FreedHands(h, h', t, a, g) by { KeepHands(h, t, a, p, off); }
    } else {
      assert Ok(h') by { FreedDrops(h, p, off, i, j); DropOk(Push(h, p, off), p, i, j, t); }
      assert FreedHands(h, h', t, a, g) by { DropHands(h, h', t, a, p, off, i, j); }
    }
  }

  lemma FreedReady(h: Heap, a: nat, p: nat, off: nat)
    requires Pages(h, 0) && Blocks(h) && a in h.live && IsBlock(h, p, off) && a == PageAddr(h.refs[p]) + off
    ensures p in h.free && off !in h.free[p] && |h.free[p]| == h.refs[p].nfree
  {
    assert FreeOk(h.mem, h.refs[p], h.free[p]);
  }

  lemma LiveIsFound(h: Heap, a: nat)
    requires Owners(h) && Homes(h) && a in h.live
    ensures !NotOnHeap(h, a)
  {
    LiveInside(h, a);
  }

  /** kfree of a live block removes exactly that block, and hands its page over when the
      page has become wholly free. */
  lemma KfreedOk(h: Heap, h': Heap, t: nat, a: nat, g: Freeing)
    requires Ok(h) && a in h.live && !g.Panic? && Kfreed(h, h', t, a, g)
    ensures Ok(h') && FreedHands(h, h', t, a, g)
  {
    assert !g.NotOurs? by { LiveIsFound(h, a); }
    var p: nat, off: nat, i: nat, j: nat :| FoundAndFreed(h, h', t, a, p, off, i, j, g);
    FreedReady(h, a, p, off);
    FreedBlockOk(h, h', t, a, p, off, i, j, g);
  }
}
