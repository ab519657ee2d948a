/** Pages and pageref slots coming and going, fresh heap pages, and what clients may
    write: the steps of kmalloc.c that surround the free lists. */
module HeapGrow {
  import opened HalfWords
  import opened Bits
  import opened HeapState
  import opened HeapOps
  import opened HeapPages

  // ---------------------------------------------------------------- page ownership

  /** Only pages held by a thread change hands, and nothing else changes. */
  ghost predicate HeldOnly(h: Heap, h': Heap) {
    && h' == h.(owner := h'.owner)
    && (forall a :: a in h'.owner ==> a > 0 && a % PAGE_SIZE == 0)
    && (forall a :: a in h.owner && !h.owner[a].Held? ==> a in h'.owner && h'.owner[a] == h.owner[a])
    && (forall a :: a in h'.owner && !h'.owner[a].Held? ==> a in h.owner && h'.owner[a] == h.owner[a])
  }

  lemma HeldOwners(h: Heap, h': Heap)
    requires Owners(h) && Bigs(h) && HeldOnly(h, h')
    ensures Owners(h') && Bigs(h')
  {
    forall r: nat | r < NUM_PAGEREFPAGES && h'.roots[r].page != 0
      ensures h'.roots[r].page in h'.owner && h'.owner[h'.roots[r].page] == RootPage(r)
    {
      assert h.owner[h.roots[r].page] == RootPage(r);
    }
    forall b, k: nat | b in h'.bigs && k < h'.bigs[b] ensures BigPage(h', b, k) { assert BigPage(h, b, k); }
  }

  lemma LiveFrame(h: Heap, h': Heap)
    requires Live(h)
    requires h'.all == h.all && h'.refs == h.refs && h'.free == h.free && h'.live == h.live
    requires forall a :: a in h.owner && h.owner[a].HeapPage? ==> a in h'.owner && h'.owner[a] == h.owner[a]
    ensures Live(h')
  {
    forall p, off | IsBlock(h', p, off) && p in h'.free
      ensures PageAddr(h'.refs[p]) + off in h'.live <==> off !in h'.free[p]
    {
      assert IsBlock(h, p, off);
    }
    forall a | a in h'.live ensures LiveAt(h', a) {
      assert LiveAt(h, a);
      assert IsBlock(h', h.owner[a - a % PAGE_SIZE].pr, a % PAGE_SIZE);
    }
  }

  lemma PagesFrame(h: Heap, h': Heap, full: nat)
    requires Pages(h, full) && h'.all == h.all && h'.refs == h.refs && h'.free == h.free && h'.mem == h.mem
    ensures Pages(h', full)
  {
    forall p | p in h'.all
      ensures p != 0 && p in h'.refs && BlockType(h'.refs[p]) < NSIZES && p in h'.free
      ensures FreeOk(h'.mem, h'.refs[p], h'.free[p])
      ensures |h'.free[p]| <= CAPS[BlockType(h'.refs[p])]
      ensures |h'.free[p]| < CAPS[BlockType(h'.refs[p])] || p == full
    {
      assert FreeOk(h.mem, h.refs[p], h.free[p]);
    }
  }

  /** Pages passing between alloc_kpages, free_kpages and threads do not touch the heap. */
  lemma HeldOk(h: Heap, h': Heap)
    requires Ok(h) && HeldOnly(h, h')
    ensures Ok(h')
  {
    assert Lists(h') by { ListsFrame(h, h'); }
    assert Pages(h', 0) by { PagesFrame(h, h', 0); }
    assert Owners(h') && Bigs(h') by { HeldOwners(h, h'); }
    assert Slots(h') by { SlotsFrame(h, h'); }
    assert Live(h') by { LiveFrame(h, h'); }
  }

  /** alloc_kpages(1) returning a to thread t. */
  ghost function Take(h: Heap, a: nat, t: nat, spare: bool): Heap {
    h.(owner := h.owner[a := Held(t, spare)])
  }

  /** A page alloc_kpages may return. */
  ghost predicate FreshPage(h: Heap, a: nat) {
    a > 0 && a % PAGE_SIZE == 0 && a !in h.owner
  }

  /** free_kpages(a). */
  ghost function Give(h: Heap, a: nat): Heap {
    h.(owner := h.owner - {a})
  }

  lemma TakeOk(h: Heap, a: nat, t: nat, spare: bool)
    requires Ok(h) && FreshPage(h, a)
    ensures Ok(Take(h, a, t, spare))
  {
    assert Owners(h);
    HeldOk(h, Take(h, a, t, spare));
  }

  lemma GiveOk(h: Heap, a: nat)
    requires Ok(h) && a in h.owner && h.owner[a].Held?
    ensures Ok(Give(h, a))
  {
    assert Owners(h);
    HeldOk(h, Give(h, a));
  }

  // ---------------------------------------------------------------- whole-page allocations

  ghost function PageSet(b: nat, n: nat): set<nat> {
    set i: nat | i < n :: PageAt(b, i)
  }

  /** alloc_kpages(n) returning b for a whole-page allocation. */
  ghost function BigAlloc(h: Heap, b: nat, n: nat): Heap {
    h.(owner := h.owner + (map a | a in PageSet(b, n) :: Big(b)), bigs := h.bigs[b := n])
  }

  /** n > 0 consecutive pages nobody owns. */
  ghost predicate FreshPages(h: Heap, b: nat, n: nat) {
    n > 0 && b > 0 && b % PAGE_SIZE == 0 && forall i: nat :: i < n ==> PageAt(b, i) !in h.owner
  }

  ghost function BigFree(h: Heap, b: nat): Heap
    requires b in h.bigs
  {
    h.(owner := h.owner - PageSet(b, h.bigs[b]), bigs := h.bigs - {b})
  }

  /** Only whole-page allocations change. */
  ghost predicate BigsOnly(h: Heap, h': Heap) {
    && h' == h.(owner := h'.owner, bigs := h'.bigs)
    && (forall a :: a in h'.owner ==> a > 0 && a % PAGE_SIZE == 0)
    && (forall a :: a in h.owner && !h.owner[a].Big? ==> a in h'.owner && h'.owner[a] == h.owner[a])
    && (forall a :: a in h'.owner && !h'.owner[a].Big? ==> a in h.owner && h'.owner[a] == h.owner[a])
  }

  lemma BigsOk(h: Heap, h': Heap)
    requires Ok(h) && BigsOnly(h, h') && Bigs(h')
    ensures Ok(h')
  {
    assert Lists(h') by { ListsFrame(h, h'); }
    assert Pages(h', 0) by { PagesFrame(h, h', 0); }
    assert Owners(h') by { BigsOwners(h, h'); }
    assert Slots(h') by { SlotsFrame(h, h'); }
    assert Live(h') by { LiveFrame(h, h'); }
  }

  lemma BigsOwners(h: Heap, h': Heap)
    requires Owners(h) && BigsOnly(h, h')
    ensures Owners(h')
  {
    forall r: nat | r < NUM_PAGEREFPAGES && h'.roots[r].page != 0
      ensures h'.roots[r].page in h'.owner && h'.owner[h'.roots[r].page] == RootPage(r)
    {
      assert h.owner[h.roots[r].page] == RootPage(r);
    }
  }

  lemma BigAllocBigs(h: Heap, b: nat, n: nat)
    requires Bigs(h) && FreshPages(h, b, n)
    ensures b !in h.bigs && Bigs(BigAlloc(h, b, n))
  {
    var h' := BigAlloc(h, b, n);
    assert PageAt(b, 0) == b;
    assert b in h.bigs ==> BigPage(h, b, 0);
    forall c, i: nat | c in h'.bigs && i < h'.bigs[c] ensures BigPage(h', c, i) {
      if c != b { assert BigPage(h, c, i); } else { assert PageAt(b, i) in PageSet(b, n); }
    }
  }

  /** A whole-page allocation leaves everything else as it was. */
  lemma BigAllocOk(h: Heap, b: nat, n: nat)
    requires Ok(h) && FreshPages(h, b, n)
    ensures b !in h.bigs && Ok(BigAlloc(h, b, n))
  {
    var h' := BigAlloc(h, b, n);
    assert b !in h.bigs && Bigs(h') by { BigAllocBigs(h, b, n); }
    assert BigsOnly(h, h') by { BigAllocOnly(h, b, n); }
    BigsOk(h, h');
  }

  lemma BigAllocOnly(h: Heap, b: nat, n: nat)
    requires Owners(h) && FreshPages(h, b, n)
    ensures BigsOnly(h, BigAlloc(h, b, n))
  {
  }

  lemma BigFreeBigs(h: Heap, b: nat)
    requires Bigs(h) && b in h.bigs
    ensures Bigs(BigFree(h, b))
    ensures forall a :: a in PageSet(b, h.bigs[b]) ==> a in h.owner && h.owner[a] == Big(b)
  {
    var h' := BigFree(h, b);
    forall a | a in PageSet(b, h.bigs[b]) ensures a in h.owner && h.owner[a] == Big(b) {
      var i: nat :| i < h.bigs[b] && a == PageAt(b, i);
      assert BigPage(h, b, i);
    }
    forall c, i: nat | c in h'.bigs && i < h'.bigs[c] ensures BigPage(h', c, i) { assert BigPage(h, c, i); }
    forall a | a in h'.owner && h'.owner[a].Big?
      ensures h'.owner[a].base in h'.bigs && PageIn(h', a, h'.owner[a].base)
    {
      assert a in h.owner && h.owner[a] == h'.owner[a] && PageIn(h, a, h.owner[a].base);
    }
  }

  /** free_kpages of a whole-page allocation takes exactly its pages. */
  lemma BigFreeOk(h: Heap, b: nat)
    requires Ok(h) && b in h.bigs
    ensures Ok(BigFree(h, b))
  {
    var h' := BigFree(h, b);
    assert Bigs(h') && forall a :: a in PageSet(b, h.bigs[b]) ==> a in h.owner && h.owner[a] == Big(b) by { BigFreeBigs(h, b); }
    assert BigsOnly(h, h') by { assert Owners(h); }
    BigsOk(h, h');
  }

  // ---------------------------------------------------------------- pageref slots

  /** allocpageref's choice: the bit is set and counted, and the slot is thread t's. */
  ghost function Reserve(h: Heap, s: Slot, t: nat): Heap
    requires s.r < |h.roots| && s.k < NPAGEREFS_PER_PAGE && |h.roots[s.r].inuse| == INUSE_WORDS
  {
    var root := h.roots[s.r];
    h.(roots := h.roots[s.r := root.(inuse := SetWord(root.inuse, s.k), numinuse := root.numinuse + 1)],
       reserved := h.reserved[s := Some(t)])
  }

  ghost predicate FreeSlot(h: Heap, s: Slot) {
    && s.r < NUM_PAGEREFPAGES && s.r < |h.roots| && s.k < NPAGEREFS_PER_PAGE && |h.roots[s.r].inuse| == INUSE_WORDS
    && !InUse(h.roots[s.r].inuse, s.k)
  }

  /** Only pages and owners of roots matter to the rest. */
  ghost predicate SameRootPages(h: Heap, h': Heap) {
    |h'.roots| == |h.roots| && forall r: nat :: r < |h.roots| ==> h'.roots[r].page == h.roots[r].page
  }

  lemma RootsFrame(h: Heap, h': Heap)
    requires Lists(h) && Pages(h, 0) && Owners(h) && Bigs(h) && Live(h)
    requires h' == h.(roots := h'.roots, reserved := h'.reserved) && SameRootPages(h, h')
    ensures Lists(h') && Pages(h', 0) && Owners(h') && Bigs(h') && Live(h')
  {
    assert Lists(h') by { ListsFrame(h, h'); }
    assert Pages(h', 0) by { PagesFrame(h, h', 0); }
    assert Bigs(h') && Owners(h') by {
      forall r: nat | r < NUM_PAGEREFPAGES && h'.roots[r].page != 0
        ensures h'.roots[r].page in h'.owner && h'.owner[h'.roots[r].page] == RootPage(r)
      {
        assert h.owner[h.roots[r].page] == RootPage(r);
      }
      forall b, k: nat | b in h'.bigs && k < h'.bigs[b] ensures BigPage(h', b, k) { assert BigPage(h, b, k); }
      forall a | a in h'.owner && h'.owner[a].Big? ensures PageIn(h', a, h'.owner[a].base) {
        assert PageIn(h, a, h.owner[a].base);
      }
    }
    assert Live(h') by { LiveFrame(h, h'); }
  }

  lemma ReserveSlots(h: Heap, s: Slot, t: nat)
    requires Slots(h) && FreeSlot(h, s)
    ensures Slots(Reserve(h, s, t))
  {
    var h' := Reserve(h, s, t);
    SetCounts(h.roots[s.r], s.k);
    forall x: Slot ensures BitOf(h', x) == (x == s || BitOf(h, x)) {
      if x.r == s.r && x.k < NPAGEREFS_PER_PAGE { SetInUse(h.roots[s.r].inuse, s.k, x.k); }
    }
    forall p | p in h'.all ensures p in h'.slot && Placed(h', p, h'.slot[p]) {
      assert Placed(h, p, h.slot[p]);
    }
    forall x: Slot | BitOf(h', x) ensures x in h'.reserved || ListedAt(h', x) {
      if x != s { assert x in h.reserved || ListedAt(h, x); }
    }
  }

  /** Reserving a free slot keeps the invariant. */
  lemma ReserveOk(h: Heap, s: Slot, t: nat)
    requires Ok(h) && FreeSlot(h, s)
    ensures Ok(Reserve(h, s, t)) && s !in h.reserved
  {
    var h' := Reserve(h, s, t);
    assert s !in h.reserved by { assert BitOf(h, s) <==> false; }
    assert Slots(h') by { ReserveSlots(h, s, t); }
    RootsFrame(h, h');
  }

  /** allocpageref gives up after the pageref page could not be had: the bit stays set. */
  ghost function Leak(h: Heap, s: Slot): Heap {
    h.(reserved := h.reserved[s := None])
  }

  lemma LeakOk(h: Heap, s: Slot)
    requires Ok(h) && s in h.reserved
    ensures Ok(Leak(h, s))
  {
    var h' := Leak(h, s);
    assert Slots(h') by {
      forall p | p in h'.all ensures p in h'.slot && Placed(h', p, h'.slot[p]) { assert Placed(h, p, h.slot[p]); }
      forall x: Slot ensures BitOf(h', x) == BitOf(h, x) {}
      forall x: Slot | BitOf(h', x) ensures x in h'.reserved || ListedAt(h', x) {
        assert x.r < |h.roots| ==> ListedAt(h', x) == ListedAt(h, x);
      }
    }
    RootsFrame(h, h');
  }

  /** root->page = va. */
  ghost function Install(h: Heap, r: nat, va: nat): Heap
    requires r < |h.roots|
  {
    h.(roots := h.roots[r := h.roots[r].(page := va)], owner := h.owner[va := RootPage(r)])
  }

  ghost predicate CanInstall(h: Heap, r: nat, va: nat) {
    && Ok(h) && r < NUM_PAGEREFPAGES && h.roots[r].page == 0
    && va in h.owner && h.owner[va].Held?
  }

  lemma InstallOwners(h: Heap, r: nat, va: nat)
    requires CanInstall(h, r, va)
    ensures Owners(Install(h, r, va)) && Bigs(Install(h, r, va))
  {
    var h' := Install(h, r, va);
    forall b, k: nat | b in h'.bigs && k < h'.bigs[b] ensures BigPage(h', b, k) { assert BigPage(h, b, k); }
    forall a | a in h'.owner && h'.owner[a].Big? ensures PageIn(h', a, h'.owner[a].base) {
      assert PageIn(h, a, h.owner[a].base);
    }
  }

  lemma InstallBits(h: Heap, r: nat, va: nat)
    requires CanInstall(h, r, va)
    ensures forall x: Slot :: BitOf(Install(h, r, va), x) == BitOf(h, x)
  {
  }

  lemma InstallSlots(h: Heap, r: nat, va: nat)
    requires CanInstall(h, r, va)
    ensures Slots(Install(h, r, va))
  {
    var h' := Install(h, r, va);
    InstallBits(h, r, va);
    forall p | p in h'.all ensures p in h'.slot && Placed(h', p, h'.slot[p]) {
      assert Placed(h, p, h.slot[p]);
    }
    forall x: Slot | BitOf(h', x) ensures x in h'.reserved || ListedAt(h', x) {
      assert x in h.reserved || ListedAt(h, x);
    }
  }

  /** The first pageref page of a root; until then all its set bits were only reserved. */
  lemma InstallOk(h: Heap, r: nat, va: nat)
    requires CanInstall(h, r, va)
    ensures Ok(Install(h, r, va))
  {
    var h' := Install(h, r, va);
    assert Lists(h') by { ListsFrame(h, h'); }
    assert Pages(h', 0) by { PagesFrame(h, h', 0); }
    assert Owners(h') && Bigs(h') by { InstallOwners(h, r, va); }
    assert Slots(h') by { InstallSlots(h, r, va); }
    assert Live(h') by { LiveFrame(h, h'); }
  }
}
