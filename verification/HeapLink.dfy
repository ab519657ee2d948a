/** A fresh heap page joins the lists, and what clients may do with their blocks. */
module HeapLink {
  import opened HalfWords
  import opened HeapState
  import opened HeapOps
  import opened HeapPages
  import opened HeapGrow

  // ---------------------------------------------------------------- a fresh heap page

  /** The end of subpage_kmalloc: the pageref at slot s describes the page, whose blocks
      are threaded over fs, and goes to the front of both lists. */
  ghost function Link(h: Heap, s: Slot, page: nat, blk: nat, mem': map<nat, nat>, fs: seq<nat>): Heap
    requires s.r < |h.roots| && blk < |h.sizebases| && blk < |h.same| && fs != []
  {
    var p := SlotAddr(h.roots, s);
    h.(mem := mem',
       refs := h.refs[p := PageRef(h.sizebases[blk], h.allbase, MakePab(page, blk), fs[0], |fs|)],
       sizebases := h.sizebases[blk := p],
       allbase := p,
       same := h.same[blk := [p] + h.same[blk]],
       all := [p] + h.all,
       free := h.free[p := fs],
       slot := h.slot[p := s],
       reserved := h.reserved - {s},
       owner := h.owner[page := HeapPage(p)])
  }

  /** Memory outside the page is untouched. */
  ghost predicate OnlyPage(mem: map<nat, nat>, mem': map<nat, nat>, page: nat) {
    forall x :: x in mem && !(page <= x < page + PAGE_SIZE) ==> x in mem' && mem'[x] == mem[x]
  }

  /** The blocks of a fresh page, each free. */
  ghost predicate FreshList(mem: map<nat, nat>, page: nat, blk: nat, fs: seq<nat>)
    requires blk < NSIZES
  {
    NoDup(fs) && |fs| == CAPS[blk] && Threaded(mem, page, SIZES[blk], fs)
  }

  ghost predicate CanLink(h: Heap, s: Slot, page: nat, blk: nat, mem': map<nat, nat>, fs: seq<nat>) {
    && Ok(h) && blk < NSIZES
    && s in h.reserved && s.r < NUM_PAGEREFPAGES && h.roots[s.r].page != 0
    && page in h.owner && h.owner[page].Held?
    && OnlyPage(h.mem, mem', page) && FreshList(mem', page, blk, fs)
  }

  lemma PabParts(page: nat, blk: nat, q: PageRef)
    requires page % PAGE_SIZE == 0 && blk < NSIZES && q.pab == MakePab(page, blk)
    ensures PageAddr(q) == page && BlockType(q) == blk
  {
  }

  /** The reserved slot is not that of a listed pageref. */
  lemma NewRef(h: Heap, s: Slot)
    requires Slots(h) && Owners(h) && s in h.reserved && s.r < NUM_PAGEREFPAGES && h.roots[s.r].page != 0
    ensures SlotAddr(h.roots, s) !in h.all && SlotAddr(h.roots, s) > 0
  {
    var p := SlotAddr(h.roots, s);
    if p in h.all {
      assert Placed(h, p, h.slot[p]) && BitOf(h, s);
      SlotsApart(h, s, h.slot[p]);
    }
  }

  lemma ChainPush(refs: map<nat, PageRef>, all: bool, head: nat, s: seq<nat>, p: nat, q: PageRef)
    requires Chain(refs, all, head, s) && p !in s && p != 0 && Next(q, all) == head
    ensures Chain(refs[p := q], all, p, [p] + s)
  {
    var s' := [p] + s;
    var refs' := refs[p := q];
    forall i | 0 <= i < |s'| ensures LinkAt(refs', all, s', i) {
      if i > 0 { assert LinkAt(refs, all, s, i - 1) && s'[i] == s[i - 1]; }
    }
  }

  lemma ChainSkip(refs: map<nat, PageRef>, all: bool, head: nat, s: seq<nat>, p: nat, q: PageRef)
    requires Chain(refs, all, head, s) && p !in s
    ensures Chain(refs[p := q], all, head, s)
  {
    var refs' := refs[p := q];
    forall i | 0 <= i < |s| ensures LinkAt(refs', all, s, i) { assert LinkAt(refs, all, s, i); }
  }

  lemma LinkLists(h: Heap, s: Slot, page: nat, blk: nat, mem': map<nat, nat>, fs: seq<nat>)
    requires Lists(h) && s.r < |h.roots| && blk < NSIZES && fs != [] && page % PAGE_SIZE == 0
    requires SlotAddr(h.roots, s) !in h.all && SlotAddr(h.roots, s) > 0
    ensures Lists(Link(h, s, page, blk, mem', fs))
  {
    var h' := Link(h, s, page, blk, mem', fs);
    var p := SlotAddr(h.roots, s);
    var q := h'.refs[p];
    PabParts(page, blk, q);
    ChainPush(h.refs, true, h.allbase, h.all, p, q);
    forall b: nat | b < NSIZES ensures Chain(h'.refs, false, h'.sizebases[b], h'.same[b]) {
      if b == blk { ChainPush(h.refs, false, h.sizebases[b], h.same[b], p, q); }
      else { ChainSkip(h.refs, false, h.sizebases[b], h.same[b], p, q); }
    }
  }

  lemma LinkPages(h: Heap, s: Slot, page: nat, blk: nat, mem': map<nat, nat>, fs: seq<nat>)
    requires Pages(h, 0) && Owners(h) && s.r < |h.roots| && blk < NSIZES && fs != [] && blk < |h.sizebases| && blk < |h.same|
    requires SlotAddr(h.roots, s) !in h.all && SlotAddr(h.roots, s) > 0
    requires page in h.owner && h.owner[page].Held? && OnlyPage(h.mem, mem', page) && FreshList(mem', page, blk, fs)
    ensures Pages(Link(h, s, page, blk, mem', fs), SlotAddr(h.roots, s))
  {
    var h' := Link(h, s, page, blk, mem', fs);
    var p := SlotAddr(h.roots, s);
    PabParts(page, blk, h'.refs[p]);
    forall q | q in h'.all
      ensures q != 0 && q in h'.refs && BlockType(h'.refs[q]) < NSIZES && q in h'.free
      ensures FreeOk(h'.mem, h'.refs[q], h'.free[q])
      ensures |h'.free[q]| <= CAPS[BlockType(h'.refs[q])]
      ensures |h'.free[q]| < CAPS[BlockType(h'.refs[q])] || q == p
    {
      if q != p { FreeElsewhere(h.mem, mem', page, h.refs[q], h.free[q]); }
    }
  }

  /** A free list on another page is as it was. */
  lemma FreeElsewhere(mem: map<nat, nat>, mem': map<nat, nat>, page: nat, q: PageRef, fs: seq<nat>)
    requires BlockType(q) < NSIZES && FreeOk(mem, q, fs) && OnlyPage(mem, mem', page)
    requires page % PAGE_SIZE == 0 && PageAddr(q) != page
    ensures FreeOk(mem', q, fs)
  {
    forall i | 0 <= i < |fs| ensures ThreadAt(mem', PageAddr(q), fs, i) {
      assert ThreadAt(mem, PageAddr(q), fs, i);
    }
  }

  lemma LinkOwners(h: Heap, s: Slot, page: nat, blk: nat, mem': map<nat, nat>, fs: seq<nat>)
    requires Owners(h) && Bigs(h) && s.r < |h.roots| && blk < NSIZES && fs != [] && blk < |h.sizebases| && blk < |h.same|
    requires SlotAddr(h.roots, s) !in h.all && page in h.owner && h.owner[page].Held?
    ensures Owners(Link(h, s, page, blk, mem', fs)) && Bigs(Link(h, s, page, blk, mem', fs))
  {
    var h' := Link(h, s, page, blk, mem', fs);
    PabParts(page, blk, h'.refs[SlotAddr(h.roots, s)]);
    forall b, k: nat | b in h'.bigs && k < h'.bigs[b] ensures BigPage(h', b, k) { assert BigPage(h, b, k); }
    forall a | a in h'.owner && h'.owner[a].Big? ensures PageIn(h', a, h'.owner[a].base) {
      assert PageIn(h, a, h.owner[a].base);
    }
  }

  lemma LinkSlots(h: Heap, s: Slot, page: nat, blk: nat, mem': map<nat, nat>, fs: seq<nat>)
    requires Slots(h) && Owners(h) && blk < NSIZES && fs != [] && blk < |h.sizebases| && blk < |h.same|
    requires s in h.reserved && s.r < |h.roots| && h.roots[s.r].page != 0
    requires SlotAddr(h.roots, s) !in h.all
    ensures Slots(Link(h, s, page, blk, mem', fs))
  {
    var h' := Link(h, s, page, blk, mem', fs);
    forall x: Slot ensures BitOf(h', x) == BitOf(h, x) {}
    assert BitOf(h, s);
    forall p | p in h'.all ensures p in h'.slot && Placed(h', p, h'.slot[p]) {
      if p in h.all { assert Placed(h, p, h.slot[p]); }
    }
    forall x: Slot | BitOf(h', x) ensures x in h'.reserved || ListedAt(h', x) {
      if x != s { assert x in h.reserved || ListedAt(h, x); }
    }
  }

  /** Nothing on a page in a thread's hands is live. */
  lemma HeldNotLive(h: Heap, page: nat, off: nat)
    requires Homes(h) && page in h.owner && h.owner[page].Held? && page % PAGE_SIZE == 0 && off < PAGE_SIZE
    ensures page + off !in h.live
  {
    assert page + off in h.live ==> LiveAt(h, page + off);
    BlockOf(page, off);
  }

  lemma LinkBlocks(h: Heap, s: Slot, page: nat, blk: nat, mem': map<nat, nat>, fs: seq<nat>)
    requires Live(h) && Owners(h) && blk < NSIZES && fs != [] && blk < |h.sizebases| && blk < |h.same|
    requires s.r < |h.roots| && SlotAddr(h.roots, s) !in h.all
    requires page in h.owner && h.owner[page].Held? && FreshList(mem', page, blk, fs)
    ensures Blocks(Link(h, s, page, blk, mem', fs))
  {
    var h' := Link(h, s, page, blk, mem', fs);
    var p := SlotAddr(h.roots, s);
    PabParts(page, blk, h'.refs[p]);
    forall q, off | IsBlock(h', q, off) && q in h'.free
      ensures PageAddr(h'.refs[q]) + off in h'.live <==> off !in h'.free[q]
    {
      if q != p {
        assert IsBlock(h, q, off);
      } else {
        FullHasAll(fs, blk, off);
        HeldNotLive(h, page, off);
      }
    }
  }

  lemma BlockOf(page: nat, off: nat)
    requires page % PAGE_SIZE == 0 && off < PAGE_SIZE
    ensures (page + off) % PAGE_SIZE == off
  {
  }

  lemma LinkHomes(h: Heap, s: Slot, page: nat, blk: nat, mem': map<nat, nat>, fs: seq<nat>)
    requires Live(h) && Owners(h) && blk < NSIZES && fs != [] && blk < |h.sizebases| && blk < |h.same|
    requires s.r < |h.roots| && SlotAddr(h.roots, s) !in h.all && page in h.owner && h.owner[page].Held?
    ensures Homes(Link(h, s, page, blk, mem', fs))
  {
    var h' := Link(h, s, page, blk, mem', fs);
    forall a | a in h'.live ensures LiveAt(h', a) {
      assert LiveAt(h, a);
      assert IsBlock(h', h.owner[a - a % PAGE_SIZE].pr, a % PAGE_SIZE);
    }
  }

  /** A fresh page keeps the invariant but for being wholly free, and makes nothing live. */
  lemma LinkOk(h: Heap, s: Slot, page: nat, blk: nat, mem': map<nat, nat>, fs: seq<nat>)
    requires CanLink(h, s, page, blk, mem', fs)
    ensures fs != [] && OkBut(Link(h, s, page, blk, mem', fs), SlotAddr(h.roots, s))
  {
    NewRef(h, s);
    var h' := Link(h, s, page, blk, mem', fs);
    assert Lists(h') by { assert page % PAGE_SIZE == 0; LinkLists(h, s, page, blk, mem', fs); }
    assert Pages(h', SlotAddr(h.roots, s)) by { LinkPages(h, s, page, blk, mem', fs); }
    assert Owners(h') && Bigs(h') by { LinkOwners(h, s, page, blk, mem', fs); }
    assert Slots(h') by { LinkSlots(h, s, page, blk, mem', fs); }
    assert Live(h') by { LinkBlocks(h, s, page, blk, mem', fs); LinkHomes(h, s, page, blk, mem', fs); }
  }

  // ---------------------------------------------------------------- blocks are disjoint

  /** a lies inside the block at b. */
  predicate Within(a: nat, b: nat, n: nat) { b <= a < b + n }

  /** The page an address is on. */
  function PageOf(a: nat): (page: nat)
    ensures page % PAGE_SIZE == 0 && page <= a < page + PAGE_SIZE
  {
    a - a % PAGE_SIZE
  }

  lemma OnPage(page: nat, a: nat)
    requires page % PAGE_SIZE == 0 && page <= a < page + PAGE_SIZE
    ensures PageOf(a) == page && a % PAGE_SIZE == a - page
  {
  }

  lemma PagesApart(p: nat, q: nat)
    requires p % PAGE_SIZE == 0 && q % PAGE_SIZE == 0 && p < q
    ensures p + PAGE_SIZE <= q
  {
  }

  /** The block b of n bytes is aligned in its page and does not leave it. */
  ghost predicate InPage(page: nat, b: nat, n: nat) {
    page % PAGE_SIZE == 0 && n > 0 && page <= b && b + n <= page + PAGE_SIZE && Multiple(b - page, n)
  }

  /** A live block lies aligned inside one heap page. */
  lemma LiveInside(h: Heap, b: nat)
    requires Owners(h) && Homes(h) && b in h.live
    ensures InPage(PageOf(b), b, h.live[b])
    ensures PageOf(b) in h.owner && h.owner[PageOf(b)].HeapPage?
    ensures var p := h.owner[PageOf(b)].pr;
            p in h.all && p in h.refs && PageAddr(h.refs[p]) == PageOf(b)
            && BlockType(h.refs[p]) < NSIZES && h.live[b] == SIZES[BlockType(h.refs[p])]
  {
    assert LiveAt(h, b);
    var blk := BlockType(h.refs[h.owner[PageOf(b)].pr]);
    BlockInside(b % PAGE_SIZE, blk);
    SizeFacts(blk);
  }

  lemma InPageApart(page: nat, a: nat, b: nat, n: nat)
    requires InPage(page, a, n) && InPage(page, b, n) && a < b
    ensures a + n <= b
  {
    MultiplesApart(a - page, b - page, n);
  }

  /** Live blocks do not overlap. */
  lemma LiveApart(h: Heap, a: nat, b: nat)
    requires Ok(h) && a in h.live && b in h.live && a < b
    ensures a + h.live[a] <= b
  {
    assert PageOf(a) == PageOf(b) ==> h.live[a] == h.live[b] by { LiveInside(h, a); LiveInside(h, b); }
    assert InPage(PageOf(a), a, h.live[a]) && InPage(PageOf(b), b, h.live[b]) by { LiveInside(h, a); LiveInside(h, b); }
    Apart(a, b, h.live[a], h.live[b]);
  }

  lemma Apart(a: nat, b: nat, n: nat, m: nat)
    requires a < b && InPage(PageOf(a), a, n) && InPage(PageOf(b), b, m) && (PageOf(a) == PageOf(b) ==> n == m)
    ensures a + n <= b
  {
    if PageOf(a) == PageOf(b) {
      InPageApart(PageOf(a), a, b, n);
    } else if PageOf(b) < PageOf(a) {
      PagesApart(PageOf(b), PageOf(a));
    } else {
      PagesApart(PageOf(a), PageOf(b));
    }
  }

  /** Nor does any address of one lie on a page used for anything but heap blocks: not a
      pageref page, not a page of a whole-page allocation, not one in a thread's hands. */
  lemma LiveOnHeap(h: Heap, b: nat, a: nat)
    requires Ok(h) && b in h.live && Within(a, b, h.live[b])
    ensures PageOf(a) == PageOf(b) && PageOf(a) in h.owner && h.owner[PageOf(a)].HeapPage?
  {
    LiveInside(h, b);
    OnPage(PageOf(b), a);
  }

  /** A free offset of a listed page is no live block. */
  lemma LinkIsBlock(h: Heap, p: nat, i: nat, b: nat)
    requires Pages(h, 0) && Owners(h) && Blocks(h) && p in h.all && p in h.free && i < |h.free[p]|
    ensures p in h.refs && BlockType(h.refs[p]) < NSIZES && h.free[p][i] < PAGE_SIZE
    ensures PageAddr(h.refs[p]) % PAGE_SIZE == 0 && Multiple(h.free[p][i], SIZES[BlockType(h.refs[p])])
    ensures b in h.live ==> b != PageAddr(h.refs[p]) + h.free[p][i]
    ensures PageAddr(h.refs[p]) in h.owner && h.owner[PageAddr(h.refs[p])] == HeapPage(p)
  {
    assert FreeOk(h.mem, h.refs[p], h.free[p]);
    assert IsBlock(h, p, h.free[p][i]) && h.free[p][i] in h.free[p];
  }

  lemma FreeApart(page: nat, off: nat, m: nat, b: nat, n: nat)
    requires InPage(PageOf(b), b, n) && page % PAGE_SIZE == 0 && page + off != b
    requires m > 0 && off + m <= PAGE_SIZE && Multiple(off, m) && (PageOf(b) == page ==> n == m)
    ensures Disjoint(page + off, m, b, n)
  {
    if PageOf(b) == page {
      if b - page < off { MultiplesApart(b - page, off, n); } else { MultiplesApart(off, b - page, n); }
    } else if PageOf(b) < page {
      PagesApart(PageOf(b), page);
    } else {
      PagesApart(page, PageOf(b));
    }
  }

  ghost predicate Disjoint(a: nat, n: nat, b: nat, m: nat) {
    a + n <= b || b + m <= a
  }

  /** The block size of the page b is on. */
  lemma SizeOnPage(h: Heap, b: nat, p: nat)
    requires Owners(h) && Homes(h) && b in h.live && p in h.all && PageOf(b) == PageAddr(h.refs[p])
    ensures BlockType(h.refs[p]) < NSIZES && h.live[b] == SIZES[BlockType(h.refs[p])]
  {
    LiveInside(h, b);
  }

  /** Block i of the free list of p. */
  ghost predicate ApartFromFree(h: Heap, p: nat, i: nat, b: nat, n: nat)
    requires p in h.all && p in h.refs && p in h.free && i < |h.free[p]|
  {
    BlockType(h.refs[p]) < NSIZES && Disjoint(PageAddr(h.refs[p]) + h.free[p][i], SIZES[BlockType(h.refs[p])], b, n)
  }

  /** Nor does it overlap a free block, with the link in it. */
  lemma LiveNotLink(h: Heap, b: nat, p: nat, i: nat)
    requires Ok(h) && b in h.live && p in h.all && i < |h.free[p]|
    ensures ApartFromFree(h, p, i, b, h.live[b])
  {
    var page, off, blk := PageAddr(h.refs[p]), h.free[p][i], BlockType(h.refs[p]);
    assert blk < NSIZES && page % PAGE_SIZE == 0 && off < PAGE_SIZE && Multiple(off, SIZES[blk]) && b != page + off by {
      LinkIsBlock(h, p, i, b);
    }
    assert InPage(PageOf(b), b, h.live[b]) by { LiveInside(h, b); }
    assert PageOf(b) == page ==> h.live[b] == SIZES[blk] by { if PageOf(b) == page { SizeOnPage(h, b, p); } }
    SizeFacts(blk);
    BlockInside(off, blk);
    FreeApart(page, off, SIZES[blk], b, h.live[b]);
  }

  // ---------------------------------------------------------------- client writes

  ghost predicate Writable(h: Heap, a: nat) {
    || (exists b :: b in h.live && Within(a, b, h.live[b]))
    || (PageOf(a) in h.owner && h.owner[PageOf(a)].Big?)
  }

  /** A client stores into one of its blocks. */
  ghost function Store(h: Heap, a: nat, v: nat): Heap {
    h.(mem := h.mem[a := v])
  }

  lemma NotALink(h: Heap, a: nat, p: nat, i: nat)
    requires Ok(h) && Writable(h, a) && p in h.all && i < |h.free[p]|
    ensures a != PageAddr(h.refs[p]) + h.free[p][i]
  {
    if b :| b in h.live && Within(a, b, h.live[b]) {
      LiveNotLink(h, b, p, i);
      SizeFacts(BlockType(h.refs[p]));
    } else {
      LinkOnHeap(h, p, i);
    }
  }

  lemma LinkOnHeap(h: Heap, p: nat, i: nat)
    requires Ok(h) && p in h.all && p in h.free && i < |h.free[p]|
    ensures p in h.refs
    ensures var page := PageOf(PageAddr(h.refs[p]) + h.free[p][i]); page in h.owner && h.owner[page].HeapPage?
  {
    var page, off := PageAddr(h.refs[p]), h.free[p][i];
    LinkIsBlock(h, p, i, 0);
    OnPage(page, page + off);
  }

  lemma StorePages(h: Heap, a: nat, v: nat)
    requires Pages(h, 0)
    requires forall p, i: nat :: p in h.all && i < |h.free[p]| ==> a != PageAddr(h.refs[p]) + h.free[p][i]
    ensures Pages(Store(h, a, v), 0)
  {
    var h' := Store(h, a, v);
    forall p | p in h'.all
      ensures p != 0 && p in h'.refs && BlockType(h'.refs[p]) < NSIZES && p in h'.free
      ensures FreeOk(h'.mem, h'.refs[p], h'.free[p])
      ensures |h'.free[p]| < CAPS[BlockType(h'.refs[p])]
    {
      assert FreeOk(h.mem, h.refs[p], h.free[p]);
      forall i | 0 <= i < |h.free[p]| ensures ThreadAt(h'.mem, PageAddr(h.refs[p]), h.free[p], i) {
        assert ThreadAt(h.mem, PageAddr(h.refs[p]), h.free[p], i);
      }
    }
  }

  /** Whatever clients store in their blocks, the heap's own structure is safe. */
  lemma StoreOk(h: Heap, a: nat, v: nat)
    requires Ok(h) && Writable(h, a)
    ensures Ok(Store(h, a, v))
  {
    var h' := Store(h, a, v);
    assert Lists(h') && Owners(h') && Bigs(h') && Slots(h') by { LinksOnly(h, h'); }
    assert Live(h') by { LiveFrame(h, h'); }
    assert Pages(h', 0) by {
      forall p, i: nat | p in h.all && i < |h.free[p]| ensures a != PageAddr(h.refs[p]) + h.free[p][i] {
        NotALink(h, a, p, i);
      }
      StorePages(h, a, v);
    }
  }
}
