/** What each step of kmalloc.c's locked regions does to the heap, and that it keeps
    the representation invariant. */
module HeapOps {
  import opened HalfWords
  import opened Bits
  import opened HeapState

  // ---------------------------------------------------------------- taking a block

  /** The block at the head of a page's free list. */
  function HeadAddr(q: PageRef): nat { PageAddr(q) + q.freelistOffset }

  /** Pop the head of a page's free list: the allocation code at doalloc. */
  ghost function Pop(h: Heap, p: nat): Heap
    requires Poppable(h, p)
  {
    var q := h.refs[p];
    var page := PageAddr(q);
    var a := page + q.freelistOffset;
    var next := h.mem[a];
    h.(refs := h.refs[p := q.(freelistOffset := if next == 0 || next < page then INVALID_OFFSET else next - page, nfree := q.nfree - 1)],
       free := h.free[p := h.free[p][1..]],
       live := h.live[a := SIZES[BlockType(q)]])
  }

  ghost predicate Poppable(h: Heap, p: nat) {
    && p in h.refs && PageAddr(h.refs[p]) + h.refs[p].freelistOffset in h.mem && BlockType(h.refs[p]) < NSIZES
    && h.refs[p].nfree > 0 && p in h.free && h.free[p] != []
  }

  /** A page of the list with a free block. */
  ghost predicate CanPop(h: Heap, full: nat, p: nat) {
    OkBut(h, full) && p in h.all && h.refs[p].nfree > 0
  }

  lemma PopReady(h: Heap, full: nat, p: nat)
    requires CanPop(h, full, p)
    ensures Poppable(h, p)
    ensures var q := h.refs[p];
            && q.freelistOffset == h.free[p][0] < PAGE_SIZE
            && PageAddr(q) > 0
            && FreeOk(h.mem, q, h.free[p])
            && IsBlock(h, p, q.freelistOffset)
  {
    assert ThreadAt(h.mem, PageAddr(h.refs[p]), h.free[p], 0);
  }

  /** The same links and page addresses, and every pageref still there. */
  ghost predicate SameLinks(refs: map<nat, PageRef>, refs': map<nat, PageRef>) {
    forall q :: q in refs ==>
      q in refs' && refs'[q].nextAll == refs[q].nextAll && refs'[q].nextSame == refs[q].nextSame && refs'[q].pab == refs[q].pab
  }

  lemma ChainFrame(refs: map<nat, PageRef>, refs': map<nat, PageRef>, all: bool, head: nat, s: seq<nat>)
    requires Chain(refs, all, head, s) && SameLinks(refs, refs')
    ensures Chain(refs', all, head, s)
  {
    forall i | 0 <= i < |s| ensures LinkAt(refs', all, s, i) { assert LinkAt(refs, all, s, i); }
  }

  lemma ListsFrame(h: Heap, h': Heap)
    requires Lists(h) && SameLinks(h.refs, h'.refs)
    requires h'.sizebases == h.sizebases && h'.allbase == h.allbase && h'.same == h.same && h'.all == h.all
    ensures Lists(h')
  {
    ChainFrame(h.refs, h'.refs, true, h.allbase, h.all);
    forall i: nat | i < NSIZES ensures Chain(h'.refs, false, h'.sizebases[i], h'.same[i]) {
      ChainFrame(h.refs, h'.refs, false, h.sizebases[i], h.same[i]);
    }
  }

  lemma ThreadTail(mem: map<nat, nat>, page: nat, n: nat, fs: seq<nat>)
    requires Threaded(mem, page, n, fs) && fs != []
    ensures page + fs[0] in mem && mem[page + fs[0]] == (if |fs| > 1 then page + fs[1] else 0)
    ensures Threaded(mem, page, n, fs[1..])
  {
    assert ThreadAt(mem, page, fs, 0);
    forall i | 0 <= i < |fs[1..]| ensures ThreadAt(mem, page, fs[1..], i) { assert ThreadAt(mem, page, fs, i + 1); }
  }

  lemma FreeTail(mem: map<nat, nat>, q: PageRef, fs: seq<nat>)
    requires BlockType(q) < NSIZES && FreeOk(mem, q, fs) && fs != []
    ensures PageAddr(q) + fs[0] in mem
    ensures var next := mem[PageAddr(q) + fs[0]];
            && next == (if |fs| > 1 then PageAddr(q) + fs[1] else 0)
            && (PageAddr(q) > 0 ==>
                FreeOk(mem, q.(freelistOffset := if next == 0 || next < PageAddr(q) then INVALID_OFFSET else next - PageAddr(q), nfree := q.nfree - 1), fs[1..]))
  {
    ThreadTail(mem, PageAddr(q), SIZES[BlockType(q)], fs);
  }

  lemma PopPages(h: Heap, full: nat, p: nat)
    requires Pages(h, full) && Poppable(h, p) && p in h.all && PageAddr(h.refs[p]) > 0
    ensures Pages(Pop(h, p), if full == p then 0 else full)
  {
    FreeTail(h.mem, h.refs[p], h.free[p]);
    var h' := Pop(h, p);
    var full' := if full == p then 0 else full;
    forall q | q in h'.all
      ensures q in h'.refs && BlockType(h'.refs[q]) < NSIZES && q in h'.free
      ensures FreeOk(h'.mem, h'.refs[q], h'.free[q])
      ensures |h'.free[q]| <= CAPS[BlockType(h'.refs[q])]
      ensures |h'.free[q]| < CAPS[BlockType(h'.refs[q])] || q == full'
    {
      assert FreeOk(h.mem, h.refs[q], h.free[q]);
    }
  }

  /** Ownership only looks at the list, the page addresses, the roots and the owners. */
  lemma OwnersFrame(h: Heap, h': Heap)
    requires Owners(h) && Bigs(h) && SameLinks(h.refs, h'.refs)
    requires h'.all == h.all && h'.roots == h.roots && h'.owner == h.owner && h'.bigs == h.bigs
    ensures Owners(h') && Bigs(h')
  {
    forall b, i: nat | b in h'.bigs && i < h'.bigs[b] ensures BigPage(h', b, i) { assert BigPage(h, b, i); }
  }

  lemma SlotsFrame(h: Heap, h': Heap)
    requires Slots(h)
    requires h'.all == h.all && h'.roots == h.roots && h'.slot == h.slot && h'.reserved == h.reserved
    ensures Slots(h')
  {
    forall p | p in h'.all ensures p in h'.slot && Placed(h', p, h'.slot[p]) {
      assert Placed(h, p, h.slot[p]) && BitOf(h', h.slot[p]) == BitOf(h, h.slot[p]);
    }
    forall s: Slot ensures BitOf(h', s) == BitOf(h, s) {}
    forall s: Slot | BitOf(h', s) ensures s in h'.reserved || ListedAt(h', s) {
      assert s.r < |h.roots| ==> ListedAt(h', s) == ListedAt(h, s);
    }
  }

  lemma PopBlocks(h: Heap, p: nat)
    requires Blocks(h) && Owners(h) && Poppable(h, p) && IsBlock(h, p, h.refs[p].freelistOffset)
    requires NoDup(h.free[p]) && h.refs[p].freelistOffset == h.free[p][0]
    ensures HeadAddr(h.refs[p]) !in h.live
    ensures Blocks(Pop(h, p))
  {
    var h' := Pop(h, p);
    var off0 := h.refs[p].freelistOffset;
    assert off0 in h.free[p];
    forall q, off | IsBlock(h', q, off) && q in h'.free
      ensures PageAddr(h'.refs[q]) + off in h'.live <==> off !in h'.free[q]
    {
      assert IsBlock(h, q, off);
      assert PageAddr(h'.refs[q]) == PageAddr(h.refs[q]);
      if q == p {
        TailMembers(h.free[p], off);
      } else {
        assert PageAddr(h.refs[q]) + off != HeadAddr(h.refs[p]) by { OnePage(h, p, q, off0, off); }
      }
    }
  }

  lemma PopHomes(h: Heap, p: nat)
    requires Homes(h) && Owners(h) && Poppable(h, p) && IsBlock(h, p, h.refs[p].freelistOffset)
    ensures Homes(Pop(h, p))
  {
    var h' := Pop(h, p);
    BlockAddr(h, p, h.refs[p].freelistOffset);
    forall x | x in h'.live ensures LiveAt(h', x) {
      if x in h.live { assert LiveAt(h, x); }
    }
  }

  lemma TailMembers(s: seq<nat>, x: nat)
    requires NoDup(s) && s != []
    ensures x in s[1..] <==> x in s && x != s[0]
  {
  }

  /** Blocks of different pages, or different blocks of a page, have different addresses. */
  lemma OnePage(h: Heap, p: nat, q: nat, off: nat, off': nat)
    requires Owners(h) && p in h.all && q in h.all && off < PAGE_SIZE && off' < PAGE_SIZE
    ensures PageAddr(h.refs[p]) + off == PageAddr(h.refs[q]) + off' ==> p == q && off == off'
  {
  }

  /** A block's page and offset can be read off its address. */
  lemma BlockAddr(h: Heap, p: nat, off: nat)
    requires Owners(h) && p in h.all && off < PAGE_SIZE
    ensures var a := PageAddr(h.refs[p]) + off;
            a % PAGE_SIZE == off && a - a % PAGE_SIZE == PageAddr(h.refs[p])
  {
  }

  /** Taking a block off a free list keeps the invariant and adds one live block. */
  lemma PopOk(h: Heap, full: nat, p: nat)
    requires CanPop(h, full, p)
    ensures Poppable(h, p) && OkBut(Pop(h, p), if full == p then 0 else full)
    ensures HeadAddr(h.refs[p]) !in h.live
  {
    PopReady(h, full, p);
    var h' := Pop(h, p);
    LinksOnly(h, h');
    PopPages(h, full, p);
    PopBlocks(h, p);
    PopHomes(h, p);
  }

  // ---------------------------------------------------------------- giving a block back

  /** fill_deadbeef: n words from a. */
  function Fill(mem: map<nat, nat>, a: nat, n: nat): map<nat, nat> {
    if n == 0 then mem else Fill(mem, a, n - 1)[a + 4 * (n - 1) := DEADBEEF]
  }

  lemma {:induction false} FillOutside(mem: map<nat, nat>, a: nat, n: nat, x: nat)
    requires x < a || a + 4 * n <= x
    ensures x in Fill(mem, a, n) <==> x in mem
    ensures x in mem ==> Fill(mem, a, n)[x] == mem[x]
  {
    if n > 0 { FillOutside(mem, a, n - 1, x); }
  }

  lemma {:induction false} FillInside(mem: map<nat, nat>, a: nat, n: nat, i: nat)
    requires i < n
    ensures a + 4 * i in Fill(mem, a, n) && Fill(mem, a, n)[a + 4 * i] == DEADBEEF
  {
    if i < n - 1 { FillInside(mem, a, n - 1, i); }
  }

  /** Push a live block onto its page's free list: the end of subpage_kfree. */
  ghost function Push(h: Heap, p: nat, off: nat): Heap
    requires IsBlock(h, p, off) && p in h.free
  {
    var q := h.refs[p];
    var a := PageAddr(q) + off;
    h.(mem := Fill(h.mem, a, SIZES[BlockType(q)] / 4)[a := if q.freelistOffset == INVALID_OFFSET then 0 else PageAddr(q) + q.freelistOffset],
       refs := h.refs[p := q.(freelistOffset := off, nfree := q.nfree + 1)],
       free := h.free[p := [off] + h.free[p]],
       live := h.live - {a})
  }

  ghost predicate CanPush(h: Heap, p: nat, off: nat) {
    Ok(h) && IsBlock(h, p, off) && off !in h.free[p]
  }

  /** A freed block is dead but for its first word, which is the link to the block that was
      first on the free list, or null. */
  lemma FreedIsDead(h: Heap, p: nat, off: nat, i: nat)
    requires IsBlock(h, p, off) && p in h.free && FreeOk(h.mem, h.refs[p], h.free[p]) && i < SIZES[BlockType(h.refs[p])] / 4
    ensures var a, m := PageAddr(h.refs[p]) + off, Push(h, p, off).mem;
            && a + 4 * i in m
            && m[a + 4 * i] == if i > 0 then DEADBEEF else if h.free[p] == [] then 0 else PageAddr(h.refs[p]) + h.free[p][0]
  {
    FillInside(h.mem, PageAddr(h.refs[p]) + off, SIZES[BlockType(h.refs[p])] / 4, i);
    if h.free[p] != [] { assert h.free[p][0] < PAGE_SIZE; }
  }

  /** The words of one block lie outside any other block's first word. */
  lemma BlockWords(page: nat, off: nat, off': nat, n: nat)
    requires n > 0 && Multiple(off, n) && Multiple(off', n) && off != off'
    ensures page + off' < page + off || page + off + 4 * (n / 4) <= page + off'
  {
    if off < off' { MultiplesApart(off, off', n); }
  }

  /** Freeing a block writes only inside it. */
  lemma PushFrame(mem: map<nat, nat>, q: PageRef, off: nat, v: nat, r: PageRef, fs: seq<nat>)
    requires BlockType(q) < NSIZES && BlockType(r) < NSIZES && FreeOk(mem, r, fs)
    requires off < PAGE_SIZE && Multiple(off, SIZES[BlockType(q)])
    requires PageAddr(q) % PAGE_SIZE == 0 && PageAddr(r) % PAGE_SIZE == 0
    requires PageAddr(q) == PageAddr(r) ==> q == r && off !in fs
    ensures FreeOk(Fill(mem, PageAddr(q) + off, SIZES[BlockType(q)] / 4)[PageAddr(q) + off := v], r, fs)
  {
    var a, n := PageAddr(q) + off, SIZES[BlockType(q)];
    var mem' := Fill(mem, a, n / 4)[a := v];
    forall i | 0 <= i < |fs| ensures SameWord(mem, mem', PageAddr(r) + fs[i]) {
      NotFilled(PageAddr(q), off, BlockType(q), PageAddr(r), fs[i]);
      FillOutside(mem, a, n / 4, PageAddr(r) + fs[i]);
    }
    ThreadSame(mem, mem', PageAddr(r), SIZES[BlockType(r)], fs);
  }

  /** Another block's first word is outside a block. */
  lemma NotFilled(page: nat, off: nat, blk: nat, other: nat, x: nat)
    requires blk < NSIZES && off < PAGE_SIZE && Multiple(off, SIZES[blk]) && page % PAGE_SIZE == 0 && other % PAGE_SIZE == 0
    requires x < PAGE_SIZE && (page == other ==> Multiple(x, SIZES[blk]) && x != off)
    ensures other + x < page + off || page + off + 4 * (SIZES[blk] / 4) <= other + x
    ensures other + x != page + off
  {
    SizeFacts(blk);
    if page == other { BlockWords(page, off, x, SIZES[blk]); } else { BlockInside(off, blk); }
  }

  ghost predicate SameWord(mem: map<nat, nat>, mem': map<nat, nat>, x: nat) {
    x in mem ==> x in mem' && mem'[x] == mem[x]
  }

  lemma ThreadSame(mem: map<nat, nat>, mem': map<nat, nat>, page: nat, n: nat, fs: seq<nat>)
    requires Threaded(mem, page, n, fs) && forall i :: 0 <= i < |fs| ==> SameWord(mem, mem', page + fs[i])
    ensures Threaded(mem', page, n, fs)
  {
    forall i | 0 <= i < |fs| ensures ThreadAt(mem', page, fs, i) { assert ThreadAt(mem, page, fs, i) && SameWord(mem, mem', page + fs[i]); }
  }

  /** A block ends inside its page. */
  lemma BlockInside(off: nat, blk: nat)
    requires blk < NSIZES && off < PAGE_SIZE && Multiple(off, SIZES[blk])
    ensures off + SIZES[blk] <= PAGE_SIZE
  {
    SizeFacts(blk);
    MultipleIsMod(PAGE_SIZE, SIZES[blk]);
    MultiplesApart(off, PAGE_SIZE, SIZES[blk]);
  }

  lemma ThreadPush(mem: map<nat, nat>, page: nat, n: nat, fs: seq<nat>, off: nat)
    requires Threaded(mem, page, n, fs) && off < PAGE_SIZE && Multiple(off, n) && page + off in mem
    requires mem[page + off] == if fs == [] then 0 else page + fs[0]
    ensures Threaded(mem, page, n, [off] + fs)
  {
    var fs' := [off] + fs;
    forall i | 0 <= i < |fs'| ensures ThreadAt(mem, page, fs', i) {
      if i > 0 { assert ThreadAt(mem, page, fs, i - 1) && fs'[i] == fs[i - 1]; }
    }
  }

  lemma FreePush(mem: map<nat, nat>, q: PageRef, off: nat, fs: seq<nat>)
    requires BlockType(q) < NSIZES && FreeOk(mem, q, fs) && off !in fs && off < PAGE_SIZE && Multiple(off, SIZES[BlockType(q)])
    requires PageAddr(q) + off in mem
    requires mem[PageAddr(q) + off] == if q.freelistOffset == INVALID_OFFSET then 0 else PageAddr(q) + q.freelistOffset
    ensures FreeOk(mem, q.(freelistOffset := off, nfree := q.nfree + 1), [off] + fs)
  {
    ThreadPush(mem, PageAddr(q), SIZES[BlockType(q)], fs, off);
  }

  lemma PushPages(h: Heap, p: nat, off: nat)
    requires Pages(h, 0) && Owners(h) && IsBlock(h, p, off) && off !in h.free[p]
    ensures Pages(Push(h, p, off), p)
  {
    var h' := Push(h, p, off);
    var q := h.refs[p];
    var v := if q.freelistOffset == INVALID_OFFSET then 0 else PageAddr(q) + q.freelistOffset;
    forall r | r in h'.all
      ensures r != 0 && r in h'.refs && BlockType(h'.refs[r]) < NSIZES && r in h'.free
      ensures FreeOk(h'.mem, h'.refs[r], h'.free[r])
      ensures |h'.free[r]| <= CAPS[BlockType(h'.refs[r])]
      ensures |h'.free[r]| < CAPS[BlockType(h'.refs[r])] || r == p
    {
      OnePage(h, p, r, 0, 0);
      PushFrame(h.mem, q, off, v, h.refs[r], h.free[r]);
      if r == p { FreePush(h'.mem, q, off, h.free[p]); }
    }
  }

  lemma PushBlocks(h: Heap, p: nat, off: nat)
    requires Blocks(h) && Owners(h) && IsBlock(h, p, off) && p in h.free && off !in h.free[p]
    ensures Blocks(Push(h, p, off)) && PageAddr(h.refs[p]) + off in h.live
  {
    var h' := Push(h, p, off);
    forall r, o | IsBlock(h', r, o) && r in h'.free
      ensures PageAddr(h'.refs[r]) + o in h'.live <==> o !in h'.free[r]
    {
      assert IsBlock(h, r, o);
      OnePage(h, p, r, off, o);
    }
  }

  lemma PushHomes(h: Heap, p: nat, off: nat)
    requires Homes(h) && IsBlock(h, p, off) && p in h.free
    ensures Homes(Push(h, p, off))
  {
    var h' := Push(h, p, off);
    forall x | x in h'.live ensures LiveAt(h', x) { assert LiveAt(h, x); }
  }

  /** What only looks at links, roots and owners is untouched by changes to free lists. */
  lemma LinksOnly(h: Heap, h': Heap)
    requires Lists(h) && Owners(h) && Bigs(h) && Slots(h) && SameLinks(h.refs, h'.refs)
    requires h'.sizebases == h.sizebases && h'.allbase == h.allbase && h'.same == h.same && h'.all == h.all
    requires h'.roots == h.roots && h'.owner == h.owner && h'.bigs == h.bigs && h'.slot == h.slot && h'.reserved == h.reserved
    ensures Lists(h') && Owners(h') && Bigs(h') && Slots(h')
  {
    ListsFrame(h, h');
    OwnersFrame(h, h');
    SlotsFrame(h, h');
  }

  lemma PushLinks(h: Heap, p: nat, off: nat)
    requires Lists(h) && Owners(h) && Bigs(h) && Slots(h) && IsBlock(h, p, off) && p in h.free
    ensures var h' := Push(h, p, off); Lists(h') && Owners(h') && Bigs(h') && Slots(h')
  {
    LinksOnly(h, Push(h, p, off));
  }

  /** Giving a block back keeps the invariant but for the page it is on, and takes
      exactly that block from the live ones. */
  lemma PushOk(h: Heap, p: nat, off: nat)
    requires CanPush(h, p, off)
    ensures OkBut(Push(h, p, off), p) && PageAddr(h.refs[p]) + off in h.live
  {
    var h' := Push(h, p, off);
    assert Lists(h') && Owners(h') && Bigs(h') && Slots(h') by { PushLinks(h, p, off); }
    assert Pages(h', p) by { PushPages(h, p, off); }
    assert Blocks(h') && PageAddr(h.refs[p]) + off in h.live by { PushBlocks(h, p, off); }
    assert Homes(h') by { PushHomes(h, p, off); }
  }

  // ---------------------------------------------------------------- pageref slots

  lemma Word32(x: nat)
    ensures x < Pow2(32) <==> x < W32
  {
    Pow2Sixteen();
    Pow2Sum(16, 16);
  }

  /** pagerefs_inuse[i] |= 1 << j. */
  function SetWord(inuse: seq<word>, k: nat): seq<word>
    requires |inuse| == INUSE_WORDS && k < NPAGEREFS_PER_PAGE
  {
    Word32(inuse[k / 32]);
    Pow2Less(k % 32, 32);
    OrBound(inuse[k / 32], Pow2(k % 32), 32);
    Word32(Or(inuse[k / 32], Pow2(k % 32)));
    inuse[k / 32 := Or(inuse[k / 32], Pow2(k % 32))]
  }

  /** pagerefs_inuse[i] &= ~(1 << j). */
  function ClearWord(inuse: seq<word>, k: nat): seq<word>
    requires |inuse| == INUSE_WORDS && k < NPAGEREFS_PER_PAGE
  {
    Word32(inuse[k / 32]);
    ClearIsMask(inuse[k / 32], k % 32, 32);
    ClearBound(inuse[k / 32], k % 32);
    inuse[k / 32 := And(inuse[k / 32], NotMask(k % 32, 32))]
  }

  lemma SetInUse(inuse: seq<word>, k: nat, i: nat)
    requires |inuse| == INUSE_WORDS && k < NPAGEREFS_PER_PAGE && i < NPAGEREFS_PER_PAGE
    ensures InUse(SetWord(inuse, k), i) == (i == k || InUse(inuse, i))
  {
    SetBit(inuse[k / 32], k % 32, i % 32);
    assert i == k <==> i / 32 == k / 32 && i % 32 == k % 32;
  }

  lemma ClearInUse(inuse: seq<word>, k: nat, i: nat)
    requires |inuse| == INUSE_WORDS && k < NPAGEREFS_PER_PAGE && i < NPAGEREFS_PER_PAGE
    ensures InUse(ClearWord(inuse, k), i) == (i != k && InUse(inuse, i))
  {
    Word32(inuse[k / 32]);
    ClearIsMask(inuse[k / 32], k % 32, 32);
    ClearBit(inuse[k / 32], k % 32, i % 32);
    assert i == k <==> i / 32 == k / 32 && i % 32 == k % 32;
  }

  /** Setting a clear bit adds one slot to the count. */
  lemma SetCounts(root: Root, k: nat)
    requires RootOk(root) && k < NPAGEREFS_PER_PAGE && !InUse(root.inuse, k)
    ensures RootOk(root.(inuse := SetWord(root.inuse, k), numinuse := root.numinuse + 1))
  {
    var inuse' := SetWord(root.inuse, k);
    forall i: nat | i < NPAGEREFS_PER_PAGE ensures InUse(inuse', i) == (i == k || InUse(root.inuse, i)) {
      SetInUse(root.inuse, k, i);
    }
    assert UsedSet(inuse') == UsedSet(root.inuse) + {k};
  }

  /** Clearing a set bit takes one slot from the count. */
  lemma ClearCounts(root: Root, k: nat)
    requires RootOk(root) && k < NPAGEREFS_PER_PAGE && InUse(root.inuse, k)
    ensures root.numinuse > 0 && RootOk(root.(inuse := ClearWord(root.inuse, k), numinuse := root.numinuse - 1))
  {
    var inuse' := ClearWord(root.inuse, k);
    forall i: nat | i < NPAGEREFS_PER_PAGE ensures InUse(inuse', i) == (i != k && InUse(root.inuse, i)) {
      ClearInUse(root.inuse, k, i);
    }
    assert k in UsedSet(root.inuse);
    assert UsedSet(inuse') == UsedSet(root.inuse) - {k};
  }

  /** Two slots of pageref pages have different addresses. */
  lemma SlotsApart(h: Heap, s: Slot, s': Slot)
    requires Owners(h) && s.r < |h.roots| && s'.r < |h.roots| && s.k < NPAGEREFS_PER_PAGE && s'.k < NPAGEREFS_PER_PAGE
    requires h.roots[s.r].page != 0 && h.roots[s'.r].page != 0
    requires SlotAddr(h.roots, s) == SlotAddr(h.roots, s')
    ensures s == s'
  {
    assert h.roots[s.r].page == h.roots[s'.r].page;
  }

  // ---------------------------------------------------------------- taking a page off the lists

  function WithNext(p: PageRef, all: bool, next: nat): PageRef {
    if all then p.(nextAll := next) else p.(nextSame := next)
  }

  /** *guy = pr->next, where guy is the base or the next field of the element before. */
  ghost function Unlink(refs: map<nat, PageRef>, all: bool, s: seq<nat>, i: nat): map<nat, PageRef>
    requires i < |s| && s[i] in refs && (i > 0 ==> s[i - 1] in refs)
  {
    if i == 0 then refs else refs[s[i - 1] := WithNext(refs[s[i - 1]], all, Next(refs[s[i]], all))]
  }

  ghost function HeadAfter(refs: map<nat, PageRef>, all: bool, head: nat, s: seq<nat>, i: nat): nat
    requires i < |s| && s[i] in refs
  {
    if i == 0 then Next(refs[s[0]], all) else head
  }

  function Without<T>(s: seq<T>, i: nat): seq<T>
    requires i < |s|
  {
    s[..i] + s[i + 1..]
  }

  lemma WithoutAt(s: seq<nat>, i: nat)
    requires i < |s|
    ensures |Without(s, i)| == |s| - 1
    ensures forall k :: 0 <= k < |s| - 1 ==> Without(s, i)[k] == s[if k < i then k else k + 1]
  {
  }

  lemma WithoutNoDup(s: seq<nat>, i: nat)
    requires NoDup(s) && i < |s|
    ensures NoDup(Without(s, i))
  {
    WithoutAt(s, i);
  }

  lemma UnlinkNext(refs: map<nat, PageRef>, all: bool, head: nat, s: seq<nat>, i: nat, k: nat)
    requires Chain(refs, all, head, s) && i < |s| && k < |s| && k != i
    ensures s[k] in Unlink(refs, all, s, i)
    ensures Next(Unlink(refs, all, s, i)[s[k]], all) ==
            if k + 1 == i then (if i + 1 < |s| then s[i + 1] else 0) else if k + 1 < |s| then s[k + 1] else 0
  {
    assert LinkAt(refs, all, s, i) && LinkAt(refs, all, s, k);
  }

  lemma UnlinkChain(refs: map<nat, PageRef>, all: bool, head: nat, s: seq<nat>, i: nat)
    requires Chain(refs, all, head, s) && i < |s|
    ensures Chain(Unlink(refs, all, s, i), all, HeadAfter(refs, all, head, s, i), Without(s, i))
  {
    var s' := Without(s, i);
    var refs' := Unlink(refs, all, s, i);
    WithoutNoDup(s, i);
    WithoutAt(s, i);
    assert LinkAt(refs, all, s, i);
    forall k | 0 <= k < |s'| ensures LinkAt(refs', all, s', k) {
      UnlinkNext(refs, all, head, s, i, if k < i then k else k + 1);
    }
  }

  /** Relinking one list leaves any list of the other kind, or without the changed element. */
  lemma UnlinkOther(refs: map<nat, PageRef>, all: bool, s: seq<nat>, i: nat, all': bool, head: nat, other: seq<nat>)
    requires i < |s| && s[i] in refs && (i > 0 ==> s[i - 1] in refs)
    requires Chain(refs, all', head, other)
    requires all != all' || (i > 0 ==> s[i - 1] !in other)
    ensures Chain(Unlink(refs, all, s, i), all', head, other)
  {
    var refs' := Unlink(refs, all, s, i);
    forall k | 0 <= k < |other| ensures LinkAt(refs', all', other, k) { assert LinkAt(refs, all', other, k); }
  }

  /** Everything but the two links is as it was. */
  ghost predicate KeepsFields(refs: map<nat, PageRef>, refs': map<nat, PageRef>) {
    forall q :: q in refs ==>
      q in refs' && refs'[q].pab == refs[q].pab && refs'[q].freelistOffset == refs[q].freelistOffset && refs'[q].nfree == refs[q].nfree
  }

  lemma UnlinkKeeps(refs: map<nat, PageRef>, all: bool, s: seq<nat>, i: nat)
    requires i < |s| && s[i] in refs && (i > 0 ==> s[i - 1] in refs)
    ensures KeepsFields(refs, Unlink(refs, all, s, i))
  {
  }

  lemma WithoutMembers(s: seq<nat>, i: nat, x: nat)
    requires NoDup(s) && i < |s|
    ensures x in Without(s, i) <==> x in s && x != s[i]
  {
    if x in s && x != s[i] {
      var k :| 0 <= k < |s| && s[k] == x;
      assert Without(s, i)[if k < i then k else k - 1] == x;
    }
  }
}
