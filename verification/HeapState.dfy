/** The state of the kernel heap of kern/vm/kmalloc.c and its representation
    invariant: page descriptors (pagerefs) on two linked lists, a free list threaded
    through each heap page, and bitmaps of pageref slots. */
module HeapState {
  import opened HalfWords
  import opened Bits

  const PAGE_SIZE: nat := 4096
  const NSIZES: nat := 8
  const SIZES: seq<nat> := [16, 32, 64, 128, 256, 512, 1024, 2048]
  const LARGEST_SUBPAGE_SIZE: nat := 2048
  const INVALID_OFFSET: nat := 0xffff
  const NPAGEREFS_PER_PAGE: nat := 256
  const PAGEREF_SIZE: nat := 16
  const INUSE_WORDS: nat := 8
  const NUM_PAGEREFPAGES: nat := 16
  const DEADBEEF: nat := 0xdeadbeef

  datatype Option<T> = None | Some(value: T)

  /** struct pageref. Pointers are addresses, 0 is NULL. */
  datatype PageRef = PageRef(nextSame: nat, nextAll: nat, pab: nat, freelistOffset: nat, nfree: nat)

  /** PR_PAGEADDR, PR_BLOCKTYPE and MKPAB: a page address with a block type in its low bits. */
  function PageAddr(p: PageRef): nat { p.pab - p.pab % PAGE_SIZE }
  function BlockType(p: PageRef): nat { p.pab % PAGE_SIZE }
  function MakePab(page: nat, blk: nat): nat { page - page % PAGE_SIZE + blk % PAGE_SIZE }

  /** struct kheap_root. */
  datatype Root = Root(page: nat, inuse: seq<word>, numinuse: nat)

  /** A pageref slot: root r, index k in its page. */
  datatype Slot = Slot(r: nat, k: nat)

  /** What a page handed out by alloc_kpages is used for. A thread in the middle of a
      call may hold two: the page it will turn into heap, and a spare pageref page. */
  datatype Owner = RootPage(r: nat) | HeapPage(pr: nat) | Held(t: nat, spare: bool) | Big(base: nat)

  /** The file's static variables and the memory, followed by what they stand for. */
  datatype Heap = Heap(
    mem: map<nat, nat>,           // words of memory
    refs: map<nat, PageRef>,      // the pagerefs, by address
    sizebases: seq<nat>,
    allbase: nat,
    roots: seq<Root>,
    same: seq<seq<nat>>,          // each size's list
    all: seq<nat>,                // the list of all pagerefs
    free: map<nat, seq<nat>>,     // each listed page's free offsets, in list order
    slot: map<nat, Slot>,         // the slot of each listed pageref
    reserved: map<Slot, Option<nat>>, // slots in use but not listed: by a thread, or leaked
    owner: map<nat, Owner>,       // every page handed out
    bigs: map<nat, nat>,          // whole-page allocations and their page counts
    live: map<nat, nat>)          // client blocks and their sizes

  /** PAGE_SIZE / sizes[blk]. */
  const CAPS: seq<nat> := [256, 128, 64, 32, 16, 8, 4, 2]

  lemma SizeFacts(blk: nat)
    requires blk < NSIZES
    ensures 16 <= SIZES[blk] <= 2048 && SIZES[blk] % 16 == 0
    ensures 2 <= CAPS[blk] <= 256 && CAPS[blk] * SIZES[blk] == PAGE_SIZE && CAPS[blk] == PAGE_SIZE / SIZES[blk]
  {
  }

  /** x is a multiple of n. */
  ghost predicate Multiple(x: nat, n: nat) {
    x == 0 || (0 < n <= x && Multiple(x - n, n))
  }

  lemma {:induction false} MultipleIsMod(x: nat, n: nat)
    requires n > 0
    ensures Multiple(x, n) <==> x % n == 0
  {
    if 0 < x {
      if n <= x {
        MultipleIsMod(x - n, n);
        ModMinus(x, n);
      } else {
        DivModUnique(x, n, 0, x);
      }
    } else {
      DivModUnique(0, n, 0, 0);
    }
  }

  lemma ModMinus(x: nat, n: nat)
    requires 0 < n <= x
    ensures (x - n) % n == x % n
  {
    var q, r := (x - n) / n, (x - n) % n;
    assert x == n * (q + 1) + r;
    DivModUnique(x, n, q + 1, r);
  }

  /** Distinct multiples of n are at least n apart. */
  lemma {:induction false} MultiplesApart(x: nat, y: nat, n: nat)
    requires n > 0 && Multiple(x, n) && Multiple(y, n) && x < y
    ensures x + n <= y
  {
    if x > 0 { MultiplesApart(x - n, y - n, n); }
  }

  ghost predicate NoDup<T(!new)>(s: seq<T>) {
    forall i, j :: 0 <= i < j < |s| ==> s[i] != s[j]
  }

  function Next(p: PageRef, all: bool): nat { if all then p.nextAll else p.nextSame }

  /** The pagerefs reached from head are exactly s, and the list ends. */
  ghost predicate Chain(refs: map<nat, PageRef>, all: bool, head: nat, s: seq<nat>) {
    && NoDup(s)
    && head == (if s == [] then 0 else s[0])
    && (forall i :: 0 <= i < |s| ==> s[i] != 0 && s[i] in refs)
    && (forall i :: 0 <= i < |s| ==> LinkAt(refs, all, s, i))
  }

  ghost predicate LinkAt(refs: map<nat, PageRef>, all: bool, s: seq<nat>, i: nat) {
    i < |s| && s[i] in refs && Next(refs[s[i]], all) == if i + 1 < |s| then s[i + 1] else 0
  }

  /** allbase holds exactly the pagerefs of the eight size lists, each once. */
  ghost predicate Lists(h: Heap) {
    && |h.sizebases| == NSIZES && |h.same| == NSIZES
    && Chain(h.refs, true, h.allbase, h.all)
    && (forall i :: 0 <= i < NSIZES ==> Chain(h.refs, false, h.sizebases[i], h.same[i]))
    && (forall i, p :: 0 <= i < NSIZES && p in h.same[i] ==> p in h.all && BlockType(h.refs[p]) == i)
    && (forall p :: p in h.all ==> BlockType(h.refs[p]) < NSIZES && p in h.same[BlockType(h.refs[p])])
  }

  /** The in-page chain over the offsets fs, for blocks of n bytes. */
  ghost predicate Threaded(mem: map<nat, nat>, page: nat, n: nat, fs: seq<nat>) {
    && (forall i :: 0 <= i < |fs| ==> fs[i] < PAGE_SIZE && Multiple(fs[i], n))
    && (forall i :: 0 <= i < |fs| ==> ThreadAt(mem, page, fs, i))
  }

  ghost predicate ThreadAt(mem: map<nat, nat>, page: nat, fs: seq<nat>, i: nat) {
    i < |fs| && page + fs[i] in mem && mem[page + fs[i]] == if i + 1 < |fs| then page + fs[i + 1] else 0
  }

  /** A well-formed free list: from freelistOffset the in-page chain visits exactly
      nfree distinct block-aligned offsets and ends. */
  ghost predicate FreeOk(mem: map<nat, nat>, p: PageRef, fs: seq<nat>)
    requires BlockType(p) < NSIZES
  {
    && NoDup(fs) && p.nfree == |fs|
    && p.freelistOffset == (if fs == [] then INVALID_OFFSET else fs[0])
    && Threaded(mem, PageAddr(p), SIZES[BlockType(p)], fs)
  }

  /** Every listed page has a well-formed free list, and none but `full` is wholly free. */
  ghost predicate Pages(h: Heap, full: nat) {
    forall p :: p in h.all ==>
      && p != 0 && p in h.refs && BlockType(h.refs[p]) < NSIZES && p in h.free
      && FreeOk(h.mem, h.refs[p], h.free[p])
      && |h.free[p]| <= CAPS[BlockType(h.refs[p])]
      && (|h.free[p]| < CAPS[BlockType(h.refs[p])] || p == full)
  }

  /** Pages are used for one thing each. */
  ghost predicate Owners(h: Heap) {
    && |h.roots| == NUM_PAGEREFPAGES
    && (forall p :: p in h.all ==> p in h.refs && PageAddr(h.refs[p]) in h.owner && h.owner[PageAddr(h.refs[p])] == HeapPage(p))
    && (forall r: nat :: r < NUM_PAGEREFPAGES && h.roots[r].page != 0 ==>
          h.roots[r].page in h.owner && h.owner[h.roots[r].page] == RootPage(r))
    && (forall a :: a in h.owner ==> a > 0 && a % PAGE_SIZE == 0)
    && (forall a :: a in h.owner && h.owner[a].HeapPage? ==>
          h.owner[a].pr in h.all && PageAddr(h.refs[h.owner[a].pr]) == a)
    && (forall a :: a in h.owner && h.owner[a].RootPage? ==>
          h.owner[a].r < NUM_PAGEREFPAGES && h.roots[h.owner[a].r].page == a)
  }

  /** The pages of whole-page allocations. */
  ghost predicate Bigs(h: Heap) {
    && (forall b :: b in h.bigs ==> h.bigs[b] > 0)
    && (forall a :: a in h.owner && h.owner[a].Big? ==> h.owner[a].base in h.bigs && PageIn(h, a, h.owner[a].base))
    && (forall b, i: nat :: b in h.bigs && i < h.bigs[b] ==> BigPage(h, b, i))
  }

  /** The page at a is one of the whole-page allocation at b. */
  ghost predicate PageIn(h: Heap, a: nat, b: nat)
    requires b in h.bigs
  {
    exists i: nat :: i < h.bigs[b] && a == PageAt(b, i)
  }

  function PageAt(b: nat, i: nat): nat { b + PAGE_SIZE * i }

  /** Page i of the whole-page allocation at b. */
  ghost predicate BigPage(h: Heap, b: nat, i: nat) {
    PageAt(b, i) in h.owner && h.owner[PageAt(b, i)] == Big(b)
  }

  /** Bit k of a root's in-use words. */
  predicate InUse(inuse: seq<word>, k: nat)
    requires |inuse| == INUSE_WORDS && k < NPAGEREFS_PER_PAGE
  {
    Bit(inuse[k / 32], k % 32)
  }

  ghost function UsedSet(inuse: seq<word>): set<nat>
    requires |inuse| == INUSE_WORDS
  {
    set k: nat | k < NPAGEREFS_PER_PAGE && InUse(inuse, k)
  }

  ghost predicate RootOk(root: Root) {
    |root.inuse| == INUSE_WORDS && root.numinuse == |UsedSet(root.inuse)|
  }

  function SlotAddr(roots: seq<Root>, s: Slot): nat
    requires s.r < |roots|
  {
    roots[s.r].page + PAGEREF_SIZE * s.k
  }

  /** numinuse counts the set bits; a set bit is a listed pageref or a reserved slot. */
  ghost predicate Slots(h: Heap) {
    && |h.roots| == NUM_PAGEREFPAGES
    && (forall r: nat :: r < NUM_PAGEREFPAGES ==> RootOk(h.roots[r]))
    && (forall p :: p in h.all ==> p in h.slot && Placed(h, p, h.slot[p]))
    && (forall s :: s in h.reserved ==> BitOf(h, s))
    && (forall s: Slot :: BitOf(h, s) ==> s in h.reserved || ListedAt(h, s))
  }

  /** The slot's in-use bit is set. */
  ghost predicate BitOf(h: Heap, s: Slot)
  {
    && s.r < NUM_PAGEREFPAGES && s.r < |h.roots| && s.k < NPAGEREFS_PER_PAGE && |h.roots[s.r].inuse| == INUSE_WORDS
    && InUse(h.roots[s.r].inuse, s.k)
  }

  ghost predicate Placed(h: Heap, p: nat, s: Slot) {
    && BitOf(h, s) && h.roots[s.r].page != 0
    && p == SlotAddr(h.roots, s) && s !in h.reserved
  }

  ghost predicate ListedAt(h: Heap, s: Slot)
    requires s.r < |h.roots|
  {
    h.roots[s.r].page != 0 && SlotAddr(h.roots, s) in h.all
  }

  /** A block-aligned offset of a listed page. */
  ghost predicate IsBlock(h: Heap, p: nat, off: nat) {
    p in h.all && p in h.refs && BlockType(h.refs[p]) < NSIZES && off < PAGE_SIZE && Multiple(off, SIZES[BlockType(h.refs[p])])
  }

  /** The blocks of a listed page that are not on its free list are live. */
  ghost predicate Blocks(h: Heap) {
    forall p, off :: IsBlock(h, p, off) && p in h.free ==>
      (PageAddr(h.refs[p]) + off in h.live <==> off !in h.free[p])
  }

  /** Nothing else is live. */
  ghost predicate Homes(h: Heap) {
    forall a {:trigger LiveAt(h, a)} :: a in h.live ==> LiveAt(h, a)
  }

  ghost predicate Live(h: Heap) { Blocks(h) && Homes(h) }

  ghost predicate LiveAt(h: Heap, a: nat)
    requires a in h.live
  {
    var page := a - a % PAGE_SIZE;
    && page in h.owner && h.owner[page].HeapPage?
    && IsBlock(h, h.owner[page].pr, a % PAGE_SIZE)
    && h.live[a] == SIZES[BlockType(h.refs[h.owner[page].pr])]
  }

  /** The invariant; `full` is a page the current region has not finished with, or 0. */
  ghost predicate OkBut(h: Heap, full: nat) {
    Lists(h) && Pages(h, full) && Owners(h) && Bigs(h) && Slots(h) && Live(h)
  }

  /** What holds whenever the heap lock is free. */
  ghost predicate Ok(h: Heap) { OkBut(h, 0) }
}
