/** The code of kern/vm/kmalloc.c, region by region: each method runs with
    kmalloc_spinlock held, on the file's static variables. */
module KernelHeap {
  import opened HalfWords
  import opened Bits
  import opened HeapState
  import opened HeapOps
  import opened HeapPages
  import opened HeapGrow
  import opened HeapLink
  import opened HeapRegions

  /** A root without slot k. */
  function Cleared(root: Root, k: nat): Root
    requires |root.inuse| == INUSE_WORDS && k < NPAGEREFS_PER_PAGE && root.numinuse > 0
  {
    root.(inuse := ClearWord(root.inuse, k), numinuse := root.numinuse - 1)
  }

  /** The index of p in an array of pagerefs at page: the pointer difference. As an
      unsigned number a negative one is larger than any index. */
  function RefIndex(p: nat, page: nat): int {
    if p < page then -1 else (p - page) / PAGEREF_SIZE
  }

  lemma OwnIndex(page: nat, k: nat)
    ensures RefIndex(page + PAGEREF_SIZE * k, page) == k
  {
  }

  lemma OtherIndex(page: nat, other: nat, k: nat)
    requires page % PAGE_SIZE == 0 && other % PAGE_SIZE == 0 && page != other && k < NPAGEREFS_PER_PAGE
    ensures !(0 <= RefIndex(page + PAGEREF_SIZE * k, other) < NPAGEREFS_PER_PAGE)
  {
  }

  /** A count of all slots is a full root. */
  lemma FullRoot(root: Root, k: nat)
    requires RootOk(root) && root.numinuse >= NPAGEREFS_PER_PAGE && k < NPAGEREFS_PER_PAGE
    ensures InUse(root.inuse, k)
  {
    var below := Below(NPAGEREFS_PER_PAGE);
    assert UsedSet(root.inuse) <= below;
    SubsetFull(UsedSet(root.inuse), below);
    assert k in below;
  }

  ghost function Below(n: nat): (s: set<nat>)
    ensures |s| == n && forall i: nat :: i in s <==> i < n
  {
    if n == 0 then {} else Below(n - 1) + {n - 1}
  }

  lemma SubsetFull(a: set<nat>, b: set<nat>)
    requires a <= b && |a| >= |b|
    ensures a == b
  {
    assert |b| == |a| + |b - a| by { assert b == a + (b - a); }
  }

  lemma WordFull(w: word, j: nat)
    requires w == 0xffffffff && j < 32
    ensures Bit(w, j)
  {
    WordPowers();
    AllOnes(32, j);
  }

  /** The words before i, and the bits of word i before j, are set. */
  ghost predicate UsedUpTo(inuse: seq<word>, n: nat)
    requires |inuse| == INUSE_WORDS
  {
    forall k: nat :: k < n && k < NPAGEREFS_PER_PAGE ==> InUse(inuse, k)
  }

  class KHeap {
    var mem: map<nat, nat>
    var refs: map<nat, PageRef>
    var sizebases: seq<nat>
    var allbase: nat
    var roots: seq<Root>
    ghost var h: Heap

    /** h is the heap the variables hold. */
    ghost predicate Holds()
      reads this
    {
      h.mem == mem && h.refs == refs && h.sizebases == sizebases && h.allbase == allbase && h.roots == roots
    }

    /** The zeroed statics at boot. */
    constructor ()
      ensures Holds() && Ok(h) && h.live == map[] && h.bigs == map[] && h.owner == map[] && h.reserved == map[]
    {
      mem, refs, allbase := map[], map[], 0;
      sizebases := seq(NSIZES, _ => 0);
      roots := seq(NUM_PAGEREFPAGES, _ => Root(0, seq(INUSE_WORDS, _ => 0), 0));
      new;
      h := Heap(mem, refs, sizebases, allbase, roots, seq(NSIZES, _ => []), [], map[], map[], map[], map[], map[], map[]);
      BootOk(h);
    }

    /** From the label doalloc to the release of the lock. */
    method DoAlloc(pr: nat) returns (retptr: nat)
      requires Holds() && PopFits(h, pr)
      modifies this
      ensures Holds() && Poppable(old(h), pr) && h == Pop(old(h), pr) && retptr == HeadAddr(old(h).refs[pr])
    {
      assert refs[pr].freelistOffset < PAGE_SIZE;
      var prpage := PageAddr(refs[pr]);
      var fla := prpage + refs[pr].freelistOffset;
      retptr := fla;
      var fl := mem[fla];
      h := Pop(h, pr);
      refs := refs[pr := refs[pr].(nfree := refs[pr].nfree - 1)];
      if fl != 0 {
        assert refs[pr].nfree > 0;
        fla := fl;
        assert 0 <= fla - prpage < PAGE_SIZE;
        refs := refs[pr := refs[pr].(freelistOffset := fla - prpage)];
      } else {
        assert refs[pr].nfree == 0;
        refs := refs[pr := refs[pr].(freelistOffset := INVALID_OFFSET)];
      }
    }

    /** blocktype. */
    static method BlockTypeFor(clientsz: nat) returns (i: nat)
      requires clientsz < LARGEST_SUBPAGE_SIZE
      ensures SizeClass(clientsz, i)
    {
      assert SIZES[NSIZES - 1] == LARGEST_SUBPAGE_SIZE;
      i := 0;
      while i < NSIZES
        invariant i <= NSIZES && (i > 0 ==> SIZES[i - 1] < clientsz)
      {
        if clientsz <= SIZES[i] { return; }
        i := i + 1;
      }
      assert false;
    }

    /** The search of a size's list for a page with a free block. */
    method TakeBlock(blktype: nat) returns (ret: Option<nat>)
      requires Holds() && Ok(h) && blktype < NSIZES
      modifies this
      ensures Holds() && Took(old(h), h, blktype, ret)
    {
      ghost var s := h.same[blktype];
      ghost var i := 0;
      var pr := sizebases[blktype];
      while pr != 0
        invariant i <= |s| && pr == (if i < |s| then s[i] else 0)
        invariant forall k :: 0 <= k < i ==> s[k] in refs && refs[s[k]].nfree == 0
        decreases |s| - i
        modifies {}
      {
        OnSizeList(h, blktype, i);
        assert LinkAt(refs, false, s, i);
        assert BlockType(refs[pr]) == blktype;
        if refs[pr].nfree > 0 { break; }
        pr := refs[pr].nextSame;
        i := i + 1;
      }
      if pr != 0 {
        OnSizeList(h, blktype, i);
        PopWords(h, 0, pr);
        var a := DoAlloc(pr);
        assert FirstFree(old(h), blktype, i) && TookAt(old(h), h, old(h).same[blktype][i], a);
        ret := Some(a);
      } else {
        assert i == |s|;
        ret := None;
      }
    }

    /** The scan of one in-use word: the least j whose bit is clear. */
    static method SearchWord(w: word) returns (j: nat)
      requires w != 0xffffffff
      ensures j < 32 && !Bit(w, j) && forall i: nat :: i < j ==> Bit(w, i)
    {
      Word32(0xffffffff);
      Word32(w);
      WordPowers();
      var k := 1;
      j := 0;
      while k != 0
        invariant j <= 32 && k == if j < 32 then Pow2(j) else 0
        invariant forall i: nat :: i < j ==> Bit(w, i)
        decreases 32 - j
      {
        TestBit(w, j);
        if And(w, k) == 0 { return; }
        ShiftOut(j);
        k := 2 * k % W32;
        j := j + 1;
      }
      var clear := ClearBitExists(w, 32);
      assert false;
    }

    /** The scan of one root's words. */
    static method SearchRoot(root: Root) returns (k: Option<nat>)
      requires |root.inuse| == INUSE_WORDS
      ensures match k
              case Some(n) => n < NPAGEREFS_PER_PAGE && !InUse(root.inuse, n) && UsedUpTo(root.inuse, n)
              case None => UsedUpTo(root.inuse, NPAGEREFS_PER_PAGE)
    {
      for i := 0 to INUSE_WORDS
        invariant UsedUpTo(root.inuse, 32 * i)
      {
        if root.inuse[i] == 0xffffffff {
          forall j: nat | j < 32 ensures Bit(root.inuse[i], j) { WordFull(root.inuse[i], j); }
          NextWord(root.inuse, i, 32);
        } else {
          var j := SearchWord(root.inuse[i]);
          NextWord(root.inuse, i, j);
          DivModUnique(32 * i + j, 32, i, j);
          return Some(32 * i + j);
        }
      }
      k := None;
    }

    /** The part of allocpageref before it looks at the root's page. */
    method ReserveSlot(ghost t: nat) returns (slot: Option<Slot>)
      requires Holds() && Ok(h)
      modifies this
      ensures Holds() && mem == old(mem) && refs == old(refs)
      ensures match slot
              case Some(s) => FirstSlot(old(h), s) && h == Reserve(old(h), s, t)
              case None => h == old(h) && AllSlotsUsed(h)
    {
      var whichroot := 0;
      var found: Option<nat> := None;
      while whichroot < NUM_PAGEREFPAGES
        invariant whichroot <= NUM_PAGEREFPAGES && RootsUsed(h, whichroot)
        invariant found.None?
        modifies {}
      {
        if roots[whichroot].numinuse >= NPAGEREFS_PER_PAGE {
          forall k: nat | k < NPAGEREFS_PER_PAGE ensures InUse(roots[whichroot].inuse, k) { FullRoot(roots[whichroot], k); }
        } else {
          found := SearchRoot(roots[whichroot]);
          if found.Some? { break; }
        }
        whichroot := whichroot + 1;
      }
      if found.Some? {
        var s := Slot(whichroot, found.value);
        assert FirstSlot(h, s);
        var root := roots[s.r];
        roots := roots[s.r := root.(inuse := SetWord(root.inuse, s.k), numinuse := root.numinuse + 1)];
        h := Reserve(h, s, t);
        slot := Some(s);
      } else {
        slot := None;
      }
    }

    /** Threading the n blocks of a fresh page; the last one heads the list. */
    method ThreadPage(fla: nat, n: nat, size: nat) returns (fl: nat)
      requires n > 0
      modifies this`mem
      ensures refs == old(refs) && sizebases == old(sizebases) && allbase == old(allbase) && roots == old(roots)
      ensures mem == Threading(old(mem), fla, n, size) && fl == fla + Times(n - 1, size)
    {
      fl := fla;
      mem := mem[fl := 0];
      for i := 1 to n
        invariant mem == Threading(old(mem), fla, i, size) && fl == fla + Times(i - 1, size)
      {
        TimesIsProduct(i, size);
        TimesIsProduct(i - 1, size);
        fl := fla + i * size;
        mem := mem[fl := fla + (i - 1) * size];
      }
      TimesIsProduct(n - 1, size);
      assert fl - fla == (n - 1) * size;
    }

    /** Filling in the pageref and putting it in front of both lists. */
    method LinkRef(pr: nat, prpage: nat, blktype: nat, fl: nat)
      requires blktype < NSIZES && |sizebases| == NSIZES && fl == prpage + Times(CAPS[blktype] - 1, SIZES[blktype])
      modifies this`refs, this`sizebases, this`allbase
      ensures refs == old(refs)[pr := FreshRef(old(sizebases), old(allbase), prpage, blktype)]
      ensures sizebases == old(sizebases)[blktype := pr] && allbase == pr && mem == old(mem) && roots == old(roots)
    {
      SizeFacts(blktype);
      var nfree := PAGE_SIZE / SIZES[blktype];
      refs := refs[pr := PageRef(sizebases[blktype], allbase, MakePab(prpage, blktype), fl - prpage, nfree)];
      sizebases := sizebases[blktype := pr];
      allbase := pr;
    }

    /** A pageref slot and a fresh page become a page of blocks. */
    method LinkPage(s: Slot, prpage: nat, blktype: nat)
      requires Holds() && CanThread(h, s, blktype)
      modifies this
      ensures Holds() && h == FreshLink(old(h), s, prpage, blktype)
    {
      SizeFacts(blktype);
      var fl := ThreadPage(prpage, PAGE_SIZE / SIZES[blktype], SIZES[blktype]);
      LinkRef(SlotAddr(roots, s), prpage, blktype, fl);
      h := FreshLink(h, s, prpage, blktype);
    }

    method Populate(s: Slot, prpage: nat, blktype: nat) returns (retptr: nat)
      requires Holds() && CanPopulate(h, s, prpage, blktype)
      modifies this
      ensures Holds() && Populated(old(h), h, s, prpage, blktype, retptr)
    {
      var pr := SlotAddr(roots, s);
      FreshLinkOk(h, s, prpage, blktype);
      LinkPage(s, prpage, blktype);
      retptr := DoAlloc(pr);
    }

    /** subpage_kmalloc with a fresh page in hand, up to doalloc or to the point where the
        lock is dropped for a pageref page. */
    method Grow(ghost t: nat, prpage: nat, blktype: nat) returns (g: Growth)
      requires Holds() && Ok(h) && blktype < NSIZES && prpage in h.owner && h.owner[prpage].Held?
      modifies this
      ensures Holds() && Grew(old(h), h, t, prpage, blktype, g)
    {
      var slot := ReserveSlot(t);
      if slot.None? { return NoSlot; }
      var s := slot.value;
      ReserveOk(old(h), s, t);
      if roots[s.r].page == 0 { return NeedRoot(s); }
      var a := Populate(s, prpage, blktype);
      g := GotBlock(a);
    }

    /** allocpagerefpage after its call of alloc_kpages, and what follows it in
        allocpageref and subpage_kmalloc. */
    method AfterRootPage(prpage: nat, blktype: nat, s: Slot, va: nat) returns (g: Rooting)
      requires Holds() && Ok(h) && blktype < NSIZES && s in h.reserved && s.r < NUM_PAGEREFPAGES
      requires prpage in h.owner && h.owner[prpage].Held?
      requires va != 0 ==> va in h.owner && h.owner[va].Held? && va != prpage
      modifies this
      ensures Holds() && Rooted(old(h), h, prpage, blktype, s, va, g)
    {
      if va != 0 {
        assert va % PAGE_SIZE == 0;
        if roots[s.r].page != 0 { return Spare; }
        InstallOk(h, s.r, va);
        roots := roots[s.r := roots[s.r].(page := va)];
        h := Install(h, s.r, va);
      }
      if roots[s.r].page == 0 {
        h := Leak(h, s);
        return GiveUp;
      }
      var a := Populate(s, prpage, blktype);
      g := Block(a);
    }

    /** fill_deadbeef. */
    method FillDeadbeef(ptr: nat, len: nat)
      modifies this`mem
      ensures mem == Fill(old(mem), ptr, len / 4)
    {
      for i := 0 to len / 4
        invariant mem == Fill(old(mem), ptr, i)
      {
        mem := mem[ptr + 4 * i := DEADBEEF];
      }
    }

    /** One loop of remove_lists: along a list from head, relink around pr. */
    method RemoveList(all: bool, head: nat, pr: nat, ghost s: seq<nat>) returns (head': nat, ghost j: nat)
      requires Chain(refs, all, head, s) && pr in s
      modifies this`refs
      ensures j < |s| && s[j] == pr && s[j] in old(refs) && (j > 0 ==> s[j - 1] in old(refs))
      ensures refs == Unlink(old(refs), all, s, j) && head' == HeadAfter(old(refs), all, head, s, j)
    {
      var prev, guy := 0, head;
      j := 0;
      while guy != 0 && guy != pr
        invariant j < |s| && guy == s[j] && pr !in s[..j]
        invariant prev == (if j == 0 then 0 else s[j - 1])
        decreases |s| - j
        modifies {}
      {
        assert LinkAt(refs, all, s, j);
        prev, guy := guy, Next(refs[guy], all);
        assert s[..j + 1] == s[..j] + [s[j]];
        assert s == s[..|s|];
        j := j + 1;
      }
      head' := head;
      if prev == 0 {
        head' := Next(refs[pr], all);
      } else {
        refs := refs[prev := WithNext(refs[prev], all, Next(refs[pr], all))];
      }
    }

    /** freepageref; false when its assertion about roots without a page fails. */
    method FreePageRef(p: nat, ghost s: Slot) returns (ok: bool)
      requires roots == h.roots && Slots(h) && Owners(h) && Placed(h, p, s)
      modifies this`roots
      ensures ok == RootsInOrder(h, s.r) && mem == old(mem)
      ensures ok ==> h.roots[s.r].numinuse > 0 && roots == h.roots[s.r := Cleared(h.roots[s.r], s.k)]
    {
      OwnIndex(roots[s.r].page, s.k);
      ClearCounts(roots[s.r], s.k);
      var whichroot := 0;
      while whichroot < NUM_PAGEREFPAGES
        invariant whichroot <= s.r && RootsInOrder(h, whichroot)
        invariant roots == old(roots)
        decreases NUM_PAGEREFPAGES - whichroot
      {
        var page := roots[whichroot].page;
        if page == 0 {
          if roots[whichroot].numinuse != 0 { return false; }
        } else {
          if whichroot != s.r { OtherRoot(h, s, whichroot); }
          var j := RefIndex(p, page);
          if 0 <= j < NPAGEREFS_PER_PAGE {
            assert whichroot == s.r && j == s.k;
            assert InUse(roots[whichroot].inuse, j) && roots[whichroot].numinuse > 0;
            roots := roots[whichroot := Cleared(roots[whichroot], j)];
            return true;
          }
        }
        whichroot := whichroot + 1;
      }
      assert false;
    }

    /** remove_lists: off the list of its size, then off the list of all. */
    method RemoveLists(pr: nat, blktype: nat) returns (ghost i: nat, ghost j: nat)
      requires Holds() && Lists(h) && pr in h.all && blktype == BlockType(h.refs[pr])
      modifies this`refs, this`sizebases, this`allbase
      ensures mem == old(mem) && roots == old(roots)
      ensures OnLists(h, pr, i, j) && (forall q :: q in h.all || q in h.same[blktype] ==> q in h.refs)
      ensures var refs1 := Unlink(h.refs, false, h.same[blktype], j);
              && refs == Unlink(refs1, true, h.all, i)
              && sizebases == h.sizebases[blktype := HeadAfter(h.refs, false, h.sizebases[blktype], h.same[blktype], j)]
              && allbase == HeadAfter(refs1, true, h.allbase, h.all, i)
    {
      var head;
      head, j := RemoveList(false, sizebases[blktype], pr, h.same[blktype]);
      sizebases := sizebases[blktype := head];
      UnlinkOther(h.refs, false, h.same[blktype], j, true, h.allbase, h.all);
      head, i := RemoveList(true, allbase, pr, h.all);
      allbase := head;
      UnlinkKeeps(h.refs, false, h.same[blktype], j);
    }

    /** The search of subpage_kfree for the page ptr is on; 0 if it is on none. */
    method FindPage(ptraddr: nat) returns (pr: nat)
      requires Holds() && Lists(h)
      ensures pr == 0 ==> NotOnHeap(h, ptraddr)
      ensures pr != 0 ==> pr in h.all && pr in refs && Covers(refs[pr], ptraddr)
    {
      ghost var i := 0;
      pr := allbase;
      while pr != 0
        invariant i <= |h.all| && pr == (if i < |h.all| then h.all[i] else 0)
        invariant forall k :: 0 <= k < i ==> h.all[k] in refs && !Covers(refs[h.all[k]], ptraddr)
        decreases |h.all| - i
      {
        assert LinkAt(refs, true, h.all, i) && pr in h.all;
        assert BlockType(refs[pr]) < NSIZES;
        if Covers(refs[pr], ptraddr) { return; }
        pr := refs[pr].nextAll;
        i := i + 1;
      }
      assert i == |h.all|;
    }

    /** Putting a block back on its page's free list. */
    method PushBlock(pr: nat, offset: nat)
      requires Holds() && IsBlock(h, pr, offset) && pr in h.free && HasRoom(refs[pr], offset)
      modifies this
      ensures Holds() && h == Push(old(h), pr, offset)
    {
      var q := refs[pr];
      var fla := PageAddr(q) + offset;
      FillDeadbeef(fla, SIZES[BlockType(q)]);
      if q.freelistOffset == INVALID_OFFSET {
        mem := mem[fla := 0];
      } else {
        mem := mem[fla := PageAddr(q) + q.freelistOffset];
        assert fla != mem[fla];
      }
      assert q.nfree + 1 <= PAGE_SIZE / SIZES[BlockType(q)];
      refs := refs[pr := q.(freelistOffset := offset, nfree := q.nfree + 1)];
      h := Push(h, pr, offset);
    }

    /** remove_lists and freepageref for a page that has become wholly free. */
    method DropPage(pr: nat, ghost t: nat) returns (ok: bool, ghost i: nat, ghost j: nat)
      requires Holds() && Lists(h) && Slots(h) && Owners(h) && pr in h.all
      modifies this
      ensures OnLists(old(h), pr, i, j) && pr in old(h).slot
      ensures ok == RootsInOrder(old(h), old(h).slot[pr].r)
      ensures ok ==> Holds() && Dropping(old(h), h, pr, i, j, t)
    {
      DropFacts(h, pr);
      i, j := RemoveLists(pr, BlockType(refs[pr]));
      ok := FreePageRef(pr, h.slot[pr]);
      assert mem == h.mem;
      if ok {
        DropFields(h, pr, i, j, t);
        h := Drop(h, pr, i, j, t);
      }
    }

    /** subpage_kfree from the free list on. */
    method FreeBlock(pr: nat, offset: nat, ghost t: nat) returns (g: Freeing, ghost i: nat, ghost j: nat)
      requires Holds() && CanPush(h, pr, offset) && pr in h.free && HasRoom(refs[pr], offset)
      requires refs[pr].nfree == |h.free[pr]| && BlockType(refs[pr]) < NSIZES
      modifies this
      ensures OnLists(old(h), pr, i, j) && FreedBlock(old(h), h, t, pr, offset, i, j, g)
      ensures !g.Panic? ==> Holds()
    {
      var prpage, blktype := PageAddr(refs[pr]), BlockType(refs[pr]);
      ghost var h0 := h;
      SizeFacts(blktype);
      PushBlock(pr, offset);
      i, j := 0, 0;
      if refs[pr].nfree == PAGE_SIZE / SIZES[blktype] {
        PushFull(h0, pr, offset);
        var ok;
        ok, i, j := DropPage(pr, t);
        g := if ok then PageFree(prpage) else Panic;
      } else {
        i, j := OnBothLists(h0, pr);
        g := Freed;
      }
    }

    /** subpage_kfree, for a pointer that came from kmalloc and has not been freed. */
    method SubpageFree(ptr: nat, ghost t: nat) returns (g: Freeing)
      requires Holds() && Ok(h) && (ptr in h.live || NotOnHeap(h, ptr))
      modifies this
      ensures Kfreed(old(h), h, t, ptr, g)
      ensures !g.Panic? ==> Holds()
    {
      var pr := FindPage(ptr);
      if pr == 0 { return NotOurs; }
      var prpage, blktype := PageAddr(refs[pr]), BlockType(refs[pr]);
      var offset := ptr - prpage;
      FoundIsBlock(h, ptr, pr, offset);
      SizeFacts(blktype);
      Aligned(offset, blktype);
      assert offset < PAGE_SIZE && offset % SIZES[blktype] == 0;
      ghost var h0, i, j := h, 0, 0;
      g, i, j := FreeBlock(pr, offset, t);
      assert FoundAndFreed(h0, h, t, ptr, pr, offset, i, j, g);
    }
  }

  /** What subpage_kfree asserts of a block it puts on a page's free list: it is not the head
      of the list, and the list does not get too long. */
  predicate HasRoom(q: PageRef, off: nat) {
    && BlockType(q) < NSIZES && SIZES[BlockType(q)] > 0
    && q.freelistOffset != off && q.nfree + 1 <= PAGE_SIZE / SIZES[BlockType(q)]
  }

  lemma PushFacts(h: Heap, p: nat, off: nat)
    requires CanPush(h, p, off)
    ensures p in h.free && HasRoom(h.refs[p], off)
  {
    SizeFacts(BlockType(h.refs[p]));
    assert FreeOk(h.mem, h.refs[p], h.free[p]) && |h.free[p]| < CAPS[BlockType(h.refs[p])];
  }

  lemma Aligned(off: nat, blk: nat)
    requires blk < NSIZES && Multiple(off, SIZES[blk])
    ensures SIZES[blk] > 0 && off % SIZES[blk] == 0
  {
    SizeFacts(blk);
    MultipleIsMod(off, SIZES[blk]);
  }

  /** A live block on a page is one of its blocks, and not free. */
  lemma FoundIsBlock(h: Heap, a: nat, p: nat, off: nat)
    requires Ok(h) && a in h.live && p in h.all && a == PageAddr(h.refs[p]) + off && off < PAGE_SIZE
    ensures CanPush(h, p, off) && BlockType(h.refs[p]) < NSIZES
    ensures h.refs[p].nfree == |h.free[p]| < CAPS[BlockType(h.refs[p])] && HasRoom(h.refs[p], off)
  {
    assert IsBlock(h, p, off) by { LiveBlock(h, a, p, off); }
    FreedReady(h, a, p, off);
    PushFacts(h, p, off);
  }

  lemma LiveBlock(h: Heap, a: nat, p: nat, off: nat)
    requires Owners(h) && Homes(h) && a in h.live && p in h.all && a == PageAddr(h.refs[p]) + off && off < PAGE_SIZE
    ensures IsBlock(h, p, off)
  {
    BlockOf(PageAddr(h.refs[p]), off);
    assert LiveAt(h, a);
  }

  lemma DropFacts(h: Heap, p: nat)
    requires Lists(h) && Slots(h) && p in h.all
    ensures p in h.slot && Placed(h, p, h.slot[p]) && BlockType(h.refs[p]) < NSIZES
  {
  }

  lemma DropFields(h: Heap, p: nat, i: nat, j: nat, t: nat)
    requires OnLists(h, p, i, j) && p in h.slot && Placed(h, p, h.slot[p]) && h.roots[h.slot[p].r].numinuse > 0
    requires forall q :: q in h.all || q in h.same[BlockType(h.refs[p])] ==> q in h.refs
    requires BlockType(h.refs[p]) < |h.sizebases|
    ensures Droppable(h, p, i, j)
    ensures var h' := Drop(h, p, i, j, t);
            var blk := BlockType(h.refs[p]);
            var refs1 := Unlink(h.refs, false, h.same[blk], j);
            && h'.mem == h.mem && h'.refs == Unlink(refs1, true, h.all, i)
            && h'.sizebases == h.sizebases[blk := HeadAfter(h.refs, false, h.sizebases[blk], h.same[blk], j)]
            && h'.allbase == HeadAfter(refs1, true, h.allbase, h.all, i)
            && h'.roots == h.roots[h.slot[p].r := Cleared(h.roots[h.slot[p].r], h.slot[p].k)]
  {
  }

  lemma PushFull(h: Heap, p: nat, off: nat)
    requires CanPush(h, p, off) && h.refs[p].nfree + 1 == CAPS[BlockType(h.refs[p])] && h.refs[p].nfree == |h.free[p]|
    ensures OkBut(Push(h, p, off), p) && |Push(h, p, off).free[p]| == CAPS[BlockType(h.refs[p])]
    ensures RootsSame(h, Push(h, p, off))
  {
    PushOk(h, p, off);
  }

  ghost predicate RootsSame(h: Heap, h': Heap) { h'.roots == h.roots && h'.slot == h.slot }

  lemma OnBothLists(h: Heap, p: nat) returns (i: nat, j: nat)
    requires Lists(h) && p in h.all
    ensures OnLists(h, p, i, j)
  {
    i :| i < |h.all| && h.all[i] == p;
    var blk := BlockType(h.refs[p]);
    j :| j < |h.same[blk]| && h.same[blk][j] == p;
  }

  ghost predicate RootsUsed(h: Heap, n: nat) {
    forall r: nat :: r < n && r < |h.roots| && |h.roots[r].inuse| == INUSE_WORDS ==> UsedUpTo(h.roots[r].inuse, NPAGEREFS_PER_PAGE)
  }

  /** What doalloc asserts. */
  ghost predicate PopFits(h: Heap, p: nat) {
    && Poppable(h, p) && h.refs[p].freelistOffset < PAGE_SIZE
    && var next := h.mem[HeadAddr(h.refs[p])];
       if h.refs[p].nfree == 1 then next == 0
       else PageAddr(h.refs[p]) <= next < PageAddr(h.refs[p]) + PAGE_SIZE && next > 0
  }

  lemma PopWords(h: Heap, full: nat, p: nat)
    requires CanPop(h, full, p)
    ensures PopFits(h, p)
  {
    PopReady(h, full, p);
    FreeTail(h.mem, h.refs[p], h.free[p]);
  }

  function FreshRef(sizebases: seq<nat>, allbase: nat, page: nat, blk: nat): PageRef
    requires blk < NSIZES && blk < |sizebases|
  {
    PageRef(sizebases[blk], allbase, MakePab(page, blk), Times(CAPS[blk] - 1, SIZES[blk]), CAPS[blk])
  }

  ghost predicate CanThread(h: Heap, s: Slot, blk: nat) {
    s.r < |h.roots| && blk < NSIZES && |h.sizebases| == NSIZES && |h.same| == NSIZES
  }

  /** The heap with the fresh page linked in. */
  ghost function FreshLink(h: Heap, s: Slot, page: nat, blk: nat): (h1: Heap)
    requires CanThread(h, s, blk)
    ensures h1.mem == Threading(h.mem, page, CAPS[blk], SIZES[blk]) && h1.roots == h.roots && h1.allbase == SlotAddr(h.roots, s)
    ensures h1.sizebases == h.sizebases[blk := SlotAddr(h.roots, s)]
    ensures h1.refs == h.refs[SlotAddr(h.roots, s) := FreshRef(h.sizebases, h.allbase, page, blk)]
  {
    Link(h, s, page, blk, Threading(h.mem, page, CAPS[blk], SIZES[blk]), Descending(CAPS[blk], SIZES[blk]))
  }

  lemma FreshLinkOk(h: Heap, s: Slot, page: nat, blk: nat)
    requires CanPopulate(h, s, page, blk)
    ensures CanThread(h, s, blk) && PopFits(FreshLink(h, s, page, blk), SlotAddr(h.roots, s))
  {
    FreshCanPop(h, s, page, blk);
    PopWords(FreshLink(h, s, page, blk), SlotAddr(h.roots, s), SlotAddr(h.roots, s));
  }

  lemma FreshCanPop(h: Heap, s: Slot, page: nat, blk: nat)
    requires CanPopulate(h, s, page, blk)
    ensures CanThread(h, s, blk) && CanPop(FreshLink(h, s, page, blk), SlotAddr(h.roots, s), SlotAddr(h.roots, s))
  {
    var fs := Descending(CAPS[blk], SIZES[blk]);
    FreshPageList(h.mem, page, blk);
    LinkOk(h, s, page, blk, Threading(h.mem, page, CAPS[blk], SIZES[blk]), fs);
  }

  /** A pageref is not on another root's page. */
  lemma OtherRoot(h: Heap, s: Slot, r: nat)
    requires Owners(h) && BitOf(h, s) && h.roots[s.r].page != 0
    requires r < NUM_PAGEREFPAGES && r != s.r && h.roots[r].page != 0
    ensures !(0 <= RefIndex(SlotAddr(h.roots, s), h.roots[r].page) < NPAGEREFS_PER_PAGE)
  {
    OtherIndex(h.roots[s.r].page, h.roots[r].page, s.k);
  }

  lemma WordPowers()
    ensures Pow2(32) == W32 && Pow2(0) == 1
  {
    Pow2Sixteen();
    Pow2Sum(16, 16);
  }

  /** k <<= 1 on 32 bits. */
  lemma ShiftOut(j: nat)
    requires j < 32
    ensures 2 * Pow2(j) % W32 == if j + 1 < 32 then Pow2(j + 1) else 0
  {
    WordPowers();
    if j + 1 < 32 { Pow2Less(j + 1, 32); }
  }

  lemma NextWord(inuse: seq<word>, i: nat, j: nat)
    requires |inuse| == INUSE_WORDS && i < INUSE_WORDS && j <= 32 && UsedUpTo(inuse, 32 * i)
    requires forall b: nat :: b < j ==> Bit(inuse[i], b)
    ensures UsedUpTo(inuse, 32 * i + j)
  {
    forall k: nat | k < 32 * i + j && k < NPAGEREFS_PER_PAGE ensures InUse(inuse, k) {
      if k >= 32 * i {
        DivModUnique(k, 32, i, k - 32 * i);
        assert Bit(inuse[i], k - 32 * i);
      }
    }
  }

  /** An empty heap. */
  lemma BootOk(h: Heap)
    requires h.refs == map[] && h.sizebases == seq(NSIZES, _ => 0) && h.allbase == 0
    requires h.roots == seq(NUM_PAGEREFPAGES, _ => Root(0, seq(INUSE_WORDS, _ => 0), 0))
    requires h.same == seq(NSIZES, _ => []) && h.all == [] && h.reserved == map[] && h.owner == map[]
    requires h.bigs == map[] && h.live == map[]
    ensures Ok(h)
  {
    assert Lists(h) by {
      forall i: nat | i < NSIZES ensures Chain(h.refs, false, h.sizebases[i], h.same[i]) {}
    }
    assert Slots(h) by {
      forall r: nat, k: nat | r < NUM_PAGEREFPAGES && k < NPAGEREFS_PER_PAGE ensures !InUse(h.roots[r].inuse, k) {
        ZeroBits(k % 32);
      }
      forall r: nat | r < NUM_PAGEREFPAGES ensures RootOk(h.roots[r]) {
        assert UsedSet(h.roots[r].inuse) == {};
      }
    }
  }
}
