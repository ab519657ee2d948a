/** Taking a wholly free page off the heap and putting a fresh one on it. */
module HeapPages {
  import opened HalfWords
  import opened Bits
  import opened HeapState
  import opened HeapOps

  // ---------------------------------------------------------------- counting blocks

  /** Distinct multiples of n below a bound that is one too: no more than fit. */
  lemma {:induction false} CountMultiples(fs: seq<nat>, n: nat, bound: nat)
    requires n > 0 && NoDup(fs) && Multiple(bound, n)
    requires forall i :: 0 <= i < |fs| ==> fs[i] < bound && Multiple(fs[i], n)
    ensures |fs| * n <= bound
    decreases bound
  {
    if fs != [] {
      assert fs[0] < bound;
      forall i | 0 <= i < |fs| ensures fs[i] + n <= bound { MultiplesApart(fs[i], bound, n); }
      if i :| 0 <= i < |fs| && fs[i] == bound - n {
        WithoutNoDup(fs, i);
        WithoutAt(fs, i);
        forall k | 0 <= k < |fs| - 1 ensures Without(fs, i)[k] < bound - n {
          assert Without(fs, i)[k] != bound - n;
        }
        CountMultiples(Without(fs, i), n, bound - n);
        OneMore(|fs| - 1, n);
      } else {
        CountMultiples(fs, n, bound - n);
      }
    }
  }

  lemma OneMore(k: nat, n: nat)
    ensures (k + 1) * n == k * n + n
  {
  }

  /** A free list as long as the page holds blocks holds every block. */
  lemma FullHasAll(fs: seq<nat>, blk: nat, off: nat)
    requires blk < NSIZES && NoDup(fs) && |fs| == CAPS[blk]
    requires forall i :: 0 <= i < |fs| ==> fs[i] < PAGE_SIZE && Multiple(fs[i], SIZES[blk])
    requires off < PAGE_SIZE && Multiple(off, SIZES[blk])
    ensures off in fs
  {
    var n := SIZES[blk];
    SizeFacts(blk);
    MultipleIsMod(PAGE_SIZE, n);
    assert (CAPS[blk] + 1) * n == CAPS[blk] * n + n;
    if off !in fs { CountMultiples(fs + [off], n, PAGE_SIZE); }
  }

  // ---------------------------------------------------------------- dropping a page

  /** remove_lists and freepageref: p leaves both lists and gives up its slot; its
      page stays with thread t until free_kpages. */
  ghost function Drop(h: Heap, p: nat, i: nat, j: nat, t: nat): Heap
    requires Droppable(h, p, i, j)
  {
    var blk := BlockType(h.refs[p]);
    var same := h.same[blk];
    var refs1 := Unlink(h.refs, false, same, j);
    var s := h.slot[p];
    var root := h.roots[s.r];
    h.(refs := Unlink(refs1, true, h.all, i),
       sizebases := h.sizebases[blk := HeadAfter(h.refs, false, h.sizebases[blk], same, j)],
       allbase := HeadAfter(refs1, true, h.allbase, h.all, i),
       roots := h.roots[s.r := root.(inuse := ClearWord(root.inuse, s.k), numinuse := root.numinuse - 1)],
       same := h.same[blk := Without(same, j)],
       all := Without(h.all, i),
       free := h.free - {p},
       slot := h.slot - {p},
       owner := h.owner[PageAddr(h.refs[p]) := Held(t, false)])
  }

  /** p is the i-th pageref and the j-th of its size. */
  ghost predicate Droppable(h: Heap, p: nat, i: nat, j: nat) {
    && i < |h.all| && h.all[i] == p
    && p in h.refs && BlockType(h.refs[p]) < |h.same| && BlockType(h.refs[p]) < |h.sizebases|
    && j < |h.same[BlockType(h.refs[p])]| && h.same[BlockType(h.refs[p])][j] == p
    && (forall q :: q in h.all || q in h.same[BlockType(h.refs[p])] ==> q in h.refs)
    && p in h.slot && h.slot[p].r < |h.roots| && h.slot[p].k < NPAGEREFS_PER_PAGE
    && |h.roots[h.slot[p].r].inuse| == INUSE_WORDS && h.roots[h.slot[p].r].numinuse > 0
  }

  ghost predicate CanDrop(h: Heap, p: nat, i: nat, j: nat) {
    && OkBut(h, p) && i < |h.all| && h.all[i] == p
    && (assert p in h.all; j < |h.same[BlockType(h.refs[p])]| && h.same[BlockType(h.refs[p])][j] == p)
    && |h.free[p]| == CAPS[BlockType(h.refs[p])]
  }

  lemma DropReady(h: Heap, p: nat, i: nat, j: nat)
    requires CanDrop(h, p, i, j)
    ensures Droppable(h, p, i, j)
  {
    assert p in h.all;
    assert Placed(h, p, h.slot[p]);
    ClearCounts(h.roots[h.slot[p].r], h.slot[p].k);
    forall q | q in h.all || q in h.same[BlockType(h.refs[p])] ensures q in h.refs {}
  }

  lemma DropChains(h: Heap, p: nat, i: nat, j: nat, t: nat)
    requires Lists(h) && Droppable(h, p, i, j)
    ensures var h' := Drop(h, p, i, j, t);
            && Chain(h'.refs, true, h'.allbase, h'.all)
            && forall b: nat :: b < NSIZES ==> Chain(h'.refs, false, h'.sizebases[b], h'.same[b])
  {
    var h' := Drop(h, p, i, j, t);
    var blk := BlockType(h.refs[p]);
    var same := h.same[blk];
    var refs1 := Unlink(h.refs, false, same, j);
    UnlinkChain(h.refs, false, h.sizebases[blk], same, j);
    UnlinkOther(h.refs, false, same, j, true, h.allbase, h.all);
    UnlinkChain(refs1, true, h.allbase, h.all, i);
    forall b: nat | b < NSIZES ensures Chain(h'.refs, false, h'.sizebases[b], h'.same[b]) {
      if b != blk { UnlinkOther(h.refs, false, same, j, false, h.sizebases[b], h.same[b]); }
      UnlinkOther(refs1, true, h.all, i, false, h'.sizebases[b], h'.same[b]);
    }
  }

  lemma DropLists(h: Heap, p: nat, i: nat, j: nat, t: nat)
    requires Lists(h) && Droppable(h, p, i, j)
    ensures Lists(Drop(h, p, i, j, t))
  {
    var h' := Drop(h, p, i, j, t);
    var blk := BlockType(h.refs[p]);
    DropChains(h, p, i, j, t);
    DropKeeps(h, p, i, j, t);
    forall b: nat, q | b < NSIZES && q in h'.same[b] ensures q in h'.all && BlockType(h'.refs[q]) == b {
      WithoutMembers(h.same[blk], j, q);
      WithoutMembers(h.all, i, q);
      assert q in h.same[b];
    }
    forall q | q in h'.all ensures BlockType(h'.refs[q]) < NSIZES && q in h'.same[BlockType(h'.refs[q])] {
      WithoutMembers(h.same[blk], j, q);
      WithoutMembers(h.all, i, q);
    }
  }

  /** What dropping p does, apart from the links and the slot: p and nothing else
      leaves the list, and its page goes to thread t. */
  ghost predicate Dropped(h: Heap, h': Heap, p: nat, t: nat) {
    && p in h.refs
    && KeepsFields(h.refs, h'.refs)
    && (forall q :: q in h'.all <==> q in h.all && q != p)
    && h'.mem == h.mem && h'.free == h.free - {p} && h'.live == h.live && h'.bigs == h.bigs
    && h'.owner == h.owner[PageAddr(h.refs[p]) := Held(t, false)]
    && |h'.roots| == |h.roots| && (forall r: nat :: r < |h.roots| ==> h'.roots[r].page == h.roots[r].page)
  }

  lemma DropKeeps(h: Heap, p: nat, i: nat, j: nat, t: nat)
    requires NoDup(h.all) && Droppable(h, p, i, j)
    ensures Dropped(h, Drop(h, p, i, j, t), p, t)
  {
    var h' := Drop(h, p, i, j, t);
    assert KeepsFields(h.refs, h'.refs) by {
      var same := h.same[BlockType(h.refs[p])];
      UnlinkKeeps(h.refs, false, same, j);
      UnlinkKeeps(Unlink(h.refs, false, same, j), true, h.all, i);
    }
    assert forall q :: q in h'.all <==> q in h.all && q != p by {
      forall q ensures q in h'.all <==> q in h.all && q != p { WithoutMembers(h.all, i, q); }
    }
  }

  lemma DropPages(h: Heap, h': Heap, p: nat, t: nat)
    requires Pages(h, p) && Dropped(h, h', p, t)
    ensures Pages(h', 0)
  {
    forall q | q in h'.all
      ensures q != 0 && q in h'.refs && BlockType(h'.refs[q]) < NSIZES && q in h'.free
      ensures FreeOk(h'.mem, h'.refs[q], h'.free[q]) && |h'.free[q]| < CAPS[BlockType(h'.refs[q])]
    {
      assert FreeOk(h.mem, h.refs[q], h.free[q]);
    }
  }

  lemma DropOwners(h: Heap, h': Heap, p: nat, t: nat)
    requires Owners(h) && Bigs(h) && p in h.all && Dropped(h, h', p, t)
    ensures Owners(h') && Bigs(h')
  {
    assert Owners(h') by {
      forall r: nat | r < NUM_PAGEREFPAGES && h'.roots[r].page != 0
        ensures h'.roots[r].page in h'.owner && h'.owner[h'.roots[r].page] == RootPage(r)
      {
        assert h.owner[h.roots[r].page] == RootPage(r);
      }
    }
    assert Bigs(h') by {
      forall b, k: nat | b in h'.bigs && k < h'.bigs[b] ensures BigPage(h', b, k) { assert BigPage(h, b, k); }
    }
  }

  lemma DropBits(h: Heap, p: nat, i: nat, j: nat, t: nat, s: Slot)
    requires Slots(h) && p in h.all && Droppable(h, p, i, j)
    ensures BitOf(Drop(h, p, i, j, t), s) == (s != h.slot[p] && BitOf(h, s))
  {
    var s0 := h.slot[p];
    if s.r == s0.r && s.k < NPAGEREFS_PER_PAGE { ClearInUse(h.roots[s0.r].inuse, s0.k, s.k); }
  }

  /** p's slot, and no other, is given up. */
  ghost predicate SlotGone(h: Heap, h': Heap, p: nat) {
    && p in h.slot && h'.slot == h.slot - {p} && h'.reserved == h.reserved
    && |h'.roots| == NUM_PAGEREFPAGES
    && (forall r: nat :: r < NUM_PAGEREFPAGES ==> RootOk(h'.roots[r]))
    && (forall s: Slot :: BitOf(h', s) == (s != h.slot[p] && BitOf(h, s)))
  }

  lemma DropGone(h: Heap, p: nat, i: nat, j: nat, t: nat)
    requires Slots(h) && p in h.all && Droppable(h, p, i, j)
    ensures SlotGone(h, Drop(h, p, i, j, t), p)
  {
    var s0 := h.slot[p];
    assert Placed(h, p, s0);
    ClearCounts(h.roots[s0.r], s0.k);
    forall s: Slot ensures BitOf(Drop(h, p, i, j, t), s) == (s != s0 && BitOf(h, s)) { DropBits(h, p, i, j, t, s); }
  }

  lemma DropSlots(h: Heap, h': Heap, p: nat, t: nat)
    requires Slots(h) && Owners(h) && p in h.all && Dropped(h, h', p, t) && SlotGone(h, h', p)
    ensures Slots(h')
  {
    assert Placed(h, p, h.slot[p]);
    forall q | q in h'.all ensures q in h'.slot && Placed(h', q, h'.slot[q]) {
      assert Placed(h, q, h.slot[q]);
    }
    forall s: Slot | BitOf(h', s) ensures s in h'.reserved || ListedAt(h', s) {
      if s !in h.reserved {
        assert ListedAt(h, s);
        if SlotAddr(h.roots, s) == p { SlotsApart(h, s, h.slot[p]); }
      }
    }
  }

  lemma DropBlocks(h: Heap, h': Heap, p: nat, t: nat)
    requires Blocks(h) && Owners(h) && Dropped(h, h', p, t)
    ensures Blocks(h')
  {
    forall q, off | IsBlock(h', q, off) && q in h'.free
      ensures PageAddr(h'.refs[q]) + off in h'.live <==> off !in h'.free[q]
    {
      assert IsBlock(h, q, off);
    }
  }

  /** The whole page is free, so no live block was on it. */
  lemma NotOnFullPage(h: Heap, p: nat, a: nat)
    requires Blocks(h) && Owners(h) && p in h.all && a in h.live && LiveAt(h, a)
    requires BlockType(h.refs[p]) < NSIZES && p in h.free && FreeOk(h.mem, h.refs[p], h.free[p])
    requires |h.free[p]| == CAPS[BlockType(h.refs[p])]
    ensures h.owner[a - a % PAGE_SIZE].pr != p
  {
    if h.owner[a - a % PAGE_SIZE].pr == p {
      FullHasAll(h.free[p], BlockType(h.refs[p]), a % PAGE_SIZE);
    }
  }

  lemma DropHomes(h: Heap, h': Heap, p: nat, t: nat)
    requires Homes(h) && Blocks(h) && Owners(h) && p in h.all && Dropped(h, h', p, t)
    requires BlockType(h.refs[p]) < NSIZES && p in h.free && FreeOk(h.mem, h.refs[p], h.free[p])
    requires |h.free[p]| == CAPS[BlockType(h.refs[p])]
    ensures Homes(h')
  {
    forall a | a in h'.live ensures LiveAt(h', a) {
      assert LiveAt(h, a);
      NotOnFullPage(h, p, a);
      assert IsBlock(h', h.owner[a - a % PAGE_SIZE].pr, a % PAGE_SIZE);
    }
  }

  /** Returning a wholly free page keeps the invariant and every live block. */
  lemma DropOk(h: Heap, p: nat, i: nat, j: nat, t: nat)
    requires CanDrop(h, p, i, j)
    ensures Droppable(h, p, i, j)
    ensures var h' := Drop(h, p, i, j, t);
            && Ok(h') && h'.live == h.live && h'.reserved == h.reserved
            && PageAddr(h.refs[p]) in h'.owner && h'.owner[PageAddr(h.refs[p])] == Held(t, false)
  {
    assert Droppable(h, p, i, j) by { DropReady(h, p, i, j); }
    var h' := Drop(h, p, i, j, t);
    assert Lists(h') by { DropLists(h, p, i, j, t); }
    assert Dropped(h, h', p, t) by { DropKeeps(h, p, i, j, t); }
    assert Pages(h', 0) by { DropPages(h, h', p, t); }
    assert Owners(h') && Bigs(h') by { DropOwners(h, h', p, t); }
    assert Slots(h') by { DropGone(h, p, i, j, t); DropSlots(h, h', p, t); }
    assert Live(h') by { DropBlocks(h, h', p, t); DropHomes(h, h', p, t); }
  }
}
