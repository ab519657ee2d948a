/** What clients store in their blocks stays there: the kernel heap writes only to blocks it
    has been given back and to pages in the hands of the thread at work. */
module HeapData {
  import opened HalfWords
  import opened HeapState
  import opened HeapOps
  import opened HeapPages
  import opened HeapGrow
  import opened HeapLink
  import opened HeapRegions
  import opened HeapRuns

  /** The word at x is as it was, or has still never been stored to. */
  ghost predicate Same(mem: map<nat, nat>, mem': map<nat, nat>, x: nat) {
    (x in mem' <==> x in mem) && (x in mem ==> mem'[x] == mem[x])
  }

  // ---------------------------------------------------------------- where the regions write

  lemma TookMem(h: Heap, h': Heap, blk: nat, ret: Option<nat>)
    requires Took(h, h', blk, ret)
    ensures h'.mem == h.mem
  {
  }

  /** Threading a fresh page writes only to the page. */
  lemma PopulatedMem(h: Heap, h': Heap, s: Slot, page: nat, blk: nat, a: nat, x: nat)
    requires Populated(h, h', s, page, blk, a) && (x < page || page + PAGE_SIZE <= x)
    ensures Same(h.mem, h'.mem, x)
  {
    SizeFacts(blk);
    PageFull(blk);
    ThreadingOutside(h.mem, page, CAPS[blk], SIZES[blk], x);
  }

  lemma GrewMem(h: Heap, h': Heap, t: nat, page: nat, blk: nat, g: Growth, x: nat)
    requires Grew(h, h', t, page, blk, g) && (x < page || page + PAGE_SIZE <= x)
    ensures Same(h.mem, h'.mem, x)
  {
    if g.GotBlock? {
      var s :| FirstSlot(h, s) && h.roots[s.r].page != 0 && Populated(Reserve(h, s, t), h', s, page, blk, g.a);
      PopulatedMem(Reserve(h, s, t), h', s, page, blk, g.a, x);
    }
  }

  lemma RootedMem(h: Heap, h': Heap, page: nat, blk: nat, s: Slot, va: nat, g: Rooting, x: nat)
    requires Rooted(h, h', page, blk, s, va, g) && (x < page || page + PAGE_SIZE <= x)
    ensures Same(h.mem, h'.mem, x)
  {
    if g.Block? { PopulatedMem(if va == 0 then h else Install(h, s.r, va), h', s, page, blk, g.a, x); }
  }

  lemma PushMem(h: Heap, p: nat, off: nat, a: nat, n: nat, x: nat)
    requires IsBlock(h, p, off) && p in h.free && a == PageAddr(h.refs[p]) + off && n == SIZES[BlockType(h.refs[p])]
    requires !Within(x, a, n)
    ensures Same(h.mem, Push(h, p, off).mem, x)
  {
    SizeFacts(BlockType(h.refs[p]));
    FillOutside(h.mem, a, n / 4, x);
  }

  lemma BlockSize(h: Heap, a: nat, p: nat, off: nat)
    requires Owners(h) && Homes(h) && a in h.live && IsBlock(h, p, off) && a == PageAddr(h.refs[p]) + off
    ensures h.live[a] == SIZES[BlockType(h.refs[p])]
  {
    assert PageOf(a) == PageAddr(h.refs[p]) by {
      BlockInside(off, BlockType(h.refs[p]));
      SizeFacts(BlockType(h.refs[p]));
      OnPage(PageAddr(h.refs[p]), a);
    }
    SizeOnPage(h, a, p);
  }

  /** Freeing a block writes only to the block. */
  lemma KfreedMem(h: Heap, h': Heap, t: nat, a: nat, g: Freeing, x: nat)
    requires Owners(h) && Homes(h) && a in h.live && !g.Panic? && Kfreed(h, h', t, a, g) && !Within(x, a, h.live[a])
    ensures Same(h.mem, h'.mem, x)
  {
    if !g.NotOurs? {
      var p: nat, off: nat, i: nat, j: nat :| FoundAndFreed(h, h', t, a, p, off, i, j, g);
      BlockSize(h, a, p, off);
      PushMem(h, p, off, a, h.live[a], x);
    }
  }

  // ---------------------------------------------------------------- clients' blocks

  /** x lies in the block b of a client. */
  ghost predicate InBlock(s: State, b: nat, x: nat) {
    b in s.client && Within(x, b, s.client[b])
  }

  /** A client's block lies on no page in a thread's hands. */
  lemma OffPage(s: State, b: nat, x: nat, page: nat, t: nat)
    requires Inv(s) && InBlock(s, b, x) && HeldBy(s.h, page, t, false)
    ensures x < page || page + PAGE_SIZE <= x
  {
    assert PageOf(x) in s.h.owner && !s.h.owner[PageOf(x)].Held? by { InvClear(s); assert ClearOfHeap(s.h, b, s.client[b]); }
    assert page % PAGE_SIZE == 0 by { assert Owners(s.h); }
    if page <= x < page + PAGE_SIZE { OnPage(page, x); }
  }

  lemma GrowData(s: State, s': State, t: nat, g: Growth, e: Event, b: nat, x: nat)
    requires Inv(s) && t in s.pc && GrowHeapStep(s, s', t, g, e) && InBlock(s, b, x)
    ensures Same(s.h.mem, s'.h.mem, x)
  {
    assert Hand(s.h, t, s.pc[t]);
    OffPage(s, b, x, s.pc[t].page, t);
    GrewMem(s.h, s'.h, t, s.pc[t].page, s.pc[t].blk, g, x);
  }

  lemma RootData(s: State, s': State, t: nat, g: Rooting, e: Event, b: nat, x: nat)
    requires Inv(s) && t in s.pc && UseRootPageStep(s, s', t, g, e) && InBlock(s, b, x)
    ensures Same(s.h.mem, s'.h.mem, x)
  {
    assert Hand(s.h, t, s.pc[t]);
    OffPage(s, b, x, s.pc[t].page, t);
    RootedMem(s.h, s'.h, s.pc[t].page, s.pc[t].blk, s.pc[t].slot, s.pc[t].va, g, x);
  }

  lemma SlotData(s: State, s': State, t: nat, a: nat, e: Event, b: nat, x: nat)
    requires Inv(s) && t in s.pc && UseSlotStep(s, s', t, a, e) && InBlock(s, b, x)
    ensures Same(s.h.mem, s'.h.mem, x)
  {
    assert Hand(s.h, t, s.pc[t]);
    OffPage(s, b, x, s.pc[t].page, t);
    PopulatedMem(s.h, s'.h, s.pc[t].slot, s.pc[t].page, s.pc[t].blk, a, x);
  }

  lemma KfreeData(s: State, s': State, t: nat, ptr: nat, g: Freeing, e: Event, b: nat, x: nat)
    requires Inv(s) && t in s.pc && KfreeStep(s, s', t, ptr, g, e) && InBlock(s, b, x) && b != ptr
    ensures Same(s.h.mem, s'.h.mem, x)
  {
    if ptr in s.h.live {
      assert !Within(x, ptr, s.h.live[ptr]) by { InvSeparate(s); assert Disjoint(ptr, s.client[ptr], b, s.client[b]); }
      KfreedMem(s.h, s'.h, t, ptr, g, x);
    } else {
      BigNotFound(s.h, s'.h, t, ptr, g);
    }
  }

  lemma OtherMem(s: State, s': State, m: Move)
    requires Step(s, s', m.t, m.act, m.e)
    requires m.act.GetPage? || m.act.GetRootPage? || m.act.ReturnSpare? || m.act.ReturnPage? || m.act.KmallocPages? || m.act.ReturnBig?
    ensures s'.h.mem == s.h.mem
  {
  }

  lemma WriteData(s: State, s': State, m: Move, x: nat)
    requires Step(s, s', m.t, m.act, m.e) && m.act.Write?
    ensures if m.act.a == x then x in s'.h.mem && s'.h.mem[x] == m.act.v else Same(s.h.mem, s'.h.mem, x)
  {
  }

  /** A step leaves the words of a client's block as they are, unless it is the client's own
      store or takes the block back. */
  lemma DataStep(s: State, s': State, m: Move, b: nat, x: nat)
    requires Inv(s) && Step(s, s', m.t, m.act, m.e) && InBlock(s, b, x) && m.e != Released(b)
    ensures if m.act.Write? && m.act.a == x then x in s'.h.mem && s'.h.mem[x] == m.act.v else Same(s.h.mem, s'.h.mem, x)
  {
    match m.act
    case Kmalloc(sz, blk, ret) => TookMem(s.h, s'.h, blk, ret);
    case GrowHeap(g) => GrowData(s, s', m.t, g, m.e, b, x);
    case UseRootPage(g) => RootData(s, s', m.t, g, m.e, b, x);
    case UseSlot(a) => SlotData(s, s', m.t, a, m.e, b, x);
    case Kfree(ptr, g) => KfreeData(s, s', m.t, ptr, g, m.e, b, x);
    case Write(_, _) => WriteData(s, s', m, x);
    case _ => OtherMem(s, s', m);
  }

  /** From i to n the block b stays in its client's hands, and nobody stores to x. */
  ghost predicate Kept(states: seq<State>, moves: seq<Move>, i: nat, n: nat, b: nat, x: nat) {
    && i <= n < |states| == |moves| + 1
    && (forall k: nat :: i <= k < n ==> moves[k].e != Released(b) && !(moves[k].act.Write? && moves[k].act.a == x))
  }

  lemma SameBlock(s: State, s': State, e: Event, b: nat, x: nat)
    requires AllocatorStep(s.client, s'.client, e) && InBlock(s, b, x) && e != Released(b)
    ensures InBlock(s', b, x)
  {
  }

  lemma DataAt(states: seq<State>, moves: seq<Move>, k: nat, b: nat, x: nat)
    requires Run(states, moves) && Boot(states[0]) && k < |moves| && InBlock(states[k], b, x) && moves[k].e != Released(b)
    ensures InBlock(states[k + 1], b, x)
    ensures if moves[k].act.Write? && moves[k].act.a == x then x in states[k + 1].h.mem && states[k + 1].h.mem[x] == moves[k].act.v
            else Same(states[k].h.mem, states[k + 1].h.mem, x)
  {
    RunInv(states, moves, k);
    RunStep(states, moves, k);
    SameBlock(states[k], states[k + 1], moves[k].e, b, x);
    assert Step(states[k], states[k + 1], moves[k].t, moves[k].act, moves[k].e) by { assert StepAt(states, moves, k); }
    DataStep(states[k], states[k + 1], moves[k], b, x);
  }

  /** The step at k leaves the block and the word, if the block is there. */
  ghost predicate StaysAt(states: seq<State>, k: nat, b: nat, x: nat) {
    k + 1 < |states| && (InBlock(states[k], b, x) ==> InBlock(states[k + 1], b, x) && Same(states[k].h.mem, states[k + 1].h.mem, x))
  }

  lemma {:induction false} StaysAll(states: seq<State>, i: nat, n: nat, b: nat, x: nat)
    requires i <= n < |states| && InBlock(states[i], b, x) && forall k: nat :: i <= k < n ==> StaysAt(states, k, b, x)
    ensures InBlock(states[n], b, x) && Same(states[i].h.mem, states[n].h.mem, x)
    decreases n
  {
    if i < n {
      StaysAll(states, i, n - 1, b, x);
      assert StaysAt(states, n - 1, b, x);
      SameTwice(states[i].h.mem, states[n - 1].h.mem, states[n].h.mem, x);
    }
  }

  lemma WordsStay(states: seq<State>, moves: seq<Move>, i: nat, n: nat, b: nat, x: nat)
    requires Run(states, moves) && Boot(states[0]) && Kept(states, moves, i, n, b, x) && InBlock(states[i], b, x)
    ensures InBlock(states[n], b, x) && Same(states[i].h.mem, states[n].h.mem, x)
  {
    forall k: nat | i <= k < n ensures StaysAt(states, k, b, x) {
      if InBlock(states[k], b, x) { DataAt(states, moves, k, b, x); }
    }
    StaysAll(states, i, n, b, x);
  }

  lemma SameTwice(a: map<nat, nat>, b: map<nat, nat>, c: map<nat, nat>, x: nat)
    requires Same(a, b, x) && Same(b, c, x)
    ensures Same(a, c, x)
  {
  }

  /** Over every run: what a client stores in its block is there until it stores there again
      or frees the block, whatever other threads do meanwhile. */
  lemma StoredStays(states: seq<State>, moves: seq<Move>, i: nat, n: nat, b: nat, x: nat)
    requires Run(states, moves) && Boot(states[0]) && i < |moves| && InBlock(states[i], b, x)
    requires moves[i].act.Write? && moves[i].act.a == x && Kept(states, moves, i + 1, n, b, x)
    ensures x in states[n].h.mem && states[n].h.mem[x] == moves[i].act.v
  {
    assert moves[i].e == Quiet by { assert StepAt(states, moves, i); }
    DataAt(states, moves, i, b, x);
    WordsStay(states, moves, i + 1, n, b, x);
  }
}
