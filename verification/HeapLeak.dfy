/** The assertion in freepageref that a root without a pageref page has no slot in use
    does not always hold: allocpageref leaves the slot's bit set when the pageref page
    cannot be had. A run of one thread that ends in the panic. */
module HeapLeak {
  import opened HalfWords
  import opened Bits
  import opened HeapState
  import opened HeapOps
  import opened HeapGrow
  import opened HeapLink
  import opened HeapRegions
  import opened HeapRuns
  import opened Runs
  import opened KernelHeap

  const BLK := 7
  const SZ := 2000

  /** Thread 0 is idle, nothing is allocated, and k slots of root 0 are leaked. */
  ghost predicate Leaky(s: State, k: nat) {
    && k <= NPAGEREFS_PER_PAGE && s.pc == map[0 := Idle] && s.client == map[]
    && EmptyHeap(s.h) && LeakedRoots(s.h.roots, k)
  }

  ghost predicate EmptyHeap(h: Heap) {
    && h.owner == map[] && h.all == [] && h.live == map[] && h.bigs == map[]
    && |h.same| == NSIZES && h.same[BLK] == []
  }

  ghost predicate LeakedRoots(roots: seq<Root>, k: nat) {
    && |roots| == NUM_PAGEREFPAGES && (forall r: nat :: r < NUM_PAGEREFPAGES ==> roots[r].page == 0 && |roots[r].inuse| == INUSE_WORDS)
    && (forall j: nat :: j < NPAGEREFS_PER_PAGE ==> InUse(roots[0].inuse, j) == (j < k))
    && !InUse(roots[1].inuse, 0)
  }

  /** The next slot allocpageref would take. */
  function NextSlot(k: nat): Slot {
    if k < NPAGEREFS_PER_PAGE then Slot(0, k) else Slot(1, 0)
  }

  lemma NextIsFirst(h: Heap, k: nat)
    requires LeakedRoots(h.roots, k) && k <= NPAGEREFS_PER_PAGE
    ensures FirstSlot(h, NextSlot(k))
  {
  }

  lemma LeakMore(h: Heap, k: nat)
    requires LeakedRoots(h.roots, k) && k < NPAGEREFS_PER_PAGE
    ensures LeakedRoots(Reserve(h, Slot(0, k), 0).roots, k + 1)
  {
    forall j: nat | j < NPAGEREFS_PER_PAGE
      ensures InUse(Reserve(h, Slot(0, k), 0).roots[0].inuse, j) == (j < k + 1)
    {
      SetInUse(h.roots[0].inuse, k, j);
    }
  }

  /** The six steps of a kmalloc that gets its page but no pageref page. */
  ghost function LeakStates(s: State, k: nat): (r: seq<State>)
    requires Leaky(s, k) && k < NPAGEREFS_PER_PAGE
    ensures |r| == 7
  {
    var x := Slot(0, k);
    var h2 := Take(s.h, PAGE_SIZE, 0, false);
    var h3 := Reserve(h2, x, 0);
    var h5 := Leak(h3, x);
    [s,
     State(s.h, map[0 := NeedPage(SZ, BLK)], s.client),
     State(h2, map[0 := HavePage(SZ, BLK, PAGE_SIZE)], s.client),
     State(h3, map[0 := NeedRootPage(SZ, BLK, PAGE_SIZE, x)], s.client),
     State(h3, map[0 := GotRootPage(SZ, BLK, PAGE_SIZE, x, 0)], s.client),
     State(h5, map[0 := GivePage(PAGE_SIZE, true)], s.client),
     State(Give(h5, PAGE_SIZE), map[0 := Idle], s.client)]
  }

  ghost function LeakMoves(k: nat): (r: seq<Move>)
    ensures |r| == 6
  {
    [Move(0, Kmalloc(SZ, BLK, None), Quiet),
     Move(0, GetPage(PAGE_SIZE), Quiet),
     Move(0, GrowHeap(NeedRoot(Slot(0, k))), Quiet),
     Move(0, GetRootPage(0), Quiet),
     Move(0, UseRootPage(GiveUp), Quiet),
     Move(0, ReturnPage, Refused)]
  }

  lemma LeakOnce(s: State, k: nat)
    requires Leaky(s, k) && k < NPAGEREFS_PER_PAGE
    ensures Run(LeakStates(s, k), LeakMoves(k)) && Leaky(LeakStates(s, k)[6], k + 1)
  {
    LeakRun(s, k);
    LeakMore(Take(s.h, PAGE_SIZE, 0, false), k);
    assert LeakStates(s, k)[6].h.owner == map[];
  }

  lemma LeakRun(s: State, k: nat)
    requires Leaky(s, k) && k < NPAGEREFS_PER_PAGE
    ensures Run(LeakStates(s, k), LeakMoves(k))
  {
    LeakFirstSteps(s, k);
    LeakLastSteps(s, k);
  }

  lemma LeakFirstSteps(s: State, k: nat)
    requires Leaky(s, k) && k < NPAGEREFS_PER_PAGE
    ensures forall i :: 0 <= i < 3 ==> StepAt(LeakStates(s, k), LeakMoves(k), i)
  {
    var r, m := LeakStates(s, k), LeakMoves(k);
    assert StepAt(r, m, 0) && StepAt(r, m, 1);
    assert StepAt(r, m, 2) by { NextIsFirst(Take(s.h, PAGE_SIZE, 0, false), k); }
  }

  lemma LeakLastSteps(s: State, k: nat)
    requires Leaky(s, k) && k < NPAGEREFS_PER_PAGE
    ensures forall i :: 3 <= i < 6 ==> StepAt(LeakStates(s, k), LeakMoves(k), i)
  {
    var r, m := LeakStates(s, k), LeakMoves(k);
    assert StepAt(r, m, 3) && StepAt(r, m, 4) && StepAt(r, m, 5);
  }

  /** A run from the invariant ends in the invariant. */
  lemma RunEnd(states: seq<State>, moves: seq<Move>)
    requires Run(states, moves) && Inv(states[0])
    ensures Inv(states[|moves|])
  {
    forall j: nat | j < |moves| ensures Keeps(states, Inv, j) { RunKeeps(states, moves, j); }
    Throughout(states, Inv, |moves|);
  }

  ghost function Join(a: seq<State>, b: seq<State>): seq<State>
    requires b != []
  {
    a + b[1..]
  }

  lemma JoinRuns(a: seq<State>, m: seq<Move>, b: seq<State>, n: seq<Move>)
    requires Run(a, m) && Run(b, n) && a[|m|] == b[0]
    ensures Run(Join(a, b), m + n) && Join(a, b)[0] == a[0] && Join(a, b)[|m + n|] == b[|n|]
  {
    var c, l := Join(a, b), m + n;
    forall i | 0 <= i < |l| ensures StepAt(c, l, i) {
      if i < |m| { assert StepAt(a, m, i); } else { assert StepAt(b, n, i - |m|); }
    }
  }

  /** The heap at boot, and one thread. */
  ghost function Start(): State {
    var zeros: seq<word> := seq(INUSE_WORDS, _ => 0);
    State(Heap(map[], map[], seq(NSIZES, _ => 0), 0, seq(NUM_PAGEREFPAGES, _ => Root(0, zeros, 0)),
               seq(NSIZES, _ => []), [], map[], map[], map[], map[], map[], map[]),
          map[0 := Idle], map[])
  }

  lemma StartLeaky()
    ensures Boot(Start()) && Leaky(Start(), 0)
  {
    BootOk(Start().h);
    forall r: nat, j: nat | r < NUM_PAGEREFPAGES && j < NPAGEREFS_PER_PAGE ensures !InUse(Start().h.roots[r].inuse, j) {
      ZeroBits(j % 32);
    }
    BootInv(Start());
  }

  ghost predicate LeakyRun(states: seq<State>, moves: seq<Move>, k: nat) {
    Run(states, moves) && states[0] == Start() && Leaky(states[|moves|], k)
  }

  lemma LeakAgain(states: seq<State>, moves: seq<Move>, k: nat) returns (states': seq<State>, moves': seq<Move>)
    requires LeakyRun(states, moves, k) && k < NPAGEREFS_PER_PAGE
    ensures LeakyRun(states', moves', k + 1)
  {
    var s := states[|moves|];
    LeakOnce(s, k);
    JoinRuns(states, moves, LeakStates(s, k), LeakMoves(k));
    states', moves' := Join(states, LeakStates(s, k)), moves + LeakMoves(k);
  }

  /** k times in a row. */
  lemma LeakMany(k: nat) returns (states: seq<State>, moves: seq<Move>)
    requires k <= NPAGEREFS_PER_PAGE
    ensures LeakyRun(states, moves, k)
  {
    StartLeaky();
    states, moves := [Start()], [];
    for i := 0 to k
      invariant LeakyRun(states, moves, i)
    {
      states, moves := LeakAgain(states, moves, i);
    }
  }

  // ---------------------------------------------------------------- the panic

  /** Then a kmalloc gets both its page and a page of pagerefs, for root 1. */
  ghost function LastHeap(s: State): Heap
    requires Inv(s) && Leaky(s, NPAGEREFS_PER_PAGE)
  {
    Install(Take(Reserve(Take(s.h, PAGE_SIZE, 0, false), Slot(1, 0), 0), 2 * PAGE_SIZE, 0, true), 1, 2 * PAGE_SIZE)
  }

  lemma LastCanPopulate(s: State)
    requires Inv(s) && Leaky(s, NPAGEREFS_PER_PAGE)
    ensures CanPopulate(LastHeap(s), Slot(1, 0), PAGE_SIZE, BLK)
  {
    var h1 := Take(s.h, PAGE_SIZE, 0, false);
    TakeOk(s.h, PAGE_SIZE, 0, false);
    NextIsFirst(h1, NPAGEREFS_PER_PAGE);
    ReserveOk(h1, Slot(1, 0), 0);
    var h2 := Reserve(h1, Slot(1, 0), 0);
    TakeOk(h2, 2 * PAGE_SIZE, 0, true);
    InstallOk(Take(h2, 2 * PAGE_SIZE, 0, true), 1, 2 * PAGE_SIZE);
  }

  /** The heap with the page linked in, and with one of its two blocks taken. */
  ghost function LinkedHeap(s: State): (h: Heap)
    requires Inv(s) && Leaky(s, NPAGEREFS_PER_PAGE)
    ensures CanThread(LastHeap(s), Slot(1, 0), BLK) && h == FreshLink(LastHeap(s), Slot(1, 0), PAGE_SIZE, BLK)
    ensures PopFits(h, 2 * PAGE_SIZE)
  {
    LastCanPopulate(s);
    FreshLinkOk(LastHeap(s), Slot(1, 0), PAGE_SIZE, BLK);
    FreshLink(LastHeap(s), Slot(1, 0), PAGE_SIZE, BLK)
  }

  const LAST_BLOCK: nat := PAGE_SIZE + 2048

  /** The run up to the pageref page. */
  ghost function RootStates(s: State): (r: seq<State>)
    requires |s.h.roots| == NUM_PAGEREFPAGES && |s.h.roots[1].inuse| == INUSE_WORDS
    ensures |r| == 5
  {
    var x := Slot(1, 0);
    var h1 := Take(s.h, PAGE_SIZE, 0, false);
    var h2 := Reserve(h1, x, 0);
    [s,
     State(s.h, map[0 := NeedPage(SZ, BLK)], s.client),
     State(h1, map[0 := HavePage(SZ, BLK, PAGE_SIZE)], s.client),
     State(h2, map[0 := NeedRootPage(SZ, BLK, PAGE_SIZE, x)], s.client),
     State(Take(h2, 2 * PAGE_SIZE, 0, true), map[0 := GotRootPage(SZ, BLK, PAGE_SIZE, x, 2 * PAGE_SIZE)], s.client)]
  }

  ghost function RootMoves(): (r: seq<Move>)
    ensures |r| == 4
  {
    [Move(0, Kmalloc(SZ, BLK, None), Quiet),
     Move(0, GetPage(PAGE_SIZE), Quiet),
     Move(0, GrowHeap(NeedRoot(Slot(1, 0))), Quiet),
     Move(0, GetRootPage(2 * PAGE_SIZE), Quiet)]
  }

  lemma RootRun(s: State)
    requires Leaky(s, NPAGEREFS_PER_PAGE)
    ensures Run(RootStates(s), RootMoves())
  {
    var r, m := RootStates(s), RootMoves();
    assert StepAt(r, m, 0) && StepAt(r, m, 1);
    assert StepAt(r, m, 2) by { NextIsFirst(r[2].h, NPAGEREFS_PER_PAGE); }
    assert StepAt(r, m, 3);
  }

  /** The last step of that kmalloc. */
  ghost function LastStates(s: State): (r: seq<State>)
    requires Inv(s) && Leaky(s, NPAGEREFS_PER_PAGE)
    ensures |r| == 2
  {
    [RootStates(s)[4], State(Pop(LinkedHeap(s), 2 * PAGE_SIZE), map[0 := Idle], s.client[LAST_BLOCK := 2048])]
  }

  ghost function LastMoves(): seq<Move> {
    [Move(0, UseRootPage(Block(LAST_BLOCK)), Gave(SZ, LAST_BLOCK))]
  }

  lemma LastBlock(s: State)
    requires Inv(s) && Leaky(s, NPAGEREFS_PER_PAGE)
    ensures var q := LinkedHeap(s).refs[2 * PAGE_SIZE];
            && HeadAddr(q) == LAST_BLOCK && PageAddr(q) == PAGE_SIZE && BlockType(q) == BLK && q.nfree == 2
  {
    var q := LinkedHeap(s).refs[2 * PAGE_SIZE];
    PabParts(PAGE_SIZE, BLK, q);
    assert Times(1, 2048) == 2048;
  }

  lemma LastRooted(s: State, h: Heap, h': Heap)
    requires Inv(s) && Leaky(s, NPAGEREFS_PER_PAGE)
    requires h == LastStates(s)[0].h && h' == LastStates(s)[1].h
    ensures Rooted(h, h', PAGE_SIZE, BLK, Slot(1, 0), 2 * PAGE_SIZE, Block(LAST_BLOCK))
  {
    LastBlock(s);
    assert LastHeap(s) == Install(h, 1, 2 * PAGE_SIZE);
  }

  lemma OneThread(p: Pc)
    ensures map[0 := p][0 := Idle] == map[0 := Idle]
  {
  }

  lemma LastStep(s: State, s': State, a: nat)
    requires 0 in s.pc && s.pc[0].GotRootPage? && s.pc[0].blk == BLK && s'.pc == s.pc[0 := Idle]
    requires Rooted(s.h, s'.h, s.pc[0].page, s.pc[0].blk, s.pc[0].slot, s.pc[0].va, Block(a)) && s'.client == s.client[a := 2048]
    ensures UseRootPageStep(s, s', 0, Block(a), Gave(s.pc[0].sz, a))
  {
  }

  lemma LastRun(s: State)
    requires Inv(s) && Leaky(s, NPAGEREFS_PER_PAGE)
    ensures Run(LastStates(s), LastMoves())
  {
    var r, m := LastStates(s), LastMoves();
    LastRooted(s, r[0].h, r[1].h);
    OneThread(r[0].pc[0]);
    LastStep(r[0], r[1], LAST_BLOCK);
    assert StepAt(r, m, 0);
  }

  /** What there is of the heap then: one page, with root 0 full and without a page. */
  lemma LastFacts(s: State, h: Heap)
    requires Inv(s) && Leaky(s, NPAGEREFS_PER_PAGE) && h == LastStates(s)[1].h
    ensures |h.same| == NSIZES && h.all == [2 * PAGE_SIZE] && h.same[BLK] == [2 * PAGE_SIZE] && 2 * PAGE_SIZE in h.refs && 2 * PAGE_SIZE in h.free
    ensures BlockType(h.refs[2 * PAGE_SIZE]) == BLK && PageAddr(h.refs[2 * PAGE_SIZE]) == PAGE_SIZE
    ensures h.refs[2 * PAGE_SIZE].nfree == 1 && 2 * PAGE_SIZE in h.slot && h.slot[2 * PAGE_SIZE].r == 1
    ensures |h.roots| > 1 && h.roots[0].page == 0 && h.roots[0] == s.h.roots[0]
  {
    LastBlock(s);
  }

  lemma RootFull(s: State)
    requires Inv(s) && Leaky(s, NPAGEREFS_PER_PAGE)
    ensures s.h.roots[0].numinuse == NPAGEREFS_PER_PAGE
  {
    assert RootOk(s.h.roots[0]);
    assert UsedSet(s.h.roots[0].inuse) == Below(NPAGEREFS_PER_PAGE);
  }

  /** Freeing the block empties its page, and freepageref looks at root 0 first. */
  lemma PanicThen(h: Heap)
    requires |h.same| == NSIZES && h.all == [2 * PAGE_SIZE] && h.same[BLK] == [2 * PAGE_SIZE] && 2 * PAGE_SIZE in h.refs && 2 * PAGE_SIZE in h.free
    requires BlockType(h.refs[2 * PAGE_SIZE]) == BLK && PageAddr(h.refs[2 * PAGE_SIZE]) == PAGE_SIZE
    requires h.refs[2 * PAGE_SIZE].nfree == 1 && 2 * PAGE_SIZE in h.slot && h.slot[2 * PAGE_SIZE].r == 1
    requires |h.roots| > 1 && h.roots[0].page == 0 && h.roots[0].numinuse == NPAGEREFS_PER_PAGE
    ensures Kfreed(h, h, 0, LAST_BLOCK, Panic)
  {
    assert IsBlock(h, 2 * PAGE_SIZE, 2048) by { MultipleIsMod(2048, 2048); }
    assert !RootsInOrder(h, 1) by { assert h.roots[0].page == 0; }
    assert OnLists(h, 2 * PAGE_SIZE, 0, 0);
    assert FoundAndFreed(h, h, 0, LAST_BLOCK, 2 * PAGE_SIZE, 2048, 0, 0, Panic);
  }

  /** There is a run from boot, with every call in contract, after which kfree of a live
      block panics. */
  lemma FreePanics() returns (states: seq<State>, moves: seq<Move>, a: nat)
    ensures Run(states, moves) && Boot(states[0])
    ensures a in states[|moves|].client
    ensures Kfreed(states[|moves|].h, states[|moves|].h, 0, a, Panic)
  {
    states, moves := LeakMany(NPAGEREFS_PER_PAGE);
    var s := states[|moves|];
    StartLeaky();
    RunEnd(states, moves);
    RootRun(s);
    JoinRuns(states, moves, RootStates(s), RootMoves());
    states, moves := Join(states, RootStates(s)), moves + RootMoves();
    LastRun(s);
    LastFacts(s, LastStates(s)[1].h);
    RootFull(s);
    PanicThen(LastStates(s)[1].h);
    JoinRuns(states, moves, LastStates(s), LastMoves());
    states, moves := Join(states, LastStates(s)), moves + LastMoves();
    a := LAST_BLOCK;
  }
}
