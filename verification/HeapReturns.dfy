/** Over every run of the kernel heap: each page and each slot in a thread's hands is one its
    call still has to use or give back; and every call is answered, with memory or for want
    of it. */
module HeapReturns {
  import opened HeapState
  import opened HeapOps
  import opened HeapPages
  import opened HeapGrow
  import opened HeapLink
  import opened HeapRegions
  import opened HeapRuns
  import opened Runs

  // ---------------------------------------------------------------- pages in hand

  /** The thread's call has the page still to use or to give to free_kpages. */
  ghost predicate Carries(pc: Pc, a: nat, spare: bool) {
    if spare then (pc.GotRootPage? || pc.FreeSpare?) && pc.va == a
    else (pc.HavePage? || pc.NeedRootPage? || pc.GotRootPage? || pc.FreeSpare? || pc.HaveSlot? || pc.GivePage?) && pc.page == a
  }

  /** Likewise a pageref slot. */
  ghost predicate CarriesSlot(pc: Pc, x: Slot) {
    (pc.NeedRootPage? || pc.GotRootPage? || pc.FreeSpare? || pc.HaveSlot?) && pc.slot == x
  }

  /** Every page in thread t's hands is carried by its call. */
  ghost predicate PagesOf(h: Heap, t: nat, pc: Pc) {
    forall a, spare :: a in h.owner && h.owner[a] == Held(t, spare) ==> Carries(pc, a, spare)
  }

  ghost predicate SlotsOf(h: Heap, t: nat, pc: Pc) {
    forall x :: x in h.reserved && h.reserved[x] == Some(t) ==> CarriesSlot(pc, x)
  }

  ghost predicate Carried(h: Heap, pc: map<nat, Pc>) {
    && (forall a :: a in h.owner && h.owner[a].Held? ==> h.owner[a].t in pc)
    && (forall x :: x in h.reserved && h.reserved[x].Some? ==> h.reserved[x].value in pc)
    && (forall t :: t in pc ==> PagesOf(h, t, pc[t]) && SlotsOf(h, t, pc[t]))
  }

  /** A step of t gives other threads nothing. */
  ghost predicate OnlyOwn(h: Heap, h': Heap, t: nat) {
    && (forall a :: a in h'.owner && h'.owner[a].Held? && h'.owner[a].t != t ==> a in h.owner && h.owner[a] == h'.owner[a])
    && (forall x :: x in h'.reserved && h'.reserved[x].Some? && h'.reserved[x] != Some(t) ==> x in h.reserved && h.reserved[x] == h'.reserved[x])
  }

  lemma CarriedStep(h: Heap, h': Heap, pc: map<nat, Pc>, t: nat, p: Pc)
    requires Carried(h, pc) && t in pc && OnlyOwn(h, h', t) && PagesOf(h', t, p) && SlotsOf(h', t, p)
    ensures Carried(h', pc[t := p])
  {
    forall u | u in pc && u != t ensures PagesOf(h', u, pc[u]) && SlotsOf(h', u, pc[u]) {
      assert PagesOf(h, u, pc[u]) && SlotsOf(h, u, pc[u]);
    }
  }

  /** Nothing that t has changes. */
  lemma SameCarried(h: Heap, h': Heap, pc: map<nat, Pc>, t: nat, p: Pc)
    requires Carried(h, pc) && t in pc && (p == pc[t] || ((pc[t].Idle? || pc[t].NeedPage? || pc[t].GiveBig?) && (p.Idle? || p.NeedPage? || p.GiveBig?)))
    requires forall a :: a in h'.owner && h'.owner[a].Held? ==> a in h.owner && h.owner[a] == h'.owner[a]
    requires h'.reserved == h.reserved
    ensures Carried(h', pc[t := p])
  {
    assert PagesOf(h, t, pc[t]) && SlotsOf(h, t, pc[t]);
    CarriedStep(h, h', pc, t, p);
  }

  // ---------------------------------------------------------------- each action

  lemma KmallocCarried(s: State, s': State, t: nat, sz: nat, blk: nat, ret: Option<nat>, e: Event)
    requires Ok(s.h) && Carried(s.h, s.pc) && t in s.pc && KmallocStep(s, s', t, sz, blk, ret, e)
    ensures Carried(s'.h, s'.pc)
  {
    var q := if ret.Some? then Idle else NeedPage(sz, blk);
    assert s'.pc == s.pc[t := q];
    TookCarried(s.h, s'.h, s.pc, t, blk, ret, q);
  }

  lemma TookCarried(h: Heap, h': Heap, pc: map<nat, Pc>, t: nat, blk: nat, ret: Option<nat>, q: Pc)
    requires Ok(h) && Carried(h, pc) && t in pc && pc[t].Idle? && (q.Idle? || q.NeedPage?) && blk < NSIZES && Took(h, h', blk, ret)
    ensures Carried(h', pc[t := q])
  {
    assert SameHands(h, h') by { TookOk(h, h', blk, ret); }
    SameCarried(h, h', pc, t, q);
  }

  lemma TakenCarried(h: Heap, h': Heap, pc: map<nat, Pc>, t: nat, va: nat, spare: bool, p: Pc, q: Pc)
    requires Carried(h, pc) && t in pc && pc[t] == p && GotPage(h, h', t, va, spare)
    requires forall a, z :: Carries(p, a, z) ==> Carries(q, a, z)
    requires va != 0 ==> Carries(q, va, spare)
    requires forall x :: CarriesSlot(p, x) ==> CarriesSlot(q, x)
    ensures Carried(h', pc[t := q])
  {
    assert PagesOf(h, t, p) && SlotsOf(h, t, p);
    CarriedStep(h, h', pc, t, q);
  }

  lemma GetPageCarried(s: State, s': State, t: nat, va: nat, e: Event)
    requires Carried(s.h, s.pc) && t in s.pc && GetPageStep(s, s', t, va, e)
    ensures Carried(s'.h, s'.pc)
  {
    var pc := s.pc[t];
    TakenCarried(s.h, s'.h, s.pc, t, va, false, pc, if va == 0 then Idle else HavePage(pc.sz, pc.blk, va));
  }

  lemma GetRootPageCarried(s: State, s': State, t: nat, va: nat, e: Event)
    requires Carried(s.h, s.pc) && t in s.pc && GetRootPageStep(s, s', t, va, e)
    ensures Carried(s'.h, s'.pc)
  {
    var pc := s.pc[t];
    TakenCarried(s.h, s'.h, s.pc, t, va, true, pc, GotRootPage(pc.sz, pc.blk, pc.page, pc.slot, va));
  }

  lemma GrownCarried(h: Heap, h': Heap, pc: map<nat, Pc>, t: nat, p: Pc, g: Growth, q: Pc)
    requires Carried(h, pc) && t in pc && pc[t] == p && p.HavePage? && GrowthHands(h, h', t, p.page, p.blk, g)
    requires q == match g
                  case NoSlot => GivePage(p.page, true)
                  case NeedRoot(x) => NeedRootPage(p.sz, p.blk, p.page, x)
                  case GotBlock(_) => Idle
    ensures Carried(h', pc[t := q])
  {
    assert PagesOf(h, t, p) && SlotsOf(h, t, p);
    CarriedStep(h, h', pc, t, q);
  }

  lemma GrowHeapCarried(s: State, s': State, t: nat, g: Growth, e: Event)
    requires Inv(s) && Carried(s.h, s.pc) && t in s.pc && GrowHeapStep(s, s', t, g, e)
    ensures Carried(s'.h, s'.pc)
  {
    var p := s.pc[t];
    assert Hand(s.h, t, p);
    assert GrowthHands(s.h, s'.h, t, p.page, p.blk, g) by { GrewOk(s.h, s'.h, t, p.page, p.blk, g); }
    var q := match g case NoSlot => GivePage(p.page, true) case NeedRoot(x) => NeedRootPage(p.sz, p.blk, p.page, x) case GotBlock(_) => Idle;
    GrownCarried(s.h, s'.h, s.pc, t, p, g, q);
  }

  /** The page and the slot have become a listed page, and a pageref page in hand a root's. */
  lemma PopulatedCarried(h: Heap, h': Heap, pc: map<nat, Pc>, t: nat, p: Pc, va: nat)
    requires Carried(h, pc) && t in pc && pc[t] == p && (p.GotRootPage? || p.HaveSlot?) && p.slot.r < |h.roots|
    requires va == if p.GotRootPage? then p.va else 0
    requires HandsPopulated(if va == 0 then h else Install(h, p.slot.r, va), h', p.slot, p.page)
    requires forall a :: a in h.owner ==> a > 0
    ensures Carried(h', pc[t := Idle])
  {
    assert PagesOf(h, t, p) && SlotsOf(h, t, p);
    CarriedStep(h, h', pc, t, Idle);
  }

  lemma UseRootPageCarried(s: State, s': State, t: nat, g: Rooting, e: Event)
    requires Inv(s) && Carried(s.h, s.pc) && t in s.pc && UseRootPageStep(s, s', t, g, e)
    ensures Carried(s'.h, s'.pc)
  {
    var p := s.pc[t];
    assert Hand(s.h, t, p);
    RootedOk(s.h, s'.h, p.page, p.blk, p.slot, p.va, g);
    assert forall a :: a in s.h.owner ==> a > 0 by { assert Owners(s.h); }
    RootedCarried(s.h, s'.h, s.pc, t, p, g);
  }

  function AfterRooting(p: Pc, g: Rooting): Pc
    requires p.GotRootPage?
  {
    match g
    case GiveUp => GivePage(p.page, true)
    case Spare => FreeSpare(p.sz, p.blk, p.page, p.slot, p.va)
    case Block(_) => Idle
  }

  lemma RootedCarried(h: Heap, h': Heap, pc: map<nat, Pc>, t: nat, p: Pc, g: Rooting)
    requires Carried(h, pc) && t in pc && pc[t] == p && p.GotRootPage? && p.slot.r < |h.roots|
    requires g.GiveUp? ==> h' == Leak(h, p.slot) && p.va == 0
    requires g.Spare? ==> h' == h
    requires g.Block? ==> HandsPopulated(if p.va == 0 then h else Install(h, p.slot.r, p.va), h', p.slot, p.page)
    requires forall a :: a in h.owner ==> a > 0
    ensures Carried(h', pc[t := AfterRooting(p, g)])
  {
    if g.Block? {
      PopulatedCarried(h, h', pc, t, p, p.va);
    } else {
      assert PagesOf(h, t, p) && SlotsOf(h, t, p);
      CarriedStep(h, h', pc, t, AfterRooting(p, g));
    }
  }

  lemma GivenCarried(h: Heap, pc: map<nat, Pc>, t: nat, p: Pc, q: Pc, va: nat)
    requires Carried(h, pc) && t in pc && pc[t] == p
    requires forall a, z :: Carries(p, a, z) && a != va ==> Carries(q, a, z)
    requires forall x :: CarriesSlot(p, x) ==> CarriesSlot(q, x)
    ensures Carried(Give(h, va), pc[t := q])
  {
    assert PagesOf(h, t, p) && SlotsOf(h, t, p);
    CarriedStep(h, Give(h, va), pc, t, q);
  }

  lemma ReturnSpareCarried(s: State, s': State, t: nat, e: Event)
    requires Carried(s.h, s.pc) && t in s.pc && ReturnSpareStep(s, s', t, e)
    ensures Carried(s'.h, s'.pc)
  {
    var p := s.pc[t];
    GivenCarried(s.h, s.pc, t, p, HaveSlot(p.sz, p.blk, p.page, p.slot), p.va);
  }

  lemma ReturnPageCarried(s: State, s': State, t: nat, e: Event)
    requires Carried(s.h, s.pc) && t in s.pc && ReturnPageStep(s, s', t, e)
    ensures Carried(s'.h, s'.pc)
  {
    GivenCarried(s.h, s.pc, t, s.pc[t], Idle, s.pc[t].page);
  }

  lemma UseSlotCarried(s: State, s': State, t: nat, a: nat, e: Event)
    requires Inv(s) && Carried(s.h, s.pc) && t in s.pc && UseSlotStep(s, s', t, a, e)
    ensures Carried(s'.h, s'.pc)
  {
    var p := s.pc[t];
    assert Hand(s.h, t, p);
    PopulatedOk(s.h, s'.h, p.slot, p.page, p.blk, a);
    assert forall a :: a in s.h.owner ==> a > 0 by { assert Owners(s.h); }
    PopulatedCarried(s.h, s'.h, s.pc, t, p, 0);
  }

  lemma FreedCarried(h: Heap, h': Heap, pc: map<nat, Pc>, t: nat, a: nat, g: Freeing)
    requires Carried(h, pc) && t in pc && pc[t].Idle? && FreedHands(h, h', t, a, g)
    ensures Carried(h', pc[t := if g.PageFree? then GivePage(g.page, false) else Idle])
  {
    var q := if g.PageFree? then GivePage(g.page, false) else Idle;
    assert PagesOf(h, t, pc[t]) && SlotsOf(h, t, pc[t]);
    CarriedStep(h, h', pc, t, q);
  }

  lemma KfreeBlockCarried(s: State, s': State, t: nat, ptr: nat, g: Freeing, e: Event)
    requires Ok(s.h) && Carried(s.h, s.pc) && t in s.pc && KfreeStep(s, s', t, ptr, g, e) && ptr in s.h.live
    ensures Carried(s'.h, s'.pc)
  {
    assert !g.NotOurs? by { LiveIsFound(s.h, ptr); }
    assert s'.pc == s.pc[t := if g.PageFree? then GivePage(g.page, false) else Idle];
    KfreedCarried(s.h, s'.h, s.pc, t, ptr, g);
  }

  lemma KfreedCarried(h: Heap, h': Heap, pc: map<nat, Pc>, t: nat, a: nat, g: Freeing)
    requires Ok(h) && Carried(h, pc) && t in pc && pc[t].Idle? && a in h.live && !g.Panic? && Kfreed(h, h', t, a, g)
    ensures Carried(h', pc[t := if g.PageFree? then GivePage(g.page, false) else Idle])
  {
    assert FreedHands(h, h', t, a, g) by { KfreedOk(h, h', t, a, g); }
    FreedCarried(h, h', pc, t, a, g);
  }

  lemma KfreePagesCarried(s: State, s': State, t: nat, ptr: nat, g: Freeing, e: Event)
    requires Ok(s.h) && Carried(s.h, s.pc) && t in s.pc && KfreeStep(s, s', t, ptr, g, e) && ptr in s.h.bigs
    ensures Carried(s'.h, s'.pc)
  {
    assert g.NotOurs? && s'.h == s.h by { BigNotFound(s.h, s'.h, t, ptr, g); }
    SameCarried(s.h, s'.h, s.pc, t, GiveBig(ptr));
  }

  lemma KfreeCarried(s: State, s': State, t: nat, ptr: nat, g: Freeing, e: Event)
    requires Ok(s.h) && Clients(s) && Carried(s.h, s.pc) && t in s.pc && KfreeStep(s, s', t, ptr, g, e)
    ensures Carried(s'.h, s'.pc)
  {
    if ptr in s.h.live {
      KfreeBlockCarried(s, s', t, ptr, g, e);
    } else {
      KfreePagesCarried(s, s', t, ptr, g, e);
    }
  }

  lemma BigsCarried(h: Heap, h': Heap, pc: map<nat, Pc>, t: nat, p: Pc)
    requires Carried(h, pc) && t in pc && BigsOnly(h, h') && (p == pc[t] || (pc[t].GiveBig? && p.Idle?))
    ensures Carried(h', pc[t := p])
  {
    SameCarried(h, h', pc, t, p);
  }

  lemma KmallocPagesCarried(s: State, s': State, t: nat, sz: nat, va: nat, e: Event)
    requires Inv(s) && Carried(s.h, s.pc) && t in s.pc && KmallocPagesStep(s, s', t, sz, va, e)
    ensures Carried(s'.h, s'.pc)
  {
    if va != 0 {
      BigAllocOnly(s.h, va, NPages(sz));
      BigsCarried(s.h, s'.h, s.pc, t, s.pc[t]);
      assert s'.pc == s.pc[t := s.pc[t]];
    }
  }

  lemma ReturnBigCarried(s: State, s': State, t: nat, e: Event)
    requires Inv(s) && Carried(s.h, s.pc) && t in s.pc && ReturnBigStep(s, s', t, e)
    ensures Carried(s'.h, s'.pc)
  {
    assert BigsOnly(s.h, s'.h) by { BigFreeBigs(s.h, s.pc[t].ptr); assert Owners(s.h); }
    BigsCarried(s.h, s'.h, s.pc, t, Idle);
  }

  lemma WriteCarried(s: State, s': State, t: nat, a: nat, v: nat, e: Event)
    requires Carried(s.h, s.pc) && t in s.pc && WriteStep(s, s', t, a, v, e)
    ensures Carried(s'.h, s'.pc)
  {
    SameCarried(s.h, s'.h, s.pc, t, s.pc[t]);
    assert s'.pc == s.pc[t := s.pc[t]];
  }

  lemma StepCarried(s: State, s': State, t: nat, act: Action, e: Event)
    requires Inv(s) && Carried(s.h, s.pc) && Step(s, s', t, act, e)
    ensures Carried(s'.h, s'.pc)
  {
    match act
    case Kmalloc(sz, blk, ret) => KmallocCarried(s, s', t, sz, blk, ret, e);
    case GetPage(va) => GetPageCarried(s, s', t, va, e);
    case GrowHeap(g) => GrowHeapCarried(s, s', t, g, e);
    case GetRootPage(va) => GetRootPageCarried(s, s', t, va, e);
    case UseRootPage(g) => UseRootPageCarried(s, s', t, g, e);
    case ReturnSpare => ReturnSpareCarried(s, s', t, e);
    case UseSlot(a) => UseSlotCarried(s, s', t, a, e);
    case ReturnPage => ReturnPageCarried(s, s', t, e);
    case KmallocPages(sz, va) => KmallocPagesCarried(s, s', t, sz, va, e);
    case Kfree(ptr, g) => KfreeCarried(s, s', t, ptr, g, e);
    case ReturnBig => ReturnBigCarried(s, s', t, e);
    case Write(a, v) => WriteCarried(s, s', t, a, v, e);
  }

  // ---------------------------------------------------------------- all runs

  /** Booted with no page and no slot in any thread's hands. */
  ghost predicate CleanBoot(s: State) {
    && Boot(s) && (forall a :: a in s.h.owner ==> !s.h.owner[a].Held?) && (forall x :: x in s.h.reserved ==> s.h.reserved[x] == None)
  }

  ghost predicate InvCarried(s: State) {
    Inv(s) && Carried(s.h, s.pc)
  }

  lemma KeepsCarried(states: seq<State>, moves: seq<Move>, j: nat)
    requires Run(states, moves) && j < |moves|
    ensures Keeps(states, InvCarried, j)
  {
    if InvCarried(states[j]) {
      assert Step(states[j], states[j + 1], moves[j].t, moves[j].act, moves[j].e) by { assert StepAt(states, moves, j); }
      assert Inv(states[j + 1]) by { RunStep(states, moves, j); }
      StepCarried(states[j], states[j + 1], moves[j].t, moves[j].act, moves[j].e);
    }
  }

  lemma BootCarried(s: State)
    requires CleanBoot(s)
    ensures InvCarried(s)
  {
    BootInv(s);
  }

  lemma RunCarried(states: seq<State>, moves: seq<Move>, n: nat)
    requires Run(states, moves) && CleanBoot(states[0]) && n < |states|
    ensures InvCarried(states[n])
  {
    assert InvCarried(states[0]) by { BootCarried(states[0]); }
    forall j: nat | j < n ensures Keeps(states, InvCarried, j) { KeepsCarried(states, moves, j); }
    Throughout(states, InvCarried, n);
  }

  /** Over every run: a page in a thread's hands is the one its call will use or give back, so
      none is dropped on any path, in kmalloc or in kfree; and so with slots. */
  lemma HandsCarried(states: seq<State>, moves: seq<Move>, n: nat, a: nat, x: Slot)
    requires Run(states, moves) && CleanBoot(states[0]) && n < |states|
    ensures var s := states[n];
            a in s.h.owner && s.h.owner[a].Held? ==> s.h.owner[a].t in s.pc && Carries(s.pc[s.h.owner[a].t], a, s.h.owner[a].spare)
    ensures var s := states[n];
            x in s.h.reserved && s.h.reserved[x].Some? ==> s.h.reserved[x].value in s.pc && CarriesSlot(s.pc[s.h.reserved[x].value], x)
  {
    var s := states[n];
    RunCarried(states, moves, n);
    if a in s.h.owner && s.h.owner[a].Held? { assert PagesOf(s.h, s.h.owner[a].t, s.pc[s.h.owner[a].t]); }
    if x in s.h.reserved && s.h.reserved[x].Some? { assert SlotsOf(s.h, s.h.reserved[x].value, s.pc[s.h.reserved[x].value]); }
  }

  /** No call is being made. */
  ghost predicate AllIdle(s: State) {
    forall t :: t in s.pc ==> s.pc[t].Idle?
  }

  ghost function SetOf(l: seq<nat>): set<nat> {
    set x | x in l
  }

  lemma Pigeonhole(l: seq<nat>, m: seq<nat>)
    requires NoDup(l) && forall i :: 0 <= i < |l| ==> l[i] in m
    ensures |l| <= |m|
  {
    Members(l);
    Members(m);
    Smaller(SetOf(l), SetOf(m));
  }

  lemma {:induction false} Members(l: seq<nat>)
    ensures |SetOf(l)| <= |l| && (NoDup(l) ==> |SetOf(l)| == |l|)
  {
    if l != [] {
      var k := |l| - 1;
      Members(l[..k]);
      assert l == l[..k] + [l[k]];
      assert SetOf(l) == SetOf(l[..k]) + {l[k]};
    }
  }

  lemma {:induction false} Smaller(a: set<nat>, b: set<nat>)
    requires a <= b
    ensures |a| <= |b|
    decreases |a|
  {
    if x :| x in a { Smaller(a - {x}, b - {x}); }
  }

  /** A page that is not wholly free has a block that is not free. */
  lemma SomeBlockUsed(h: Heap, p: nat) returns (off: nat)
    requires p in h.all && p in h.refs && BlockType(h.refs[p]) < NSIZES && p in h.free && |h.free[p]| < CAPS[BlockType(h.refs[p])]
    ensures IsBlock(h, p, off) && off !in h.free[p]
  {
    var blk := BlockType(h.refs[p]);
    var fs := Descending(CAPS[blk], SIZES[blk]);
    SizeFacts(blk);
    PageFull(blk);
    DescendingNoDup(CAPS[blk], SIZES[blk]);
    if forall i :: 0 <= i < |fs| ==> fs[i] in h.free[p] { Pigeonhole(fs, h.free[p]); }
    var i: nat :| i < |fs| && fs[i] !in h.free[p];
    OffsetsFit(CAPS[blk], SIZES[blk], i);
    off := fs[i];
  }

  /** A page with a client's block on it, or that is part of one. */
  ghost predicate ClientsPage(s: State, a: nat) {
    exists b :: b in s.client && (Within(b, a, PAGE_SIZE) || Within(a, b, s.client[b]))
  }

  lemma BlockUsed(s: State, a: nat, p: nat, off: nat)
    requires Blocks(s.h) && Clients(s) && IsBlock(s.h, p, off) && p in s.h.free && off !in s.h.free[p] && PageAddr(s.h.refs[p]) == a
    ensures ClientsPage(s, a)
  {
    assert a + off in s.client && Within(a + off, a, PAGE_SIZE);
  }

  lemma HeapPageUsed(s: State, a: nat)
    requires Inv(s) && a in s.h.owner && s.h.owner[a].HeapPage?
    ensures ClientsPage(s, a)
  {
    var p := s.h.owner[a].pr;
    assert p in s.h.all && PageAddr(s.h.refs[p]) == a by { assert Owners(s.h); }
    assert p in s.h.refs && BlockType(s.h.refs[p]) < NSIZES && p in s.h.free && |s.h.free[p]| < CAPS[BlockType(s.h.refs[p])] by { assert Pages(s.h, 0); }
    var off := SomeBlockUsed(s.h, p);
    BlockUsed(s, a, p, off);
  }

  lemma BigPageUsed(s: State, a: nat)
    requires Inv(s) && AllIdle(s) && a in s.h.owner && s.h.owner[a].Big?
    ensures ClientsPage(s, a)
  {
    var b := s.h.owner[a].base;
    assert b in s.h.bigs && PageIn(s.h, a, b);
    var i: nat :| i < s.h.bigs[b] && a == PageAt(b, i);
    assert b in s.client && s.client[b] == s.h.bigs[b] * PAGE_SIZE;
    assert Within(a, b, s.client[b]);
  }

  /** Over every run, whenever no call is being made, every page that alloc_kpages gave and
      free_kpages did not get back is a root's pageref page or has a client's block on it:
      none is kept for nothing. */
  lemma NoPageLost(states: seq<State>, moves: seq<Move>, n: nat, a: nat)
    requires Run(states, moves) && CleanBoot(states[0]) && n < |states| && AllIdle(states[n]) && a in states[n].h.owner
    ensures states[n].h.owner[a].RootPage? || ClientsPage(states[n], a)
  {
    var s := states[n];
    RunCarried(states, moves, n);
    match s.h.owner[a]
    case RootPage(_) =>
    case HeapPage(_) => HeapPageUsed(s, a);
    case Big(_) => BigPageUsed(s, a);
    case Held(_, _) => HandsCarried(states, moves, n, a, Slot(0, 0));
  }

  // ---------------------------------------------------------------- leaked slots

  ghost function LeakedSet(h: Heap): set<Slot> {
    set x | x in h.reserved && h.reserved[x] == None
  }

  /** How often allocpagerefpage has given up for want of a page. */
  ghost function GiveUps(moves: seq<Move>): nat {
    if moves == [] then 0 else GiveUps(moves[..|moves| - 1]) + if moves[|moves| - 1].act == UseRootPage(GiveUp) then 1 else 0
  }

  lemma GrowLeaks(s: State, s': State, t: nat, g: Growth, e: Event)
    requires Inv(s) && t in s.pc && GrowHeapStep(s, s', t, g, e)
    ensures LeakedSet(s'.h) == LeakedSet(s.h)
  {
    var p := s.pc[t];
    assert Hand(s.h, t, p);
    assert GrowthHands(s.h, s'.h, t, p.page, p.blk, g) by { GrewOk(s.h, s'.h, t, p.page, p.blk, g); }
  }

  lemma PopulatedLeaks(h: Heap, h': Heap, x: Slot, page: nat, t: nat)
    requires SlotOf(h, x, t) && HandsPopulated(h, h', x, page)
    ensures LeakedSet(h') == LeakedSet(h)
  {
  }

  lemma RootedLeaks(h: Heap, h': Heap, x: Slot, page: nat, va: nat, t: nat, g: Rooting)
    requires SlotOf(h, x, t)
    requires g.GiveUp? ==> h' == Leak(h, x)
    requires g.Spare? ==> h' == h
    requires g.Block? ==> HandsPopulated(if va == 0 then h else Install(h, x.r, va), h', x, page)
    ensures |LeakedSet(h')| == |LeakedSet(h)| + if g == GiveUp then 1 else 0
  {
    match g
    case GiveUp => assert LeakedSet(h') == LeakedSet(h) + {x};
    case Spare =>
    case Block(_) =>
      var h1 := if va == 0 then h else Install(h, x.r, va);
      assert LeakedSet(h1) == LeakedSet(h);
      PopulatedLeaks(h1, h', x, page, t);
  }

  lemma RootLeaks(s: State, s': State, t: nat, g: Rooting, e: Event)
    requires Inv(s) && t in s.pc && UseRootPageStep(s, s', t, g, e)
    ensures |LeakedSet(s'.h)| == |LeakedSet(s.h)| + if g == GiveUp then 1 else 0
  {
    var p := s.pc[t];
    assert Hand(s.h, t, p);
    RootedOk(s.h, s'.h, p.page, p.blk, p.slot, p.va, g);
    RootedLeaks(s.h, s'.h, p.slot, p.page, p.va, t, g);
  }

  lemma SlotLeaks(s: State, s': State, t: nat, a: nat, e: Event)
    requires Inv(s) && t in s.pc && UseSlotStep(s, s', t, a, e)
    ensures LeakedSet(s'.h) == LeakedSet(s.h)
  {
    var p := s.pc[t];
    assert Hand(s.h, t, p);
    assert HandsPopulated(s.h, s'.h, p.slot, p.page) by { PopulatedOk(s.h, s'.h, p.slot, p.page, p.blk, a); }
    PopulatedLeaks(s.h, s'.h, p.slot, p.page, t);
  }

  lemma KfreeLeaks(s: State, s': State, t: nat, ptr: nat, g: Freeing, e: Event)
    requires Inv(s) && t in s.pc && KfreeStep(s, s', t, ptr, g, e)
    ensures s'.h.reserved == s.h.reserved
  {
    if ptr in s.h.live { KfreedOk(s.h, s'.h, t, ptr, g); } else { BigNotFound(s.h, s'.h, t, ptr, g); }
  }

  lemma StepLeaks(s: State, s': State, t: nat, act: Action, e: Event)
    requires Inv(s) && Step(s, s', t, act, e)
    ensures |LeakedSet(s'.h)| == |LeakedSet(s.h)| + if act == UseRootPage(GiveUp) then 1 else 0
  {
    match act
    case Kmalloc(sz, blk, ret) => TookOk(s.h, s'.h, blk, ret);
    case GrowHeap(g) => GrowLeaks(s, s', t, g, e);
    case UseRootPage(g) => RootLeaks(s, s', t, g, e);
    case UseSlot(a) => SlotLeaks(s, s', t, a, e);
    case Kfree(ptr, g) => KfreeLeaks(s, s', t, ptr, g, e);
    case _ => assert s'.h.reserved == s.h.reserved;
  }

  ghost predicate LeakAt(states: seq<State>, moves: seq<Move>, i: nat) {
    && i < |moves| && i + 1 < |states|
    && |LeakedSet(states[i + 1].h)| == |LeakedSet(states[i].h)| + if moves[i].act == UseRootPage(GiveUp) then 1 else 0
  }

  lemma LeaksAt(states: seq<State>, moves: seq<Move>, i: nat)
    requires Run(states, moves) && CleanBoot(states[0]) && i < |moves|
    ensures LeakAt(states, moves, i)
  {
    RunCarried(states, moves, i);
    assert Step(states[i], states[i + 1], moves[i].t, moves[i].act, moves[i].e) by { assert StepAt(states, moves, i); }
    StepLeaks(states[i], states[i + 1], moves[i].t, moves[i].act, moves[i].e);
  }

  lemma {:induction false} LeaksAddUp(states: seq<State>, moves: seq<Move>, n: nat)
    requires n < |states| && n <= |moves| && forall i: nat :: i < n ==> LeakAt(states, moves, i)
    ensures |LeakedSet(states[n].h)| == |LeakedSet(states[0].h)| + GiveUps(moves[..n])
  {
    if n > 0 {
      LeaksAddUp(states, moves, n - 1);
      assert LeakAt(states, moves, n - 1);
      assert moves[..n][..n - 1] == moves[..n - 1];
    }
  }

  /** Over every run the slots leaked are as many as the times allocpageref could not get a
      page for a root. */
  lemma LeaksCounted(states: seq<State>, moves: seq<Move>, n: nat)
    requires Run(states, moves) && CleanBoot(states[0]) && n < |states|
    ensures |LeakedSet(states[n].h)| == |LeakedSet(states[0].h)| + GiveUps(moves[..n])
  {
    forall i: nat | i < n ensures LeakAt(states, moves, i) { LeaksAt(states, moves, i); }
    LeaksAddUp(states, moves, n);
  }

  /** Over every run, whenever no call is being made, a slot in use is that of a page on the
      lists, or is leaked. */
  lemma SlotsListed(states: seq<State>, moves: seq<Move>, n: nat, x: Slot)
    requires Run(states, moves) && CleanBoot(states[0]) && n < |states| && AllIdle(states[n]) && BitOf(states[n].h, x)
    ensures x in LeakedSet(states[n].h) || ListedAt(states[n].h, x)
  {
    RunCarried(states, moves, n);
    IdleSlots(states[n]);
  }

  lemma IdleReserved(h: Heap, pc: map<nat, Pc>)
    requires Carried(h, pc) && forall t :: t in pc ==> pc[t].Idle?
    ensures forall x :: x in h.reserved ==> h.reserved[x] == None
  {
  }

  lemma IdleSlots(s: State)
    requires InvCarried(s) && AllIdle(s)
    ensures forall x: Slot :: BitOf(s.h, x) && x !in LeakedSet(s.h) ==> ListedAt(s.h, x)
  {
    IdleReserved(s.h, s.pc);
    assert forall x: Slot :: BitOf(s.h, x) ==> x in s.h.reserved || ListedAt(s.h, x) by { assert Slots(s.h); }
  }

  // ---------------------------------------------------------------- calls and answers

  /** In a call of kmalloc for sz bytes that has not been answered. */
  ghost predicate InCall(s: State, t: nat, sz: nat) {
    t in s.pc && (s.pc[t].NeedPage? || s.pc[t].HavePage? || s.pc[t].NeedRootPage? || s.pc[t].GotRootPage? || s.pc[t].FreeSpare? || s.pc[t].HaveSlot?)
    && s.pc[t].sz == sz
  }

  /** In a call of kmalloc that is to return NULL, with a page still to give back. */
  ghost predicate Refusing(s: State, t: nat) {
    t in s.pc && s.pc[t].GivePage? && s.pc[t].refused
  }

  lemma CallStep(s: State, s': State, m: Move, t: nat, sz: nat)
    requires Step(s, s', m.t, m.act, m.e) && InCall(s', t, sz)
    ensures InCall(s, t, sz) || (m.t == t && m.act.Kmalloc? && m.act.sz == sz && t in s.pc && s.pc[t].Idle?)
  {
  }

  /** Want of memory, in one of the ways the code tests for: alloc_kpages gave nothing, or every
      slot of every root is in use. */
  ghost predicate Wanting(s: State, m: Move) {
    || m.act == GetPage(0) || (m.act.KmallocPages? && m.act.va == 0)
    || (m.act == GrowHeap(NoSlot) && AllSlotsUsed(s.h))
    || (m.act == UseRootPage(GiveUp) && m.t in s.pc && s.pc[m.t].GotRootPage? && s.pc[m.t].va == 0)
  }

  lemma RefuseStep(s: State, s': State, m: Move, t: nat)
    requires Step(s, s', m.t, m.act, m.e) && Refusing(s', t)
    ensures Refusing(s, t) || (m.t == t && Wanting(s, m))
  {
  }

  /** Where the call that is going on began. */
  lemma {:induction false} CallBegan(states: seq<State>, moves: seq<Move>, n: nat, t: nat, sz: nat) returns (j: nat)
    requires Run(states, moves) && AllIdle(states[0]) && n < |states| && InCall(states[n], t, sz)
    ensures j < n && moves[j].t == t && moves[j].act.Kmalloc? && moves[j].act.sz == sz && t in states[j].pc && states[j].pc[t].Idle?
    ensures forall k: nat :: j < k <= n ==> InCall(states[k], t, sz)
  {
    assert n > 0;
    assert StepAt(states, moves, n - 1);
    CallStep(states[n - 1], states[n], moves[n - 1], t, sz);
    j := n - 1;
    if InCall(states[n - 1], t, sz) { j := CallBegan(states, moves, n - 1, t, sz); }
  }

  lemma {:induction false} WantBegan(states: seq<State>, moves: seq<Move>, n: nat, t: nat) returns (j: nat)
    requires Run(states, moves) && AllIdle(states[0]) && n < |states| && Refusing(states[n], t)
    ensures j < n && moves[j].t == t && Wanting(states[j], moves[j])
    ensures forall k: nat :: j < k <= n ==> Refusing(states[k], t)
  {
    assert n > 0;
    assert StepAt(states, moves, n - 1);
    RefuseStep(states[n - 1], states[n], moves[n - 1], t);
    j := n - 1;
    if Refusing(states[n - 1], t) { j := WantBegan(states, moves, n - 1, t); }
  }

  /** Over every run: memory is given to a thread for the size it asked for, in the call it is
      making. */
  lemma AnswersCall(states: seq<State>, moves: seq<Move>, n: nat) returns (j: nat)
    requires Run(states, moves) && AllIdle(states[0]) && n < |moves| && moves[n].e.Gave?
    ensures j <= n && moves[j].t == moves[n].t && (moves[j].act.Kmalloc? || (moves[j].act.KmallocPages? && j == n)) && moves[j].act.sz == moves[n].e.sz
    ensures moves[j].t in states[j].pc && states[j].pc[moves[j].t].Idle? && forall k: nat :: j < k <= n ==> InCall(states[k], moves[j].t, moves[n].e.sz)
  {
    assert StepAt(states, moves, n);
    j := n;
    if InCall(states[n], moves[n].t, moves[n].e.sz) { j := CallBegan(states, moves, n, moves[n].t, moves[n].e.sz); }
  }

  /** Over every run: kmalloc returns NULL only for want of memory. */
  lemma RefusedForWant(states: seq<State>, moves: seq<Move>, n: nat) returns (j: nat)
    requires Run(states, moves) && AllIdle(states[0]) && n < |moves| && moves[n].e.Refused?
    ensures j <= n && moves[j].t == moves[n].t && Wanting(states[j], moves[j]) && forall k: nat :: j < k <= n ==> Refusing(states[k], moves[n].t)
  {
    assert StepAt(states, moves, n);
    j := n;
    if Refusing(states[n], moves[n].t) { j := WantBegan(states, moves, n, moves[n].t); }
  }

  /** Over every run: kmalloc asks for another page only when every block of every page of the
      size is live. */
  lemma GrowsOnlyWhenFull(states: seq<State>, moves: seq<Move>, n: nat, p: nat, off: nat, a: nat)
    requires Run(states, moves) && Boot(states[0]) && n < |moves| && moves[n].act.Kmalloc? && moves[n].act.ret == None
    requires IsBlock(states[n].h, p, off) && BlockType(states[n].h.refs[p]) == moves[n].act.blk && a == PageAddr(states[n].h.refs[p]) + off
    ensures a in states[n].client
  {
    var s := states[n];
    RunInv(states, moves, n);
    assert NoneFree(s.h, moves[n].act.blk) by {
      assert StepAt(states, moves, n);
      NoneWasFree(s, states[n + 1], moves[n]);
    }
    AllTaken(s, moves[n].act.blk, p, off, a);
  }

  lemma NoneWasFree(s: State, s': State, m: Move)
    requires Step(s, s', m.t, m.act, m.e) && m.act.Kmalloc? && m.act.ret == None
    ensures NoneFree(s.h, m.act.blk)
  {
  }

  lemma NothingFree(h: Heap, blk: nat, p: nat)
    requires Lists(h) && Pages(h, 0) && NoneFree(h, blk) && p in h.all && BlockType(h.refs[p]) == blk
    ensures p in h.free && h.free[p] == []
  {
    assert p in h.same[blk];
    assert FreeOk(h.mem, h.refs[p], h.free[p]);
  }

  lemma AllTaken(s: State, blk: nat, p: nat, off: nat, a: nat)
    requires Inv(s) && NoneFree(s.h, blk) && IsBlock(s.h, p, off) && BlockType(s.h.refs[p]) == blk && a == PageAddr(s.h.refs[p]) + off
    ensures a in s.client
  {
    NothingFree(s.h, blk, p);
    assert a in s.h.live by { assert Blocks(s.h); }
  }
}
