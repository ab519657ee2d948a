# OS/161: proofs about its kernel

This project models four parts of the OS/161 2.0 kernel, and the locks of one
assignment solution, and proves what they are for.

**64-bit arithmetic from 16-bit digits.** `HalfWords`, `Radix`, `DigitOps` and
`ProgramD` follow `__qdivrem`, Program D of section 4.3.1 of *The Art of Computer
Programming*, step by step over digit arrays changed in place: the main result is
`ProgramD.QDivRem`. `MulDi3` follows the two-level multiplication of section 4.3.3
with its carries, `SignedDivision` the signed front ends and section 6.5.5 of
ISO/IEC 9899:1999. Words are integers with every wrap written out.

**The kernel heap.** `KernelHeap` is the code of `kern/vm/kmalloc.c` between one
locking of `kmalloc_spinlock` and the next, over a memory of words, pagerefs and
roots. Its methods are tied to relations in `HeapState` to `HeapRegions`, which keep a
representation invariant (the one `checksubpage` writes down, and more): page free
lists, the two list chains, slots and bits, one use for each page, live blocks.
`HeapRuns` lets any number of threads interleave those regions with page allocation
outside the lock, and shows every step to be one of an allocator that hands out
disjoint blocks. `HeapReturns` follows pages, slots and calls over whole runs: nothing in
hand is dropped and every call is answered. `HeapData` shows that what clients store stays.
`HeapLeak` is a run that ends in a failed assertion.

**Threads.** `Spl` and `SpinSteps` are interrupt levels and spinlocks; `ThreadLists`
the doubly linked list; `Sched` a step system over processors and threads with the
run queue lock handed across the switch, idling, wakeups, forks, zombies and
migration. `SchedInv` states its invariant, `SchedSteps`, `SchedMoves` and
`SchedMigrate` preserve it step by step and `SchedRuns` draws the conclusions over all
runs. `SchedLife` is the life of one thread in it, with the order of its queues (`Fifos`),
and `SchedLevels` its interrupt levels. `MigrationSpec` says what
`thread_consider_migration` does to the run queues; `Migration` is the function, and
`MigrationRuns` its steps in the thread system taken alone. `Semaphores` and
`LocksAndCvs` are `asst3/synch.c` over those channels and spinlocks.

**Supporting structures.** `Bits` and `Bitmaps` (the byte bitmap), `UioMoves` and `Uio`
(`uiomove`), `Vnodes` (reference counts under every interleaving), `Vfs` (path translation and
path operations, with every reference accounted for) and `VfsForms` (what paths mean).

`Runs` holds the induction over runs. `dafny verify dfyconfig.toml` checks everything.

## What the code does that its documentation does not say

- `uiomove` does not bound a chunk by `uio_resid`. The promised smaller of `n` and
  `uio_resid` moves if and only if the condition of `UioMoves.MovesMin` holds, and
  offset plus resid is kept if and only if that of `UioMoves.SumKept` does;
  `UioMoves.Overshoot` is a call that moves more and leaves `uio_resid` wrapped, and
  `UioMoves.RunsOut` one that panics although the iovecs hold more than `uio_resid`.
- For the same reason two calls of `uiomove` on adjacent chunks need not do what one
  call does: they do if and only if the first does not end at a `uio_resid` inside an
  iovec with more to come (`UioMoves.TwoCalls`; `UioMoves.TwoCallsDiffer` is the failing
  input). `uiomovezeros` inherits this at multiples of sixteen (`Uio.ZerosAreOne`).
- `allocpageref` leaves a bit set when it cannot get a page for its root. When that
  has used up a whole root and the next root then serves a page, freeing that page
  fails `KASSERT(root->numinuse == 0)`: `HeapLeak.FreePanics` is such a run, and
  `KernelHeap.KHeap.FreePageRef` gives the exact condition, `HeapReturns.LeaksCounted` the
  number of such bits.
- `kmalloc` rounds a size up to pages in `size_t` arithmetic, which wraps for sizes
  above 2^32 - PAGE_SIZE (`HeapRuns.EnoughPages`).
- `cv_signal` and `cv_broadcast` release the lock (`LocksAndCvs.SignalWakes`), and
  `lock_acquire` keeps its spinlock until `lock_release`. A holder that yields is then
  running nowhere (`LocksAndCvs.HolderYields`), which nothing in `thread_yield` forbids;
  the lock's invariant is kept if and only if none does (`LocksAndCvs.InvIffNoYields`).
- A `VOP_RECLAIM` that fails with anything but EBUSY leaves a reference nobody holds
  (`Vnodes.LeakedStays`; the field `stuck` of `Vfs.VfsState`).
- `bitmap_isset` does not check its index; up to the last byte it answers true on the
  padding.
- `__divdi3` of the most negative number by -1 wraps, and no other quotient does
  (`SignedDivision.QuotientOverflow`).

## Model

| member | source | states |
|---|---|---|
| `ProgramD.QDivRem` | os161-2.0/common/gcc-millicode/qdivrem.c:67-263 | For every 64-bit ull and every nonzero vll, on all three paths, the quotient and (when asked for) the remainder are those of Euclidean division; a zero divisor is an error |
| `ProgramD.EstimateWithinOne` | os161-2.0/common/gcc-millicode/qdivrem.c:185-210 | After D3, on any normalised window, trueDigit <= qhat <= trueDigit + 1 and qhat < B, trueDigit being the exact quotient of the whole window by the whole divisor |
| `ProgramD.QhatBounds` | os161-2.0/common/gcc-millicode/qdivrem.c:188-191 | (qhat - 1) * v <= window < (qhat + 1) * v for the trial digit taken from three digits over two, whatever the digits not looked at |
| `ProgramD.BorrowMeansTooLarge` | os161-2.0/common/gcc-millicode/qdivrem.c:225-238 | The borrow out of D4 tells exactly whether qhat was one too large, and one add-back, dropping its carry, gives the true remainder |
| `ProgramD.DivideStep` | os161-2.0/common/gcc-millicode/qdivrem.c:182-240 | D3 to D6 store one true quotient digit and leave the window reduced below the divisor, other digits untouched |
| `ProgramD.DividingStep` | os161-2.0/common/gcc-millicode/qdivrem.c:182-240 | A step keeps D7's invariant: dividend == (value of the digits of q so far) * divisor * B^k + value of the digits of u left |
| `ProgramD.DivideDigits` | os161-2.0/common/gcc-millicode/qdivrem.c:176-240 | The loop over j ends with the invariant at its last index: the whole quotient in q, the normalised remainder in u |
| `ProgramD.Normalise` | os161-2.0/common/gcc-millicode/qdivrem.c:169-175 | D1 makes the leading digit of v at least B/2 and doubles both numbers d times, losing nothing, with the first window of u below v |
| `ProgramD.ShortDivide` | os161-2.0/common/gcc-millicode/qdivrem.c:123-150 | The unrolled division by one digit gives quotient and remainder as repeated subtraction does |
| `ProgramD.LongDivide` | os161-2.0/common/gcc-millicode/qdivrem.c:152-263 | For a divisor of two to four digits: the quotient and remainder of the original numbers, as repeated subtraction gives them |
| `ProgramD.TakeRemainder` | os161-2.0/common/gcc-millicode/qdivrem.c:247-258 | The right shift by d undoes the normalisation exactly: from r doubled d times in u it returns r |
| `DigitOps.ShiftLeft` | os161-2.0/common/gcc-millicode/qdivrem.c:270-279 | shl in place multiplies the value of the window by 2^sh exactly when nothing falls out, and changes no other digit |
| `DigitOps.ShiftRight` | os161-2.0/common/gcc-millicode/qdivrem.c:248-254 | The remainder shift in place divides the value of the window by 2^sh, and changes no other digit |
| `DigitOps.MergeIsOr` | os161-2.0/common/gcc-millicode/qdivrem.c:276-277 | The digit shl stores, a sum of disjoint parts, is the or of shifts the code writes |
| `DigitOps.MergeRightIsOr` | os161-2.0/common/gcc-millicode/qdivrem.c:250-252 | Likewise for the digit the remainder shift stores |
| `DigitOps.EstimateDigit` | os161-2.0/common/gcc-millicode/qdivrem.c:193-210 | D3's loop, entered in its middle or not, ends with qhat the first three digits over the first two, at most B - 1 |
| `DigitOps.TooBigExact` | os161-2.0/common/gcc-millicode/qdivrem.c:205 | v2 * qhat > COMBINE(rhat, u[j+2]) in 32 bits is the comparison of the mathematical numbers: nothing wraps |
| `DigitOps.Decrement` | os161-2.0/common/gcc-millicode/qdivrem.c:207-209 | A turn of D3's loop keeps qhat at or above the trial digit, and when rhat reaches B the loop may stop |
| `DigitOps.BorrowExact` | os161-2.0/common/gcc-millicode/qdivrem.c:218-220 | A turn of D4: the wrapped word splits into a digit and a borrow with digit - borrow * B equal to the true difference |
| `DigitOps.BorrowOutMask` | os161-2.0/common/gcc-millicode/qdivrem.c:220 | The borrow is (B - HHALF(t)) & (B - 1) as the code masks it |
| `DigitOps.MultiplySubtract` | os161-2.0/common/gcc-millicode/qdivrem.c:217-223 | D4 in place: the window becomes window - qhat * v, plus B^(n+1) exactly when the last word reports a borrow |
| `DigitOps.CarryExact` | os161-2.0/common/gcc-millicode/qdivrem.c:233-235 | A turn of D6 splits its word into a digit and a carry of at most one, exactly |
| `DigitOps.AddBack` | os161-2.0/common/gcc-millicode/qdivrem.c:232-237 | D6 in place: the window becomes window + v modulo B^(n+1) |
| `HalfWords.HalfMacros` | os161-2.0/common/gcc-millicode/longlong.h:110-112 | HHALF, LHALF, LHUP and COMBINE as arithmetic are the shifts, masks and ors of the macros |
| `MulDi3.LMulQ` | os161-2.0/common/gcc-millicode/muldi3.c:183-241 | __lmulq(u, v) == u * v exactly for all 32-bit u and v, with and without the quick path |
| `MulDi3.MulMagnitudes` | os161-2.0/common/gcc-millicode/muldi3.c:124-159 | The product of two 64-bit magnitudes modulo 2^64, from one exact and two truncated 32-bit products |
| `MulDi3.MulDi3` | os161-2.0/common/gcc-millicode/muldi3.c:99-164 | __muldi3(a, b) is a * b kept to 64 bits in two's complement, for all a and b, the most negative included |
| `MulDi3.Karatsuba` | os161-2.0/common/gcc-millicode/muldi3.c:43-70 | The identity of section 4.3.3 that both levels rest on |
| `MulDi3.HalvesMakeProduct` | os161-2.0/common/gcc-millicode/muldi3.c:191-212 | The three half-size products, with the middle one's sign, add up to u * v, and high fits without a carry |
| `MulDi3.WordsMakeProduct` | os161-2.0/common/gcc-millicode/muldi3.c:137-157 | Modulo 2^64 the upper word may be computed from high and middle products truncated to 32 bits |
| `MulDi3.Assemble` | os161-2.0/common/gcc-millicode/muldi3.c:214-234 | Adding or subtracting middle and low, shifted, with every carry and borrow done by hand |
| `MulDi3.AddShifted` | os161-2.0/common/gcc-millicode/muldi3.c:223-232 | prod += x << N over two words: the carry test l < addend is exact |
| `MulDi3.SubShifted` | os161-2.0/common/gcc-millicode/muldi3.c:219-222 | prod -= x << N over two words: the borrow test l > old l is exact |
| `SignedDivision.DivDi3` | os161-2.0/common/gcc-millicode/divdi3.c:44-62 | The quotient truncated toward zero, wrapped to 64 bits; an error for b == 0 |
| `SignedDivision.ModDi3` | os161-2.0/common/gcc-millicode/moddi3.c:45-62 | The remainder of truncated division, with no wrapping; an error for b == 0 |
| `SignedDivision.TruncMeetsStandard` | os161-2.0/common/gcc-millicode/divdi3.c:36-43 | Section 6.5.5 of ISO/IEC 9899:1999 holds of them: a == b * q + r, |r| < |b|, a nonzero r has the sign of a, and q is truncated toward zero |
| `SignedDivision.TruncUnique` | os161-2.0/common/gcc-millicode/moddi3.c:36-44 | Nothing else meets that description |
| `SignedDivision.QuotientOverflow` | os161-2.0/common/gcc-millicode/divdi3.c:44-62 | The quotient fits 64 bits if and only if it is not the most negative number over -1 |
| `SignedDivision.Recombine` | os161-2.0/common/gcc-millicode/moddi3.c:45-62 | b * (a/b) + a%b == a modulo 2^64 for all b != 0, the overflow included |
| `SignedDivision.RemainderFits` | os161-2.0/common/gcc-millicode/moddi3.c:45-62 | |a % b| == |a| % |b| < |b|, and it needs no wrapping |
| `SignedDivision.UDivDi3` | os161-2.0/common/gcc-millicode/udivdi3.c:43-48 | The unsigned quotient |
| `SignedDivision.UModDi3` | os161-2.0/common/gcc-millicode/umoddi3.c:43-50 | The unsigned remainder |
| `Bitmaps.Bitmap.constructor` | os161-2.0/kern/lib/bitmap.c:56-90 | An empty set over indices below nbits, with the padding bits of the last byte set |
| `Bitmaps.Bitmap.Allocate` | os161-2.0/kern/lib/bitmap.c:98-121 | Returns the least free index and adds exactly it; fails, changing nothing, if and only if the set is full; the KASSERT(0) is not reached |
| `Bitmaps.Bitmap.Mark` | os161-2.0/kern/lib/bitmap.c:134-145 | Adds exactly the index |
| `Bitmaps.Bitmap.Unmark` | os161-2.0/kern/lib/bitmap.c:147-158 | Removes exactly the index |
| `Bitmaps.Bitmap.IsSet` | os161-2.0/kern/lib/bitmap.c:161-169 | Membership below nbits; always true on the padding up to the last byte |
| `Bitmaps.Bitmap.Run` | os161-2.0/kern/lib/bitmap.c:56-169 | Any sequence of operations does to the bytes what it does to the set, and padding stays set |
| `Bitmaps.SetAdds` | os161-2.0/kern/lib/bitmap.c:143-144 | Or-ing a mask into a byte adds exactly one index to the set and keeps the padding |
| `Bitmaps.ClearRemoves` | os161-2.0/kern/lib/bitmap.c:156-157 | And-ing with a complemented mask removes exactly one index and keeps the padding |
| `Bitmaps.ByteNotFull` | os161-2.0/kern/lib/bitmap.c:106-118 | A byte that is not 0xff has a clear bit, so the inner loop ends before KASSERT(0) |
| `ThreadLists.InsertAfterNode` | os161-2.0/kern/thread/threadlist.c:104-122 | Keeps prev and next inverse along the chain with the node linked in at one place, writing four fields |
| `ThreadLists.InsertBeforeNode` | os161-2.0/kern/thread/threadlist.c:124-142 | Likewise before a node |
| `ThreadLists.RemoveNode` | os161-2.0/kern/thread/threadlist.c:144-158 | Keeps prev and next inverse along the chain without the node, which is left unlinked |
| `ThreadLists.ThreadList.constructor` | os161-2.0/kern/thread/threadlist.c:60-72 | Two bookends linked to each other: the empty sequence |
| `ThreadLists.ThreadList.AddHead` | os161-2.0/kern/thread/threadlist.c:162-170 | The sequence with the thread in front |
| `ThreadLists.ThreadList.AddTail` | os161-2.0/kern/thread/threadlist.c:172-180 | The sequence with the thread at the end |
| `ThreadLists.ThreadList.RemHead` | os161-2.0/kern/thread/threadlist.c:182-198 | The first thread, off the list and unlinked; NULL if and only if the list is empty |
| `ThreadLists.ThreadList.RemTail` | os161-2.0/kern/thread/threadlist.c:200-216 | The last thread, off the list and unlinked; NULL if and only if the list is empty |
| `ThreadLists.ThreadList.InsertAfter` | os161-2.0/kern/thread/threadlist.c:218-224 | The sequence with the thread after a given one |
| `ThreadLists.ThreadList.InsertBefore` | os161-2.0/kern/thread/threadlist.c:226-232 | The sequence with the thread before a given one |
| `ThreadLists.ThreadList.Remove` | os161-2.0/kern/thread/threadlist.c:234-240 | The sequence without the thread, which is left unlinked |
| `ThreadLists.ThreadList.Forward` | os161-2.0/kern/include/threadlist.h:90-98 | THREADLIST_FORALL meets exactly the sequence |
| `ThreadLists.ThreadList.Backward` | os161-2.0/kern/include/threadlist.h:90-98 | THREADLIST_FORALL_REV meets exactly its reverse |
| `ThreadLists.ReversedTwice` | os161-2.0/kern/include/threadlist.h:90-98 | The two traversals mirror each other |
| `ThreadLists.MoveAll` | os161-2.0/kern/thread/thread.c:1099-1105 | wchan_wakeall's first loop moves every sleeper once, in FIFO order, behind what the private list held |
| `KernelHeap.KHeap.constructor` | os161-2.0/kern/vm/kmalloc.c:180-213 | The zeroed statics are an empty heap that meets the invariant |
| `KernelHeap.KHeap.DoAlloc` | os161-2.0/kern/vm/kmalloc.c:920-951 | From doalloc on: one block off the head of the page's in-memory free list, all else as it was |
| `KernelHeap.KHeap.BlockTypeFor` | os161-2.0/kern/vm/kmalloc.c:851-867 | The one block size that fits and whose predecessor does not; the panic is not reached |
| `KernelHeap.KHeap.TakeBlock` | os161-2.0/kern/vm/kmalloc.c:908-953 | The first page of the size's list with a free block gives one; NULL only if none has one |
| `KernelHeap.KHeap.SearchWord` | os161-2.0/kern/vm/kmalloc.c:279-292 | The least clear bit of a word that is not full; the KASSERT(0) is not reached |
| `KernelHeap.KHeap.SearchRoot` | os161-2.0/kern/vm/kmalloc.c:271-293 | The least free slot of a root, or every slot is in use |
| `KernelHeap.KHeap.ReserveSlot` | os161-2.0/kern/vm/kmalloc.c:257-283 | allocpageref sets the bit of the first free slot of the first root that has one and counts it; it fails only if every slot is in use |
| `KernelHeap.KHeap.ThreadPage` | os161-2.0/kern/vm/kmalloc.c:996-1004 | Each block's first word is made to point at the block before |
| `KernelHeap.KHeap.LinkRef` | os161-2.0/kern/vm/kmalloc.c:987-1012 | The pageref is filled in and put in front of both lists |
| `KernelHeap.KHeap.LinkPage` | os161-2.0/kern/vm/kmalloc.c:987-1012 | Both together link a fresh page, wholly free, into the heap |
| `KernelHeap.KHeap.Populate` | os161-2.0/kern/vm/kmalloc.c:987-1016 | And the goto takes one block of it |
| `KernelHeap.KHeap.Grow` | os161-2.0/kern/vm/kmalloc.c:976-1016 | With a fresh page in hand: no slot, or a slot that has no page yet, or a block |
| `KernelHeap.KHeap.AfterRootPage` | os161-2.0/kern/vm/kmalloc.c:233-251 | The three outcomes of allocpagerefpage after its lock is retaken: give up with the bit left set, another thread was first, or the page is installed and a block taken |
| `KernelHeap.KHeap.FillDeadbeef` | os161-2.0/kern/vm/kmalloc.c:40-53 | Writes len / 4 words at ptr and nothing else |
| `KernelHeap.KHeap.RemoveList` | os161-2.0/kern/vm/kmalloc.c:830-836 | The chain is relinked around pr, whatever its position |
| `KernelHeap.KHeap.RemoveLists` | os161-2.0/kern/vm/kmalloc.c:822-845 | pr comes off the list of its size and the list of all |
| `KernelHeap.KHeap.FreePageRef` | os161-2.0/kern/vm/kmalloc.c:303-337 | Clears exactly the slot's bit and count; KASSERT(root->numinuse == 0) holds if and only if every earlier root without a page has none in use |
| `KernelHeap.KHeap.FindPage` | os161-2.0/kern/vm/kmalloc.c:1066-1084 | The page of the heap the address is on, or it is on none |
| `KernelHeap.KHeap.PushBlock` | os161-2.0/kern/vm/kmalloc.c:1099-1134 | The block is overwritten and put at the head of its page's free list; both assertions made there hold |
| `KernelHeap.PushFacts` | os161-2.0/kern/vm/kmalloc.c:1128-1134 | A block that is not free is not the head of its page's list, and one more does not make the list longer than the page has blocks |
| `KernelHeap.KHeap.FreeBlock` | os161-2.0/kern/vm/kmalloc.c:1099-1145 | From the free list on: the block freed, and its page dropped when it has become wholly free, unless freepageref's assertion fails |
| `KernelHeap.KHeap.DropPage` | os161-2.0/kern/vm/kmalloc.c:1135-1138 | A wholly free page leaves both lists and its slot becomes free, unless freepageref's assertion fails |
| `KernelHeap.KHeap.SubpageFree` | os161-2.0/kern/vm/kmalloc.c:1022-1154 | On any state of the invariant and any pointer kmalloc gave out: a block freed, a page to return, not ours, or freepageref's panic |
| `HeapRegions.TookOk` | os161-2.0/kern/vm/kmalloc.c:908-951 | The first locked region of subpage_kmalloc keeps the invariant and gives a block that was not live |
| `HeapOps.PopOk` | os161-2.0/kern/vm/kmalloc.c:920-951 | Popping keeps every clause of the invariant and adds exactly one live block, which was on the free list |
| `HeapRegions.FreshPageList` | os161-2.0/kern/vm/kmalloc.c:987-1006 | The threading loop makes an acyclic in-page list that visits every block of the page once, last block first |
| `HeapRegions.OneSizeClass` | os161-2.0/kern/vm/kmalloc.c:847-867 | Each request below the large threshold has exactly one size class |
| `HeapLink.LinkOk` | os161-2.0/kern/vm/kmalloc.c:987-1012 | A fresh page keeps the invariant but for being wholly free, makes nothing live, and takes its slot out of those reserved |
| `HeapRegions.PopulatedOk` | os161-2.0/kern/vm/kmalloc.c:987-1016 | Linking and popping together keep the invariant and give a new block of the right size |
| `HeapRegions.GrewOk` | os161-2.0/kern/vm/kmalloc.c:976-1016 | The region after alloc_kpages keeps the invariant, on each outcome |
| `HeapRegions.RootedOk` | os161-2.0/kern/vm/kmalloc.c:233-289 | The region after the second alloc_kpages keeps the invariant, on each outcome, even if another thread installed the page meanwhile |
| `HeapGrow.ReserveOk` | os161-2.0/kern/vm/kmalloc.c:271-283 | Setting a free slot's bit keeps numinuse equal to the number of bits set, and every set bit listed or reserved |
| `HeapGrow.LeakOk` | os161-2.0/kern/vm/kmalloc.c:286-288 | Returning NULL with the bit left set still keeps the invariant |
| `HeapGrow.InstallOk` | os161-2.0/kern/vm/kmalloc.c:240-250 | The first pageref page of a root keeps the invariant |
| `HeapOps.SetCounts` | os161-2.0/kern/vm/kmalloc.c:281-282 | Setting a clear bit adds one to the number of bits set |
| `HeapOps.ClearCounts` | os161-2.0/kern/vm/kmalloc.c:328-331 | Clearing a set bit takes one from it |
| `HeapGrow.HeldOk` | os161-2.0/kern/vm/kmalloc.c:964-976 | Pages passing between alloc_kpages, free_kpages and threads with the lock dropped keep the invariant |
| `HeapGrow.BigAllocOk` | os161-2.0/kern/vm/kmalloc.c:1180-1193 | A whole-page allocation keeps the invariant |
| `HeapGrow.BigFreeOk` | os161-2.0/kern/vm/kmalloc.c:1213-1216 | Freeing one takes exactly its pages |
| `HeapOps.PushOk` | os161-2.0/kern/vm/kmalloc.c:1099-1134 | Pushing takes exactly that block from the live ones and keeps every clause but, for that page, not being wholly free |
| `HeapPages.FullHasAll` | os161-2.0/kern/vm/kmalloc.c:1134-1142 | A free list as long as the page has blocks holds every block, so none of a page being returned is live |
| `HeapPages.DropOk` | os161-2.0/kern/vm/kmalloc.c:1135-1141 | Returning a wholly free page keeps the invariant and every live block |
| `HeapRegions.KfreedOk` | os161-2.0/kern/vm/kmalloc.c:1062-1154 | kfree of a live block removes exactly that block and keeps the invariant |
| `HeapLink.LiveInside` | os161-2.0/kern/vm/kmalloc.c:922-951 | A live block is aligned to its size and inside one heap page of its size |
| `HeapLink.LiveApart` | os161-2.0/kern/vm/kmalloc.c:493-568 | In every state of the invariant live blocks do not overlap |
| `HeapLink.LiveOnHeap` | os161-2.0/kern/vm/kmalloc.c:493-568 | Nor lie on a pageref page, a whole-page allocation or a page in a thread's hands |
| `HeapLink.LiveNotLink` | os161-2.0/kern/vm/kmalloc.c:493-568 | Nor overlap any free block, with the link in its first word |
| `HeapLink.StoreOk` | os161-2.0/kern/vm/kmalloc.c:59-64 | So whatever clients store in their blocks keeps the invariant |
| `HeapRuns.StepGood` | os161-2.0/kern/vm/kmalloc.c:873-1217 | Every locked region and every call outside the lock, by any thread, keeps the invariant and is a step of the abstract allocator: nothing, a new block that fits, NULL, or exactly one block gone; a small block has the size of its request's class and is aligned to it in its page, a large one is whole pages, fewer than one more than needed. That pages in hand are used or given back is HeapReturns.HandsCarried |
| `HeapRuns.InvSeparate` | os161-2.0/kern/vm/kmalloc.c:1163-1217 | In every state of the invariant the blocks in clients' hands, small and large, are disjoint |
| `HeapRuns.InvClear` | os161-2.0/kern/vm/kmalloc.c:493-568 | In every state of the invariant clients' blocks, small and large, keep clear of all the heap's own data |
| `HeapRuns.RunSafe` | os161-2.0/kern/vm/kmalloc.c:873-1217 | Over every interleaving from boot: the invariant holds whenever the lock is free; clients' blocks are disjoint from one another, from every free block with its link, from pageref pages and from pages in threads' hands; small ones are aligned to their size; and every step is one the allocator's specification allows |
| `HeapRuns.EnoughPages` | os161-2.0/kern/vm/kmalloc.c:1184-1186 | The rounding gives enough pages if and only if sz <= 2^32 - PAGE_SIZE; above that the sum wraps |
| `HeapReturns.HandsCarried` | os161-2.0/kern/vm/kmalloc.c:959-985 | Over every run from a boot with nothing in hand: a page in a thread's hands is the one its call still has to use or to give to free_kpages, on every path of kmalloc and kfree, the page that kfree empties and the spare pageref page included; and a slot reserved but not leaked is the one its call is about to use |
| `HeapReturns.NoPageLost` | os161-2.0/kern/vm/kmalloc.c:1133-1142 | Over every run, whenever no call is being made, every page alloc_kpages gave and free_kpages did not get back is a root's pageref page or has a client's block on it: a heap page always has a live block |
| `HeapReturns.SlotsListed` | os161-2.0/kern/vm/kmalloc.c:256-296 | Over every run, whenever no call is being made, a slot in use is that of a listed page or is leaked |
| `HeapReturns.LeaksCounted` | os161-2.0/kern/vm/kmalloc.c:280-288 | Over every run as many slots are leaked as allocpagerefpage has failed to get a page with the root still without one, and no others |
| `HeapReturns.AnswersCall` | os161-2.0/kern/vm/kmalloc.c:873-1012 | Over every run memory is given to a thread for the size it asked for, in the call it is making, however often the lock was dropped meanwhile |
| `HeapReturns.RefusedForWant` | os161-2.0/kern/vm/kmalloc.c:964-985 | Over every run kmalloc returns NULL only because alloc_kpages gave nothing, for a heap page, a pageref page or a large block, or because every slot of every root was in use |
| `HeapReturns.GrowsOnlyWhenFull` | os161-2.0/kern/vm/kmalloc.c:936-968 | Over every run kmalloc asks for another page only when every block of every page of the size is in a client's hands |
| `HeapData.StoredStays` | os161-2.0/kern/vm/kmalloc.c:873-1217 | Over every run, what a client stores in its block is there until it stores there again or frees the block, whatever other threads' calls do: the heap writes only to blocks given back and to pages in hand |
| `HeapData.DataStep` | os161-2.0/kern/vm/kmalloc.c:873-1217 | Every step leaves each word of a client's block as it was, unless it is a store to that word or the kfree of that block |
| `HeapData.KfreedMem` | os161-2.0/kern/vm/kmalloc.c:1093-1128 | subpage_kfree writes only to the block it frees |
| `HeapData.PopulatedMem` | os161-2.0/kern/vm/kmalloc.c:1000-1012 | Threading a fresh page writes only to that page |
| `HeapOps.FreedIsDead` | os161-2.0/kern/vm/kmalloc.c:1091-1118 | A freed block is 0xdeadbeef in every word but its first, which links to the block that was first on the free list, or is null |
| `HeapLeak.LeakMany` | os161-2.0/kern/vm/kmalloc.c:280-288 | Any number of kmallocs, up to a root's slots, can fail each leaving a slot's bit set |
| `HeapLeak.FreePanics` | os161-2.0/kern/vm/kmalloc.c:313-320 | There is a run from boot, every call in contract, after which kfree of a live block fails KASSERT(root->numinuse == 0) |
| `Spl.Cpu.Splraise` | os161-2.0/kern/thread/spl.c:86-104 | One more on the count, interrupts off |
| `Spl.Cpu.Spllower` | os161-2.0/kern/thread/spl.c:106-124 | One less on the count, interrupts on exactly when it reaches zero |
| `Spl.Cpu.Splx` | os161-2.0/kern/thread/spl.c:131-160 | The level becomes the one asked for and the old one is returned; the count changes only if the level does |
| `Spl.OpsCounted` | os161-2.0/kern/thread/spl.c:54-160 | After any non-nested mix of splx, spinlock_acquire and spinlock_release: the count is one for a high level plus the spinlocks held, and interrupts are on exactly when it is zero |
| `Spl.Cpu.SpinlockAcquire` | os161-2.0/kern/thread/spinlock.c:74-115 | Once the word is seen clear: the level raised, the count of spinlocks up, the holder this processor |
| `Spl.Cpu.SpinlockRelease` | os161-2.0/kern/thread/spinlock.c:120-134 | The reverse of it |
| `SpinSteps.StepInv` | os161-2.0/kern/thread/spinlock.c:74-134 | Every access to the lock word or the holder, by any processor, keeps the invariant |
| `SpinSteps.MutualExclusion` | os161-2.0/kern/thread/spinlock.c:74-148 | Over every interleaving of the separate reads, test-and-sets and writes: at most one processor holds the lock, and spinlock_do_i_hold, reading without it, answers exactly |
| `SpinSteps.TakesFree` | os161-2.0/kern/thread/spinlock.c:88-114 | A processor spinning for a free lock gets it in three steps if no other acts meanwhile |
| `SpinSteps.ReleaseFrees` | os161-2.0/kern/thread/spinlock.c:127-133 | Releasing leaves the lock word clear, no holder, and every other processor where it was |
| `SchedRuns.StepOk` | os161-2.0/kern/thread/thread.c:450-1117 | Each of the 23 steps, by any processor, keeps the whole invariant |
| `SchedRuns.NoSharedStack` | os161-2.0/kern/thread/thread.c:563-731 | Over every run no two processors execute on one thread's stack, nor is the thread one is executing on in another's run queue |
| `SchedRuns.OnePlace` | os161-2.0/kern/thread/thread.c:450-731 | Over every run a thread is on at most one of all run queues, wait channels, zombie lists and lists in hand; one that is a c_curthread as well is an idle processor's; one on a run queue belongs to its processor |
| `SchedRuns.LevelsCounted` | os161-2.0/kern/thread/thread.c:537-763 | Over every run, through switches, forks and idling: the running thread's count is its level plus c_spinlocks, interrupts are on exactly when it is zero, and every thread switched out or newly forked has count two |
| `SchedRuns.NoneLost` | os161-2.0/kern/thread/thread.c:450-1117 | Over every run each thread is on a processor or on a list |
| `SchedRuns.AssertionsHold` | os161-2.0/kern/thread/thread.c:278-964 | Over every run what the code asserts holds where each processor is: a zombie destroyed is not curthread, the lock released after a switch is held, migration takes from no empty list |
| `SchedRuns.SendsWithinShare` | os161-2.0/kern/thread/thread.c:901-946 | Over every run each sending step leaves the remote queue within the share or as it was, and never moves the thread the migrating processor is executing on |
| `SchedLevels.BackAtLevel` | os161-2.0/kern/thread/thread.c:573-730 | Over every run a thread that calls thread_switch at one level comes back at that level, by the early return or after any number of other threads, migrations and processors |
| `SchedLevels.ForkedAtNone` | os161-2.0/kern/thread/thread.c:740-763 | Over every run a forked thread comes out of its first switch at level none, nothing counted and interrupts on |
| `SchedLevels.OwnLevel` | os161-2.0/kern/thread/spl.c:131-160 | Over every run nobody changes another thread's level, and a thread changes its own only by splx, to the level asked for, and in thread_switch |
| `SchedLevels.LocksPass` | os161-2.0/kern/thread/spinlock.c:74-134 | Over every run a spinlock is taken only when free, by the processor that asks, and released only by the processor that has it; no step moves any other |
| `SchedLife.EveryLife` | os161-2.0/kern/thread/thread.c:450-964 | Over every run each step takes each thread where the life of one thread says and nowhere else: off a processor to ready, asleep or dead as it asked; from a run queue to its own processor or into a migration; off a channel only by a wakeup of it; from a processor's hand to a run queue; destroyed only as a zombie; a new thread ready, in its maker's hand, with the processor number it was given |
| `SchedLife.MovesByMigration` | os161-2.0/kern/thread/thread.c:926-942 | Over every run a thread changes processors only by migration, from the hand of the migrating processor to the run queue of the new one |
| `SchedLife.SwitchDelivers` | os161-2.0/kern/thread/thread.c:600-645 | Over every run a thread that calls thread_switch is queued last where it asked to go, the wait channel it named included, and the channel's spinlock is held until then and released then |
| `SchedLife.BackFromYield` | os161-2.0/kern/thread/thread.c:593-598 | Over every run it returns at once only from a yield with an empty run queue |
| `SchedLife.SleepsUntilWoken` | os161-2.0/kern/thread/thread.c:1040-1117 | Over every run a thread that sleeps on a channel sleeps there until a wakeup of that channel, by a processor holding its spinlock, takes it off |
| `SchedLife.PicksLongest` | os161-2.0/kern/thread/thread.c:647-652 | Over every run the thread a processor switches to has been ready on its run queue at least as long as any other on it, migration included |
| `SchedLife.WakesLongest` | os161-2.0/kern/thread/thread.c:1060-1084 | Over every run wchan_wakeone takes a sleeper that has slept on the channel at least as long as any other |
| `SchedLife.NothingLeft` | os161-2.0/kern/thread/thread.c:646-650 | Over every run a processor goes idle only with an empty run queue, and a thread comes back from a switch only with no zombie left |
| `Fifos.AheadLonger` | os161-2.0/kern/thread/thread.c:609-652 | Of two on a queue that is joined behind and never reordered, the one ahead has been on it at least as long |
| `SchedSteps.SetSplOk` | os161-2.0/kern/thread/spl.c:131-160 | splx keeps the invariant |
| `SchedSteps.AcquireOk` | os161-2.0/kern/thread/spinlock.c:74-115 | Taking a spinlock keeps the invariant |
| `SchedSteps.ReleaseOk` | os161-2.0/kern/thread/spinlock.c:120-134 | Releasing one keeps it |
| `SchedSteps.SwitchStartOk` | os161-2.0/kern/thread/thread.c:573-591 | splhigh and taking the run queue lock keep it, given no spinlock held at yield or exit and only the channel's at sleep |
| `SchedSteps.SwitchBackOk` | os161-2.0/kern/thread/thread.c:593-598 | The early return from a yield restores the level |
| `SchedMoves.EnqueueOk` | os161-2.0/kern/thread/thread.c:600-645 | Queueing the old thread, on the run queue, the channel (and only then releasing its spinlock) or the zombies, keeps it |
| `SchedSteps.GoIdleOk` | os161-2.0/kern/thread/thread.c:646-650 | Dropping the run queue lock to idle keeps it, although curthread may be on a list |
| `SchedSteps.UnidleOk` | os161-2.0/kern/thread/thread.c:650-653 | Coming back from cpu_idle keeps it |
| `SchedMoves.PickOk` | os161-2.0/kern/thread/thread.c:647-667 | Switching to the next thread keeps it: no other processor executes on its stack |
| `SchedSteps.LandOk` | os161-2.0/kern/thread/thread.c:716-721 | Releasing, in the new thread, the lock the old one took keeps it |
| `SchedMoves.ExorciseOk` | os161-2.0/kern/thread/thread.c:278-289 | Destroying a zombie keeps it |
| `SchedSteps.LandDoneOk` | os161-2.0/kern/thread/thread.c:726-730 | Returning to the level saved, or none for a new thread, keeps it; that the level saved is the right one is SchedLevels.BackAtLevel and SchedLevels.ForkedAtNone |
| `SchedMoves.ForkOk` | os161-2.0/kern/thread/thread.c:524-548 | A new thread, its count raised by one and with the number of any processor its parent may have been on, keeps it |
| `SchedMoves.WakeOneOk` | os161-2.0/kern/thread/thread.c:1060-1084 | Taking the first sleeper off its channel keeps it |
| `SchedMoves.WakeAllOk` | os161-2.0/kern/thread/thread.c:1089-1117 | Taking all of them keeps it |
| `SchedMigrate.MakeRunnableOk` | os161-2.0/kern/thread/thread.c:450-482 | Putting a thread on its processor's run queue keeps it, even when it is still that processor's c_curthread |
| `SchedMigrate.TakeVictimsOk` | os161-2.0/kern/thread/thread.c:887-894 | Taking victims keeps it: the queue has at least what was counted |
| `SchedMigrate.SendOneOk` | os161-2.0/kern/thread/thread.c:901-946 | Sending to one processor keeps it: curthread is never among those sent |
| `SchedMigrate.SendOneShare` | os161-2.0/kern/thread/thread.c:901-946 | Sending to one processor leaves its queue within the share or as it was, and our own thread untouched |
| `SchedMigrate.PutBackOk` | os161-2.0/kern/thread/thread.c:949-960 | Putting leftovers back keeps it |
| `SchedMigrate.PushSpec` | os161-2.0/kern/thread/thread.c:902-945 | The sending loop never takes from an empty list, splits the victims into those left and those sent, never sends curthread, and stops only when there is no more to send or the queue has its share |
| `SchedMigrate.MigrationHolds` | os161-2.0/kern/thread/thread.c:861-964 | In every state of the invariant the owner's queue has at least to_send + one_share threads, and keeps its share while sending |
| `SchedInv.OwnStack` | os161-2.0/kern/thread/thread.c:563-731 | No thread is the current one of two processors |
| `SchedInv.NotHanded` | os161-2.0/kern/thread/thread.c:563-731 | A processor's current thread is on no other processor's run queue |
| `SchedInv.OneList` | os161-2.0/kern/thread/thread.c:563-731 | No thread is in two places |
| `SchedInv.OnListOnlyIdle` | os161-2.0/kern/thread/thread.c:904-925 | A current thread that is on a list is an idle processor's |
| `Migration.Processors.Count` | os161-2.0/kern/thread/thread.c:870-880 | The length of our own run queue, and of all together |
| `Migration.Processors.TakeVictims` | os161-2.0/kern/thread/thread.c:887-894 | The last to_send threads of our queue, in their order |
| `Migration.Processors.SendTo` | os161-2.0/kern/thread/thread.c:901-946 | What the loop moves to one queue, with t_cpu of exactly the threads moved set to its processor |
| `Migration.Processors.PutBack` | os161-2.0/kern/thread/thread.c:949-960 | Leftovers, in order, behind our own queue |
| `MigrationSpec.PushConserves` | os161-2.0/kern/thread/thread.c:902-945 | No thread is lost or duplicated between the victims and a queue, which is left alone or not above its share |
| `MigrationSpec.PushNotCur` | os161-2.0/kern/thread/thread.c:926-936 | What is sent goes behind what the queue had and is never curthread |
| `Migration.Processors.ConsiderMigration` | os161-2.0/kern/thread/thread.c:861-964 | The whole function with nothing else happening: the share is the least number enough for all threads over all processors; below it nothing happens; otherwise our queue ends with exactly its first share, and what was behind goes in order to the other processors in order, each getting up to the share and one getting threads only when those before have theirs; only curthread stays, and keeps its t_cpu; no thread is lost |
| `MigrationSpec.LeastShare` | os161-2.0/kern/thread/thread.c:882 | DIVROUNDUP(total, n) is the least share that is enough for all |
| `MigrationSpec.PushInOrder` | os161-2.0/kern/thread/thread.c:902-945 | The sending loop sends victims in their order, skipping curthread |
| `MigrationSpec.PushStops` | os161-2.0/kern/thread/thread.c:902-936 | The sending loop stops only with nothing more to send or the queue at its share, and keeps curthread behind the rest |
| `MigrationSpec.PassSend` | os161-2.0/kern/thread/thread.c:897-946 | A turn of the outer loop keeps what has been sent, in order, plus what is still to be sent equal to the victims without curthread |
| `MigrationSpec.PassDone` | os161-2.0/kern/thread/thread.c:948-960 | When there is nowhere left to send to, or nothing, nothing is left to send but curthread: by the count, the others cannot all be full |
| `MigrationRuns.MigratesAlone` | os161-2.0/kern/thread/thread.c:861-964 | Over every run of the thread system, a migration during which no other processor acts leaves all run queues exactly so |
| `Semaphores.Semaphore.PTurnOf` | asst3/synch.c:106-122 | One turn of P's loop: asleep on the channel at count zero, else one taken |
| `Semaphores.Semaphore.V` | asst3/synch.c:131-135 | One more and the first sleeper woken, unless the count wraps, which V asserts it does not |
| `Semaphores.StepInv` | asst3/synch.c:91-138 | Every step by any thread keeps the invariant: count, sleepers distinct and asleep, the spinlock's holder, and no wakeup lost |
| `Semaphores.NoLostWakeup` | asst3/synch.c:91-138 | Over every run, with barging: sem_count == initial + Vs - Ps, and when the spinlock is free nobody sleeps or at least sem_count woken threads have not yet rechecked |
| `Semaphores.WakesLongest` | asst3/synch.c:131-135 | Over every run V wakes exactly one thread if any sleeps, the one that has been asleep the longest |
| `LocksAndCvs.StepInv` | asst3/synch.c:189-345 | Every step of lock and cv code or context switch keeps the invariant tying holder, spinlock and processors, if it is not a yield with the spinlock held; what each does is stated by the lemmas below |
| `LocksAndCvs.YieldBreaks` | asst3/synch.c:189-209 | A yield with the spinlock held, which lock_acquire leaves to its caller, always breaks it |
| `LocksAndCvs.InvIffNoYields` | asst3/synch.c:189-345 | So a run keeps it throughout if and only if no thread yields with the spinlock held |
| `LocksAndCvs.HolderYields` | asst3/synch.c:189-209 | The failing run: a thread acquires the lock and yields, and the holder is running nowhere |
| `LocksAndCvs.HolderRuns` | asst3/synch.c:189-225 | Over every run without such a yield, cvs included: the spinlock free means no holder, and a holder is running on the processor that has the spinlock |
| `LocksAndCvs.AcquireGetsIt` | asst3/synch.c:189-209 | Over every run without such a yield lock_acquire, the one ending cv_wait too, returns with holder == curthread |
| `LocksAndCvs.WaitersOnChannel` | asst3/synch.c:277-295 | Over every run without such a yield, while a thread holds the lock every other that gave it up in cv_wait is already on its channel or has been woken |
| `LocksAndCvs.SignalWakes` | asst3/synch.c:313-345 | Over every run without such a yield, cv_signal by the holder wakes the first waiter, cv_broadcast all, both release the lock, and all else is as it was; by anybody else they change nothing |
| `LocksAndCvs.SignalsLongest` | asst3/synch.c:313-329 | Over every run without such a yield, the thread cv_signal wakes has waited on the channel at least as long as any other |
| `LocksAndCvs.ReleaseFrees` | asst3/synch.c:211-225 | Over every run without such a yield, lock_release by the holder frees the lock and its spinlock and changes nothing else, so that a thread spinning in lock_acquire can take it; by anybody else it changes nothing |
| `LocksAndCvs.HolderKeeps` | asst3/synch.c:189-345 | Over every run without such a yield, a holder loses the lock only by its own lock_release, cv_wait, cv_signal or cv_broadcast, and then nobody holds it |
| `LocksAndCvs.ReturnsHolding` | asst3/synch.c:277-295 | Over every run without such a yield, a thread comes out of lock_acquire and of cv_wait holding the lock |
| `LocksAndCvs.WaitsForItsOwn` | asst3/synch.c:277-295 | Over every run without such a yield, cv_wait by the holder gives up the lock and, until it is woken, waits for the condition variable named and no other; by anybody else it only acquires the lock |
| `Uio.UioMove` | os161-2.0/kern/lib/uio.c:41-120 | On success, fault and panic: iovecs, resid and outcome are those of Move, offset advances by what is moved, and exactly so many bytes go, in order, between the buffer from the given position and the first flattened addresses, nothing else changing |
| `UioMoves.MovedCounts` | os161-2.0/kern/lib/uio.c:112-116 | On every outcome what is moved comes off resid, in size_t arithmetic, and off the front of the flattened iovecs |
| `UioMoves.ScatterAt` | os161-2.0/kern/lib/uio.c:86-98 | Bytes stored at distinct addresses are each there afterwards and every other address is as it was |
| `UioMoves.MovesMin` | os161-2.0/kern/include/uio.h:92-105 | Whatever addresses fault: the call succeeds with exactly min(n, resid) bytes if and only if none of the addresses it would move is bad and, with n <= resid, the iovecs hold n, or, with n > resid, resid ends where an iovec does |
| `UioMoves.MoveAll` | os161-2.0/kern/lib/uio.c:58-117 | With n <= resid and no faults the call moves n if the iovecs hold them, else all they hold and runs out |
| `UioMoves.MoveMore` | os161-2.0/kern/lib/uio.c:63-65 | With n > resid and no faults it stops at resid if an iovec ends there; otherwise a chunk passes it, resid wraps, and all n move, or all the iovecs hold and it runs out |
| `UioMoves.Faults` | os161-2.0/kern/lib/uio.c:94-104 | A call faults if and only if one of the addresses it would otherwise move is bad; a call that does not fault does what it does with no bad addresses |
| `UioMoves.CallEnds` | os161-2.0/kern/lib/uio.c:58-119 | How every call ends, from its inputs: faults if and only if one of the addresses to move is bad; otherwise moves so many; and reaches the panic if and only if the iovecs hold less than n and resid does not end where one does |
| `UioMoves.ExactEnds` | os161-2.0/kern/include/uio.h:92-105 | With resid the iovecs' total length: min(n, resid) bytes, or a fault if one of their addresses is bad, and never the panic |
| `UioMoves.Overshoot` | os161-2.0/kern/lib/uio.c:63-65 | The failing input: ten bytes asked of a ten-byte iovec with resid four; all ten move and resid becomes 2^32 - 6 |
| `UioMoves.RunsOut` | os161-2.0/kern/lib/uio.c:71-79 | A call that panics with resid less than the iovecs hold: twenty bytes asked of a ten-byte iovec with resid four |
| `UioMoves.SumKept` | os161-2.0/kern/lib/uio.c:113-114 | On every outcome, whatever faults, offset + resid is kept if and only if no chunk takes resid below zero: more asked than resid, an iovec with bytes on both sides of it, and no fault up to that chunk |
| `UioMoves.OvershootsIff` | os161-2.0/kern/lib/uio.c:63-65 | Without faults that is n > resid, resid not at an iovec's end, and more than resid held by the iovecs |
| `UioMoves.TwoCalls` | os161-2.0/kern/lib/uio.c:58-117 | When one call for n1 + n2 bytes succeeds, two calls on the adjacent chunks succeed and leave iovecs, resid and the amount moved the same if and only if n1 != resid or n2 == 0 or resid ends where an iovec does |
| `UioMoves.TwoCallsDiffer` | os161-2.0/kern/lib/uio.c:58-65 | The failing input: four and then six bytes of a ten-byte iovec with resid four; the second call moves nothing, one call for ten moves all |
| `Uio.TwoTransfers` | os161-2.0/kern/lib/uio.c:83-116 | When they do agree, the two calls leave memory, kernel buffer, iovecs, resid and offset exactly as the one does |
| `Uio.UioMoveZeros` | os161-2.0/kern/lib/uio.c:122-146 | For any resid: what its sixteen-byte calls of uiomove move together, as zeros, at the first addresses; outcome, resid and offset agree with it |
| `Uio.ZerosAreOne` | os161-2.0/kern/lib/uio.c:133-143 | Where one uiomove for n zeros would succeed it does the same, if and only if n <= resid or resid ends where an iovec does or resid is no multiple of sixteen |
| `Uio.ZerosExact` | os161-2.0/kern/lib/uio.c:133-143 | With resid the iovecs' total length: min(n, resid) zeros or a fault, never the panic |
| `Uio.UioState.Kinit` | os161-2.0/kern/lib/uio.c:152-165 | One iovec, with resid its length |
| `Vnodes.Vnode.constructor` | os161-2.0/kern/vfs/vnode.c:44-60 | One reference |
| `Vnodes.Vnode.Incref` | os161-2.0/kern/vfs/vnode.c:79-88 | One more |
| `Vnodes.Vnode.Decref` | os161-2.0/kern/vfs/vnode.c:94-123 | One less, or at the last one the count is left and passed on to VOP_RECLAIM |
| `Vnodes.Vnode.Cleanup` | os161-2.0/kern/vfs/vnode.c:61-74 | At count one the vnode is gone |
| `Vnodes.StepInv` | os161-2.0/kern/vfs/vnode.c:79-123 | Every step by any thread, with VOP_RECLAIM losing a race, succeeding or failing, keeps the invariant |
| `Vnodes.CountIsHeld` | os161-2.0/kern/vfs/vnode.c:79-123 | Over every run the count is the number of references held, plus one once VOP_RECLAIM has failed; nobody holds one of a destroyed vnode |
| `Vnodes.LeakedStays` | os161-2.0/kern/vfs/vnode.c:111-122 | Over every run: from the first failed VOP_RECLAIM on, the vnode is never destroyed, nobody is in VOP_RECLAIM, and the count stays one more than the references held |
| `Vnodes.DropOrReclaim` | os161-2.0/kern/vfs/vnode.c:94-123 | Over every run giving up a reference takes one from the count, or, if and only if it is the only one and none was left behind, takes the caller to VOP_RECLAIM with it |
| `Vnodes.ReclaimTakes` | os161-2.0/kern/vfs/vnode.c:111-122 | Over every run VOP_RECLAIM takes the caller's reference, destroys the vnode only when that is the only one, and leaves one behind only by failing |
| `Vnodes.NoneForgotten` | os161-2.0/kern/vfs/vnode.c:94-123 | Over every run a vnode to which nobody has a reference is destroyed, unless VOP_RECLAIM has failed |
| `Vfs.ParseKeeps` | os161-2.0/kern/vfs/vfslookup.c:145-229 | A path is device, separator, slashes and the rest, for each of the four forms: nothing else is dropped; which form it is, and that the rest starts with no slash, are VfsForms.FormOf and VfsForms.ParseSplits |
| `Vfs.ParseSlash` | os161-2.0/kern/vfs/vfslookup.c:166-169 | device:/path is treated as device:path |
| `VfsForms.FormOf` | os161-2.0/kern/vfs/vfslookup.c:156-217 | By characters: a path is absolute if and only if it starts with a slash, of the current file system if and only if it starts with a colon, of a device if and only if a colon that is not first comes before any other separator, and relative otherwise |
| `VfsForms.ParseSplits` | os161-2.0/kern/vfs/vfslookup.c:145-229 | The prefix is up to the separator, with no separator before it, then all the slashes are skipped, and the rest starts with none |
| `VfsForms.LookupMeans` | os161-2.0/kern/vfs/vfslookup.c:128-293 | By characters: an absolute path starts at the boot file system's root, one with a leading colon at the root of the current directory's file system, one that names a device at that device's root, any other at the current directory, ENOENT when the slot is empty; what is left, if anything is, goes to one VOP_LOOKUP from there |
| `VfsForms.LookparentMeans` | os161-2.0/kern/vfs/vfslookup.c:128-266 | Likewise vfs_lookparent, with EINVAL when nothing is left of the path |
| `Vfs.VfsState.FindSep` | os161-2.0/kern/vfs/vfslookup.c:145-154 | The first colon or slash |
| `Vfs.VfsState.SkipTo` | os161-2.0/kern/vfs/vfslookup.c:166-169 | Past the slashes, a C string of what is left |
| `Vfs.VfsState.GetDevice` | os161-2.0/kern/vfs/vfslookup.c:128-229 | The start vnode with one reference, none on failure, for each form of path, the forms being those of VfsForms.FormOf; the rest of the path as a C string |
| `Vfs.VfsState.Lookup` | os161-2.0/kern/vfs/vfslookup.c:268-293 | One reference handed back on success, none on failure, the start's given up; VOP_LOOKUP is called on what is left, if anything is |
| `Vfs.VfsState.LookParent` | os161-2.0/kern/vfs/vfslookup.c:235-266 | Likewise for the parent, and EINVAL when nothing is left of the path |
| `Vfs.VfsState.ChangeBootfs` | os161-2.0/kern/vfs/vfslookup.c:49-66 | The reference passes from the caller to the slot and the old one is dropped |
| `Vfs.VfsState.GetCurDir` | os161-2.0/kern/vfs/vfscwd.c:48-64 | A reference to the current directory, or ENOENT and none |
| `Vfs.VfsState.SetCurDir` | os161-2.0/kern/vfs/vfscwd.c:70-97 | The slot takes a reference of its own and the old one is dropped; ENOTDIR and other errors change nothing |
| `Vfs.VfsState.ClearCurDir` | os161-2.0/kern/vfs/vfscwd.c:102-118 | The slot is empty and its reference dropped |
| `Vfs.VfsState.Chdir` | os161-2.0/kern/vfs/vfscwd.c:123-136 | No reference more or less in callers' hands; the slot has what the lookup of the path found, or is unchanged |
| `Vfs.VfsState.Open` | os161-2.0/kern/vfs/vfspath.c:44-112 | On success exactly the one reference returned, on every failing path none; lookup or creation, open, truncate in that order, the first error returned |
| `Vfs.VfsState.OpenSecond` | os161-2.0/kern/vfs/vfspath.c:88-111 | On any error after the vnode is had its reference is given up |
| `Vfs.VfsState.Close` | os161-2.0/kern/vfs/vfspath.c:115-133 | One reference given up |
| `Vfs.VfsState.RemovePath` | os161-2.0/kern/vfs/vfspath.c:136-152 | One lookup of the parent and one VOP_REMOVE of the last component there, no reference kept; the first error is returned |
| `Vfs.VfsState.SymlinkPath` | os161-2.0/kern/vfs/vfspath.c:231-248 | Likewise one VOP_SYMLINK, with the contents |
| `Vfs.VfsState.MkdirPath` | os161-2.0/kern/vfs/vfspath.c:275-293 | Likewise one VOP_MKDIR |
| `Vfs.VfsState.RmdirPath` | os161-2.0/kern/vfs/vfspath.c:298-315 | Likewise one VOP_RMDIR |
| `Vfs.VfsState.ReadLink` | os161-2.0/kern/vfs/vfspath.c:255-271 | No reference kept on any path |
| `Vfs.VfsState.RenamePath` | os161-2.0/kern/vfs/vfspath.c:155-187 | No reference kept on any path; both parents are looked up in order, then one VOP_RENAME if they are on one file system, otherwise EXDEV; with one buffer for both paths the second lookup gets what the first left in it |
| `Vfs.VfsState.LinkPath` | os161-2.0/kern/vfs/vfspath.c:190-221 | No reference kept on any path; the file and then the parent are looked up, then one VOP_LINK if they are on one file system, otherwise EXDEV; one buffer for both paths included |
| `Vfs.VfsState.Decref` | os161-2.0/kern/vfs/vnode.c:94-123 | The balance of counts and owners is kept; only the last reference can destroy the vnode, or be left behind |

## Left out

Arithmetic:
- the compiler's view of `-a` for the most negative `long long`: it is two's complement negation here
- shifts, comparisons, addition, subtraction and `bswap64` of the same library: easy, or not the property their name suggests
- `longlong.h`'s unions and byte order: a 64-bit number's halves are its quotient and remainder by 2^32

Kernel heap:
- the GUARDS, LABELS, SLOW, SLOWER and CHECK variants, all undefined in the source, and the statistics and dumps printed
- `alloc_kpages` and `free_kpages`: parameters; they give 0 or fresh page-aligned pages that nobody has, and addresses are unbounded naturals, so no page ends past 2^32
- `kmalloc` of a size above 2^32 - PAGE_SIZE, whose rounded page count has wrapped to 0, is not a step of `HeapRuns`
- freeing twice, freeing a pointer that did not come from `kmalloc` and writing outside one's block: outside the contract; `kfree(NULL)` does nothing
- a step of `HeapRuns` after the failed assertion of `freepageref`: the system has stopped
- `kheaproots` pages as memory: pagerefs are a map from addresses, disjoint from block memory by page ownership

Threads:
- `switchframe_switch`, `cpu_idle`, traps and memory barriers: the switch is one step, an interrupt may come in `cpu_idle` or wherever a thread may raise its level, and memory is sequentially consistent
- regions under a run queue lock that do not cross the switch are one step each; a handler runs as the interrupted thread with its level raised, and `t_in_interrupt` is not kept
- the spin on a run queue lock, wait channel lock or semaphore lock in `Sched`, `Semaphores` and `LocksAndCvs`: taking a free lock is one step there; `SpinSteps` has the spin
- interprocessor interrupts and TLB shootdown, stack guard bands, stacks and processes of threads, `thread_panic`, `thread_shutdown`, boot before `curcpu` exists
- `thread_fork` before its call of `thread_make_runnable`, when the new thread is on no list: only the processor number it copied is kept; and its failure returns
- `thread_switch` called by a handler on an idle processor, which returns at once: it is no step
- fairness and liveness of scheduling, of spinning and of wakeups; `SpinSteps.TakesFree` is for a processor that no other disturbs
- Migration.Processors.ConsiderMigration: states what the function does when no other processor acts between its locked regions, as does MigrationRuns.MigratesAlone of its steps; with others acting the results are those of `SchedMigrate`, `SchedRuns` and `SchedLife`
- creation and destruction of wait channels, semaphores, locks and condition variables, except their first state
- `lock_acquire` from an interrupt handler, and two locks at once: `LocksAndCvs` has one lock and any number of condition variables
- Semaphores.Semaphore.V: after the wrapped count fails its assertion nothing more is said; `V` is not a step of a run then

Uio:
- Uio.UioMove: a uio without iovecs on entry is not covered, because the source then reads past its array; buffer positions are within the caller's kernel buffer, and `n` and resid are below 2^32
- UioMoves.TwoCalls: compares with one call that succeeds; where that one faults, the first of two smaller calls may move what comes before the bad address
- UioMoves.ScatterAt: for distinct addresses; `Uio.UioMove` covers overlapping iovecs, where the later byte stays
- a kernel buffer overlapping the iovecs; the assertion about address spaces; an invalid direction or segment flag, which panics
- `copyin` and `copyout`: a chunk that touches a bad address fails whole and changes nothing; memory never stored to reads as zero

Bitmap:
- failure of `kmalloc` in `bitmap_create`, rounding of nbits near 2^32, `bitmap_getdata`, `bitmap_destroy`; a mark or unmark whose assertion fails is outside its method's precondition and changes nothing in `Bitmaps.Bitmap.Run`

Vnodes and VFS:
- file systems: each vnode operation returns any error or, as `vnode.h` says, a vnode with one reference more; only VOP_RECLAIM's effect on the count is modelled further, as `kern/fs/sfs/sfs_inode.c` does it
- `vfs_getroot` and the device list: any error or a vnode with a reference
- other threads between the calls inside a path operation: counts under interleaving are `Vnodes`, path operations alone are `Vfs`
- Vfs.VfsState.SetCurDir: a vnode without a file system is not a directory: `kern/vfs/device.c:200-211` reports the type of the only such vnodes, which it makes, as a block or character device; other makers of such vnodes are not covered
- NAME_MAX limits on name buffers, the `mode` arguments, `vfs_biglock`, `vnode_check`, `vfs_getcwd`, `vfs_setbootfs`'s own parsing, mounting, and the test file system wrappers

Other parts of the repository: `whalemating.c` and `bathroom.c`, whose intended
properties the code does not have; arrays, process ids, `execv`, loading, the console
and the menu, which would add only easy members; address spaces and the core map, which
the repository does not contain in finished form.
