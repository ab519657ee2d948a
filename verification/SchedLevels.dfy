/** Interrupt levels and spinlocks in the thread system: who may change them, and at what
    level a thread comes back from a switch. */
module SchedLevels {
  import opened Spl
  import opened Sched
  import opened SchedInv
  import opened SchedRuns

  /** The thread that executes the step, if it is t. */
  ghost predicate Does(s: Sys, c: nat, t: nat) {
    c < |s.cpus| && s.cpus[c].cur == t
  }

  predicate ComesBack(a: Action) { a == DoLandDone || a == DoSwitchBack }

  /** Nobody changes another thread's level, nor the level it is to come back to. */
  lemma OthersStep(s: Sys, s': Sys, c: nat, a: Action, t: nat)
    requires Step(s, s', c, a) && t in s.threads && t in s'.threads && !Does(s, c, t)
    ensures s'.threads[t].high == s.threads[t].high && s'.threads[t].saved == s.threads[t].saved
  {
  }

  lemma OwnSaved(s: Sys, s': Sys, c: nat, a: Action, t: nat)
    requires Step(s, s', c, a) && t in s.threads && t in s'.threads && Does(s, c, t)
    ensures s'.threads[t].saved == if a.DoSwitchStart? then s.threads[t].high else s.threads[t].saved
  {
  }

  /** The level a thread is to come back to is what it was when it called thread_switch;
      nothing else changes it. */
  lemma SavedStep(s: Sys, s': Sys, c: nat, a: Action, t: nat)
    requires Step(s, s', c, a) && t in s.threads && t in s'.threads
    ensures s'.threads[t].saved == if Does(s, c, t) && a.DoSwitchStart? then s.threads[t].high else s.threads[t].saved
  {
    if Does(s, c, t) { OwnSaved(s, s', c, a, t); } else { OthersStep(s, s', c, a, t); }
  }

  lemma BackStep(s: Sys, s': Sys, c: nat, a: Action, t: nat)
    requires Step(s, s', c, a) && ComesBack(a) && Does(s, c, t)
    ensures t in s.threads && t in s'.threads && s'.threads[t].high == s.threads[t].saved
  {
  }

  /** The thread t exists, and does not call thread_switch again, from i up to j. */
  ghost predicate NoOtherSwitch(states: seq<Sys>, moves: seq<Move>, i: nat, j: nat, t: nat) {
    && i < j < |moves| && |states| == |moves| + 1
    && (forall k: nat :: i < k <= j ==> t in states[k].threads)
    && (forall k: nat :: i < k < j && Does(states[k], moves[k].c, t) ==> !moves[k].a.DoSwitchStart?)
  }

  lemma {:induction false} SavedStays(states: seq<Sys>, moves: seq<Move>, i: nat, j: nat, t: nat)
    requires SchedRuns.Run(states, moves) && NoOtherSwitch(states, moves, i, j, t)
    ensures states[j].threads[t].saved == states[i + 1].threads[t].saved
    decreases j
  {
    if j > i + 1 {
      SavedStays(states, moves, i, j - 1, t);
      assert StepAt(states, moves, j - 1);
      SavedStep(states[j - 1], states[j], moves[j - 1].c, moves[j - 1].a, t);
    }
  }

  /** Over every run: a thread that calls thread_switch at one level comes back at that
      level, wherever it has been meanwhile and whichever processor it comes back on. */
  lemma BackAtLevel(states: seq<Sys>, moves: seq<Move>, i: nat, j: nat, t: nat)
    requires SchedRuns.Run(states, moves) && NoOtherSwitch(states, moves, i, j, t)
    requires Does(states[i], moves[i].c, t) && moves[i].a.DoSwitchStart?
    requires Does(states[j], moves[j].c, t) && ComesBack(moves[j].a)
    ensures t in states[i].threads && t in states[j + 1].threads
    ensures states[j + 1].threads[t].high == states[i].threads[t].high
  {
    assert StepAt(states, moves, i) && StepAt(states, moves, j);
    SavedStep(states[i], states[i + 1], moves[i].c, moves[i].a, t);
    SavedStays(states, moves, i, j, t);
    BackStep(states[j], states[j + 1], moves[j].c, moves[j].a, t);
  }

  /** Over every run: a forked thread comes out of its first switch at level none, with
      nothing counted and interrupts on. */
  lemma ForkedAtNone(states: seq<Sys>, moves: seq<Move>, i: nat, j: nat, t: nat)
    requires SchedRuns.Run(states, moves) && Boot(states[0]) && NoOtherSwitch(states, moves, i, j, t)
    requires moves[i].a.DoFork? && moves[i].a.t == t && Does(states[j], moves[j].c, t) && moves[j].a == DoLandDone
    ensures t in states[j + 1].threads && !states[j + 1].threads[t].high && states[j + 1].threads[t].count == 0
    ensures moves[j].c < |states[j + 1].cpus| && states[j + 1].cpus[moves[j].c].irq
  {
    var s, s', c := states[j], states[j + 1], moves[j].c;
    assert !s.threads[t].saved by { ForkedUnsaved(states, moves, i, j, t); }
    assert Inv(s) by { RunInv(states, moves, j); }
    assert Inv(s') by { RunInv(states, moves, j + 1); }
    assert LandDone(s, s', c) by { assert StepAt(states, moves, j); }
    LandedAtNone(s, s', c, t);
  }

  lemma ForkedUnsaved(states: seq<Sys>, moves: seq<Move>, i: nat, j: nat, t: nat)
    requires SchedRuns.Run(states, moves) && NoOtherSwitch(states, moves, i, j, t) && moves[i].a.DoFork? && moves[i].a.t == t
    ensures !states[j].threads[t].saved
  {
    assert StepAt(states, moves, i);
    ForkedSaved(states[i], states[i + 1], moves[i].c, moves[i].a);
    SavedStays(states, moves, i, j, t);
  }

  lemma ForkedSaved(s: Sys, s': Sys, c: nat, a: Action)
    requires Step(s, s', c, a) && a.DoFork?
    ensures a.t in s'.threads && !s'.threads[a.t].saved
  {
  }

  lemma LandedAtNone(s: Sys, s': Sys, c: nat, t: nat)
    requires Inv(s) && Inv(s') && LandDone(s, s', c) && Does(s, c, t) && !s.threads[t].saved
    ensures t in s'.threads && !s'.threads[t].high && s'.threads[t].count == 0 && c < |s'.cpus| && s'.cpus[c].irq
  {
    assert LocksOk(s, c) by { assert CpuOk(s, c); }
    assert LevelOk(s', c) by { assert CpuOk(s', c); }
  }

  /** The steps at which a thread changes its own level. */
  predicate ChangesLevel(a: Action) { a.DoSetSpl? || a.DoSwitchStart? || ComesBack(a) }

  lemma LevelStep(s: Sys, s': Sys, c: nat, a: Action, t: nat)
    requires Step(s, s', c, a) && t in s.threads && t in s'.threads
    ensures s'.threads[t].high != s.threads[t].high ==> Does(s, c, t) && ChangesLevel(a)
  {
    if !Does(s, c, t) {
      OthersStep(s, s', c, a, t);
    } else if !ChangesLevel(a) {
      OwnSame(s, s', c, a, t);
    }
  }

  lemma OwnSame(s: Sys, s': Sys, c: nat, a: Action, t: nat)
    requires Step(s, s', c, a) && t in s.threads && t in s'.threads && Does(s, c, t) && !ChangesLevel(a)
    ensures s'.threads[t].high == s.threads[t].high
  {
  }

  lemma SetStep(s: Sys, s': Sys, c: nat, a: Action, t: nat)
    requires Step(s, s', c, a) && t in s.threads && t in s'.threads && Does(s, c, t)
    ensures a.DoSetSpl? ==> s'.threads[t].high == a.high
    ensures a.DoSwitchStart? ==> s'.threads[t].high
  {
  }

  /** Over every run, nobody changes another thread's level, and a thread changes its own only
      by splx, to the level asked for, and in thread_switch. */
  lemma OwnLevel(states: seq<Sys>, moves: seq<Move>, n: nat, t: nat)
    requires SchedRuns.Run(states, moves) && n < |moves| && t in states[n].threads && t in states[n + 1].threads
    ensures states[n + 1].threads[t].high != states[n].threads[t].high ==> Does(states[n], moves[n].c, t) && ChangesLevel(moves[n].a)
    ensures Does(states[n], moves[n].c, t) && moves[n].a.DoSetSpl? ==> states[n + 1].threads[t].high == moves[n].a.high
    ensures Does(states[n], moves[n].c, t) && moves[n].a.DoSwitchStart? ==> states[n + 1].threads[t].high
  {
    var s, s', c, a := states[n], states[n + 1], moves[n].c, moves[n].a;
    assert Step(s, s', c, a) by { assert StepAt(states, moves, n); }
    LevelStep(s, s', c, a, t);
    if Does(s, c, t) { SetStep(s, s', c, a, t); }
  }

  /** The spinlock that a step of processor c takes, or releases. */
  ghost predicate TakesLock(c: nat, a: Action, l: Lock) {
    (a.DoAcquire? && l == Other(a.n)) || ((a.DoSwitchStart? || a == DoUnidle) && l == RunQ(c))
  }

  ghost predicate DropsLock(s: Sys, c: nat, a: Action, l: Lock) {
    || (a.DoRelease? && l == Other(a.n)) || ((a == DoSwitchBack || a == DoGoIdle || a == DoLand) && l == RunQ(c))
    || (a == DoEnqueue && DropsChan(s, c, l))
  }

  /** thread_switch releases the wait channel's spinlock when it queues the sleeper. */
  ghost predicate DropsChan(s: Sys, c: nat, l: Lock) {
    && c < |s.cpus| && s.cpus[c].base.Locked? && s.cpus[c].base.ns.ToSleep? && s.cpus[c].base.ns.w < |s.chans|
    && l == Other(s.chans[s.cpus[c].base.ns.w].lock)
  }

  lemma TakeStep(s: Sys, s': Sys, c: nat, a: Action, l: Lock)
    requires Step(s, s', c, a) && TakesLock(c, a, l)
    ensures l !in s.locks && HeldBy(s', l, c)
  {
  }

  lemma DropStep(s: Sys, s': Sys, c: nat, a: Action, l: Lock)
    requires Step(s, s', c, a) && DropsLock(s, c, a, l) && c < |s.cpus| && LocksOk(s, c)
    ensures HeldBy(s, l, c) && l !in s'.locks
  {
  }

  /** The steps that take or release some spinlock. */
  predicate UsesLocks(a: Action) {
    a.DoAcquire? || a.DoRelease? || a.DoSwitchStart? || a == DoSwitchBack || a == DoEnqueue || a == DoGoIdle || a == DoUnidle || a == DoLand
  }

  lemma SameLocks(s: Sys, s': Sys, c: nat, a: Action)
    requires Step(s, s', c, a) && !UsesLocks(a)
    ensures s'.locks == s.locks
  {
  }

  lemma KeepStep(s: Sys, s': Sys, c: nat, a: Action, l: Lock)
    requires Step(s, s', c, a) && UsesLocks(a) && !TakesLock(c, a, l) && !DropsLock(s, c, a, l)
    ensures (l in s'.locks <==> l in s.locks) && (l in s.locks ==> s'.locks[l] == s.locks[l])
  {
  }

  /** Over every run, a spinlock is taken only when it is free, by the processor that asks for
      it, and is released only by the processor that has it; no other changes hands. */
  lemma LocksPass(states: seq<Sys>, moves: seq<Move>, n: nat, l: Lock)
    requires SchedRuns.Run(states, moves) && Boot(states[0]) && n < |moves|
    ensures TakesLock(moves[n].c, moves[n].a, l) ==> l !in states[n].locks && HeldBy(states[n + 1], l, moves[n].c)
    ensures DropsLock(states[n], moves[n].c, moves[n].a, l) ==> HeldBy(states[n], l, moves[n].c) && l !in states[n + 1].locks
    ensures !TakesLock(moves[n].c, moves[n].a, l) && !DropsLock(states[n], moves[n].c, moves[n].a, l) ==>
              (l in states[n + 1].locks <==> l in states[n].locks) && (l in states[n].locks ==> states[n + 1].locks[l] == states[n].locks[l])
  {
    var s, s', c, a := states[n], states[n + 1], moves[n].c, moves[n].a;
    assert Step(s, s', c, a) by { assert StepAt(states, moves, n); }
    if TakesLock(c, a, l) {
      TakeStep(s, s', c, a, l);
    } else if DropsLock(s, c, a, l) {
      assert c < |s.cpus|;
      assert LocksOk(s, c) by { RunInv(states, moves, n); assert CpuOk(s, c); }
      DropStep(s, s', c, a, l);
    } else if UsesLocks(a) {
      KeepStep(s, s', c, a, l);
    } else {
      SameLocks(s, s', c, a);
    }
  }
}
