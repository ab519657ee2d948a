/** Each step of the thread system keeps the invariant. */
module SchedSteps {
  import opened Spl
  import opened Sched
  import opened SchedInv

  // ---------------------------------------------------------------- locks

  lemma HeldAdd(s: Sys, s': Sys, l: Lock, c: nat)
    requires l !in s.locks && s'.locks == s.locks[l := c]
    ensures |HeldSet(s', c)| == |HeldSet(s, c)| + 1
    ensures forall d :: d != c ==> HeldSet(s', d) == HeldSet(s, d)
  {
    assert HeldSet(s', c) == HeldSet(s, c) + {l};
  }

  lemma HeldRemove(s: Sys, s': Sys, l: Lock, c: nat)
    requires l in s.locks && s.locks[l] == c && s'.locks == s.locks - {l}
    ensures |HeldSet(s', c)| == |HeldSet(s, c)| - 1
    ensures forall d :: d != c ==> HeldSet(s', d) == HeldSet(s, d)
  {
    assert l in HeldSet(s, c) && HeldSet(s', c) == HeldSet(s, c) - {l};
  }

  /** The locks of other processors are as they were. */
  ghost predicate OthersLocks(s: Sys, s': Sys, c: nat) {
    && (forall d: nat :: d != c ==> HeldSet(s', d) == HeldSet(s, d))
    && (forall l :: l in s.locks && s.locks[l] != c ==> l in s'.locks && s'.locks[l] == s.locks[l])
    && (forall l :: l in s'.locks && s'.locks[l] != c ==> l in s.locks && s'.locks[l] == s.locks[l])
    && (forall d: nat :: d != c ==> (RunQ(d) in s'.locks <==> RunQ(d) in s.locks))
  }

  // ---------------------------------------------------------------- steps that leave the lists alone

  /** Only processor c's level, locks and progress change, and its current thread's state
      if it is on no list. */
  ghost predicate LevelOnly(s: Sys, s': Sys, c: nat) {
    && Wf(s, c) && |s'.cpus| == |s.cpus| && s'.chans == s.chans && s'.place == s.place && s'.threads.Keys == s.threads.Keys
    && (forall d: nat :: d < |s.cpus| && d != c ==> s'.cpus[d] == s.cpus[d])
    && (var cpu, cpu' := s.cpus[c], s'.cpus[c];
        cpu' == cpu.(spinlocks := cpu'.spinlocks, irq := cpu'.irq, base := cpu'.base))
    && (forall t :: t in s.threads && t != s.cpus[c].cur ==> s'.threads[t] == s.threads[t])
    && (var T, T' := s.threads[s.cpus[c].cur], s'.threads[s.cpus[c].cur];
        T' == T.(high := T'.high, count := T'.count, saved := T'.saved, state := T'.state)
        && (s.cpus[c].isidle ==> T'.state == T.state))
    && OthersLocks(s, s', c)
  }

  lemma LevelOnlyLists(s: Sys, s': Sys, c: nat, d: nat)
    requires LevelOnly(s, s', c) && d < |s.cpus| && CpuOk(s, d) && CurOk(s, c)
    ensures RunqOk(s', d) && ZombiesOk(s', d) && HandOk(s', d) && MigrateOk(s', d)
  {
    forall t | t in s'.cpus[d].runq ensures OnRunqOk(s', d, t) { assert OnRunqOk(s, d, t); }
    forall t | t in s'.cpus[d].zombies ensures OnZombiesOk(s', d, t) { assert OnZombiesOk(s, d, t); }
    forall t | t in Hand(s'.cpus[d].op) ensures InHandOk(s', d, t) { assert InHandOk(s, d, t); }
  }

  lemma LevelOnlyChan(s: Sys, s': Sys, c: nat, w: nat)
    requires LevelOnly(s, s', c) && w < |s.chans| && ChanOk(s, w) && CurOk(s, c)
    ensures ChanOk(s', w)
  {
    forall t | t in s'.chans[w].sleepers ensures OnChanOk(s', w, t) { assert OnChanOk(s, w, t); }
  }

  /** Another processor is as it was. */
  lemma OtherCpu(s: Sys, s': Sys, c: nat, d: nat)
    requires LevelOnly(s, s', c) && d < |s.cpus| && d != c && CpuOk(s, d) && CpuOk(s, c)
    ensures CurOk(s', d) && LocksOk(s', d) && LevelOk(s', d)
  {
    assert s.cpus[d].cur != s.cpus[c].cur;
  }

  lemma ThreadsStay(s: Sys, s': Sys, c: nat)
    requires Inv(s) && LevelOnly(s, s', c)
    ensures forall t :: t in s'.threads ==> ThreadOk(s', t)
  {
    forall t | t in s'.threads ensures ThreadOk(s', t) {
      assert ThreadOk(s, t);
      assert CurOk(s, c) by { assert CpuOk(s, c); }
      assert IsAt(s', t, s'.place[t]) by { assert IsAt(s, t, s.place[t]); }
    }
  }

  /** Such a step keeps the invariant if it does so for the processor's own locks, level
      and current thread. */
  lemma LevelOnlyOk(s: Sys, s': Sys, c: nat)
    requires Inv(s) && LevelOnly(s, s', c)
    requires CurOk(s', c) && LocksOk(s', c) && LevelOk(s', c)
    requires forall d: nat :: RunQ(d) in s'.locks ==> d < |s.cpus|
    ensures Inv(s')
  {
    assert CpuOk(s, c);
    forall d: nat | d < |s'.cpus| ensures CpuOk(s', d) {
      assert CpuOk(s, d);
      LevelOnlyLists(s, s', c, d);
      if d != c { OtherCpu(s, s', c, d); }
    }
    forall w: nat | w < |s'.chans| ensures ChanOk(s', w) { LevelOnlyChan(s, s', c, w); }
    ThreadsStay(s, s', c);
  }

  lemma SetSplOk(s: Sys, s': Sys, c: nat, high: bool)
    requires Inv(s) && SetSpl(s, s', c, high)
    ensures Inv(s')
  {
    assert CpuOk(s, c);
    AtLevelCounted(LevelOf(s, c), s.cpus[c].spinlocks, high);
    assert forall d :: HeldSet(s', d) == HeldSet(s, d);
    LevelOnlyOk(s, s', c);
  }

  lemma AcquireOk(s: Sys, s': Sys, c: nat, n: nat)
    requires Inv(s) && Acquire(s, s', c, n)
    ensures Inv(s')
  {
    assert CpuOk(s, c);
    HeldAdd(s, s', Other(n), c);
    LevelOnlyOk(s, s', c);
  }

  lemma ReleaseOk(s: Sys, s': Sys, c: nat, n: nat)
    requires Inv(s) && Release(s, s', c, n)
    ensures Inv(s')
  {
    assert CpuOk(s, c);
    HeldRemove(s, s', Other(n), c);
    LevelOnlyOk(s, s', c);
  }

  lemma SwitchStartOk(s: Sys, s': Sys, c: nat, ns: NewState)
    requires Inv(s) && SwitchStart(s, s', c, ns)
    ensures Inv(s')
  {
    assert CpuOk(s, c);
    HeldAdd(s, s', RunQ(c), c);
    AtLevelCounted(LevelOf(s, c), s.cpus[c].spinlocks, true);
    LevelOnlyOk(s, s', c);
  }

  lemma SwitchBackOk(s: Sys, s': Sys, c: nat)
    requires Inv(s) && SwitchBack(s, s', c)
    ensures Inv(s')
  {
    assert CpuOk(s, c);
    HeldRemove(s, s', RunQ(c), c);
    LevelOnlyOk(s, s', c);
  }

  lemma GoIdleOk(s: Sys, s': Sys, c: nat)
    requires Inv(s) && GoIdle(s, s', c)
    ensures Inv(s')
  {
    assert CpuOk(s, c);
    HeldRemove(s, s', RunQ(c), c);
    LevelOnlyOk(s, s', c);
  }

  lemma UnidleOk(s: Sys, s': Sys, c: nat)
    requires Inv(s) && Unidle(s, s', c)
    ensures Inv(s')
  {
    assert CpuOk(s, c);
    HeldAdd(s, s', RunQ(c), c);
    LevelOnlyOk(s, s', c);
  }

  lemma LandOk(s: Sys, s': Sys, c: nat)
    requires Inv(s) && Land(s, s', c)
    ensures Inv(s')
  {
    assert CpuOk(s, c);
    HeldRemove(s, s', RunQ(c), c);
    LevelOnlyOk(s, s', c);
  }

  lemma LandDoneOk(s: Sys, s': Sys, c: nat)
    requires Inv(s) && LandDone(s, s', c)
    ensures Inv(s')
  {
    assert CpuOk(s, c);
    AtLevelCounted(LevelOf(s, c), 0, s.threads[s.cpus[c].cur].saved);
    assert forall d :: HeldSet(s', d) == HeldSet(s, d);
    LevelOnlyOk(s, s', c);
  }

  // ---------------------------------------------------------------- steps that move threads

  /** Nothing but the threads of m changes its record or its place. */
  ghost predicate Untouched(s: Sys, s': Sys, m: set<nat>) {
    && |s'.cpus| == |s.cpus| && |s'.chans| == |s.chans|
    && (forall u :: u in s.threads && u !in m ==> u in s'.threads && s'.threads[u] == s.threads[u])
    && (forall u :: u in s'.threads && u !in m ==> u in s.threads)
    && (forall u :: u in s.place && u !in m ==> u in s'.place && s'.place[u] == s.place[u])
  }

  /** None of m is on the list. */
  ghost predicate Apart(l: seq<nat>, m: set<nat>) {
    forall u :: u in l ==> u !in m
  }

  lemma RunqKept(s: Sys, s': Sys, d: nat, m: set<nat>)
    requires Untouched(s, s', m) && d < |s.cpus| && RunqOk(s, d)
    requires s'.cpus[d].runq == s.cpus[d].runq && Apart(s.cpus[d].runq, m)
    ensures RunqOk(s', d)
  {
    forall u | u in s'.cpus[d].runq ensures OnRunqOk(s', d, u) { assert OnRunqOk(s, d, u); }
  }

  lemma ZombiesKept(s: Sys, s': Sys, d: nat, m: set<nat>)
    requires Untouched(s, s', m) && d < |s.cpus| && ZombiesOk(s, d)
    requires s'.cpus[d].zombies == s.cpus[d].zombies && Apart(s.cpus[d].zombies, m)
    ensures ZombiesOk(s', d)
  {
    forall u | u in s'.cpus[d].zombies ensures OnZombiesOk(s', d, u) { assert OnZombiesOk(s, d, u); }
  }

  lemma HandKept(s: Sys, s': Sys, d: nat, m: set<nat>)
    requires Untouched(s, s', m) && d < |s.cpus| && HandOk(s, d)
    requires s'.cpus[d].op == s.cpus[d].op && Apart(Hand(s.cpus[d].op), m)
    ensures HandOk(s', d)
  {
    forall u | u in Hand(s'.cpus[d].op) ensures InHandOk(s', d, u) { assert InHandOk(s, d, u); }
  }

  lemma ChanKept(s: Sys, s': Sys, w: nat, m: set<nat>)
    requires Untouched(s, s', m) && w < |s.chans| && ChanOk(s, w)
    requires s'.chans[w].sleepers == s.chans[w].sleepers && Apart(s.chans[w].sleepers, m)
    ensures ChanOk(s', w)
  {
    forall u | u in s'.chans[w].sleepers ensures OnChanOk(s', w, u) { assert OnChanOk(s, w, u); }
  }

  /** The threads of m are all at the place p. */
  ghost predicate AllAt(s: Sys, m: set<nat>, p: Place) {
    forall t :: t in m ==> t in s.place && s.place[t] == p
  }

  /** The threads at one place are on no list but possibly its own. */
  lemma NotElsewhere(s: Sys, m: set<nat>, p: Place)
    requires Inv(s) && AllAt(s, m, p)
    ensures forall d: nat :: d < |s.cpus| && p != OnRunq(d) ==> Apart(s.cpus[d].runq, m)
    ensures forall d: nat :: d < |s.cpus| && p != OnZombies(d) ==> Apart(s.cpus[d].zombies, m)
    ensures forall d: nat :: d < |s.cpus| && p != InHand(d) ==> Apart(Hand(s.cpus[d].op), m)
    ensures forall w: nat :: w < |s.chans| && p != OnChan(w) ==> Apart(s.chans[w].sleepers, m)
    ensures forall d: nat :: d < |s.cpus| && p != OnCpu(d) && s.cpus[d].cur in m ==> s.cpus[d].isidle
  {
    forall d: nat, t | d < |s.cpus| && t in s.cpus[d].runq ensures t in s.place && s.place[t] == OnRunq(d) { PlaceOf(s, t, OnRunq(d)); }
    forall d: nat, t | d < |s.cpus| && t in s.cpus[d].zombies ensures t in s.place && s.place[t] == OnZombies(d) { PlaceOf(s, t, OnZombies(d)); }
    forall d: nat, t | d < |s.cpus| && t in Hand(s.cpus[d].op) ensures t in s.place && s.place[t] == InHand(d) { PlaceOf(s, t, InHand(d)); }
    forall w: nat, t | w < |s.chans| && t in s.chans[w].sleepers ensures t in s.place && s.place[t] == OnChan(w) { PlaceOf(s, t, OnChan(w)); }
    forall d: nat | d < |s.cpus| && p != OnCpu(d) && s.cpus[d].cur in m ensures s.cpus[d].isidle { assert CpuOk(s, d); }
  }

  /** If the processor's current thread is among those moved, the processor is idle and
      stays the thread's. */
  ghost predicate Parked(s: Sys, s': Sys, d: nat, m: set<nat>)
    requires d < |s.cpus|
  {
    var t := s.cpus[d].cur;
    t in m ==> s.cpus[d].isidle && t in s.threads && t in s'.threads && t in s'.place
               && s'.threads[t] == s.threads[t].(state := s'.threads[t].state)
  }

  /** Another processor d, in a step of c that does not touch its lists. */
  lemma FarCpuOk(s: Sys, s': Sys, d: nat, m: set<nat>)
    requires Untouched(s, s', m) && d < |s.cpus| && CpuOk(s, d) && s'.cpus[d] == s.cpus[d]
    requires Apart(s.cpus[d].runq, m) && Apart(s.cpus[d].zombies, m) && Apart(Hand(s.cpus[d].op), m) && Parked(s, s', d, m)
    requires HeldSet(s', d) == HeldSet(s, d) && (RunQ(d) in s'.locks <==> RunQ(d) in s.locks)
    requires RunQ(d) in s'.locks ==> s'.locks[RunQ(d)] == s.locks[RunQ(d)]
    requires forall w: nat :: w < |s.chans| && HoldsChan(s, d, w) ==> HoldsChan(s', d, w)
    ensures CpuOk(s', d)
  {
    RunqKept(s, s', d, m);
    ZombiesKept(s, s', d, m);
    HandKept(s, s', d, m);
  }

  lemma NoDupSplit(l: seq<nat>, r: seq<nat>)
    requires NoDup(l + r)
    ensures NoDup(l) && NoDup(r) && forall t :: t in l ==> t !in r
  {
    forall i, j | 0 <= i < |l| && 0 <= j < |r| ensures l[i] != r[j] { assert (l + r)[i] != (l + r)[|l| + j]; }
    forall i, j | 0 <= i < j < |l| ensures l[i] != l[j] { assert (l + r)[i] != (l + r)[j]; }
    forall i, j | 0 <= i < j < |r| ensures r[i] != r[j] { assert (l + r)[|l| + i] != (l + r)[|l| + j]; }
  }

  lemma NoDupJoin(l: seq<nat>, r: seq<nat>)
    requires NoDup(l) && NoDup(r) && forall t :: t in l ==> t !in r
    ensures NoDup(l + r)
  {
    var j := l + r;
    forall x, y | 0 <= x < y < |j| ensures j[x] != j[y] {
      if x < |l| && |l| <= y { assert j[x] in l && j[y] in r; }
    }
  }

  lemma NoDupPush(l: seq<nat>, t: nat)
    requires NoDup(l) && t !in l
    ensures NoDup(l + [t])
  {
  }
}
