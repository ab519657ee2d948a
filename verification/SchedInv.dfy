/** What every step of the thread system keeps: each thread is in one place, only its own
    processor can run it, and interrupt levels are counted. */
module SchedInv {
  import opened Spl
  import opened Sched

  ghost predicate NoDup(l: seq<nat>) {
    forall i, j :: 0 <= i < j < |l| ==> l[i] != l[j]
  }

  /** The processor holds its own run queue lock. */
  predicate HoldsRunq(base: Base) {
    base.Locked? || base == Queued || base == Landing
  }

  function Hand(op: Op): seq<nat> {
    if op.Waking? then op.list else if op.Sending? then op.victims else []
  }

  /** A thread on processor c's run queue: ready, and belonging to c. */
  ghost predicate OnRunqOk(s: Sys, c: nat, t: nat) {
    t in s.threads && t in s.place && s.place[t] == OnRunq(c) && s.threads[t].state == Ready && s.threads[t].cpu == c
  }

  ghost predicate OnZombiesOk(s: Sys, c: nat, t: nat) {
    t in s.threads && t in s.place && s.place[t] == OnZombies(c) && s.threads[t].state == Zombie && s.threads[t].cpu == c
  }

  /** Being made runnable, or a victim of migration. */
  ghost predicate InHandOk(s: Sys, c: nat, t: nat) {
    && t in s.threads && t in s.place && s.place[t] == InHand(c) && s.threads[t].state in {Ready, Sleep}
    && c < |s.cpus| && (s.cpus[c].op.Sending? ==> s.threads[t].state == Ready && s.threads[t].cpu == c)
  }

  ghost predicate OnChanOk(s: Sys, w: nat, t: nat) {
    t in s.threads && t in s.place && s.place[t] == OnChan(w) && s.threads[t].state == Sleep
  }

  ghost predicate RunqOk(s: Sys, c: nat)
    requires c < |s.cpus|
  {
    NoDup(s.cpus[c].runq) && forall t :: t in s.cpus[c].runq ==> OnRunqOk(s, c, t)
  }

  ghost predicate ZombiesOk(s: Sys, c: nat)
    requires c < |s.cpus|
  {
    NoDup(s.cpus[c].zombies) && forall t :: t in s.cpus[c].zombies ==> OnZombiesOk(s, c, t)
  }

  ghost predicate HandOk(s: Sys, c: nat)
    requires c < |s.cpus|
  {
    && NoDup(Hand(s.cpus[c].op)) && (forall t :: t in Hand(s.cpus[c].op) ==> InHandOk(s, c, t))
    && (s.cpus[c].op.Waking? ==> s.cpus[c].op.list != [])
  }

  /** The current thread belongs to its processor; it is on a list only if the processor is
      idle, or between queueing it and taking the next. */
  ghost predicate CurOk(s: Sys, c: nat)
    requires c < |s.cpus|
  {
    var cpu := s.cpus[c];
    && cpu.cur in s.threads && cpu.cur in s.place && s.threads[cpu.cur].cpu == c
    && (cpu.isidle <==> cpu.base == Queued || cpu.base == Idle)
    && (!cpu.isidle ==> s.place[cpu.cur] == OnCpu(c) && s.threads[cpu.cur].state == if cpu.base == Landing then Ready else Run)
  }

  ghost predicate HeldBy(s: Sys, l: Lock, c: nat) {
    l in s.locks && s.locks[l] == c
  }

  ghost function HeldSet(s: Sys, c: nat): set<Lock> {
    set l | l in s.locks && s.locks[l] == c
  }

  /** The run queue lock is the processor's own from queueing the old thread to releasing it
      in the new; c_spinlocks counts the locks held. */
  ghost predicate LocksOk(s: Sys, c: nat)
    requires c < |s.cpus|
  {
    var cpu := s.cpus[c];
    && (HoldsRunq(cpu.base) <==> RunQ(c) in s.locks) && (RunQ(c) in s.locks ==> s.locks[RunQ(c)] == c)
    && cpu.spinlocks == |HeldSet(s, c)|
    && (cpu.base == Queued || cpu.base == Landing ==> cpu.spinlocks == 1)
    && (cpu.base == Exorcising ==> cpu.spinlocks == 0)
    && (cpu.base.Locked? ==> if cpu.base.ns.ToSleep? then cpu.spinlocks == 2 && HoldsChan(s, c, cpu.base.ns.w) else cpu.spinlocks == 1)
    && (cpu.op.Counting? || cpu.op.Taking? || cpu.op.Sending? ==> cpu.spinlocks == 0)
    && (cpu.op != NoOp ==> cpu.base == Running || cpu.base == Idle)
  }

  /** The count is the level's and the spinlocks', and interrupts go with it. */
  ghost predicate LevelOk(s: Sys, c: nat)
    requires c < |s.cpus|
  {
    var cpu := s.cpus[c];
    Wf(s, c) && Counted(LevelOf(s, c), cpu.spinlocks) && (cpu.base != Running ==> LevelOf(s, c).high)
  }

  /** Migration never takes more than its queue has, nor sends more than it took. */
  ghost predicate MigrateOk(s: Sys, c: nat)
    requires c < |s.cpus|
  {
    match s.cpus[c].op
    case Counting(i, _, mine) => mine <= |s.cpus[c].runq| && i <= |s.cpus| && (i <= c ==> mine == 0)
    case Taking(toSend, share) => toSend + share <= |s.cpus[c].runq|
    case Sending(_, toSend, share, victims) => toSend <= |victims| && share <= |s.cpus[c].runq|
    case _ => true
  }

  ghost predicate CpuOk(s: Sys, c: nat)
    requires c < |s.cpus|
  {
    RunqOk(s, c) && ZombiesOk(s, c) && HandOk(s, c) && CurOk(s, c) && LocksOk(s, c) && LevelOk(s, c) && MigrateOk(s, c)
  }

  ghost predicate ChanOk(s: Sys, w: nat)
    requires w < |s.chans|
  {
    NoDup(s.chans[w].sleepers) && forall t :: t in s.chans[w].sleepers ==> OnChanOk(s, w, t)
  }

  /** The thread is where its place says. */
  ghost predicate IsAt(s: Sys, t: nat, p: Place) {
    match p
    case OnRunq(c) => c < |s.cpus| && t in s.cpus[c].runq
    case OnZombies(c) => c < |s.cpus| && t in s.cpus[c].zombies
    case InHand(c) => c < |s.cpus| && t in Hand(s.cpus[c].op)
    case OnChan(w) => w < |s.chans| && t in s.chans[w].sleepers
    case OnCpu(c) => c < |s.cpus| && s.cpus[c].cur == t && !s.cpus[c].isidle
  }

  /** A thread that is no processor's current one was switched out holding its level and a
      run queue lock's count, or was made as if it had been. */
  ghost predicate ThreadOk(s: Sys, t: nat)
    requires t in s.threads
  {
    && t in s.place && IsAt(s, t, s.place[t]) && s.threads[t].cpu < |s.cpus|
    && (s.cpus[s.threads[t].cpu].cur != t ==> s.threads[t].high && s.threads[t].count == 2)
  }

  ghost predicate Inv(s: Sys) {
    && (forall c: nat :: c < |s.cpus| ==> CpuOk(s, c))
    && (forall w: nat :: w < |s.chans| ==> ChanOk(s, w))
    && (forall t :: t in s.threads ==> ThreadOk(s, t))
    && (forall c: nat :: RunQ(c) in s.locks ==> c < |s.cpus|)
  }

  // ---------------------------------------------------------------- what it means

  /** No two processors are on one stack. */
  lemma OwnStack(s: Sys, c: nat, d: nat)
    requires Inv(s) && c < |s.cpus| && d < |s.cpus| && c != d
    ensures s.cpus[c].cur != s.cpus[d].cur
  {
    assert CpuOk(s, c) && CpuOk(s, d);
  }

  /** Nor can a processor be handed a thread another is executing on: the run queues of
      others never have it. */
  lemma NotHanded(s: Sys, c: nat, d: nat)
    requires Inv(s) && c < |s.cpus| && d < |s.cpus| && c != d
    ensures s.cpus[c].cur !in s.cpus[d].runq
  {
    assert CpuOk(s, c) && CpuOk(s, d);
  }

  /** A thread is on at most one of all the lists there are. */
  lemma OneList(s: Sys, t: nat, p: Place, q: Place)
    requires Inv(s) && IsAt(s, t, p) && IsAt(s, t, q)
    ensures p == q
  {
    PlaceOf(s, t, p);
    PlaceOf(s, t, q);
  }

  lemma PlaceOf(s: Sys, t: nat, p: Place)
    requires Inv(s) && IsAt(s, t, p)
    ensures t in s.place && s.place[t] == p
  {
    match p
    case OnChan(w) => assert ChanOk(s, w) && OnChanOk(s, w, t);
    case OnRunq(c) => assert CpuOk(s, c) && OnRunqOk(s, c, t);
    case OnZombies(c) => assert CpuOk(s, c) && OnZombiesOk(s, c, t);
    case InHand(c) => assert CpuOk(s, c) && InHandOk(s, c, t);
    case OnCpu(c) => assert CpuOk(s, c);
  }

  /** A current thread that is on a list at all is that of an idle processor. */
  lemma OnListOnlyIdle(s: Sys, c: nat, p: Place)
    requires Inv(s) && c < |s.cpus| && IsAt(s, s.cpus[c].cur, p) && !p.OnCpu?
    ensures s.cpus[c].isidle
  {
    PlaceOf(s, s.cpus[c].cur, p);
    assert CpuOk(s, c);
  }
}
