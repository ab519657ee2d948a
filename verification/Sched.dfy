/** The multiprocessor thread system of kern/thread/thread.c as a step system: run queues,
    wait channels, zombies, context switches, idling, wakeups, forks and migration. */
module Sched {
  import opened Spl

  datatype TState = Ready | Run | Sleep | Zombie

  /** struct thread; saved is the local spl of its thread_switch, the level to return to. */
  datatype Thread = Thread(cpu: nat, state: TState, high: bool, count: nat, saved: bool)

  /** The argument of thread_switch. */
  datatype NewState = ToReady | ToSleep(w: nat) | ToZombie

  /** Where a processor is in thread_switch: outside; with the run queue lock taken;
      with the old thread queued, looking for the next; in cpu_idle; just switched to the
      next; past releasing the lock. */
  datatype Base = Running | Locked(ns: NewState) | Queued | Idle | Landing | Exorcising

  /** What it is doing besides: making threads runnable one by one, or a phase of
      thread_consider_migration. */
  datatype Op =
    | NoOp
    | Waking(list: seq<nat>)
    | Counting(i: nat, total: nat, mine: nat)
    | Taking(toSend: nat, share: nat)
    | Sending(i: nat, toSend: nat, share: nat, victims: seq<nat>)

  /** struct cpu; cur is c_curthread, on whose stack the processor executes. */
  datatype Cpu = Cpu(cur: nat, isidle: bool, runq: seq<nat>, zombies: seq<nat>, spinlocks: nat, irq: bool, base: Base, op: Op)

  /** A wait channel and the number of its spinlock. */
  datatype Chan = Chan(lock: nat, sleepers: seq<nat>)

  datatype Lock = RunQ(c: nat) | Other(n: nat)

  datatype Place = OnRunq(c: nat) | OnChan(w: nat) | OnZombies(c: nat) | InHand(c: nat) | OnCpu(c: nat)

  /** locks has the spinlocks held and the processors holding them; place says where each
      thread is. */
  datatype Sys = Sys(cpus: seq<Cpu>, threads: map<nat, Thread>, chans: seq<Chan>, locks: map<Lock, nat>, place: map<nat, Place>)

  // ---------------------------------------------------------------- interrupt levels

  ghost predicate Wf(s: Sys, c: nat) {
    c < |s.cpus| && s.cpus[c].cur in s.threads
  }

  function LevelOf(s: Sys, c: nat): Level
    requires Wf(s, c)
  {
    var t := s.threads[s.cpus[c].cur];
    Level(t.high, t.count, s.cpus[c].irq)
  }

  /** The current thread's level, the processor's spinlock count and where it is, changed. */
  function At(s: Sys, c: nat, l: Level, spinlocks: nat, base: Base): Sys
    requires Wf(s, c)
  {
    var cur := s.cpus[c].cur;
    s.(cpus := s.cpus[c := s.cpus[c].(spinlocks := spinlocks, irq := l.irq, base := base)],
       threads := s.threads[cur := s.threads[cur].(high := l.high, count := l.count)])
  }

  function WithOp(s: Sys, c: nat, op: Op): Sys
    requires c < |s.cpus|
  {
    s.(cpus := s.cpus[c := s.cpus[c].(op := op)])
  }

  function WithRunq(s: Sys, c: nat, runq: seq<nat>): Sys
    requires c < |s.cpus|
  {
    s.(cpus := s.cpus[c := s.cpus[c].(runq := runq)])
  }

  /** Thread code or an interrupt handler may run: not inside thread_switch, or in cpu_idle
      with an interrupt taken. */
  predicate Free(s: Sys, c: nat) {
    c < |s.cpus| && s.cpus[c].op == NoOp && (s.cpus[c].base == Running || s.cpus[c].base == Idle)
  }

  // ---------------------------------------------------------------- spl and spinlocks

  ghost predicate SetSpl(s: Sys, s': Sys, c: nat, high: bool) {
    && Wf(s, c) && s.cpus[c].base == Running && s.cpus[c].op == NoOp
    && var l := LevelOf(s, c);
       (l.high ==> l.count > 0) && s' == At(s, c, AtLevel(l, high), s.cpus[c].spinlocks, Running)
  }

  ghost predicate Acquire(s: Sys, s': Sys, c: nat, n: nat) {
    && Wf(s, c) && Free(s, c) && Other(n) !in s.locks
    && s' == At(s, c, Raised(LevelOf(s, c)), s.cpus[c].spinlocks + 1, s.cpus[c].base).(locks := s.locks[Other(n) := c])
  }

  ghost predicate Release(s: Sys, s': Sys, c: nat, n: nat) {
    && Wf(s, c) && Free(s, c) && Other(n) in s.locks && s.locks[Other(n)] == c
    && s.cpus[c].spinlocks > 0 && LevelOf(s, c).count > 0
    && s' == At(s, c, Lowered(LevelOf(s, c)), s.cpus[c].spinlocks - 1, s.cpus[c].base).(locks := s.locks - {Other(n)})
  }

  // ---------------------------------------------------------------- thread_switch

  /** What callers of thread_switch must not hold: no spinlock to yield or exit; to sleep,
      only the wait channel's. */
  ghost predicate MaySwitch(s: Sys, c: nat, ns: NewState)
    requires c < |s.cpus|
  {
    match ns
    case ToSleep(w) =>
      && w < |s.chans| && s.cpus[c].spinlocks == 1
      && Other(s.chans[w].lock) in s.locks && s.locks[Other(s.chans[w].lock)] == c
    case _ => s.cpus[c].spinlocks == 0
  }

  /** splhigh, and the run queue lock. */
  ghost predicate SwitchStart(s: Sys, s': Sys, c: nat, ns: NewState) {
    && Wf(s, c) && s.cpus[c].base == Running && s.cpus[c].op == NoOp && MaySwitch(s, c, ns) && RunQ(c) !in s.locks
    && var l := LevelOf(s, c);
       var cur := s.cpus[c].cur;
       && (l.high ==> l.count > 0)
       && var s1 := At(s, c, Raised(AtLevel(l, true)), s.cpus[c].spinlocks + 1, Locked(ns));
          s' == s1.(locks := s.locks[RunQ(c) := c], threads := s1.threads[cur := s1.threads[cur].(saved := l.high)])
  }

  /** Nothing else to run: return from a yield at once. */
  ghost predicate SwitchBack(s: Sys, s': Sys, c: nat) {
    && Wf(s, c) && s.cpus[c].base == Locked(ToReady) && s.cpus[c].runq == []
    && s.cpus[c].spinlocks > 0 && LevelOf(s, c).count > 1
    && s' == At(s, c, AtLevel(Lowered(LevelOf(s, c)), s.threads[s.cpus[c].cur].saved), s.cpus[c].spinlocks - 1, Running)
             .(locks := s.locks - {RunQ(c)})
  }

  ghost predicate Enqueue(s: Sys, s': Sys, c: nat) {
    && Wf(s, c) && s.cpus[c].base.Locked?
    && var cur := s.cpus[c].cur;
       match s.cpus[c].base.ns
       case ToReady => s.cpus[c].runq != [] && s' == EnqueueReady(s, c)
       case ToSleep(w) =>
         && w < |s.chans| && s.cpus[c].spinlocks > 0 && LevelOf(s, c).count > 0
         && s' == EnqueueSleep(s, c, w)
       case ToZombie => s' == EnqueueZombie(s, c)
  }

  function InState(s: Sys, t: nat, st: TState, p: Place): Sys
    requires t in s.threads
  {
    s.(threads := s.threads[t := s.threads[t].(state := st)], place := s.place[t := p])
  }

  function EnqueueReady(s: Sys, c: nat): Sys
    requires Wf(s, c)
  {
    var cpu := s.cpus[c];
    InState(s, cpu.cur, Ready, OnRunq(c)).(cpus := s.cpus[c := cpu.(runq := cpu.runq + [cpu.cur], isidle := true, base := Queued)])
  }

  /** Onto the channel, and only then release its spinlock. */
  function EnqueueSleep(s: Sys, c: nat, w: nat): Sys
    requires Wf(s, c) && w < |s.chans| && s.cpus[c].spinlocks > 0 && LevelOf(s, c).count > 0
  {
    var cpu := s.cpus[c];
    var s1 := At(s, c, Lowered(LevelOf(s, c)), cpu.spinlocks - 1, Queued);
    InState(s1, cpu.cur, Sleep, OnChan(w)).(
      cpus := s1.cpus[c := s1.cpus[c].(isidle := true)],
      chans := s.chans[w := s.chans[w].(sleepers := s.chans[w].sleepers + [cpu.cur])],
      locks := s.locks - {Other(s.chans[w].lock)})
  }

  function EnqueueZombie(s: Sys, c: nat): Sys
    requires Wf(s, c)
  {
    var cpu := s.cpus[c];
    InState(s, cpu.cur, Zombie, OnZombies(c)).(cpus := s.cpus[c := cpu.(zombies := cpu.zombies + [cpu.cur], isidle := true, base := Queued)])
  }

  /** Nothing to run: release the run queue lock and wait for an interrupt. */
  ghost predicate GoIdle(s: Sys, s': Sys, c: nat) {
    && Wf(s, c) && s.cpus[c].base == Queued && s.cpus[c].runq == [] && s.cpus[c].spinlocks > 0 && LevelOf(s, c).count > 0
    && s' == At(s, c, Lowered(LevelOf(s, c)), s.cpus[c].spinlocks - 1, Idle).(locks := s.locks - {RunQ(c)})
  }

  /** Back from cpu_idle, any interrupt handler done. */
  ghost predicate Unidle(s: Sys, s': Sys, c: nat) {
    && Wf(s, c) && s.cpus[c].base == Idle && s.cpus[c].op == NoOp && s.cpus[c].spinlocks == 0 && RunQ(c) !in s.locks
    && s' == At(s, c, Raised(LevelOf(s, c)), 1, Queued).(locks := s.locks[RunQ(c) := c])
  }

  /** Take the next thread and switch to its stack, still holding the run queue lock. */
  ghost predicate Pick(s: Sys, s': Sys, c: nat) {
    && c < |s.cpus| && s.cpus[c].base == Queued && s.cpus[c].runq != []
    && var cpu := s.cpus[c];
       s' == s.(cpus := s.cpus[c := cpu.(cur := cpu.runq[0], runq := cpu.runq[1..], isidle := false, base := Landing)],
                place := s.place[cpu.runq[0] := OnCpu(c)])
  }

  /** In the new thread, in thread_switch or thread_startup: running, and the lock that the
      old thread took is released. */
  ghost predicate Land(s: Sys, s': Sys, c: nat) {
    && Wf(s, c) && s.cpus[c].base == Landing && s.cpus[c].spinlocks > 0 && LevelOf(s, c).count > 0
    && var s1 := At(s, c, Lowered(LevelOf(s, c)), s.cpus[c].spinlocks - 1, Exorcising);
       var cur := s.cpus[c].cur;
       s' == s1.(threads := s1.threads[cur := s1.threads[cur].(state := Run)], locks := s.locks - {RunQ(c)})
  }

  /** Destroy one zombie. */
  ghost predicate Exorcise(s: Sys, s': Sys, c: nat) {
    && Wf(s, c) && s.cpus[c].base == Exorcising && s.cpus[c].zombies != []
    && var cpu := s.cpus[c];
       s' == s.(cpus := s.cpus[c := cpu.(zombies := cpu.zombies[1..])],
                threads := s.threads - {cpu.zombies[0]}, place := s.place - {cpu.zombies[0]})
  }

  /** No more zombies: back to the level saved, or for a new thread to none. */
  ghost predicate LandDone(s: Sys, s': Sys, c: nat) {
    && Wf(s, c) && s.cpus[c].base == Exorcising && s.cpus[c].zombies == []
    && (LevelOf(s, c).high ==> LevelOf(s, c).count > 0)
    && s' == At(s, c, AtLevel(LevelOf(s, c), s.threads[s.cpus[c].cur].saved), s.cpus[c].spinlocks, Running)
  }

  // ---------------------------------------------------------------- making threads runnable

  /** thread_fork at its call of thread_make_runnable. The new thread has the number d of the
      processor its parent was on when it copied t_cpu, which the parent may have left since.
      A new thread comes out of its first switch releasing a run queue lock it did not take,
      and its count allows for that. */
  ghost predicate Fork(s: Sys, s': Sys, c: nat, t: nat, d: nat) {
    && Wf(s, c) && s.cpus[c].base == Running && s.cpus[c].op == NoOp && t !in s.threads && d < |s.cpus|
    && s' == WithOp(s, c, Waking([t])).(
         threads := s.threads[t := Thread(d, Ready, true, 1 + 1, false)],
         place := s.place[t := InHand(c)])
  }

  ghost predicate HoldsChan(s: Sys, c: nat, w: nat) {
    w < |s.chans| && Other(s.chans[w].lock) in s.locks && s.locks[Other(s.chans[w].lock)] == c
  }

  /** wchan_wakeone: the first sleeper, if any, comes off the channel. */
  ghost predicate WakeOne(s: Sys, s': Sys, c: nat, w: nat) {
    && Free(s, c) && HoldsChan(s, c, w)
    && var l := s.chans[w].sleepers;
       s' == if l == [] then s else
         WithOp(s, c, Waking([l[0]])).(chans := s.chans[w := s.chans[w].(sleepers := l[1..])], place := s.place[l[0] := InHand(c)])
  }

  /** wchan_wakeall: all of them move to a private list. */
  ghost predicate WakeAll(s: Sys, s': Sys, c: nat, w: nat) {
    && Free(s, c) && HoldsChan(s, c, w)
    && var l := s.chans[w].sleepers;
       s' == WithOp(s, c, if l == [] then NoOp else Waking(l)).(
               chans := s.chans[w := s.chans[w].(sleepers := [])],
               place := map t | t in s.place :: if t in l then InHand(c) else s.place[t])
  }

  function Rest(list: seq<nat>): Op
    requires list != []
  {
    if |list| == 1 then NoOp else Waking(list[1..])
  }

  /** thread_make_runnable for the first of them. */
  ghost predicate MakeRunnable(s: Sys, s': Sys, c: nat) {
    && c < |s.cpus| && s.cpus[c].op.Waking? && s.cpus[c].op.list != []
    && var t := s.cpus[c].op.list[0];
       && t in s.threads && s.threads[t].cpu < |s.cpus| && RunQ(s.threads[t].cpu) !in s.locks
       && var d := s.threads[t].cpu;
          var s1 := WithOp(s, c, Rest(s.cpus[c].op.list));
          s' == InState(WithRunq(s1, d, s1.cpus[d].runq + [t]), t, Ready, OnRunq(d))
  }

  // ---------------------------------------------------------------- migration

  function DivRoundUp(a: nat, b: nat): nat
    requires b > 0
  {
    (a + b - 1) / b
  }

  /** hardclock's call of thread_consider_migration, with no spinlock held. */
  ghost predicate MigrateStart(s: Sys, s': Sys, c: nat) {
    && Wf(s, c) && Free(s, c) && s.cpus[c].spinlocks == 0 && s.threads[s.cpus[c].cur].high
    && s' == WithOp(s, c, Counting(0, 0, 0))
  }

  ghost predicate CountOne(s: Sys, s': Sys, c: nat) {
    && c < |s.cpus| && s.cpus[c].op.Counting? && s.cpus[c].op.i < |s.cpus| && RunQ(s.cpus[c].op.i) !in s.locks
    && var o := s.cpus[c].op;
       var n := |s.cpus[o.i].runq|;
       s' == WithOp(s, c, Counting(o.i + 1, o.total + n, if o.i == c then n else o.mine))
  }

  ghost predicate CountDone(s: Sys, s': Sys, c: nat) {
    && c < |s.cpus| && s.cpus[c].op.Counting? && s.cpus[c].op.i == |s.cpus|
    && var o := s.cpus[c].op;
       var share := DivRoundUp(o.total, |s.cpus|);
       s' == WithOp(s, c, if o.mine < share then NoOp else Taking(o.mine - share, share))
  }

  ghost predicate TakeVictims(s: Sys, s': Sys, c: nat) {
    && c < |s.cpus| && s.cpus[c].op.Taking? && RunQ(c) !in s.locks
    && var o := s.cpus[c].op;
       && o.toSend <= |s.cpus[c].runq|
       && var k := |s.cpus[c].runq| - o.toSend;
          var v := s.cpus[c].runq[k..];
          s' == WithOp(WithRunq(s, c, s.cpus[c].runq[..k]), c, Sending(0, o.toSend, o.share, v)).(
                  place := map t | t in s.place :: if t in v then InHand(c) else s.place[t])
  }

  datatype Pushed = Pushed(victims: seq<nat>, queue: seq<nat>, toSend: nat)

  /** The inner loop of the sending phase; None when it would take a thread from an empty
      list of victims. */
  datatype MaybePushed = Null | Did(p: Pushed)

  function Push(cur: nat, share: nat, v: seq<nat>, q: seq<nat>, k: nat): MaybePushed
    decreases k
  {
    if k == 0 || |q| >= share then Did(Pushed(v, q, k))
    else if v == [] then Null
    else if v[0] == cur then Push(cur, share, v[1..] + [cur], q, k - 1)
    else Push(cur, share, v[1..], q + [v[0]], k - 1)
  }

  /** Skipping ourselves. */
  ghost predicate SendSkip(s: Sys, s': Sys, c: nat) {
    && c < |s.cpus| && s.cpus[c].op.Sending? && s.cpus[c].op.i == c && s.cpus[c].op.toSend > 0
    && s' == WithOp(s, c, s.cpus[c].op.(i := c + 1))
  }

  /** Sending to processor i, under its run queue lock. */
  ghost predicate SendOne(s: Sys, s': Sys, c: nat) {
    && c < |s.cpus| && s.cpus[c].op.Sending? && s.cpus[c].op.i < |s.cpus| && s.cpus[c].op.i != c
    && s.cpus[c].op.toSend > 0 && RunQ(s.cpus[c].op.i) !in s.locks
    && var o := s.cpus[c].op;
       var r := Push(s.cpus[c].cur, o.share, o.victims, s.cpus[o.i].runq, o.toSend);
       r.Did? && s' == Sent(s, c, r.p)
  }

  function Sent(s: Sys, c: nat, p: Pushed): Sys
    requires c < |s.cpus| && s.cpus[c].op.Sending? && s.cpus[c].op.i < |s.cpus|
  {
    var o := s.cpus[c].op;
    var moved := p.queue[if |s.cpus[o.i].runq| <= |p.queue| then |s.cpus[o.i].runq| else |p.queue|..];
    WithOp(WithRunq(s, o.i, p.queue), c, Sending(o.i + 1, p.toSend, o.share, p.victims)).(
      threads := map t | t in s.threads :: if t in moved then s.threads[t].(cpu := o.i) else s.threads[t],
      place := map t | t in s.place :: if t in moved then OnRunq(o.i) else s.place[t])
  }

  /** Leftovers go back on our own queue. */
  ghost predicate PutBack(s: Sys, s': Sys, c: nat) {
    && c < |s.cpus| && s.cpus[c].op.Sending? && (s.cpus[c].op.i >= |s.cpus| || s.cpus[c].op.toSend == 0)
    && var v := s.cpus[c].op.victims;
       && (v != [] ==> RunQ(c) !in s.locks)
       && s' == WithOp(WithRunq(s, c, s.cpus[c].runq + v), c, NoOp).(
                  place := map t | t in s.place :: if t in v then OnRunq(c) else s.place[t])
  }

  // ---------------------------------------------------------------- all steps

  datatype Action =
    | DoSetSpl(high: bool) | DoAcquire(n: nat) | DoRelease(n: nat)
    | DoSwitchStart(ns: NewState) | DoSwitchBack | DoEnqueue | DoGoIdle | DoUnidle | DoPick | DoLand | DoExorcise | DoLandDone
    | DoFork(t: nat, d: nat) | DoWakeOne(w: nat) | DoWakeAll(w: nat) | DoMakeRunnable
    | DoMigrateStart | DoCountOne | DoCountDone | DoTakeVictims | DoSendSkip | DoSendOne | DoPutBack

  /** A step of processor c. */
  ghost predicate Step(s: Sys, s': Sys, c: nat, a: Action) {
    match a
    case DoSetSpl(high) => SetSpl(s, s', c, high)
    case DoAcquire(n) => Acquire(s, s', c, n)
    case DoRelease(n) => Release(s, s', c, n)
    case DoSwitchStart(ns) => SwitchStart(s, s', c, ns)
    case DoSwitchBack => SwitchBack(s, s', c)
    case DoEnqueue => Enqueue(s, s', c)
    case DoGoIdle => GoIdle(s, s', c)
    case DoUnidle => Unidle(s, s', c)
    case DoPick => Pick(s, s', c)
    case DoLand => Land(s, s', c)
    case DoExorcise => Exorcise(s, s', c)
    case DoLandDone => LandDone(s, s', c)
    case DoFork(t, d) => Fork(s, s', c, t, d)
    case DoWakeOne(w) => WakeOne(s, s', c, w)
    case DoWakeAll(w) => WakeAll(s, s', c, w)
    case DoMakeRunnable => MakeRunnable(s, s', c)
    case DoMigrateStart => MigrateStart(s, s', c)
    case DoCountOne => CountOne(s, s', c)
    case DoCountDone => CountDone(s, s', c)
    case DoTakeVictims => TakeVictims(s, s', c)
    case DoSendSkip => SendSkip(s, s', c)
    case DoSendOne => SendOne(s, s', c)
    case DoPutBack => PutBack(s, s', c)
  }
}
