/** The life of one thread: where each step of the thread system takes it, in whose company,
    and at what interrupt level it comes back. */
module SchedLife {
  import opened Spl
  import opened Sched
  import opened SchedInv
  import opened SchedMigrate
  import opened SchedRuns
  import opened Fifos

  // ---------------------------------------------------------------- places

  /** Where thread_switch puts the old thread. */
  function Destination(ns: NewState, c: nat): Place {
    match ns
    case ToReady => OnRunq(c)
    case ToSleep(w) => OnChan(w)
    case ToZombie => OnZombies(c)
  }

  predicate First(l: seq<nat>, t: nat) { l != [] && l[0] == t }

  /** Among the victims a migrating processor is about to take from the end of its queue. */
  predicate ToBeTaken(cpu: Sched.Cpu, t: nat) {
    cpu.op.Taking? && cpu.op.toSend <= |cpu.runq| && t in cpu.runq[|cpu.runq| - cpu.op.toSend..]
  }

  /** The life of a thread: from the place p, a step a of processor c takes t there. It leaves
      a processor to be ready, to sleep or to die as it asked to; a ready thread is run by its
      own processor or taken to migrate; a sleeper is taken off its channel by a wakeup of that
      channel; what a processor has in hand it puts on a run queue. */
  ghost function NextPlace(s: Sys, s': Sys, c: nat, a: Action, t: nat, p: Place): Place
    requires c < |s.cpus| == |s'.cpus|
  {
    var cpu := s.cpus[c];
    match a
    case DoEnqueue => if p == OnCpu(c) && cpu.base.Locked? then Destination(cpu.base.ns, c) else p
    case DoPick => if p == OnRunq(c) && First(cpu.runq, t) then OnCpu(c) else p
    case DoWakeOne(w) => if p == OnChan(w) && w < |s.chans| && First(s.chans[w].sleepers, t) then InHand(c) else p
    case DoWakeAll(w) => if p == OnChan(w) then InHand(c) else p
    case DoMakeRunnable => if p == InHand(c) && First(Hand(cpu.op), t) && t in s.threads then OnRunq(s.threads[t].cpu) else p
    case DoTakeVictims => if p == OnRunq(c) && ToBeTaken(cpu, t) then InHand(c) else p
    case DoSendOne => if p == InHand(c) && cpu.op.Sending? && t !in Hand(s'.cpus[c].op) then OnRunq(cpu.op.i) else p
    case DoPutBack => if p == InHand(c) then OnRunq(c) else p
    case _ => p
  }

  /** Only a zombie that is destroyed ceases to be. */
  ghost predicate Destroyed(s: Sys, c: nat, a: Action, t: nat) {
    a == DoExorcise && c < |s.cpus| && First(s.cpus[c].zombies, t)
  }

  lemma ProcessorsStay(s: Sys, s': Sys, c: nat, a: Action)
    requires Step(s, s', c, a)
    ensures c < |s.cpus| == |s'.cpus|
  {
  }

  lemma EnqueueLife(s: Sys, s': Sys, c: nat, t: nat, p: Place)
    requires Enqueue(s, s', c) && IsAt(s, t, p) && CurOk(s, c)
    ensures IsAt(s', t, NextPlace(s, s', c, DoEnqueue, t, p))
  {
  }

  lemma PickLife(s: Sys, s': Sys, c: nat, t: nat, p: Place)
    requires Pick(s, s', c) && IsAt(s, t, p) && CurOk(s, c)
    ensures IsAt(s', t, NextPlace(s, s', c, DoPick, t, p))
  {
    assert s.cpus[c].runq == [s.cpus[c].runq[0]] + s'.cpus[c].runq;
  }

  lemma ExorciseLife(s: Sys, s': Sys, c: nat, t: nat, p: Place)
    requires Exorcise(s, s', c) && IsAt(s, t, p) && t != s.cpus[c].zombies[0]
    ensures IsAt(s', t, NextPlace(s, s', c, DoExorcise, t, p))
  {
    assert s.cpus[c].zombies == [s.cpus[c].zombies[0]] + s'.cpus[c].zombies;
  }

  lemma ForkLife(s: Sys, s': Sys, c: nat, u: nat, d: nat, t: nat, p: Place)
    requires Fork(s, s', c, u, d) && IsAt(s, t, p)
    ensures IsAt(s', t, NextPlace(s, s', c, DoFork(u, d), t, p)) && IsAt(s', u, InHand(c))
  {
  }

  lemma WakeOneLife(s: Sys, s': Sys, c: nat, w: nat, t: nat, p: Place)
    requires WakeOne(s, s', c, w) && IsAt(s, t, p)
    ensures IsAt(s', t, NextPlace(s, s', c, DoWakeOne(w), t, p))
  {
    var l := s.chans[w].sleepers;
    if l != [] { assert l == [l[0]] + l[1..]; }
  }

  lemma WakeAllLife(s: Sys, s': Sys, c: nat, w: nat, t: nat, p: Place)
    requires WakeAll(s, s', c, w) && IsAt(s, t, p)
    ensures IsAt(s', t, NextPlace(s, s', c, DoWakeAll(w), t, p))
  {
  }

  lemma RunnableLife(s: Sys, s': Sys, c: nat, t: nat, p: Place)
    requires MakeRunnable(s, s', c) && IsAt(s, t, p)
    ensures IsAt(s', t, NextPlace(s, s', c, DoMakeRunnable, t, p))
  {
    var list := s.cpus[c].op.list;
    assert list == [list[0]] + list[1..];
  }

  lemma TakeLife(s: Sys, s': Sys, c: nat, t: nat, p: Place)
    requires TakeVictims(s, s', c) && IsAt(s, t, p)
    ensures IsAt(s', t, NextPlace(s, s', c, DoTakeVictims, t, p))
  {
    var k := |s.cpus[c].runq| - s.cpus[c].op.toSend;
    assert s.cpus[c].runq == s.cpus[c].runq[..k] + s.cpus[c].runq[k..];
  }

  lemma SendLife(s: Sys, s': Sys, c: nat, t: nat, p: Place)
    requires Inv(s) && SendOne(s, s', c) && IsAt(s, t, p)
    ensures IsAt(s', t, NextPlace(s, s', c, DoSendOne, t, p))
  {
    var o := s.cpus[c].op;
    assert CpuOk(s, c);
    PushSpec(s.cpus[c].cur, o.share, o.victims, s.cpus[o.i].runq, o.toSend);
    var r := Push(s.cpus[c].cur, o.share, o.victims, s.cpus[o.i].runq, o.toSend).p;
    assert r.queue == s.cpus[o.i].runq + r.queue[|s.cpus[o.i].runq|..];
  }

  lemma BackLife(s: Sys, s': Sys, c: nat, t: nat, p: Place)
    requires PutBack(s, s', c) && IsAt(s, t, p)
    ensures IsAt(s', t, NextPlace(s, s', c, DoPutBack, t, p))
  {
  }

  /** The steps that take a thread somewhere. */
  predicate Switches(a: Action) { a.DoEnqueue? || a.DoPick? || a.DoExorcise? || a.DoFork? }

  predicate Wakes(a: Action) { a.DoWakeOne? || a.DoWakeAll? || a.DoMakeRunnable? }

  predicate Migrates(a: Action) { a.DoTakeVictims? || a.DoSendOne? || a.DoPutBack? }

  lemma OtherLife(s: Sys, s': Sys, c: nat, a: Action, t: nat, p: Place) returns (q: Place)
    requires c < |s.cpus| == |s'.cpus| && Step(s, s', c, a) && IsAt(s, t, p) && CurOk(s, c)
    requires !Switches(a) && !Wakes(a) && !Migrates(a)
    ensures q == NextPlace(s, s', c, a, t, p) && IsAt(s', t, q)
  {
    q := p;
  }

  lemma SwitchLife(s: Sys, s': Sys, c: nat, a: Action, t: nat, p: Place) returns (q: Place)
    requires c < |s.cpus| == |s'.cpus| && Step(s, s', c, a) && IsAt(s, t, p) && CurOk(s, c) && !Destroyed(s, c, a, t) && Switches(a)
    ensures q == NextPlace(s, s', c, a, t, p) && IsAt(s', t, q)
  {
    q := NextPlace(s, s', c, a, t, p);
    match a
    case DoEnqueue => EnqueueLife(s, s', c, t, p);
    case DoPick => PickLife(s, s', c, t, p);
    case DoExorcise => ExorciseLife(s, s', c, t, p);
    case DoFork(u, d) => ForkLife(s, s', c, u, d, t, p);
  }

  lemma WakeLife(s: Sys, s': Sys, c: nat, a: Action, t: nat, p: Place) returns (q: Place)
    requires c < |s.cpus| == |s'.cpus| && Step(s, s', c, a) && IsAt(s, t, p) && Wakes(a)
    ensures q == NextPlace(s, s', c, a, t, p) && IsAt(s', t, q)
  {
    q := NextPlace(s, s', c, a, t, p);
    match a
    case DoWakeOne(w) => WakeOneLife(s, s', c, w, t, p);
    case DoWakeAll(w) => WakeAllLife(s, s', c, w, t, p);
    case DoMakeRunnable => RunnableLife(s, s', c, t, p);
  }

  lemma MigrateLife(s: Sys, s': Sys, c: nat, a: Action, t: nat, p: Place) returns (q: Place)
    requires c < |s.cpus| == |s'.cpus| && Inv(s) && Step(s, s', c, a) && IsAt(s, t, p) && Migrates(a)
    ensures q == NextPlace(s, s', c, a, t, p) && IsAt(s', t, q)
  {
    q := NextPlace(s, s', c, a, t, p);
    match a
    case DoTakeVictims => TakeLife(s, s', c, t, p);
    case DoSendOne => SendLife(s, s', c, t, p);
    case DoPutBack => BackLife(s, s', c, t, p);
  }

  /** Every step takes every thread along the life of a thread. */
  lemma LifeStep(s: Sys, s': Sys, c: nat, a: Action, t: nat, p: Place) returns (q: Place)
    requires c < |s.cpus| == |s'.cpus| && Inv(s) && Step(s, s', c, a) && IsAt(s, t, p) && !Destroyed(s, c, a, t)
    ensures q == NextPlace(s, s', c, a, t, p) && IsAt(s', t, q)
  {
    assert CurOk(s, c) by { assert CpuOk(s, c); }
    if Switches(a) {
      q := SwitchLife(s, s', c, a, t, p);
    } else if Wakes(a) {
      q := WakeLife(s, s', c, a, t, p);
    } else if Migrates(a) {
      q := MigrateLife(s, s', c, a, t, p);
    } else {
      q := OtherLife(s, s', c, a, t, p);
    }
  }

  /** A new thread is ready and belongs to the processor whose number it was given. */
  ghost predicate MadeFor(s: Sys, t: nat, d: nat) {
    t in s.threads && s.threads[t].cpu == d && s.threads[t].state == Ready
  }

  /** Over every run, a thread is after each step where its life takes it, and nowhere else;
      a zombie destroyed is no more; and a new thread is in the hand of the processor that
      makes it. */
  lemma EveryLife(states: seq<Sys>, moves: seq<Move>, n: nat, t: nat, p: Place, q: Place)
    requires SchedRuns.Run(states, moves) && Boot(states[0]) && n < |moves|
    requires IsAt(states[n], t, p)
    ensures moves[n].c < |states[n].cpus| == |states[n + 1].cpus|
    ensures if Destroyed(states[n], moves[n].c, moves[n].a, t) then t !in states[n + 1].threads
            else IsAt(states[n + 1], t, q) <==> q == NextPlace(states[n], states[n + 1], moves[n].c, moves[n].a, t, p)
    ensures moves[n].a.DoFork? ==> IsAt(states[n + 1], moves[n].a.t, InHand(moves[n].c)) && MadeFor(states[n + 1], moves[n].a.t, moves[n].a.d)
  {
    var s, s', c, a := states[n], states[n + 1], moves[n].c, moves[n].a;
    RunInv(states, moves, n);
    assert StepAt(states, moves, n);
    ProcessorsStay(s, s', c, a);
    if !Destroyed(s, c, a, t) {
      var r := LifeStep(s, s', c, a, t, p);
      RunInv(states, moves, n + 1);
      if IsAt(s', t, q) { OneList(s', t, q, r); }
    }
  }

  lemma MovedCpu(s: Sys, s': Sys, c: nat, t: nat)
    requires Inv(s) && SendOne(s, s', c) && t in s.threads && t in s'.threads && s'.threads[t].cpu != s.threads[t].cpu
    ensures IsAt(s, t, InHand(c)) && IsAt(s', t, OnRunq(s'.threads[t].cpu))
  {
    var o := s.cpus[c].op;
    assert CpuOk(s, c);
    PushSpec(s.cpus[c].cur, o.share, o.victims, s.cpus[o.i].runq, o.toSend);
    var r := Push(s.cpus[c].cur, o.share, o.victims, s.cpus[o.i].runq, o.toSend).p;
    assert r.queue == s.cpus[o.i].runq + r.queue[|s.cpus[o.i].runq|..];
  }

  lemma SameCpu(s: Sys, s': Sys, c: nat, a: Action, t: nat)
    requires Step(s, s', c, a) && t in s.threads && t in s'.threads && a != DoSendOne
    ensures s'.threads[t].cpu == s.threads[t].cpu
  {
  }

  /** Over every run, a thread changes processors only by migration: from the hand of the
      migrating processor to the run queue of its new one. */
  lemma MovesByMigration(states: seq<Sys>, moves: seq<Move>, n: nat, t: nat)
    requires SchedRuns.Run(states, moves) && Boot(states[0]) && n < |moves|
    requires t in states[n].threads && t in states[n + 1].threads && states[n + 1].threads[t].cpu != states[n].threads[t].cpu
    ensures moves[n].a == DoSendOne && IsAt(states[n], t, InHand(moves[n].c))
    ensures IsAt(states[n + 1], t, OnRunq(states[n + 1].threads[t].cpu))
  {
    assert Step(states[n], states[n + 1], moves[n].c, moves[n].a) by { assert StepAt(states, moves, n); }
    if moves[n].a != DoSendOne { SameCpu(states[n], states[n + 1], moves[n].c, moves[n].a, t); }
    RunInv(states, moves, n);
    MovedCpu(states[n], states[n + 1], moves[n].c, t);
  }

  // ---------------------------------------------------------------- sleeping and switching

  /** A wakeup of channel w by the holder of its spinlock. */
  ghost predicate WakesUp(s: Sys, m: Move, w: nat) {
    (m.a == DoWakeOne(w) || m.a == DoWakeAll(w)) && HoldsChan(s, m.c, w)
  }

  lemma SleeperStep(s: Sys, s': Sys, m: Move, t: nat, w: nat)
    requires Inv(s) && Step(s, s', m.c, m.a) && IsAt(s, t, OnChan(w))
    ensures IsAt(s', t, OnChan(w)) || (WakesUp(s, m, w) && IsAt(s', t, InHand(m.c)))
  {
    ProcessorsStay(s, s', m.c, m.a);
    if Destroyed(s, m.c, m.a, t) { OneList(s, t, OnChan(w), OnZombies(m.c)); }
    var q := LifeStep(s, s', m.c, m.a, t, OnChan(w));
  }

  /** Over every run, a thread that sleeps on a channel sleeps there until a wakeup of that
      channel takes it off. */
  lemma {:induction false} SleepsUntilWoken(states: seq<Sys>, moves: seq<Move>, i: nat, n: nat, t: nat, w: nat) returns (j: nat)
    requires SchedRuns.Run(states, moves) && Boot(states[0]) && i <= n < |states|
    requires IsAt(states[i], t, OnChan(w)) && !IsAt(states[n], t, OnChan(w))
    ensures i <= j < n && IsAt(states[j], t, OnChan(w)) && WakesUp(states[j], moves[j], w) && IsAt(states[j + 1], t, InHand(moves[j].c))
    decreases n - i
  {
    RunInv(states, moves, i);
    assert StepAt(states, moves, i);
    SleeperStep(states[i], states[i + 1], moves[i], t, w);
    j := i;
    if IsAt(states[i + 1], t, OnChan(w)) { j := SleepsUntilWoken(states, moves, i + 1, n, t, w); }
  }

  /** A step of another processor leaves a processor where it is. */
  lemma FarStays(s: Sys, s': Sys, c: nat, a: Action, d: nat)
    requires Step(s, s', c, a) && d < |s.cpus| && c != d
    ensures d < |s'.cpus| && s'.cpus[d].base == s.cpus[d].base && s'.cpus[d].cur == s.cpus[d].cur
  {
  }

  lemma NextIsQueueing(s: Sys, s': Sys, c: nat, a: Action)
    requires Step(s, s', c, a) && c < |s.cpus| && s.cpus[c].base.Locked? && s.cpus[c].op == NoOp
    ensures a == DoEnqueue || a == DoSwitchBack
  {
  }

  /** From i, where it starts to switch, to n processor c has yet to queue its thread. */
  ghost predicate Switching(states: seq<Sys>, moves: seq<Move>, c: nat, i: nat, n: nat, ns: NewState) {
    && i < n < |states| == |moves| + 1 && moves[i] == Move(c, DoSwitchStart(ns))
    && forall j: nat :: i < j < n && moves[j].c == c ==> moves[j].a != DoEnqueue && moves[j].a != DoSwitchBack
  }

  lemma {:induction false} SwitchingStays(states: seq<Sys>, moves: seq<Move>, c: nat, i: nat, n: nat, ns: NewState)
    requires SchedRuns.Run(states, moves) && Boot(states[0]) && Switching(states, moves, c, i, n, ns)
    ensures c < |states[i].cpus| && c < |states[n].cpus|
    ensures states[n].cpus[c].base == Locked(ns) && states[n].cpus[c].cur == states[i].cpus[c].cur
    decreases n
  {
    assert StepAt(states, moves, n - 1);
    if n > i + 1 {
      SwitchingStays(states, moves, c, i, n - 1, ns);
      RunInv(states, moves, n - 1);
      if moves[n - 1].c == c {
        assert LocksOk(states[n - 1], c) by { assert CpuOk(states[n - 1], c); }
        NextIsQueueing(states[n - 1], states[n], c, moves[n - 1].a);
      } else {
        FarStays(states[n - 1], states[n], moves[n - 1].c, moves[n - 1].a, c);
      }
    }
  }

  /** The thread is last of the list it was to go to. */
  ghost predicate LastAt(s: Sys, t: nat, p: Place) {
    match p
    case OnRunq(c) => c < |s.cpus| && Last(s.cpus[c].runq, t)
    case OnChan(w) => w < |s.chans| && Last(s.chans[w].sleepers, t)
    case OnZombies(c) => c < |s.cpus| && Last(s.cpus[c].zombies, t)
    case _ => false
  }

  predicate Last(l: seq<nat>, t: nat) { l != [] && l[|l| - 1] == t }

  /** Over every run: a thread that calls thread_switch is queued last where it asked to go,
      and nowhere else; a wait channel's spinlock is released then, and not before. */
  lemma SwitchDelivers(states: seq<Sys>, moves: seq<Move>, c: nat, i: nat, n: nat, ns: NewState)
    requires SchedRuns.Run(states, moves) && Boot(states[0]) && Switching(states, moves, c, i, n, ns)
    requires n < |moves| && moves[n] == Move(c, DoEnqueue)
    ensures c < |states[i].cpus| && LastAt(states[n + 1], states[i].cpus[c].cur, Destination(ns, c))
    ensures ns.ToSleep? ==> HoldsChan(states[n], c, ns.w) && Other(states[n].chans[ns.w].lock) !in states[n + 1].locks
  {
    SwitchingStays(states, moves, c, i, n, ns);
    RunInv(states, moves, n);
    assert LocksOk(states[n], c) by { assert CpuOk(states[n], c); }
    assert StepAt(states, moves, n);
  }

  /** And it comes back at once only from a yield with nobody else to run. */
  lemma BackFromYield(states: seq<Sys>, moves: seq<Move>, c: nat, i: nat, n: nat, ns: NewState)
    requires SchedRuns.Run(states, moves) && Boot(states[0]) && Switching(states, moves, c, i, n, ns)
    requires n < |moves| && moves[n] == Move(c, DoSwitchBack)
    ensures ns == ToReady && c < |states[n].cpus| && states[n].cpus[c].runq == [] && c < |states[i].cpus|
    ensures c < |states[n + 1].cpus| && states[n + 1].cpus[c].cur == states[i].cpus[c].cur && states[n + 1].cpus[c].base == Running
  {
    SwitchingStays(states, moves, c, i, n, ns);
    assert StepAt(states, moves, n);
  }

  /** Over every run, a processor goes idle only with nobody on its run queue, and a thread
      comes back from a switch only when its processor's zombies have been destroyed. */
  lemma NothingLeft(states: seq<Sys>, moves: seq<Move>, n: nat)
    requires SchedRuns.Run(states, moves) && n < |moves|
    ensures moves[n].a == DoGoIdle ==> moves[n].c < |states[n + 1].cpus| && states[n + 1].cpus[moves[n].c].runq == []
    ensures moves[n].a == DoLandDone ==> moves[n].c < |states[n + 1].cpus| && states[n + 1].cpus[moves[n].c].zombies == []
  {
    assert Step(states[n], states[n + 1], moves[n].c, moves[n].a) by { assert StepAt(states, moves, n); }
  }

  // ---------------------------------------------------------------- order

  predicate Queues(a: Action) {
    a.DoEnqueue? || a.DoPick? || a.DoMakeRunnable? || a.DoTakeVictims? || a.DoSendOne? || a.DoPutBack?
  }

  lemma SameRunq(s: Sys, s': Sys, c: nat, a: Action, d: nat)
    requires Step(s, s', c, a) && d < |s.cpus| && !Queues(a)
    ensures d < |s'.cpus| && s'.cpus[d].runq == s.cpus[d].runq
  {
  }

  /** Run queues: who is on one already is not overtaken. */
  lemma RunqTurn(s: Sys, s': Sys, c: nat, a: Action, d: nat)
    requires Inv(s) && Step(s, s', c, a) && d < |s.cpus| == |s'.cpus|
    ensures Turn(s.cpus[d].runq, s'.cpus[d].runq)
  {
    var q := s.cpus[d].runq;
    if !Queues(a) {
      SameRunq(s, s', c, a, d);
      SameTurn(q);
    } else {
      match a
      case DoEnqueue => EnqueueTurn(s, s', c, d);
      case DoPick => PickTurn(s, s', c, d);
      case DoMakeRunnable => RunnableTurn(s, s', c, d);
      case DoTakeVictims => TakeTurn(s, s', c, d);
      case DoSendOne => SendTurn(s, s', c, d);
      case DoPutBack => BackTurn(s, s', c, d);
    }
  }

  lemma PickTurn(s: Sys, s': Sys, c: nat, d: nat)
    requires Pick(s, s', c) && d < |s.cpus|
    ensures Turn(s.cpus[d].runq, s'.cpus[d].runq)
  {
    SameTurn(s.cpus[d].runq);
    assert s.cpus[c].runq[1..|s.cpus[c].runq|] == s.cpus[c].runq[1..];
    LeaveTurn(s.cpus[c].runq, 1, |s.cpus[c].runq|);
  }

  lemma EnqueueTurn(s: Sys, s': Sys, c: nat, d: nat)
    requires Inv(s) && Enqueue(s, s', c) && d < |s.cpus|
    ensures Turn(s.cpus[d].runq, s'.cpus[d].runq)
  {
    SameTurn(s.cpus[d].runq);
    if c == d {
      assert s.cpus[c].cur !in s.cpus[c].runq by { if s.cpus[c].cur in s.cpus[c].runq { assert CpuOk(s, c); OneList(s, s.cpus[c].cur, OnCpu(c), OnRunq(c)); } }
      JoinTurn(s.cpus[c].runq, [s.cpus[c].cur]);
    }
  }

  /** What a processor has in hand is on no run queue. */
  lemma HandApart(s: Sys, c: nat, d: nat, t: nat)
    requires Inv(s) && c < |s.cpus| && d < |s.cpus| && t in Hand(s.cpus[c].op)
    ensures t !in s.cpus[d].runq
  {
    if t in s.cpus[d].runq { OneList(s, t, InHand(c), OnRunq(d)); }
  }

  lemma RunnableTurn(s: Sys, s': Sys, c: nat, d: nat)
    requires Inv(s) && MakeRunnable(s, s', c) && d < |s.cpus|
    ensures Turn(s.cpus[d].runq, s'.cpus[d].runq)
  {
    var t := s.cpus[c].op.list[0];
    HandApart(s, c, d, t);
    SameTurn(s.cpus[d].runq);
    JoinTurn(s.cpus[d].runq, [t]);
  }

  lemma TakeTurn(s: Sys, s': Sys, c: nat, d: nat)
    requires TakeVictims(s, s', c) && d < |s.cpus|
    ensures Turn(s.cpus[d].runq, s'.cpus[d].runq)
  {
    var k := |s.cpus[c].runq| - s.cpus[c].op.toSend;
    SameTurn(s.cpus[d].runq);
    assert s.cpus[c].runq[0..k] == s.cpus[c].runq[..k];
    LeaveTurn(s.cpus[c].runq, 0, k);
  }

  lemma SendTurn(s: Sys, s': Sys, c: nat, d: nat)
    requires Inv(s) && SendOne(s, s', c) && d < |s.cpus|
    ensures Turn(s.cpus[d].runq, s'.cpus[d].runq)
  {
    var o := s.cpus[c].op;
    var q := s.cpus[o.i].runq;
    assert CpuOk(s, c);
    PushSpec(s.cpus[c].cur, o.share, o.victims, q, o.toSend);
    var r := Push(s.cpus[c].cur, o.share, o.victims, q, o.toSend).p;
    var sent := r.queue[|q|..];
    assert r.queue == q + sent;
    forall t | t in sent ensures t !in q { HandApart(s, c, o.i, t); }
    SameTurn(s.cpus[d].runq);
    JoinTurn(q, sent);
  }

  lemma BackTurn(s: Sys, s': Sys, c: nat, d: nat)
    requires Inv(s) && PutBack(s, s', c) && d < |s.cpus|
    ensures Turn(s.cpus[d].runq, s'.cpus[d].runq)
  {
    var v := s.cpus[c].op.victims;
    forall t | t in v ensures t !in s.cpus[c].runq { HandApart(s, c, c, t); }
    SameTurn(s.cpus[d].runq);
    JoinTurn(s.cpus[c].runq, v);
  }

  /** Wait channels likewise. */
  lemma SleepersTurn(s: Sys, s': Sys, c: nat, a: Action, w: nat)
    requires Inv(s) && Step(s, s', c, a) && w < |s.chans|
    ensures w < |s'.chans| && Turn(s.chans[w].sleepers, s'.chans[w].sleepers)
  {
    var q := s.chans[w].sleepers;
    SameTurn(q);
    match a
    case DoEnqueue =>
      var t := s.cpus[c].cur;
      assert s.cpus[c].base.Locked?;
      assert t !in q by { if t in q { assert CpuOk(s, c); OneList(s, t, OnCpu(c), OnChan(w)); } }
      JoinTurn(q, [t]);
    case DoWakeOne(_) => if q != [] { assert q[1..|q|] == q[1..]; LeaveTurn(q, 1, |q|); }
    case DoWakeAll(_) => LeaveTurn(q, |q|, |q|);
    case _ =>
  }

  ghost function RunqOf(states: seq<Sys>, c: nat): seq<seq<nat>> {
    seq(|states|, (n: nat) requires n < |states| => if c < |states[n].cpus| then states[n].cpus[c].runq else [])
  }

  ghost function SleepersOf(states: seq<Sys>, w: nat): seq<seq<nat>> {
    seq(|states|, (n: nat) requires n < |states| => if w < |states[n].chans| then states[n].chans[w].sleepers else [])
  }

  lemma RunqTurnAt(states: seq<Sys>, moves: seq<Move>, k: nat, c: nat)
    requires SchedRuns.Run(states, moves) && Boot(states[0]) && k < |moves| && c < |states[k].cpus|
    ensures TurnAt(RunqOf(states, c), k)
  {
    RunInv(states, moves, k);
    assert StepAt(states, moves, k);
    ProcessorsStay(states[k], states[k + 1], moves[k].c, moves[k].a);
    RunqTurn(states[k], states[k + 1], moves[k].c, moves[k].a, c);
  }

  lemma SleepersTurnAt(states: seq<Sys>, moves: seq<Move>, k: nat, w: nat)
    requires SchedRuns.Run(states, moves) && Boot(states[0]) && k < |moves| && w < |states[k].chans|
    ensures TurnAt(SleepersOf(states, w), k)
  {
    RunInv(states, moves, k);
    assert StepAt(states, moves, k);
    SleepersTurn(states[k], states[k + 1], moves[k].c, moves[k].a, w);
  }

  /** Over every run, the thread a processor switches to has been ready on its run queue for
      at least as long as any other that is. */
  lemma PicksLongest(states: seq<Sys>, moves: seq<Move>, i: nat, n: nat, u: nat)
    requires SchedRuns.Run(states, moves) && Boot(states[0]) && i <= n < |moves| && moves[n].a == DoPick
    requires OnThroughout(RunqOf(states, moves[n].c), i, n, u)
    ensures var c := moves[n].c;
            && c < |states[n + 1].cpus| && !states[n + 1].cpus[c].isidle
            && OnThroughout(RunqOf(states, c), i, n, states[n + 1].cpus[c].cur)
  {
    var c := moves[n].c;
    var qs := RunqOf(states, c);
    assert u in qs[n];
    forall k: nat | i <= k < n ensures TurnAt(qs, k) {
      assert u in qs[k];
      RunqTurnAt(states, moves, k, c);
    }
    HeadLongest(qs, i, n, u);
    assert StepAt(states, moves, n);
  }

  /** Over every run, wchan_wakeone takes a sleeper that has slept on the channel for at least
      as long as any other. */
  lemma WakesLongest(states: seq<Sys>, moves: seq<Move>, i: nat, n: nat, w: nat, u: nat) returns (t: nat)
    requires SchedRuns.Run(states, moves) && Boot(states[0]) && i <= n < |moves| && moves[n].a == DoWakeOne(w)
    requires OnThroughout(SleepersOf(states, w), i, n, u)
    ensures OnThroughout(SleepersOf(states, w), i, n, t) && IsAt(states[n + 1], t, InHand(moves[n].c))
  {
    var qs := SleepersOf(states, w);
    assert u in qs[n];
    forall k: nat | i <= k < n ensures TurnAt(qs, k) {
      assert u in qs[k];
      SleepersTurnAt(states, moves, k, w);
    }
    HeadLongest(qs, i, n, u);
    assert StepAt(states, moves, n);
    t := qs[n][0];
  }
}
