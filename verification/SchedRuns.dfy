/** The thread system over all runs. */
module SchedRuns {
  import opened Spl
  import opened Sched
  import opened SchedInv
  import opened SchedSteps
  import opened SchedMoves
  import opened SchedMigrate
  import opened Runs

  lemma StepOk(s: Sys, s': Sys, c: nat, a: Action)
    requires Inv(s) && Step(s, s', c, a)
    ensures Inv(s')
  {
    match a
    case DoSetSpl(high) => SetSplOk(s, s', c, high);
    case DoAcquire(n) => AcquireOk(s, s', c, n);
    case DoRelease(n) => ReleaseOk(s, s', c, n);
    case DoSwitchStart(ns) => SwitchStartOk(s, s', c, ns);
    case DoSwitchBack => SwitchBackOk(s, s', c);
    case DoEnqueue => EnqueueOk(s, s', c);
    case DoGoIdle => GoIdleOk(s, s', c);
    case DoUnidle => UnidleOk(s, s', c);
    case DoPick => PickOk(s, s', c);
    case DoLand => LandOk(s, s', c);
    case DoExorcise => ExorciseOk(s, s', c);
    case DoLandDone => LandDoneOk(s, s', c);
    case DoFork(t, d) => ForkOk(s, s', c, t, d);
    case DoWakeOne(w) => WakeOneOk(s, s', c, w);
    case DoWakeAll(w) => WakeAllOk(s, s', c, w);
    case DoMakeRunnable => MakeRunnableOk(s, s', c);
    case DoMigrateStart => MigrateStartOk(s, s', c);
    case DoCountOne => CountOneOk(s, s', c);
    case DoCountDone => CountDoneOk(s, s', c);
    case DoTakeVictims => TakeVictimsOk(s, s', c);
    case DoSendSkip => SendSkipOk(s, s', c);
    case DoSendOne => SendOneOk(s, s', c);
    case DoPutBack => PutBackOk(s, s', c);
  }

  /** Every processor in its boot thread with interrupts off and nothing queued. */
  ghost predicate Boot(s: Sys) {
    && s.locks == map[] && s.threads.Keys == s.place.Keys
    && (forall w: nat :: w < |s.chans| ==> s.chans[w].sleepers == [])
    && (forall c: nat :: c < |s.cpus| ==>
          var cpu := s.cpus[c];
          && cpu == Cpu(cpu.cur, false, [], [], 0, false, Running, NoOp)
          && cpu.cur in s.threads && s.threads[cpu.cur] == Thread(c, TState.Run, true, 1, s.threads[cpu.cur].saved) && s.place[cpu.cur] == OnCpu(c))
    && (forall t :: t in s.threads ==> exists c: nat :: c < |s.cpus| && s.cpus[c].cur == t)
  }

  lemma BootOk(s: Sys)
    requires Boot(s)
    ensures Inv(s)
  {
    forall c: nat | c < |s.cpus| ensures CpuOk(s, c) { assert HeldSet(s, c) == {}; }
  }

  datatype Move = Move(c: nat, a: Action)

  ghost predicate Run(states: seq<Sys>, moves: seq<Move>) {
    |states| == |moves| + 1 && forall i :: 0 <= i < |moves| ==> StepAt(states, moves, i)
  }

  ghost predicate StepAt(states: seq<Sys>, moves: seq<Move>, i: nat)
    requires i < |moves| && |states| == |moves| + 1
  {
    Step(states[i], states[i + 1], moves[i].c, moves[i].a)
  }

  lemma RunInv(states: seq<Sys>, moves: seq<Move>, n: nat)
    requires Run(states, moves) && Boot(states[0]) && n < |states|
    ensures Inv(states[n])
  {
    BootOk(states[0]);
    forall i: nat | i < n ensures Keeps(states, Inv, i) {
      assert StepAt(states, moves, i);
      if Inv(states[i]) { StepOk(states[i], states[i + 1], moves[i].c, moves[i].a); }
    }
    Throughout(states, Inv, n);
  }

  /** Over every run: no two processors execute on one thread's stack, and none can be
      handed, from its run queue, a thread that another is executing on. */
  lemma NoSharedStack(states: seq<Sys>, moves: seq<Move>, n: nat, c: nat, d: nat)
    requires Run(states, moves) && Boot(states[0]) && n < |states|
    requires c < |states[n].cpus| && d < |states[n].cpus| && c != d
    ensures states[n].cpus[c].cur != states[n].cpus[d].cur
    ensures states[n].cpus[c].cur !in states[n].cpus[d].runq
  {
    RunInv(states, moves, n);
    OwnStack(states[n], c, d);
    NotHanded(states[n], c, d);
  }

  /** Over every run: a thread is on at most one of all run queues, wait channels, zombie
      lists and lists in hand; a current thread that is on one is an idle processor's; and a
      thread on a run queue belongs to that queue's processor. */
  lemma OnePlace(states: seq<Sys>, moves: seq<Move>, n: nat, t: nat, p: Place, q: Place)
    requires Run(states, moves) && Boot(states[0]) && n < |states|
    requires IsAt(states[n], t, p) && IsAt(states[n], t, q)
    ensures p == q
    ensures p.OnRunq? ==> t in states[n].threads && states[n].threads[t].cpu == p.c
    ensures forall c: nat :: c < |states[n].cpus| && states[n].cpus[c].cur == t && !p.OnCpu? ==> states[n].cpus[c].isidle
  {
    var s := states[n];
    RunInv(states, moves, n);
    OneList(s, t, p, q);
    if p.OnRunq? { assert CpuOk(s, p.c) && OnRunqOk(s, p.c, t); }
    forall c: nat | c < |s.cpus| && s.cpus[c].cur == t && !p.OnCpu? ensures s.cpus[c].isidle { OnListOnlyIdle(s, c, p); }
  }

  /** Over every run: the running thread's count is one for a high level and one for each
      spinlock; interrupts are on exactly when it is zero; and a thread that no processor is
      executing on has count two. */
  lemma LevelsCounted(states: seq<Sys>, moves: seq<Move>, n: nat, c: nat, t: nat)
    requires Run(states, moves) && Boot(states[0]) && n < |states| && c < |states[n].cpus|
    ensures Wf(states[n], c) && Counted(LevelOf(states[n], c), states[n].cpus[c].spinlocks)
    ensures t in states[n].threads && !IsCur(states[n], t) ==> states[n].threads[t].high && states[n].threads[t].count == 2
  {
    var s := states[n];
    RunInv(states, moves, n);
    assert CpuOk(s, c);
    if t in s.threads && !IsCur(s, t) { assert ThreadOk(s, t) && CpuOk(s, s.threads[t].cpu); }
  }

  /** Over every run, no thread is lost: each is on a processor or on a list. */
  lemma NoneLost(states: seq<Sys>, moves: seq<Move>, n: nat, t: nat)
    requires Run(states, moves) && Boot(states[0]) && n < |states| && t in states[n].threads
    ensures exists p :: IsAt(states[n], t, p)
  {
    RunInv(states, moves, n);
    assert ThreadOk(states[n], t);
    assert IsAt(states[n], t, states[n].place[t]);
  }

  /** What the code asserts where each processor is, and what its own arithmetic needs. */
  ghost predicate Asserted(s: Sys, c: nat)
    requires c < |s.cpus|
  {
    var cpu := s.cpus[c];
    && cpu.cur in s.threads && s.threads[cpu.cur].cpu == c
    && (HoldsRunq(cpu.base) ==> RunQ(c) in s.locks && s.locks[RunQ(c)] == c && cpu.spinlocks > 0 && s.threads[cpu.cur].count > 0)
    && (cpu.base == Locked(ToReady) ==> s.threads[cpu.cur].count > 1)
    && (cpu.base == Exorcising && cpu.zombies != [] ==>
          cpu.zombies[0] != cpu.cur && cpu.zombies[0] in s.threads && s.threads[cpu.zombies[0]].state == Zombie)
    && (forall n :: Other(n) in s.locks && s.locks[Other(n)] == c ==> cpu.spinlocks > 0 && s.threads[cpu.cur].count > 0)
    && (cpu.op.Waking? ==> cpu.op.list != [] && cpu.op.list[0] in s.threads && s.threads[cpu.op.list[0]].cpu < |s.cpus|)
    && (cpu.op.Taking? ==> cpu.op.toSend + cpu.op.share <= |cpu.runq|)
    && (cpu.op.Sending? ==> cpu.op.share <= |cpu.runq|)
    && (cpu.op.Sending? && cpu.op.i < |s.cpus| ==> Push(cpu.cur, cpu.op.share, cpu.op.victims, s.cpus[cpu.op.i].runq, cpu.op.toSend).Did?)
  }

  /** Over every run they hold: in particular exorcise never destroys a thread being run on,
      migration never takes from an empty list, and the migrating processor keeps its share. */
  lemma AssertionsHold(states: seq<Sys>, moves: seq<Move>, n: nat, c: nat)
    requires Run(states, moves) && Boot(states[0]) && n < |states| && c < |states[n].cpus|
    ensures Asserted(states[n], c)
  {
    var s := states[n];
    var cpu := s.cpus[c];
    RunInv(states, moves, n);
    assert CpuOk(s, c);
    MigrationHolds(s, c);
    if cpu.op.Waking? { assert InHandOk(s, c, cpu.op.list[0]) && ThreadOk(s, cpu.op.list[0]); }
    if cpu.zombies != [] { assert OnZombiesOk(s, c, cpu.zombies[0]); }
    forall k | Other(k) in s.locks && s.locks[Other(k)] == c ensures cpu.spinlocks > 0 { assert Other(k) in HeldSet(s, c); }
  }

  /** Over every run, migration sends to another processor only up to the share, and never
      sends the thread the migrating processor is executing on. */
  lemma SendsWithinShare(states: seq<Sys>, moves: seq<Move>, n: nat)
    requires Run(states, moves) && Boot(states[0]) && n < |moves| && moves[n].a == DoSendOne
    ensures var s, s', c := states[n], states[n + 1], moves[n].c;
            && SendOne(s, s', c) && |s'.cpus| == |s.cpus|
            && (|s'.cpus[s.cpus[c].op.i].runq| <= s.cpus[c].op.share || s'.cpus[s.cpus[c].op.i].runq == s.cpus[s.cpus[c].op.i].runq)
            && s.cpus[c].cur in s.threads && s.cpus[c].cur in s'.threads
            && s'.threads[s.cpus[c].cur] == s.threads[s.cpus[c].cur]
  {
    RunInv(states, moves, n);
    assert StepAt(states, moves, n);
    SendOneShare(states[n], states[n + 1], moves[n].c);
  }
}
