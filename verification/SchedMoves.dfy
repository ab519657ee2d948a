/** The steps of the thread system that move one thread from one place to another. */
module SchedMoves {
  import opened Spl
  import opened Sched
  import opened SchedInv
  import opened SchedSteps

  /** The lists have the same members but for those of m. */
  ghost predicate SameBut(l: seq<nat>, l': seq<nat>, m: set<nat>) {
    forall u :: u !in m ==> (u in l <==> u in l')
  }

  /** Only processor c and the threads of m move. */
  ghost predicate Moves(s: Sys, s': Sys, c: nat, m: set<nat>) {
    && c < |s.cpus| && Untouched(s, s', m)
    && (forall d: nat :: d < |s.cpus| && d != c ==> s'.cpus[d] == s.cpus[d])
    && SameBut(s.cpus[c].runq, s'.cpus[c].runq, m) && SameBut(s.cpus[c].zombies, s'.cpus[c].zombies, m)
    && SameBut(Hand(s.cpus[c].op), Hand(s'.cpus[c].op), m)
    && (forall w: nat :: w < |s.chans| ==>
          s'.chans[w].lock == s.chans[w].lock && SameBut(s.chans[w].sleepers, s'.chans[w].sleepers, m))
    && OthersLocks(s, s', c)
    && (forall d: nat :: RunQ(d) in s'.locks ==> d < |s.cpus|)
  }

  lemma MovedThread(s: Sys, s': Sys, c: nat, m: set<nat>, u: nat)
    requires Inv(s) && Moves(s, s', c, m) && u in s.threads && u !in m && u in s'.threads
    requires s'.cpus[c].cur == s.cpus[c].cur && (u == s.cpus[c].cur ==> s'.cpus[c].isidle == s.cpus[c].isidle)
    ensures ThreadOk(s', u)
  {
    assert ThreadOk(s, u) && IsAt(s, u, s.place[u]);
    assert IsAt(s', u, s'.place[u]);
  }

  /** On another processor the threads of m were nowhere, but one may be its parked thread. */
  ghost predicate Local(s: Sys, s': Sys, c: nat, m: set<nat>) {
    forall d: nat :: d < |s.cpus| && d != c ==>
      Apart(s.cpus[d].runq, m) && Apart(s.cpus[d].zombies, m) && Apart(Hand(s.cpus[d].op), m) && Parked(s, s', d, m)
  }

  lemma OtherCpus(s: Sys, s': Sys, c: nat, m: set<nat>)
    requires Inv(s) && Moves(s, s', c, m) && Local(s, s', c, m)
    ensures forall d: nat :: d < |s.cpus| && d != c ==> CpuOk(s', d)
  {
    forall d: nat | d < |s.cpus| && d != c ensures CpuOk(s', d) {
      assert CpuOk(s, d);
      FarCpuOk(s, s', d, m);
    }
  }

  /** What is left to prove of a step that moves m, when the current thread stays. */
  lemma MoveOk(s: Sys, s': Sys, c: nat, m: set<nat>)
    requires Inv(s) && Moves(s, s', c, m) && Local(s, s', c, m)
    requires s'.cpus[c].cur == s.cpus[c].cur && (s.cpus[c].cur in m || s'.cpus[c].isidle == s.cpus[c].isidle)
    requires CpuOk(s', c) && (forall t :: t in m && t in s'.threads ==> ThreadOk(s', t))
    requires forall w: nat :: w < |s.chans| ==> ChanOk(s', w)
    ensures Inv(s')
  {
    OtherCpus(s, s', c, m);
    forall u | u in s'.threads ensures ThreadOk(s', u) {
      if u !in m { MovedThread(s, s', c, m, u); }
    }
  }

  lemma ChansKept(s: Sys, s': Sys, m: set<nat>)
    requires Inv(s) && Untouched(s, s', m) && s'.chans == s.chans
    requires forall w: nat :: w < |s.chans| ==> Apart(s.chans[w].sleepers, m)
    ensures forall w: nat :: w < |s.chans| ==> ChanOk(s', w)
  {
    forall w: nat | w < |s.chans| ensures ChanOk(s', w) { ChanKept(s, s', w, m); }
  }

  /** The running thread belongs to its processor and is on no list. */
  lemma CurLocal(s: Sys, s': Sys, c: nat)
    requires Inv(s) && c < |s.cpus| && !s.cpus[c].isidle
    ensures var t := s.cpus[c].cur;
            && Local(s, s', c, {t}) && t !in s.cpus[c].runq && t !in s.cpus[c].zombies && t !in Hand(s.cpus[c].op)
            && forall w: nat :: w < |s.chans| ==> Apart(s.chans[w].sleepers, {t})
  {
    assert CpuOk(s, c);
    NotElsewhere(s, {s.cpus[c].cur}, OnCpu(c));
    forall d: nat | d < |s.cpus| && d != c ensures s.cpus[c].cur != s.cpus[d].cur { OwnStack(s, c, d); }
  }

  lemma EnqueueReadyCpu(s: Sys, s': Sys, c: nat)
    requires Inv(s) && Wf(s, c) && s.cpus[c].base == Locked(ToReady) && s' == EnqueueReady(s, c)
    ensures CpuOk(s', c)
  {
    var t := s.cpus[c].cur;
    assert CpuOk(s, c);
    CurLocal(s, s', c);
    assert HeldSet(s', c) == HeldSet(s, c);
    NoDupPush(s.cpus[c].runq, t);
    forall u | u in s'.cpus[c].runq ensures OnRunqOk(s', c, u) { if u != t { assert OnRunqOk(s, c, u); } }
    ZombiesKept(s, s', c, {t});
    HandKept(s, s', c, {t});
  }

  lemma Pushed(l: seq<nat>, t: nat)
    ensures SameBut(l, l + [t], {t})
  {
  }

  lemma EnqueueReadyMoves(s: Sys, s': Sys, c: nat)
    requires Wf(s, c) && s' == EnqueueReady(s, c) && forall e: nat :: RunQ(e) in s.locks ==> e < |s.cpus|
    ensures Moves(s, s', c, {s.cpus[c].cur})
  {
    assert forall e: nat :: HeldSet(s', e) == HeldSet(s, e);
    Pushed(s.cpus[c].runq, s.cpus[c].cur);
  }

  lemma EnqueueReadyOk(s: Sys, s': Sys, c: nat)
    requires Inv(s) && Wf(s, c) && s.cpus[c].base == Locked(ToReady) && s' == EnqueueReady(s, c)
    ensures Inv(s')
  {
    assert CpuOk(s', c) by { EnqueueReadyCpu(s, s', c); }
    assert !s.cpus[c].isidle by { assert CpuOk(s, c); }
    CurLocal(s, s', c);
    assert Moves(s, s', c, {s.cpus[c].cur}) by { EnqueueReadyMoves(s, s', c); }
    ChansKept(s, s', {s.cpus[c].cur});
    MoveOk(s, s', c, {s.cpus[c].cur});
  }

  lemma EnqueueZombieCpu(s: Sys, s': Sys, c: nat)
    requires Inv(s) && Wf(s, c) && s.cpus[c].base == Locked(ToZombie) && s' == EnqueueZombie(s, c)
    ensures CpuOk(s', c)
  {
    var t := s.cpus[c].cur;
    assert CpuOk(s, c);
    CurLocal(s, s', c);
    assert HeldSet(s', c) == HeldSet(s, c);
    NoDupPush(s.cpus[c].zombies, t);
    forall u | u in s'.cpus[c].zombies ensures OnZombiesOk(s', c, u) { if u != t { assert OnZombiesOk(s, c, u); } }
    RunqKept(s, s', c, {t});
    HandKept(s, s', c, {t});
  }

  lemma EnqueueZombieMoves(s: Sys, s': Sys, c: nat)
    requires Wf(s, c) && s' == EnqueueZombie(s, c) && forall e: nat :: RunQ(e) in s.locks ==> e < |s.cpus|
    ensures Moves(s, s', c, {s.cpus[c].cur})
  {
    assert forall e: nat :: HeldSet(s', e) == HeldSet(s, e);
    Pushed(s.cpus[c].zombies, s.cpus[c].cur);
  }

  lemma EnqueueZombieOk(s: Sys, s': Sys, c: nat)
    requires Inv(s) && Wf(s, c) && s.cpus[c].base == Locked(ToZombie) && s' == EnqueueZombie(s, c)
    ensures Inv(s')
  {
    assert CpuOk(s', c) by { EnqueueZombieCpu(s, s', c); }
    assert !s.cpus[c].isidle by { assert CpuOk(s, c); }
    CurLocal(s, s', c);
    assert Moves(s, s', c, {s.cpus[c].cur}) by { EnqueueZombieMoves(s, s', c); }
    ChansKept(s, s', {s.cpus[c].cur});
    MoveOk(s, s', c, {s.cpus[c].cur});
  }

  lemma SleepChans(s: Sys, s': Sys, t: nat, w: nat)
    requires Inv(s) && Untouched(s, s', {t}) && w < |s.chans| && OnChanOk(s', w, t)
    requires s'.chans == s.chans[w := s.chans[w].(sleepers := s.chans[w].sleepers + [t])]
    requires forall x: nat :: x < |s.chans| ==> Apart(s.chans[x].sleepers, {t})
    ensures forall x: nat :: x < |s.chans| ==> ChanOk(s', x)
  {
    forall x: nat | x < |s.chans| ensures ChanOk(s', x) {
      assert ChanOk(s, x);
      if x == w {
        NoDupPush(s.chans[w].sleepers, t);
        forall u | u in s'.chans[w].sleepers ensures OnChanOk(s', w, u) { if u != t { assert OnChanOk(s, w, u); } }
      } else {
        ChanKept(s, s', x, {t});
      }
    }
  }

  lemma EnqueueSleepCpu(s: Sys, s': Sys, c: nat, w: nat)
    requires Inv(s) && Wf(s, c) && s.cpus[c].base == Locked(ToSleep(w)) && w < |s.chans|
    requires s.cpus[c].spinlocks > 0 && LevelOf(s, c).count > 0 && s' == EnqueueSleep(s, c, w)
    ensures CpuOk(s', c) && OthersLocks(s, s', c)
  {
    assert CpuOk(s, c);
    CurLocal(s, s', c);
    HeldRemove(s, s', Other(s.chans[w].lock), c);
    RunqKept(s, s', c, {s.cpus[c].cur});
    ZombiesKept(s, s', c, {s.cpus[c].cur});
    HandKept(s, s', c, {s.cpus[c].cur});
  }

  lemma EnqueueSleepMoves(s: Sys, s': Sys, c: nat, w: nat)
    requires Inv(s) && Wf(s, c) && w < |s.chans| && s.cpus[c].spinlocks > 0 && LevelOf(s, c).count > 0
    requires s' == EnqueueSleep(s, c, w) && OthersLocks(s, s', c)
    ensures Moves(s, s', c, {s.cpus[c].cur})
  {
    Pushed(s.chans[w].sleepers, s.cpus[c].cur);
  }

  lemma EnqueueSleepOk(s: Sys, s': Sys, c: nat, w: nat)
    requires Inv(s) && Wf(s, c) && s.cpus[c].base == Locked(ToSleep(w)) && w < |s.chans|
    requires s.cpus[c].spinlocks > 0 && LevelOf(s, c).count > 0 && s' == EnqueueSleep(s, c, w)
    ensures Inv(s')
  {
    var t := s.cpus[c].cur;
    assert CpuOk(s', c) && OthersLocks(s, s', c) by { EnqueueSleepCpu(s, s', c, w); }
    assert !s.cpus[c].isidle by { assert CpuOk(s, c); }
    CurLocal(s, s', c);
    assert Moves(s, s', c, {t}) by { EnqueueSleepMoves(s, s', c, w); }
    assert forall x: nat :: x < |s.chans| ==> ChanOk(s', x) by { SleepChans(s, s', t, w); }
    MoveOk(s, s', c, {t});
  }

  lemma EnqueueOk(s: Sys, s': Sys, c: nat)
    requires Inv(s) && Enqueue(s, s', c)
    ensures Inv(s')
  {
    match s.cpus[c].base.ns
    case ToReady => EnqueueReadyOk(s, s', c);
    case ToSleep(w) => EnqueueSleepOk(s, s', c, w);
    case ToZombie => EnqueueZombieOk(s, s', c);
  }

  /** Thread t is on processor c's run queue, and so nowhere else. */
  lemma RunqLocal(s: Sys, s': Sys, c: nat, t: nat)
    requires Inv(s) && c < |s.cpus| && t in s.cpus[c].runq
    ensures Local(s, s', c, {t}) && t !in s.cpus[c].zombies && t !in Hand(s.cpus[c].op)
    ensures forall w: nat :: w < |s.chans| ==> Apart(s.chans[w].sleepers, {t})
  {
    assert CpuOk(s, c) && OnRunqOk(s, c, t);
    NotElsewhere(s, {t}, OnRunq(c));
    forall d: nat | d < |s.cpus| && d != c ensures t != s.cpus[d].cur { NotHanded(s, d, c); }
  }

  /** The switch: the old thread is left with its level and one run queue lock counted, and
      the new one takes over both. */
  lemma PickThreads(s: Sys, s': Sys, c: nat)
    requires Inv(s) && Pick(s, s', c)
    ensures forall u :: u in s'.threads ==> ThreadOk(s', u)
  {
    assert CpuOk(s, c);
    assert s.cpus[c].runq == [s.cpus[c].runq[0]] + s'.cpus[c].runq;
    forall u | u in s'.threads ensures ThreadOk(s', u) {
      assert ThreadOk(s, u) && IsAt(s, u, s.place[u]);
      assert IsAt(s', u, s'.place[u]);
    }
  }

  lemma PickCpu(s: Sys, s': Sys, c: nat)
    requires Inv(s) && Pick(s, s', c)
    ensures CpuOk(s', c)
  {
    var t := s.cpus[c].runq[0];
    assert CpuOk(s, c) && OnRunqOk(s, c, t) && ThreadOk(s, t);
    RunqLocal(s, s', c, t);
    assert HeldSet(s', c) == HeldSet(s, c);
    forall u | u in s'.cpus[c].runq ensures OnRunqOk(s', c, u) { assert OnRunqOk(s, c, u); }
    ZombiesKept(s, s', c, {t});
    HandKept(s, s', c, {t});
  }

  lemma PickOk(s: Sys, s': Sys, c: nat)
    requires Inv(s) && Pick(s, s', c)
    ensures Inv(s')
  {
    var t := s.cpus[c].runq[0];
    RunqLocal(s, s', c, t);
    assert forall e: nat :: HeldSet(s', e) == HeldSet(s, e);
    assert s.cpus[c].runq == [t] + s'.cpus[c].runq;
    assert forall d: nat :: d < |s.cpus| && d != c ==> CpuOk(s', d) by { OtherCpus(s, s', c, {t}); }
    assert CpuOk(s', c) by { PickCpu(s, s', c); }
    assert forall w: nat :: w < |s.chans| ==> ChanOk(s', w) by { ChansKept(s, s', {t}); }
    assert forall u :: u in s'.threads ==> ThreadOk(s', u) by { PickThreads(s, s', c); }
  }

  lemma ZombieLocal(s: Sys, s': Sys, c: nat, t: nat)
    requires Inv(s) && c < |s.cpus| && t in s.cpus[c].zombies
    ensures Local(s, s', c, {t}) && t !in s.cpus[c].runq && t !in Hand(s.cpus[c].op)
    ensures forall w: nat :: w < |s.chans| ==> Apart(s.chans[w].sleepers, {t})
  {
    assert CpuOk(s, c) && OnZombiesOk(s, c, t);
    NotElsewhere(s, {t}, OnZombies(c));
    forall d: nat | d < |s.cpus| && d != c ensures t != s.cpus[d].cur { assert CpuOk(s, d); }
  }

  lemma ExorciseCpu(s: Sys, s': Sys, c: nat)
    requires Inv(s) && Exorcise(s, s', c)
    ensures CpuOk(s', c)
  {
    var t := s.cpus[c].zombies[0];
    assert CpuOk(s, c) && OnZombiesOk(s, c, t);
    ZombieLocal(s, s', c, t);
    assert HeldSet(s', c) == HeldSet(s, c);
    RunqKept(s, s', c, {t});
    HandKept(s, s', c, {t});
    forall u | u in s'.cpus[c].zombies ensures OnZombiesOk(s', c, u) { assert OnZombiesOk(s, c, u); }
  }

  /** Zombies are destroyed by the processor they last ran on, after it has left them. */
  lemma ExorciseOk(s: Sys, s': Sys, c: nat)
    requires Inv(s) && Exorcise(s, s', c)
    ensures Inv(s')
  {
    var t := s.cpus[c].zombies[0];
    ZombieLocal(s, s', c, t);
    assert CpuOk(s', c) by { ExorciseCpu(s, s', c); }
    assert Moves(s, s', c, {t}) by { ExorciseMoves(s, s', c); }
    assert forall w: nat :: w < |s.chans| ==> ChanOk(s', w) by { ChansKept(s, s', {t}); }
    MoveOk(s, s', c, {t});
  }

  lemma ExorciseMoves(s: Sys, s': Sys, c: nat)
    requires Exorcise(s, s', c) && forall e: nat :: RunQ(e) in s.locks ==> e < |s.cpus|
    ensures Moves(s, s', c, {s.cpus[c].zombies[0]})
  {
    assert forall e: nat :: HeldSet(s', e) == HeldSet(s, e);
    assert s.cpus[c].zombies == [s.cpus[c].zombies[0]] + s'.cpus[c].zombies;
  }

  // ---------------------------------------------------------------- making threads runnable

  lemma ForkOk(s: Sys, s': Sys, c: nat, t: nat, d: nat)
    requires Inv(s) && Fork(s, s', c, t, d)
    ensures Inv(s')
  {
    assert Local(s, s', c, {t}) by { NewThread(s, s', c, t); }
    assert CpuOk(s', c) by { ForkCpu(s, s', c, t, d); }
    assert Moves(s, s', c, {t}) by { ForkMoves(s, s', c, t, d); }
    assert forall w: nat :: w < |s.chans| ==> ChanOk(s', w) by { NewThread(s, s', c, t); ChansKept(s, s', {t}); }
    assert ThreadOk(s', t);
    MoveOk(s, s', c, {t});
  }

  lemma ForkMoves(s: Sys, s': Sys, c: nat, t: nat, d: nat)
    requires Fork(s, s', c, t, d) && forall e: nat :: RunQ(e) in s.locks ==> e < |s.cpus|
    ensures Moves(s, s', c, {t})
  {
    assert forall e: nat :: HeldSet(s', e) == HeldSet(s, e);
  }

  lemma ForkCpu(s: Sys, s': Sys, c: nat, t: nat, d: nat)
    requires Inv(s) && Fork(s, s', c, t, d)
    ensures CpuOk(s', c)
  {
    assert CpuOk(s, c);
    NewThread(s, s', c, t);
    assert HeldSet(s', c) == HeldSet(s, c);
    RunqKept(s, s', c, {t});
    ZombiesKept(s, s', c, {t});
    assert InHandOk(s', c, t);
  }

  /** A thread that does not exist is nowhere. */
  lemma NewThread(s: Sys, s': Sys, c: nat, t: nat)
    requires Inv(s) && c < |s.cpus| && t !in s.threads
    ensures Local(s, s', c, {t}) && t !in s.cpus[c].runq && t !in s.cpus[c].zombies && t != s.cpus[c].cur
    ensures forall w: nat :: w < |s.chans| ==> Apart(s.chans[w].sleepers, {t})
  {
    forall d: nat | d < |s.cpus|
      ensures t !in s.cpus[d].runq && t !in s.cpus[d].zombies && t !in Hand(s.cpus[d].op) && t != s.cpus[d].cur
    {
      assert CpuOk(s, d);
      assert t in s.cpus[d].runq ==> OnRunqOk(s, d, t);
      assert t in s.cpus[d].zombies ==> OnZombiesOk(s, d, t);
      assert t in Hand(s.cpus[d].op) ==> InHandOk(s, d, t);
    }
    forall w: nat | w < |s.chans| ensures t !in s.chans[w].sleepers {
      assert ChanOk(s, w);
      assert t in s.chans[w].sleepers ==> OnChanOk(s, w, t);
    }
  }

  ghost function Members(l: seq<nat>): set<nat> {
    set t | t in l
  }

  /** The sleepers of a channel are nowhere else, though one may be parked on an idle
      processor. */
  lemma SleepersLocal(s: Sys, s': Sys, c: nat, w: nat, m: set<nat>)
    requires Inv(s) && c < |s.cpus| && w < |s.chans| && (forall t :: t in m ==> t in s.chans[w].sleepers)
    requires s'.threads == s.threads && s'.place.Keys == s.place.Keys
    ensures Local(s, s', c, m) && Apart(s.cpus[c].runq, m) && Apart(s.cpus[c].zombies, m) && Parked(s, s', c, m)
    ensures forall x: nat :: x < |s.chans| && x != w ==> Apart(s.chans[x].sleepers, m)
  {
    assert ChanOk(s, w);
    assert AllAt(s, m, OnChan(w)) by { forall t | t in m ensures t in s.place && s.place[t] == OnChan(w) { assert OnChanOk(s, w, t); } }
    NotElsewhere(s, m, OnChan(w));
    forall d: nat | d < |s.cpus| ensures Parked(s, s', d, m) { assert CpuOk(s, d); }
  }

  /** Sleepers l taken off a channel, in order, into the processor's hand. */
  ghost predicate Woken(s: Sys, s': Sys, c: nat, w: nat, l: seq<nat>, rest: seq<nat>) {
    && Free(s, c) && HoldsChan(s, c, w) && s.chans[w].sleepers == l + rest && l != []
    && s' == WithOp(s, c, Waking(l)).(chans := s.chans[w := s.chans[w].(sleepers := rest)], place := s'.place)
    && s'.place.Keys == s.place.Keys
    && (forall t :: t in s.place ==> s'.place[t] == if t in l then InHand(c) else s.place[t])
  }

  lemma WokenChans(s: Sys, s': Sys, c: nat, w: nat, l: seq<nat>, rest: seq<nat>)
    requires Inv(s) && Woken(s, s', c, w, l, rest)
    requires forall x: nat :: x < |s.chans| && x != w ==> Apart(s.chans[x].sleepers, Members(l))
    ensures forall x: nat :: x < |s.chans| ==> ChanOk(s', x)
  {
    forall x: nat | x < |s.chans| ensures ChanOk(s', x) {
      assert ChanOk(s, x);
      if x == w {
        NoDupSplit(l, rest);
        forall t | t in rest ensures OnChanOk(s', w, t) { assert OnChanOk(s, w, t); }
      } else {
        ChanKept(s, s', x, Members(l));
      }
    }
  }

  lemma WokenCpu(s: Sys, s': Sys, c: nat, w: nat, l: seq<nat>, rest: seq<nat>)
    requires Inv(s) && Woken(s, s', c, w, l, rest)
    requires Apart(s.cpus[c].runq, Members(l)) && Apart(s.cpus[c].zombies, Members(l)) && Parked(s, s', c, Members(l))
    ensures CpuOk(s', c)
  {
    assert ChanOk(s, w) && CpuOk(s, c);
    NoDupSplit(l, rest);
    assert HeldSet(s', c) == HeldSet(s, c);
    forall t | t in l ensures InHandOk(s', c, t) { assert OnChanOk(s, w, t); }
    RunqKept(s, s', c, Members(l));
    ZombiesKept(s, s', c, Members(l));
  }

  lemma WokenMoves(s: Sys, s': Sys, c: nat, w: nat, l: seq<nat>, rest: seq<nat>)
    requires Inv(s) && Woken(s, s', c, w, l, rest)
    ensures Moves(s, s', c, Members(l))
    ensures forall t :: t in l && t in s'.threads ==> ThreadOk(s', t)
  {
    assert forall e: nat :: HeldSet(s', e) == HeldSet(s, e);
    assert Hand(s.cpus[c].op) == [];
    forall t | t in l && t in s'.threads ensures ThreadOk(s', t) { assert ThreadOk(s, t); }
  }

  lemma WokenOk(s: Sys, s': Sys, c: nat, w: nat, l: seq<nat>, rest: seq<nat>)
    requires Inv(s) && Woken(s, s', c, w, l, rest)
    ensures Inv(s')
  {
    SleepersLocal(s, s', c, w, Members(l));
    WokenMoves(s, s', c, w, l, rest);
    assert CpuOk(s', c) by { WokenCpu(s, s', c, w, l, rest); }
    assert forall x: nat :: x < |s.chans| ==> ChanOk(s', x) by { WokenChans(s, s', c, w, l, rest); }
    MoveOk(s, s', c, Members(l));
  }

  lemma WakeOneOk(s: Sys, s': Sys, c: nat, w: nat)
    requires Inv(s) && WakeOne(s, s', c, w)
    ensures Inv(s')
  {
    var l := s.chans[w].sleepers;
    if l != [] {
      assert l == [l[0]] + l[1..];
      assert l[0] in s.place by { assert ChanOk(s, w) && OnChanOk(s, w, l[0]); }
      assert s'.place.Keys == s.place.Keys;
      WokenOk(s, s', c, w, [l[0]], l[1..]);
    }
  }

  lemma WakeAllOk(s: Sys, s': Sys, c: nat, w: nat)
    requires Inv(s) && WakeAll(s, s', c, w)
    ensures Inv(s')
  {
    var l := s.chans[w].sleepers;
    assert l == l + [];
    if l != [] {
      WokenOk(s, s', c, w, l, []);
    } else {
      assert s'.cpus == s.cpus && s'.chans == s.chans && s'.place == s.place;
      assert s' == s;
    }
  }
}
