/** Making threads runnable and migrating them: threads go from a processor's hands to a
    run queue, their own processor's or, in migration, another's. */
module SchedMigrate {
  import opened Spl
  import opened Sched
  import opened SchedInv
  import opened SchedSteps
  import opened SchedMoves

  // ---------------------------------------------------------------- from hand to run queue

  ghost predicate IsCur(s: Sys, t: nat) {
    exists e: nat :: e < |s.cpus| && s.cpus[e].cur == t
  }

  /** The threads q go from c's hands to the tail of d's run queue. */
  ghost predicate Handoff(s: Sys, s': Sys, c: nat, d: nat, q: seq<nat>) {
    && c < |s.cpus| && d < |s.cpus| && |s'.cpus| == |s.cpus| && s'.chans == s.chans && s'.locks == s.locks
    && s'.threads.Keys == s.threads.Keys && s'.place.Keys == s.place.Keys
    && NoDup(q) && (forall t :: t in q ==> t in Hand(s.cpus[c].op))
    && (forall t :: t in s.threads ==> s'.threads[t] == if t in q then s.threads[t].(state := Ready, cpu := d) else s.threads[t])
    && (forall t :: t in s.place ==> s'.place[t] == if t in q then OnRunq(d) else s.place[t])
    && (forall t :: t in q && t in s.threads ==> s.threads[t].cpu == d || !IsCur(s, t))
    && (forall e: nat :: e < |s.cpus| ==>
          s'.cpus[e] == s.cpus[e].(runq := s'.cpus[e].runq, op := s'.cpus[e].op))
    && (forall e: nat :: e < |s.cpus| ==> s'.cpus[e].runq == if e == d then s.cpus[d].runq + q else s.cpus[e].runq)
    && (forall e: nat :: e < |s.cpus| && e != c ==> s'.cpus[e].op == s.cpus[e].op)
    && HandLess(s.cpus[c].op, s'.cpus[c].op, q)
  }

  /** What is left in hand. */
  ghost predicate HandLess(op: Op, op': Op, q: seq<nat>) {
    && NoDup(Hand(op')) && (forall t :: t in Hand(op') <==> t in Hand(op) && t !in q)
    && (op'.Sending? ==> op.Sending?) && (op'.Waking? ==> op.Waking? && op'.list != [])
    && (op'.NoOp? || op'.Waking? || op'.Sending?)
  }

  lemma HandoffRunq(s: Sys, s': Sys, c: nat, d: nat, q: seq<nat>, e: nat)
    requires Inv(s) && Handoff(s, s', c, d, q) && e < |s.cpus|
    ensures RunqOk(s', e)
  {
    assert CpuOk(s, e) && CpuOk(s, c);
    forall t | t in q ensures t !in s.cpus[e].runq && InHandOk(s, c, t) {
      assert InHandOk(s, c, t);
      assert t in s.cpus[e].runq ==> OnRunqOk(s, e, t);
    }
    NoDupJoin(s.cpus[e].runq, q);
    forall t | t in s'.cpus[e].runq ensures OnRunqOk(s', e, t) {
      if t in s.cpus[e].runq { assert OnRunqOk(s, e, t); } else { assert t in q; }
    }
  }

  lemma HandoffLists(s: Sys, s': Sys, c: nat, d: nat, q: seq<nat>, e: nat)
    requires Inv(s) && Handoff(s, s', c, d, q) && e < |s.cpus|
    ensures ZombiesOk(s', e) && HandOk(s', e)
  {
    assert CpuOk(s, e) && CpuOk(s, c);
    forall t | t in s'.cpus[e].zombies ensures OnZombiesOk(s', e, t) {
      assert OnZombiesOk(s, e, t);
      assert t in q ==> InHandOk(s, c, t);
    }
    forall t | t in Hand(s'.cpus[e].op) ensures InHandOk(s', e, t) {
      assert InHandOk(s, e, t);
      assert t in q ==> InHandOk(s, c, t);
    }
  }

  lemma HandoffCur(s: Sys, s': Sys, c: nat, d: nat, q: seq<nat>, e: nat)
    requires Inv(s) && Handoff(s, s', c, d, q) && e < |s.cpus|
    ensures CurOk(s', e) && LevelOk(s', e)
  {
    assert CpuOk(s, e) && CpuOk(s, c);
    var t := s.cpus[e].cur;
    if t in q {
      assert InHandOk(s, c, t);
      assert IsCur(s, t);
    }
  }

  lemma HandoffChan(s: Sys, s': Sys, c: nat, d: nat, q: seq<nat>, w: nat)
    requires Inv(s) && Handoff(s, s', c, d, q) && w < |s.chans|
    ensures ChanOk(s', w)
  {
    assert ChanOk(s, w) && CpuOk(s, c);
    forall t | t in s'.chans[w].sleepers ensures OnChanOk(s', w, t) {
      assert OnChanOk(s, w, t);
      assert t in q ==> InHandOk(s, c, t);
    }
  }

  lemma HandoffThread(s: Sys, s': Sys, c: nat, d: nat, q: seq<nat>, t: nat)
    requires Inv(s) && Handoff(s, s', c, d, q) && t in s'.threads
    ensures ThreadOk(s', t)
  {
    assert ThreadOk(s, t) && IsAt(s, t, s.place[t]) && CpuOk(s, c);
    if t in q {
      assert InHandOk(s, c, t);
      assert t in s'.cpus[d].runq;
      if s.threads[t].cpu != d { assert s.cpus[s.threads[t].cpu].cur != t; }
    } else {
      assert IsAt(s', t, s'.place[t]);
    }
  }

  lemma HandoffLocks(s: Sys, s': Sys, c: nat, d: nat, q: seq<nat>, e: nat)
    requires Inv(s) && Handoff(s, s', c, d, q) && e < |s.cpus|
    ensures LocksOk(s', e) && (e != c ==> MigrateOk(s', e))
  {
    assert CpuOk(s, e);
    assert HeldSet(s', e) == HeldSet(s, e);
    assert |s.cpus[e].runq| <= |s'.cpus[e].runq|;
  }

  /** The step keeps the invariant, given that c's migration counts still hold. */
  lemma HandoffOk(s: Sys, s': Sys, c: nat, d: nat, q: seq<nat>)
    requires Inv(s) && Handoff(s, s', c, d, q) && MigrateOk(s', c)
    ensures Inv(s')
  {
    forall e: nat | e < |s'.cpus| ensures CpuOk(s', e) {
      HandoffRunq(s, s', c, d, q, e);
      HandoffLists(s, s', c, d, q, e);
      HandoffCur(s, s', c, d, q, e);
      HandoffLocks(s, s', c, d, q, e);
    }
    forall w: nat | w < |s'.chans| ensures ChanOk(s', w) { HandoffChan(s, s', c, d, q, w); }
    forall t | t in s'.threads ensures ThreadOk(s', t) { HandoffThread(s, s', c, d, q, t); }
  }

  lemma MakeRunnableOk(s: Sys, s': Sys, c: nat)
    requires Inv(s) && MakeRunnable(s, s', c)
    ensures Inv(s')
  {
    var list := s.cpus[c].op.list;
    var t := list[0];
    assert CpuOk(s, c) && InHandOk(s, c, t) && ThreadOk(s, t);
    RunnableHandoff(s, s', c);
    HandoffOk(s, s', c, s.threads[t].cpu, [t]);
  }

  lemma RunnableHandoff(s: Sys, s': Sys, c: nat)
    requires MakeRunnable(s, s', c) && NoDup(s.cpus[c].op.list) && s.cpus[c].op.list[0] in s.place
    ensures Handoff(s, s', c, s.threads[s.cpus[c].op.list[0]].cpu, [s.cpus[c].op.list[0]])
  {
    var list := s.cpus[c].op.list;
    assert list == [list[0]] + list[1..];
    NoDupSplit([list[0]], list[1..]);
  }

  // ---------------------------------------------------------------- migration

  /** Only what processor c is doing changes, and not what it has in hand. */
  lemma OpOnlyOk(s: Sys, s': Sys, c: nat, op: Op)
    requires Inv(s) && c < |s.cpus| && s' == WithOp(s, c, op) && Hand(op) == Hand(s.cpus[c].op)
    requires !op.Waking? && (op.Sending? ==> s.cpus[c].op.Sending?)
    requires MigrateOk(s', c) && (s.cpus[c].base == Running || s.cpus[c].base == Idle) && s.cpus[c].spinlocks == 0
    ensures Inv(s')
  {
    forall d: nat | d < |s.cpus| ensures CpuOk(s', d) {
      assert CpuOk(s, d);
      assert HeldSet(s', d) == HeldSet(s, d);
      forall t | t in s'.cpus[d].runq ensures OnRunqOk(s', d, t) { assert OnRunqOk(s, d, t); }
      forall t | t in s'.cpus[d].zombies ensures OnZombiesOk(s', d, t) { assert OnZombiesOk(s, d, t); }
      forall t | t in Hand(s'.cpus[d].op) ensures InHandOk(s', d, t) { assert InHandOk(s, d, t); }
    }
    forall w: nat | w < |s.chans| ensures ChanOk(s', w) {
      assert ChanOk(s, w);
      forall t | t in s'.chans[w].sleepers ensures OnChanOk(s', w, t) { assert OnChanOk(s, w, t); }
    }
    forall t | t in s'.threads ensures ThreadOk(s', t) {
      assert ThreadOk(s, t) && IsAt(s, t, s.place[t]);
      assert IsAt(s', t, s'.place[t]);
    }
  }

  lemma MigrateStartOk(s: Sys, s': Sys, c: nat)
    requires Inv(s) && MigrateStart(s, s', c)
    ensures Inv(s')
  {
    OpOnlyOk(s, s', c, Counting(0, 0, 0));
  }

  lemma CountOneOk(s: Sys, s': Sys, c: nat)
    requires Inv(s) && CountOne(s, s', c)
    ensures Inv(s')
  {
    assert CpuOk(s, c);
    OpOnlyOk(s, s', c, s'.cpus[c].op);
  }

  lemma CountDoneOk(s: Sys, s': Sys, c: nat)
    requires Inv(s) && CountDone(s, s', c)
    ensures Inv(s')
  {
    assert CpuOk(s, c);
    OpOnlyOk(s, s', c, s'.cpus[c].op);
  }

  lemma SendSkipOk(s: Sys, s': Sys, c: nat)
    requires Inv(s) && SendSkip(s, s', c)
    ensures Inv(s')
  {
    assert CpuOk(s, c);
    OpOnlyOk(s, s', c, s'.cpus[c].op);
  }

  // ---------------------------------------------------------------- the sending loop

  /** With as many victims as are still to be sent, the loop never takes from an empty list.
      It sends threads in order to the other queue, which it leaves at its share or as it
      was; it never sends the current thread; what it does not send stays; and it stops
      only when there is no more to send or the queue has its share. */
  lemma {:induction false} PushSpec(cur: nat, share: nat, v: seq<nat>, q: seq<nat>, k: nat)
    requires k <= |v| && NoDup(v)
    ensures Push(cur, share, v, q, k).Did?
    ensures var r := Push(cur, share, v, q, k).p;
            && |q| <= |r.queue| && r.queue[..|q|] == q
            && (|r.queue| == |q| || |r.queue| <= share)
            && r.toSend <= |r.victims| && r.toSend <= k && (r.toSend == 0 || |r.queue| >= share)
    ensures PushSplit(cur, v, Push(cur, share, v, q, k).p.victims, Push(cur, share, v, q, k).p.queue[|q|..])
    decreases k
  {
    if k == 0 || |q| >= share {
      assert q[|q|..] == [];
    } else {
      assert v == [v[0]] + v[1..];
      NoDupSplit([v[0]], v[1..]);
      if v[0] == cur {
        NoDupPush(v[1..], v[0]);
        PushSpec(cur, share, v[1..] + [cur], q, k - 1);
      } else {
        PushSpec(cur, share, v[1..], q + [v[0]], k - 1);
        var r := Push(cur, share, v[1..], q + [v[0]], k - 1).p;
        PushMore(cur, v, r.victims, q, r.queue);
      }
    }
  }

  /** The victims v are split into those left and those sent, none of them cur. */
  ghost predicate PushSplit(cur: nat, v: seq<nat>, left: seq<nat>, sent: seq<nat>) {
    && NoDup(left) && NoDup(sent) && cur !in sent
    && (forall t :: t in v <==> t in left || t in sent) && (forall t :: t in left ==> t !in sent)
  }

  lemma PushMore(cur: nat, v: seq<nat>, left: seq<nat>, q: seq<nat>, queue: seq<nat>)
    requires v != [] && NoDup(v) && v[0] != cur && |q| < |queue| && queue[..|q| + 1] == q + [v[0]]
    requires PushSplit(cur, v[1..], left, queue[|q| + 1..])
    ensures queue[..|q|] == q && PushSplit(cur, v, left, queue[|q|..])
  {
    assert v == [v[0]] + v[1..];
    NoDupSplit([v[0]], v[1..]);
    assert queue[..|q|] == queue[..|q| + 1][..|q|];
    assert queue[|q|] == queue[..|q| + 1][|q|] == v[0];
    assert queue[|q|..] == [v[0]] + queue[|q| + 1..];
    assert v[0] !in queue[|q| + 1..];
    NoDupJoin([v[0]], queue[|q| + 1..]);
  }

  lemma SendOneOk(s: Sys, s': Sys, c: nat)
    requires Inv(s) && SendOne(s, s', c)
    ensures Inv(s')
  {
    var o := s.cpus[c].op;
    assert CpuOk(s, c);
    PushSpec(s.cpus[c].cur, o.share, o.victims, s.cpus[o.i].runq, o.toSend);
    var p := Push(s.cpus[c].cur, o.share, o.victims, s.cpus[o.i].runq, o.toSend).p;
    var q := p.queue[|s.cpus[o.i].runq|..];
    assert p.queue == s.cpus[o.i].runq + q;
    assert Handoff(s, s', c, o.i, q) by {
      forall t | t in q ensures t in s.threads && s.threads[t].state == Ready && !IsCur(s, t) { VictimNotCur(s, c, t); }
      SentHandoff(s, s', c, p, q);
    }
    HandoffOk(s, s', c, o.i, q);
  }

  /** What is sent to one processor keeps it within the share, and is not our own thread. */
  lemma SendOneShare(s: Sys, s': Sys, c: nat)
    requires Inv(s) && SendOne(s, s', c)
    ensures |s'.cpus| == |s.cpus|
    ensures |s'.cpus[s.cpus[c].op.i].runq| <= s.cpus[c].op.share || s'.cpus[s.cpus[c].op.i].runq == s.cpus[s.cpus[c].op.i].runq
    ensures s.cpus[c].cur in s.threads && s.cpus[c].cur in s'.threads && s'.threads[s.cpus[c].cur] == s.threads[s.cpus[c].cur]
  {
    var o := s.cpus[c].op;
    assert CpuOk(s, c);
    PushSpec(s.cpus[c].cur, o.share, o.victims, s.cpus[o.i].runq, o.toSend);
    var p := Push(s.cpus[c].cur, o.share, o.victims, s.cpus[o.i].runq, o.toSend).p;
    assert p.queue[..|s.cpus[o.i].runq|] == s.cpus[o.i].runq;
  }

  lemma SentHandoff(s: Sys, s': Sys, c: nat, p: Pushed, q: seq<nat>)
    requires c < |s.cpus| && s.cpus[c].op.Sending? && s.cpus[c].op.i < |s.cpus| && s.cpus[c].op.i != c
    requires p.queue == s.cpus[s.cpus[c].op.i].runq + q && s' == Sent(s, c, p)
    requires PushSplit(s.cpus[c].cur, s.cpus[c].op.victims, p.victims, q)
    requires forall t :: t in q ==> t in s.threads && s.threads[t].state == Ready && !IsCur(s, t)
    ensures Handoff(s, s', c, s.cpus[c].op.i, q)
  {
    var o := s.cpus[c].op;
    assert p.queue[|s.cpus[o.i].runq|..] == q;
    assert HandLess(o, Sending(o.i + 1, p.toSend, o.share, p.victims), q);
  }

  /** A victim that is not the processor's own thread is no processor's. */
  lemma VictimNotCur(s: Sys, c: nat, t: nat)
    requires Inv(s) && c < |s.cpus| && s.cpus[c].op.Sending? && t in s.cpus[c].op.victims && t != s.cpus[c].cur
    ensures t in s.threads && s.threads[t].state == Ready && !IsCur(s, t)
  {
    assert CpuOk(s, c) && InHandOk(s, c, t);
    forall e: nat | e < |s.cpus| ensures s.cpus[e].cur != t { assert CpuOk(s, e); }
  }

  lemma PutBackOk(s: Sys, s': Sys, c: nat)
    requires Inv(s) && PutBack(s, s', c)
    ensures Inv(s')
  {
    var v := s.cpus[c].op.victims;
    assert CpuOk(s, c);
    forall t | t in v ensures t in s.threads && s.threads[t].state == Ready && s.threads[t].cpu == c {
      assert InHandOk(s, c, t);
    }
    assert Handoff(s, s', c, c, v);
    HandoffOk(s, s', c, c, v);
  }

  // ---------------------------------------------------------------- taking victims

  ghost function Victims(s: Sys, c: nat): seq<nat>
    requires c < |s.cpus| && s.cpus[c].op.Taking? && s.cpus[c].op.toSend <= |s.cpus[c].runq|
  {
    s.cpus[c].runq[|s.cpus[c].runq| - s.cpus[c].op.toSend..]
  }

  lemma TakeCpu(s: Sys, s': Sys, c: nat, m: set<nat>)
    requires Inv(s) && TakeVictims(s, s', c) && m == Members(Victims(s, c))
    ensures CpuOk(s', c)
  {
    var k := |s.cpus[c].runq| - s.cpus[c].op.toSend;
    var v := s.cpus[c].runq[k..];
    assert CpuOk(s, c);
    assert s.cpus[c].runq == s.cpus[c].runq[..k] + v;
    NoDupSplit(s.cpus[c].runq[..k], v);
    assert HeldSet(s', c) == HeldSet(s, c);
    forall t | t in s'.cpus[c].runq ensures OnRunqOk(s', c, t) { assert OnRunqOk(s, c, t); }
    forall t | t in v ensures InHandOk(s', c, t) { assert OnRunqOk(s, c, t); }
    forall t | t in s'.cpus[c].zombies ensures OnZombiesOk(s', c, t) {
      assert OnZombiesOk(s, c, t);
      assert t in v ==> OnRunqOk(s, c, t);
    }
  }

  lemma TakeLocal(s: Sys, s': Sys, c: nat, m: set<nat>)
    requires Inv(s) && c < |s.cpus| && forall t :: t in m ==> t in s.cpus[c].runq
    ensures Local(s, s', c, m)
    ensures forall w: nat :: w < |s.chans| ==> Apart(s.chans[w].sleepers, m)
  {
    assert AllAt(s, m, OnRunq(c)) by {
      assert CpuOk(s, c);
      forall t | t in m ensures t in s.place && s.place[t] == OnRunq(c) { assert OnRunqOk(s, c, t); }
    }
    NotElsewhere(s, m, OnRunq(c));
    forall d: nat | d < |s.cpus| && d != c ensures s.cpus[d].cur !in m { NotHanded(s, d, c); }
  }

  lemma TakeMoves(s: Sys, s': Sys, c: nat)
    requires TakeVictims(s, s', c) && forall d: nat :: RunQ(d) in s.locks ==> d < |s.cpus|
    ensures Moves(s, s', c, Members(Victims(s, c)))
  {
    var v := Victims(s, c);
    assert s.cpus[c].runq == s.cpus[c].runq[..|s.cpus[c].runq| - s.cpus[c].op.toSend] + v;
    assert forall d: nat :: HeldSet(s', d) == HeldSet(s, d);
    assert Hand(s.cpus[c].op) == [];
  }

  lemma TakenThread(s: Sys, s': Sys, c: nat, t: nat)
    requires Inv(s) && TakeVictims(s, s', c) && t in Victims(s, c) && t in s'.threads
    ensures ThreadOk(s', t)
  {
    assert ThreadOk(s, t);
  }

  lemma TakeVictimsOk(s: Sys, s': Sys, c: nat)
    requires Inv(s) && TakeVictims(s, s', c)
    ensures Inv(s')
  {
    var m := Members(Victims(s, c));
    TakeMoves(s, s', c);
    forall t | t in m && t in s'.threads ensures ThreadOk(s', t) { TakenThread(s, s', c, t); }
    TakeLocal(s, s', c, m);
    assert CpuOk(s', c) by { TakeCpu(s, s', c, m); }
    assert forall w: nat :: w < |s.chans| ==> ChanOk(s', w) by { ChansKept(s, s', m); }
    MoveOk(s, s', c, m);
  }

  // ---------------------------------------------------------------- assertions

  /** The migration code's arithmetic: the owner's queue has what it counted, the victims
      what is still to be sent, and its own queue keeps its share. */
  lemma MigrationHolds(s: Sys, c: nat)
    requires Inv(s) && c < |s.cpus|
    ensures s.cpus[c].op.Taking? ==> s.cpus[c].op.toSend + s.cpus[c].op.share <= |s.cpus[c].runq|
    ensures s.cpus[c].op.Sending? && s.cpus[c].op.i < |s.cpus| ==>
              Push(s.cpus[c].cur, s.cpus[c].op.share, s.cpus[c].op.victims, s.cpus[s.cpus[c].op.i].runq, s.cpus[c].op.toSend).Did?
    ensures s.cpus[c].op.Sending? ==> |s.cpus[c].runq| >= s.cpus[c].op.share
  {
    assert CpuOk(s, c);
    if s.cpus[c].op.Sending? && s.cpus[c].op.i < |s.cpus| {
      var o := s.cpus[c].op;
      PushSpec(s.cpus[c].cur, o.share, o.victims, s.cpus[o.i].runq, o.toSend);
    }
  }
}
