/** The steps of thread_consider_migration in the thread system, taken with no other
    processor between them, do to the run queues what the function promises. */
module MigrationRuns {
  import opened Spl
  import opened Sched
  import opened SchedInv
  import opened SchedRuns
  import opened MigrationSpec
  import opened Runs

  ghost function Queues(s: Sys): seq<seq<nat>> {
    seq(|s.cpus|, (c: nat) requires c < |s.cpus| => s.cpus[c].runq)
  }

  ghost function ShareOf(qs: seq<seq<nat>>): nat
    requires qs != []
  {
    DivRoundUp(TotalCount(qs), |qs|)
  }

  /** What processor c has done since its queues were qs0. */
  ghost predicate Phase(qs0: seq<seq<nat>>, qs: seq<seq<nat>>, c: nat, cur: nat, op: Op)
    requires c < |qs0|
  {
    match op
    case Counting(i, total, mine) =>
      qs == qs0 && i <= |qs0| && total == TotalCount(qs0[..i]) && mine == if i > c then |qs0[c]| else 0
    case Taking(toSend, share) => qs == qs0 && share == ShareOf(qs0) && toSend + share == |qs0[c]|
    case Sending(i, toSend, share, victims) => share == ShareOf(qs0) && Passing(qs0, qs, c, cur, share, i, toSend, victims)
    case NoOp => Migrated(qs0, qs, c, cur, ShareOf(qs0))
    case Waking(_) => false
  }

  ghost predicate InPhase(qs0: seq<seq<nat>>, s: Sys, c: nat, cur: nat) {
    c < |qs0| && c < |s.cpus| && s.cpus[c].cur == cur && Phase(qs0, Queues(s), c, cur, s.cpus[c].op)
  }

  /** Only the run queue of i changes. */
  lemma OneQueue(s: Sys, s': Sys, i: nat, q: seq<nat>)
    requires i < |s.cpus| == |s'.cpus| && s'.cpus[i].runq == q
    requires forall d: nat :: d < |s.cpus| && d != i ==> s'.cpus[d].runq == s.cpus[d].runq
    ensures Queues(s') == Queues(s)[i := q]
  {
  }

  lemma StartPhase(s: Sys, s': Sys, c: nat)
    requires MigrateStart(s, s', c)
    ensures InPhase(Queues(s), s', c, s.cpus[c].cur)
  {
    assert Queues(s') == Queues(s);
  }

  lemma CountPhase(qs0: seq<seq<nat>>, s: Sys, s': Sys, c: nat, cur: nat)
    requires InPhase(qs0, s, c, cur) && CountOne(s, s', c)
    ensures InPhase(qs0, s', c, cur)
  {
    var i := s.cpus[c].op.i;
    assert Queues(s') == Queues(s);
    assert qs0[..i + 1][..i] == qs0[..i] && qs0[i] == s.cpus[i].runq;
  }

  lemma CountedPhase(qs0: seq<seq<nat>>, s: Sys, s': Sys, c: nat, cur: nat)
    requires InPhase(qs0, s, c, cur) && CountDone(s, s', c)
    ensures InPhase(qs0, s', c, cur)
  {
    assert Queues(s') == Queues(s);
    assert qs0[..|qs0|] == qs0;
  }

  lemma Taken(s: Sys, s': Sys, c: nat, share: nat)
    requires TakeVictims(s, s', c) && share == s.cpus[c].op.share && share + s.cpus[c].op.toSend == |s.cpus[c].runq|
    ensures Queues(s') == Queues(s)[c := s.cpus[c].runq[..share]] && c < |s'.cpus| && s'.cpus[c].cur == s.cpus[c].cur
    ensures s'.cpus[c].op == Sending(0, s.cpus[c].op.toSend, share, s.cpus[c].runq[share..])
  {
    OneQueue(s, s', c, s.cpus[c].runq[..share]);
  }

  lemma TakenPhase(qs0: seq<seq<nat>>, qs': seq<seq<nat>>, c: nat, cur: nat, o: Op, o': Op, share: nat)
    requires c < |qs0| && o.Taking? && Phase(qs0, qs0, c, cur, o) && share == o.share && qs' == qs0[c := qs0[c][..share]]
    requires o' == Sending(0, o.toSend, share, qs0[c][share..])
    ensures Phase(qs0, qs', c, cur, o')
  {
    PassStart(qs0, qs', c, cur, share, qs0[c][share..]);
  }

  lemma TakePhase(qs0: seq<seq<nat>>, s: Sys, s': Sys, c: nat, cur: nat)
    requires InPhase(qs0, s, c, cur) && TakeVictims(s, s', c)
    ensures InPhase(qs0, s', c, cur)
  {
    var o := s.cpus[c].op;
    QueueOf(s, c);
    Taken(s, s', c, o.share);
    TakenPhase(qs0, Queues(s'), c, cur, o, s'.cpus[c].op, o.share);
  }

  lemma SkipPhase(qs0: seq<seq<nat>>, s: Sys, s': Sys, c: nat, cur: nat)
    requires InPhase(qs0, s, c, cur) && SendSkip(s, s', c)
    ensures InPhase(qs0, s', c, cur)
  {
    assert Queues(s') == Queues(s);
    PassSkip(qs0, Queues(s), c, cur, ShareOf(qs0), s.cpus[c].op.toSend, s.cpus[c].op.victims);
  }

  lemma SentQueues(s: Sys, s': Sys, c: nat, p: Pushed)
    requires c < |s.cpus| && s.cpus[c].op.Sending? && s.cpus[c].op.i < |s.cpus| && s' == Sent(s, c, p)
    ensures Queues(s') == Queues(s)[s.cpus[c].op.i := p.queue] && c < |s'.cpus| && s'.cpus[c].cur == s.cpus[c].cur
    ensures s'.cpus[c].op == Sending(s.cpus[c].op.i + 1, p.toSend, s.cpus[c].op.share, p.victims)
  {
    OneQueue(s, s', s.cpus[c].op.i, p.queue);
  }

  lemma SendPhase(qs0: seq<seq<nat>>, s: Sys, s': Sys, c: nat, cur: nat)
    requires InPhase(qs0, s, c, cur) && SendOne(s, s', c)
    ensures InPhase(qs0, s', c, cur)
  {
    var o := s.cpus[c].op;
    var r := Push(cur, o.share, o.victims, s.cpus[o.i].runq, o.toSend);
    SentQueues(s, s', c, r.p);
    QueueOf(s, o.i);
    SentPhase(qs0, Queues(s), Queues(s'), c, cur, o, s'.cpus[c].op, r);
  }

  lemma QueueOf(s: Sys, c: nat)
    requires c < |s.cpus|
    ensures |Queues(s)| == |s.cpus| && Queues(s)[c] == s.cpus[c].runq
  {
  }

  lemma SentPhase(qs0: seq<seq<nat>>, qs: seq<seq<nat>>, qs': seq<seq<nat>>, c: nat, cur: nat, o: Op, o': Op, r: MaybePushed)
    requires c < |qs0| && o.Sending? && Phase(qs0, qs, c, cur, o) && o.i < |qs| && o.i != c && o.toSend > 0
    requires r == Push(cur, o.share, o.victims, qs[o.i], o.toSend) && r.Did? && qs' == qs[o.i := r.p.queue]
    requires o' == Sending(o.i + 1, r.p.toSend, o.share, r.p.victims)
    ensures Phase(qs0, qs', c, cur, o')
  {
    var p := r.p;
    PassSend(qs0, qs, c, cur, o.share, o.i, o.toSend, o.victims, p.victims, p.queue, p.toSend);
  }

  lemma BackPhase(qs0: seq<seq<nat>>, s: Sys, s': Sys, c: nat, cur: nat)
    requires InPhase(qs0, s, c, cur) && PutBack(s, s', c)
    ensures InPhase(qs0, s', c, cur)
  {
    var o := s.cpus[c].op;
    assert Queues(s)[c] == s.cpus[c].runq;
    OneQueue(s, s', c, Queues(s)[c] + o.victims);
    LeastShare(TotalCount(qs0), |qs0|, ShareOf(qs0));
    PassDone(qs0, Queues(s), c, cur, o.share, o.i, o.toSend, o.victims);
  }

  /** The only steps of a migrating processor are those of the migration. */
  lemma PhaseStep(qs0: seq<seq<nat>>, s: Sys, s': Sys, c: nat, a: Action, cur: nat)
    requires InPhase(qs0, s, c, cur) && LocksOk(s, c) && s.cpus[c].op != NoOp && Step(s, s', c, a)
    ensures InPhase(qs0, s', c, cur)
  {
    match a
    case DoCountOne => CountPhase(qs0, s, s', c, cur);
    case DoCountDone => CountedPhase(qs0, s, s', c, cur);
    case DoTakeVictims => TakePhase(qs0, s, s', c, cur);
    case DoSendSkip => SkipPhase(qs0, s, s', c, cur);
    case DoSendOne => SendPhase(qs0, s, s', c, cur);
    case DoPutBack => BackPhase(qs0, s, s', c, cur);
    case _ => assert false;
  }

  /** From i, where it starts to migrate, to n only processor c acts, and is not done before. */
  ghost predicate Alone(states: seq<Sys>, moves: seq<Move>, c: nat, i: nat, n: nat) {
    && i < n < |states| == |moves| + 1 && moves[i].a == DoMigrateStart
    && (forall j: nat :: i <= j < n ==> moves[j].c == c)
    && (forall j: nat :: i < j < n ==> c < |states[j].cpus| && states[j].cpus[c].op != NoOp)
  }

  ghost function PhaseOf(qs0: seq<seq<nat>>, c: nat, cur: nat): Sys -> bool {
    (s: Sys) => InPhase(qs0, s, c, cur)
  }

  lemma OneMorePhase(states: seq<Sys>, moves: seq<Move>, c: nat, k: nat, qs0: seq<seq<nat>>, cur: nat)
    requires SchedRuns.Run(states, moves) && Boot(states[0]) && k < |moves| && moves[k].c == c
    requires c < |states[k].cpus| && states[k].cpus[c].op != NoOp
    ensures Keeps(states, PhaseOf(qs0, c, cur), k)
  {
    var s, s' := states[k], states[k + 1];
    if PhaseOf(qs0, c, cur)(s) {
      assert LocksOk(s, c) by { RunInv(states, moves, k); assert CpuOk(s, c); }
      assert Step(s, s', c, moves[k].a) by { assert StepAt(states, moves, k); }
      PhaseStep(qs0, s, s', c, moves[k].a, cur);
    }
  }

  /** What holds at i + 1 and is kept from there holds at n. */
  lemma {:induction false} KeptFrom(states: seq<Sys>, p: Sys -> bool, i: nat, n: nat)
    requires i < n < |states| && p(states[i + 1]) && forall k: nat :: i < k < n ==> Keeps(states, p, k)
    ensures p(states[n])
    decreases n
  {
    if i + 1 < n {
      KeptFrom(states, p, i, n - 1);
      assert Keeps(states, p, n - 1);
    }
  }

  lemma FirstPhase(states: seq<Sys>, moves: seq<Move>, c: nat, i: nat)
    requires SchedRuns.Run(states, moves) && i < |moves| && moves[i].c == c && moves[i].a == DoMigrateStart
    ensures c < |states[i].cpus| && PhaseOf(Queues(states[i]), c, states[i].cpus[c].cur)(states[i + 1])
  {
    assert MigrateStart(states[i], states[i + 1], c) by { assert StepAt(states, moves, i); }
    StartPhase(states[i], states[i + 1], c);
  }

  lemma PhaseDone(qs0: seq<seq<nat>>, s: Sys, c: nat, cur: nat) returns (share: nat)
    requires PhaseOf(qs0, c, cur)(s) && c < |s.cpus| && s.cpus[c].op == NoOp
    ensures Migrated(qs0, Queues(s), c, cur, share)
    ensures forall k: nat :: Enough(k, |qs0|, TotalCount(qs0)) <==> k >= share
  {
    share := ShareOf(qs0);
    forall k: nat ensures Enough(k, |qs0|, TotalCount(qs0)) <==> k >= share { LeastShare(TotalCount(qs0), |qs0|, k); }
  }

  /** Over every run: a migration during which no other processor acts leaves the run queues
      as the function promises, for the least share that is enough for all. */
  lemma MigratesAlone(states: seq<Sys>, moves: seq<Move>, c: nat, i: nat, n: nat) returns (share: nat)
    requires SchedRuns.Run(states, moves) && Boot(states[0]) && Alone(states, moves, c, i, n)
    requires c < |states[n].cpus| && states[n].cpus[c].op == NoOp
    ensures c < |states[i].cpus| && Migrated(Queues(states[i]), Queues(states[n]), c, states[i].cpus[c].cur, share)
    ensures forall k: nat :: Enough(k, |states[i].cpus|, TotalCount(Queues(states[i]))) <==> k >= share
  {
    FirstPhase(states, moves, c, i);
    var qs0, cur := Queues(states[i]), states[i].cpus[c].cur;
    forall k: nat | i < k < n ensures Keeps(states, PhaseOf(qs0, c, cur), k) { OneMorePhase(states, moves, c, k, qs0, cur); }
    KeptFrom(states, PhaseOf(qs0, c, cur), i, n);
    share := PhaseDone(qs0, states[n], c, cur);
  }
}
