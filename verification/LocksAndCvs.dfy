/** One lock of asst3/synch.c and any number of condition variables used with it. The lock
    holds its spinlock for the whole critical section, so its state is tied to processors
    as well as to threads. */
module LocksAndCvs {
  import opened Runs
  import opened Fifos

  /** Where a thread is: in none of these functions; spinning in lock_acquire; in cv_wait,
      having given up the holder but not the spinlock; on a channel; woken and spinning in
      wchan_sleep; past wchan_sleep, with the spinlock. */
  datatype Pc = Out | Acquiring | GivenUp(k: nat) | Waiting(k: nat) | Woken | Back

  const NONE := -1

  /** splk_holder and holder, or NONE; the thread each processor runs; the channels. */
  datatype State = State(spin: int, holder: int, cur: seq<nat>, pc: map<nat, Pc>, chans: seq<seq<nat>>)

  predicate DoIHold(s: State, t: nat) { s.holder == t }

  predicate SpinDoIHold(s: State, c: nat) { s.spin == c }

  /** A thread that may be given a processor: ready, and on none. */
  ghost predicate Ready(s: State, t: nat) {
    t in s.pc && !s.pc[t].Waiting? && forall d :: 0 <= d < |s.cur| ==> s.cur[d] != t
  }

  datatype Action =
    | Switch(next: nat) | AcquireCall | AcquireDone | ReleaseLock
    | Wait(k: nat) | Sleep(next: nat) | Rewake | LetGo | Signal(k: nat) | Broadcast(k: nat)

  function SetPc(s: State, t: nat, p: Pc): State { s.(pc := s.pc[t := p]) }

  /** lock_release, when the caller is the holder. */
  function Released(s: State): State { s.(holder := NONE, spin := NONE) }

  /** The channel's threads l, woken. */
  function Wake(s: State, k: nat, l: seq<nat>, rest: seq<nat>): State
    requires k < |s.chans|
  {
    s.(chans := s.chans[k := rest], pc := map t | t in s.pc :: if t in l then Woken else s.pc[t])
  }

  /** cv_signal and cv_broadcast after waking: release the lock, and then the spinlock if we
      still hold it. */
  function AfterWake(s: State, c: nat, t: nat): State {
    var s1 := if DoIHold(s, t) then Released(s) else s;
    if SpinDoIHold(s1, c) then s1.(spin := NONE) else s1
  }

  /** A step of processor c and the thread t it runs. */
  ghost predicate Step(s: State, s': State, c: nat, a: Action) {
    c < |s.cur| && s.cur[c] in s.pc
    && var t := s.cur[c];
       match a
       // a context switch: the timer's, which interrupts off exclude while the spinlock is held,
       // or one the thread asks for by yielding, holding the spinlock or not
       case Switch(next) => Ready(s, next) && s' == s.(cur := s.cur[c := next])
       // lock_acquire; spinlock_acquire panics if this processor has the spinlock
       case AcquireCall => s.pc[t] == Out && !SpinDoIHold(s, c) && s' == SetPc(s, t, Acquiring)
       case AcquireDone =>
         && s.pc[t] == Acquiring && s.spin == NONE
         && s' == SetPc(s.(spin := c, holder := if s.holder == NONE then t else s.holder), t, Out)
       case ReleaseLock => s.pc[t] == Out && s' == if DoIHold(s, t) then Released(s) else s
       // cv_wait; without the lock it only acquires it
       case Wait(k) =>
         && s.pc[t] == Out && k < |s.chans|
         && (!DoIHold(s, t) ==> !SpinDoIHold(s, c))
         && s' == if DoIHold(s, t) then SetPc(s.(holder := NONE), t, GivenUp(k)) else SetPc(s, t, Acquiring)
       // wchan_sleep: onto the channel, then the spinlock released, then another thread runs
       case Sleep(next) =>
         && s.pc[t].GivenUp? && s.pc[t].k < |s.chans| && Ready(s, next)
         && s' == SetPc(s, t, Waiting(s.pc[t].k)).(
                    chans := s.chans[s.pc[t].k := s.chans[s.pc[t].k] + [t]], spin := NONE, cur := s.cur[c := next])
       // the end of wchan_sleep takes the spinlock again
       case Rewake => s.pc[t] == Woken && s.spin == NONE && s' == SetPc(s.(spin := c), t, Back)
       // and cv_wait releases it, to call lock_acquire
       case LetGo =>
         && s.pc[t] == Back
         && s' == SetPc(if SpinDoIHold(s, c) then s.(spin := NONE) else s, t, Acquiring)
       case Signal(k) =>
         && s.pc[t] == Out && k < |s.chans|
         && s' == if !DoIHold(s, t) then s
                  else if s.chans[k] == [] then AfterWake(s, c, t)
                  else AfterWake(Wake(s, k, [s.chans[k][0]], s.chans[k][1..]), c, t)
       case Broadcast(k) =>
         && s.pc[t] == Out && k < |s.chans|
         && s' == if DoIHold(s, t) then AfterWake(Wake(s, k, s.chans[k], []), c, t) else s
  }

  ghost predicate NoDup(l: seq<nat>) {
    forall i, j :: 0 <= i < j < |l| ==> l[i] != l[j]
  }

  /** The thread is in its critical section, or in cv_wait with the spinlock. */
  ghost predicate Inside(s: State, t: nat) {
    t in s.pc && (DoIHold(s, t) || s.pc[t].GivenUp? || s.pc[t].Back?)
  }

  ghost predicate ChanOk(s: State, k: nat)
    requires k < |s.chans|
  {
    NoDup(s.chans[k]) && forall t :: t in s.chans[k] <==> t in s.pc && s.pc[t] == Waiting(k)
  }

  ghost predicate Inv(s: State) {
    && (forall c, d :: 0 <= c < d < |s.cur| ==> s.cur[c] != s.cur[d])
    && (forall c :: 0 <= c < |s.cur| ==> s.cur[c] in s.pc && !s.pc[s.cur[c]].Waiting?)
    && (s.spin == NONE || 0 <= s.spin < |s.cur|)
    && (s.spin == NONE ==> s.holder == NONE)
    && (s.spin != NONE ==> Inside(s, s.cur[s.spin]))
    && (forall t :: Inside(s, t) ==> s.spin != NONE && s.cur[s.spin] == t)
    && (s.holder != NONE ==> s.holder >= 0 && s.holder in s.pc && s.pc[s.holder] == Out)
    && (forall k: nat :: k < |s.chans| ==> ChanOk(s, k))
    && (forall t :: t in s.pc && (s.pc[t].GivenUp? || s.pc[t].Waiting?) ==> s.pc[t].k < |s.chans|)
  }

  /** Channels are untouched if no thread starts or stops waiting. */
  lemma ChansSame(s: State, s': State, t: nat)
    requires Inv(s) && s'.chans == s.chans && t in s.pc && !s.pc[t].Waiting?
    requires s'.pc.Keys == s.pc.Keys && !s'.pc[t].Waiting? && forall u :: u in s.pc && u != t ==> s'.pc[u] == s.pc[u]
    ensures forall k: nat :: k < |s'.chans| ==> ChanOk(s', k)
  {
    forall k: nat | k < |s'.chans| ensures ChanOk(s', k) { assert ChanOk(s, k); }
  }

  /** Not to switch with this lock's spinlock held: thread_yield does not check it. */
  predicate Disciplined(s: State, c: nat, a: Action) {
    a.Switch? ==> !SpinDoIHold(s, c)
  }

  lemma SimpleInv(s: State, s': State, c: nat, a: Action)
    requires Inv(s) && Step(s, s', c, a) && !a.Sleep? && !a.Signal? && !a.Broadcast? && Disciplined(s, c, a)
    ensures Inv(s')
  {
    ChansSame(s, s', s.cur[c]);
    assert s.holder != NONE ==> Inside(s, s.holder);
    forall t | Inside(s', t) ensures s'.spin != NONE && s'.cur[s'.spin] == t {
      if t != s.cur[c] { assert Inside(s, t); }
      assert Inside(s, s.cur[c]) ==> s.cur[s.spin] == s.cur[c];
    }
  }

  lemma SleepInv(s: State, s': State, c: nat, next: nat)
    requires Inv(s) && Step(s, s', c, Sleep(next))
    ensures Inv(s')
  {
    var t := s.cur[c];
    var k := s.pc[t].k;
    forall j: nat | j < |s'.chans| ensures ChanOk(s', j) {
      assert ChanOk(s, j);
      if j == k { assert s'.chans[k] == s.chans[k] + [t] && t !in s.chans[k]; }
    }
    assert Inside(s, t) && (s.holder != NONE ==> Inside(s, s.holder));
    forall u | Inside(s', u) ensures u == t { assert Inside(s, u); }
  }

  /** The first waiters of a channel, woken. */
  lemma WakeInv(s: State, k: nat, l: seq<nat>, rest: seq<nat>)
    requires Inv(s) && k < |s.chans| && s.chans[k] == l + rest
    ensures Inv(Wake(s, k, l, rest))
    ensures forall t :: t in s.pc && !s.pc[t].Waiting? ==> Wake(s, k, l, rest).pc[t] == s.pc[t]
  {
    var s' := Wake(s, k, l, rest);
    assert ChanOk(s, k);
    forall t | t in l ensures t in s.pc && s.pc[t] == Waiting(k) && t !in rest {
      assert t in s.chans[k];
      var i :| 0 <= i < |l| && l[i] == t;
      forall j | 0 <= j < |rest| ensures rest[j] != t { assert s.chans[k][i] != s.chans[k][|l| + j]; }
    }
    forall j: nat | j < |s'.chans| ensures ChanOk(s', j) {
      assert ChanOk(s, j);
      if j == k {
        forall x, y | 0 <= x < y < |rest| ensures rest[x] != rest[y] { assert s.chans[k][|l| + x] != s.chans[k][|l| + y]; }
        forall t | t in s.pc && s'.pc[t] == Waiting(k) ensures t in rest { assert t in s.chans[k]; }
      }
    }
    forall t ensures Inside(s', t) == Inside(s, t) {}
  }

  /** After waking, the lock is released, once. */
  lemma AfterWakeInv(s: State, c: nat)
    requires Inv(s) && c < |s.cur| && DoIHold(s, s.cur[c])
    ensures Inv(AfterWake(s, c, s.cur[c])) && AfterWake(s, c, s.cur[c]) == Released(s)
  {
    ChansSame(s, Released(s), s.cur[c]);
    assert Inside(s, s.cur[c]);
    forall t | Inside(Released(s), t) ensures t == s.cur[c] { assert Inside(s, t); }
  }

  lemma SignalInv(s: State, s': State, c: nat, k: nat)
    requires Inv(s) && Step(s, s', c, Signal(k))
    ensures Inv(s')
  {
    var l := s.chans[k];
    if DoIHold(s, s.cur[c]) {
      if l == [] {
        AfterWakeInv(s, c);
      } else {
        assert l == [l[0]] + l[1..];
        WakeInv(s, k, [l[0]], l[1..]);
        AfterWakeInv(Wake(s, k, [l[0]], l[1..]), c);
      }
    }
  }

  lemma BroadcastInv(s: State, s': State, c: nat, k: nat)
    requires Inv(s) && Step(s, s', c, Broadcast(k))
    ensures Inv(s')
  {
    if DoIHold(s, s.cur[c]) {
      assert s.chans[k] == s.chans[k] + [];
      WakeInv(s, k, s.chans[k], []);
      AfterWakeInv(Wake(s, k, s.chans[k], []), c);
    }
  }

  /** Every step keeps the invariant if it is no yield with the spinlock held. */
  lemma StepInv(s: State, s': State, c: nat, a: Action)
    requires Inv(s) && Step(s, s', c, a) && Disciplined(s, c, a)
    ensures Inv(s')
  {
    match a
    case Sleep(next) => SleepInv(s, s', c, next);
    case Signal(k) => SignalInv(s, s', c, k);
    case Broadcast(k) => BroadcastInv(s, s', c, k);
    case _ => SimpleInv(s, s', c, a);
  }

  /** And such a yield breaks it. */
  lemma YieldBreaks(s: State, s': State, c: nat, a: Action)
    requires Inv(s) && Step(s, s', c, a) && !Disciplined(s, c, a)
    ensures !Inv(s')
  {
    assert Inside(s, s.cur[c]);
    assert Inside(s', s.cur[c]);
  }

  // ---------------------------------------------------------------- all runs

  datatype Move = Move(c: nat, a: Action)

  ghost predicate Run(states: seq<State>, moves: seq<Move>) {
    |states| == |moves| + 1 && forall i :: 0 <= i < |moves| ==> StepAt(states, moves, i)
  }

  ghost predicate StepAt(states: seq<State>, moves: seq<Move>, i: nat)
    requires i < |moves| && |states| == |moves| + 1
  {
    Step(states[i], states[i + 1], moves[i].c, moves[i].a)
  }

  ghost predicate Created(s: State) {
    && s.spin == NONE && s.holder == NONE
    && (forall c, d :: 0 <= c < d < |s.cur| ==> s.cur[c] != s.cur[d])
    && (forall c :: 0 <= c < |s.cur| ==> s.cur[c] in s.pc)
    && (forall t :: t in s.pc ==> s.pc[t] == Out) && (forall k :: 0 <= k < |s.chans| ==> s.chans[k] == [])
  }

  /** No thread yields with the spinlock held in the first n steps. */
  ghost predicate NoYields(states: seq<State>, moves: seq<Move>, n: nat)
    requires |states| == |moves| + 1
  {
    forall i: nat :: i < n && i < |moves| ==> Disciplined(states[i], moves[i].c, moves[i].a)
  }

  lemma RunInv(states: seq<State>, moves: seq<Move>, n: nat)
    requires Run(states, moves) && Created(states[0]) && n < |states| && NoYields(states, moves, n)
    ensures Inv(states[n])
  {
    assert forall k: nat :: k < |states[0].chans| ==> ChanOk(states[0], k);
    forall i: nat | i < n ensures Keeps(states, Inv, i) {
      assert StepAt(states, moves, i) && Disciplined(states[i], moves[i].c, moves[i].a);
      if Inv(states[i]) { StepInv(states[i], states[i + 1], moves[i].c, moves[i].a); }
    }
    Throughout(states, Inv, n);
  }

  /** A run keeps the invariant throughout exactly when no thread yields with the spinlock
      held. */
  lemma InvIffNoYields(states: seq<State>, moves: seq<Move>)
    requires Run(states, moves) && Created(states[0])
    ensures (forall n: nat :: n < |states| ==> Inv(states[n])) <==> NoYields(states, moves, |moves|)
  {
    if NoYields(states, moves, |moves|) {
      forall n: nat | n < |states| ensures Inv(states[n]) { RunInv(states, moves, n); }
    } else {
      var i: nat :| i < |moves| && !Disciplined(states[i], moves[i].c, moves[i].a);
      assert StepAt(states, moves, i);
      if Inv(states[i]) {
        YieldBreaks(states[i], states[i + 1], moves[i].c, moves[i].a);
        assert i + 1 < |states|;
      }
    }
  }

  /** A thread acquires the lock and yields: the holder is running nowhere. */
  lemma HolderYields() returns (states: seq<State>, moves: seq<Move>)
    ensures Run(states, moves) && Created(states[0])
    ensures states[|moves|].holder == 1 && 1 !in states[|moves|].cur
  {
    var s0 := State(NONE, NONE, [1], map[1 := Out, 2 := Out], []);
    var s1 := SetPc(s0, 1, Acquiring);
    var s2 := SetPc(s1.(spin := 0, holder := 1), 1, Out);
    var s3 := s2.(cur := [2]);
    states, moves := [s0, s1, s2, s3], [Move(0, AcquireCall), Move(0, AcquireDone), Move(0, Switch(2))];
    assert StepAt(states, moves, 0) && StepAt(states, moves, 1);
    assert StepAt(states, moves, 2) by { assert s2.cur[0 := 2] == [2]; }
  }

  /** Over every run without such a yield: a holder is running, on the processor that has the spinlock; so when
      the spinlock is free there is no holder, and no two threads hold the lock. */
  lemma HolderRuns(states: seq<State>, moves: seq<Move>, n: nat, t: nat)
    requires Run(states, moves) && Created(states[0]) && n < |states| && NoYields(states, moves, n)
    ensures states[n].spin == NONE ==> states[n].holder == NONE
    ensures DoIHold(states[n], t) ==> 0 <= states[n].spin < |states[n].cur| && states[n].cur[states[n].spin] == t
  {
    RunInv(states, moves, n);
    if DoIHold(states[n], t) { assert Inside(states[n], t); }
  }

  /** Over every run without such a yield: lock_acquire, at the end of cv_wait too, returns to the holder. */
  lemma AcquireGetsIt(states: seq<State>, moves: seq<Move>, i: nat)
    requires Run(states, moves) && Created(states[0]) && i < |moves| && NoYields(states, moves, i) && moves[i].a == AcquireDone
    ensures moves[i].c < |states[i].cur| && DoIHold(states[i + 1], states[i].cur[moves[i].c])
  {
    RunInv(states, moves, i);
    assert StepAt(states, moves, i);
  }

  /** Over every run without such a yield: while a thread holds the lock, every other that has given it up in
      cv_wait is already on its channel, or has been woken; so a signaller misses none. */
  lemma WaitersOnChannel(states: seq<State>, moves: seq<Move>, n: nat, t: nat, u: nat)
    requires Run(states, moves) && Created(states[0]) && n < |states| && NoYields(states, moves, n)
    requires DoIHold(states[n], u) && t in states[n].pc && t != u
    ensures !states[n].pc[t].GivenUp?
    ensures forall k: nat :: states[n].pc[t] == Waiting(k) ==> k < |states[n].chans| && t in states[n].chans[k]
  {
    var s := states[n];
    RunInv(states, moves, n);
    assert Inside(s, u);
    assert s.pc[t].GivenUp? ==> Inside(s, t);
    if s.pc[t].Waiting? { assert ChanOk(s, s.pc[t].k); }
  }

  /** The first waiters of channel k are woken, all of them or one if there is one, the lock
      is free, and all else is as it was. */
  ghost predicate SignalDone(s: State, s': State, k: nat, all: bool)
    requires k < |s.chans|
  {
    var l := s.chans[k];
    var woken := if all || l == [] then l else [l[0]];
    && s'.spin == NONE && s'.holder == NONE && s'.cur == s.cur
    && |s'.chans| == |s.chans| && woken + s'.chans[k] == l && (forall j :: 0 <= j < |s.chans| && j != k ==> s'.chans[j] == s.chans[j])
    && s'.pc.Keys == s.pc.Keys && (forall t :: t in s.pc ==> s'.pc[t] == if t in woken then Woken else s.pc[t])
  }

  /** Over every run without such a yield: cv_signal by the holder wakes the first waiter, cv_broadcast all,
      and both release the lock; by anybody else they change nothing. */
  lemma SignalWakes(states: seq<State>, moves: seq<Move>, i: nat, k: nat)
    requires Run(states, moves) && Created(states[0]) && i < |moves| && NoYields(states, moves, i) && (moves[i].a == Signal(k) || moves[i].a == Broadcast(k))
    requires moves[i].c < |states[i].cur|
    ensures k < |states[i].chans|
    ensures !DoIHold(states[i], states[i].cur[moves[i].c]) ==> states[i + 1] == states[i]
    ensures DoIHold(states[i], states[i].cur[moves[i].c]) ==> SignalDone(states[i], states[i + 1], k, moves[i].a.Broadcast?)
  {
    RunInv(states, moves, i);
    assert StepAt(states, moves, i);
    var s, c := states[i], moves[i].c;
    var l := s.chans[k];
    if !DoIHold(s, s.cur[c]) { return; }
    AfterWakeInv(s, c);
    if moves[i].a.Broadcast? {
      assert l == l + [];
      WakeInv(s, k, l, []);
      AfterWakeInv(Wake(s, k, l, []), c);
    } else if l != [] {
      assert l == [l[0]] + l[1..];
      WakeInv(s, k, [l[0]], l[1..]);
      AfterWakeInv(Wake(s, k, [l[0]], l[1..]), c);
    }
  }

  /** Over every run without such a yield: lock_release by the holder leaves the lock and its
      spinlock free and all else as it was, so that a thread spinning in lock_acquire can take
      it; by anybody else it changes nothing. */
  lemma ReleaseFrees(states: seq<State>, moves: seq<Move>, i: nat, d: nat)
    requires Run(states, moves) && Created(states[0]) && i < |moves| && NoYields(states, moves, i)
    requires moves[i].a == ReleaseLock && d < |states[i].cur|
    ensures moves[i].c < |states[i].cur|
    ensures var t := states[i].cur[moves[i].c];
            states[i + 1] == if states[i].holder == t then states[i].(holder := NONE, spin := NONE) else states[i]
    ensures var s, u := states[i + 1], states[i].cur[d];
            u in s.pc && s.pc[u] == Acquiring && s.spin == NONE ==> exists s' :: Step(s, s', d, AcquireDone) && s'.holder == u
  {
    RunInv(states, moves, i);
    assert StepAt(states, moves, i);
    var s, u := states[i + 1], states[i].cur[d];
    assert states[i].spin == NONE ==> states[i].holder == NONE;
    if u in s.pc && s.pc[u] == Acquiring && s.spin == NONE {
      assert Step(s, SetPc(s.(spin := d, holder := u), u, Out), d, AcquireDone);
    }
  }

  /** Over every run without such a yield, nobody else takes the lock from its holder. */
  lemma HolderKeeps(states: seq<State>, moves: seq<Move>, i: nat, t: nat)
    requires Run(states, moves) && Created(states[0]) && i < |moves| && NoYields(states, moves, i)
    requires DoIHold(states[i], t) && !DoIHold(states[i + 1], t)
    ensures moves[i].c < |states[i].cur| && states[i].cur[moves[i].c] == t
    ensures moves[i].a == ReleaseLock || moves[i].a.Wait? || moves[i].a.Signal? || moves[i].a.Broadcast?
    ensures states[i + 1].holder == NONE
  {
    RunInv(states, moves, i);
    assert StepAt(states, moves, i);
    if moves[i].a.Signal? || moves[i].a.Broadcast? { AfterWakeInv(states[i], moves[i].c); }
  }

  /** Over every run without such a yield: a thread comes out of lock_acquire, or of cv_wait
      however it was woken, holding the lock. */
  lemma ReturnsHolding(states: seq<State>, moves: seq<Move>, i: nat, t: nat)
    requires Run(states, moves) && Created(states[0]) && i < |moves| && NoYields(states, moves, i)
    requires t in states[i].pc && states[i].pc[t] != Out && t in states[i + 1].pc && states[i + 1].pc[t] == Out
    ensures DoIHold(states[i + 1], t)
  {
    RunInv(states, moves, i);
    assert StepAt(states, moves, i);
    if moves[i].a.Signal? || moves[i].a.Broadcast? { AfterWakeInv(states[i], moves[i].c); }
  }

  /** t is in cv_wait, not yet woken, at every time from i to n. */
  ghost predicate WaitsThroughout(states: seq<State>, i: nat, n: nat, t: nat) {
    n < |states| && forall j :: i <= j <= n ==> t in states[j].pc && (states[j].pc[t].GivenUp? || states[j].pc[t].Waiting?)
  }

  /** Over every run without such a yield: cv_wait by the holder gives up the lock, and until
      it is woken the thread waits for the condition variable it named, and for no other; by
      anybody else cv_wait only acquires the lock. */
  lemma {:induction false} WaitsForItsOwn(states: seq<State>, moves: seq<Move>, i: nat, n: nat, t: nat, k: nat)
    requires Run(states, moves) && Created(states[0]) && i < n <= |moves| && NoYields(states, moves, n)
    requires moves[i].c < |states[i].cur| && states[i].cur[moves[i].c] == t && moves[i].a == Wait(k)
    ensures t in states[i + 1].pc && t in states[n].pc
    ensures !DoIHold(states[i], t) ==> states[i + 1].pc[t] == Acquiring
    ensures DoIHold(states[i], t) ==> states[i + 1].holder == NONE
    ensures WaitsThroughout(states, i + 1, n, t) ==>
              states[n].pc[t] == GivenUp(k) || (states[n].pc[t] == Waiting(k) && k < |states[n].chans| && t in states[n].chans[k])
    decreases n
  {
    assert StepAt(states, moves, i);
    RunInv(states, moves, n);
    if n > i + 1 {
      WaitsForItsOwn(states, moves, i, n - 1, t, k);
      assert StepAt(states, moves, n - 1);
    }
    if states[n].pc[t] == Waiting(k) { assert ChanOk(states[n], k); }
  }

  /** Waiters join a channel behind, and leave it from the front. */
  lemma ChanTurn(s: State, s': State, c: nat, a: Action, k: nat)
    requires Inv(s) && Step(s, s', c, a) && Disciplined(s, c, a) && k < |s.chans|
    ensures |s'.chans| == |s.chans| && Turn(s.chans[k], s'.chans[k])
  {
    var q := s.chans[k];
    assert ChanOk(s, k);
    SameTurn(q);
    match a
    case Sleep(_) => assert s.cur[c] !in q; JoinTurn(q, [s.cur[c]]);
    case Signal(_) => if q != [] { assert q[1..|q|] == q[1..]; LeaveTurn(q, 1, |q|); }
    case Broadcast(_) => LeaveTurn(q, |q|, |q|);
    case _ =>
  }

  ghost function Channel(states: seq<State>, k: nat): seq<seq<nat>> {
    seq(|states|, (n: nat) requires n < |states| => if k < |states[n].chans| then states[n].chans[k] else [])
  }

  /** Over every run without such a yield: the thread that cv_signal wakes has been waiting
      at least as long as any other that waits. */
  lemma SignalsLongest(states: seq<State>, moves: seq<Move>, i: nat, n: nat, k: nat, u: nat)
    requires Run(states, moves) && Created(states[0]) && i <= n < |moves| && NoYields(states, moves, n)
    requires moves[n].a == Signal(k) && moves[n].c < |states[n].cur| && DoIHold(states[n], states[n].cur[moves[n].c])
    requires OnThroughout(Channel(states, k), i, n, u)
    ensures k < |states[n].chans| && states[n].chans[k] != []
    ensures var w := states[n].chans[k][0];
            OnThroughout(Channel(states, k), i, n, w) && w in states[n + 1].pc && states[n + 1].pc[w] == Woken
  {
    var qs := Channel(states, k);
    assert u in qs[n];
    forall j: nat | i <= j < n ensures TurnAt(qs, j) {
      RunInv(states, moves, j);
      assert StepAt(states, moves, j);
      assert u in qs[j];
      ChanTurn(states[j], states[j + 1], moves[j].c, moves[j].a, k);
    }
    HeadLongest(qs, i, n, u);
    SignalWakes(states, moves, n, k);
    RunInv(states, moves, n);
    assert ChanOk(states[n], k);
    assert states[n].chans[k][0] in states[n].chans[k];
  }
}
