/** The semaphore of asst3/synch.c. */
module Semaphores {
  import opened Runs
  import opened Fifos

  const UINT_MAX := 0xffff_ffff

  /** The part of struct semaphore that its spinlock protects. */
  datatype Sem = Sem(count: nat, chan: seq<nat>)

  /** One turn of P's loop, and what follows it when the count is not zero: the thread goes
      to sleep on the channel, or takes one from the count. */
  function PTurn(s: Sem, t: nat): Sem {
    if s.count == 0 then s.(chan := s.chan + [t]) else s.(count := s.count - 1)
  }

  /** V: one more, and the first sleeper, if any, is woken. */
  function VBody(s: Sem): Sem {
    Sem(s.count + 1, if s.chan == [] then [] else s.chan[1..])
  }

  class Semaphore {
    var count: nat
    var chan: seq<nat>

    /** sem_create, when memory is had. */
    constructor (initialCount: nat)
      requires initialCount <= UINT_MAX
      ensures State() == Sem(initialCount, [])
    {
      count, chan := initialCount, [];
    }

    ghost function State(): Sem
      reads this
    {
      Sem(count, chan)
    }

    /** A turn of P with the spinlock held; true when P is done. */
    method PTurnOf(t: nat) returns (done: bool)
      modifies this
      ensures State() == PTurn(old(State()), t) && done == (old(count) > 0)
    {
      if count == 0 {
        chan := chan + [t];
        done := false;
      } else {
        assert count > 0;
        count := count - 1;
        done := true;
      }
    }

    /** V with the spinlock held; false when the count wraps, which V asserts it does not. */
    method V() returns (ok: bool)
      requires count <= UINT_MAX
      modifies this
      ensures ok == (old(count) < UINT_MAX)
      ensures ok ==> State() == VBody(old(State()))
    {
      count := (count + 1) % (UINT_MAX + 1);
      if count == 0 { return false; }
      if chan != [] { chan := chan[1..]; }
      ok := true;
    }
  }

  // ---------------------------------------------------------------- every thread

  /** Where a thread is: in neither; at P or V, spinning for the lock; asleep; woken and
      spinning again in wchan_sleep; or with the lock, before or after its turn. */
  datatype Pc = Out | AtP | AtV | Asleep | Woken | InP | InV | Leaving

  /** The semaphore, the holder of its spinlock if any, and its history: Ps and Vs that have
      changed the count. */
  datatype State = State(sem: Sem, locked: bool, owner: nat, pc: map<nat, Pc>, ps: nat, vs: nat)

  datatype Action = CallP | CallV | Lock | Turn | Post | Unlock

  ghost predicate Step(s: State, s': State, t: nat, a: Action) {
    t in s.pc && match a
    case CallP => s.pc[t] == Out && s' == s.(pc := s.pc[t := AtP])
    case CallV => s.pc[t] == Out && s' == s.(pc := s.pc[t := AtV])
    case Lock =>
      && !s.locked && (s.pc[t] == AtP || s.pc[t] == Woken || s.pc[t] == AtV)
      && s' == s.(locked := true, owner := t, pc := s.pc[t := if s.pc[t] == AtV then InV else InP])
    case Turn =>
      && s.pc[t] == InP
      && s' == if s.sem.count == 0 then s.(sem := PTurn(s.sem, t), locked := false, pc := s.pc[t := Asleep])
               else s.(sem := PTurn(s.sem, t), ps := s.ps + 1, pc := s.pc[t := Leaving])
    case Post =>
      && s.pc[t] == InV && s.sem.count < UINT_MAX
      && var pc1 := s.pc[t := Leaving];
         s' == s.(sem := VBody(s.sem), vs := s.vs + 1,
                  pc := if s.sem.chan == [] then pc1 else pc1[s.sem.chan[0] := Woken])
    case Unlock => s.pc[t] == Leaving && s' == s.(locked := false, pc := s.pc[t := Out])
  }

  ghost function WokenSet(pc: map<nat, Pc>): set<nat> {
    set t | t in pc && pc[t] == Woken
  }

  predicate HasLock(pc: Pc) { pc == InP || pc == InV || pc == Leaving }

  /** Threads woken that have not yet had their turn cover the count while any is asleep;
      while a thread with the lock has yet to take its turn, with it. */
  ghost predicate NoneLost(s: State) {
    s.sem.chan == [] ||
    |WokenSet(s.pc)| + (if s.locked && s.owner in s.pc && s.pc[s.owner] == InP then 1 else 0) >= s.sem.count
  }

  ghost predicate Inv(s: State, init: nat) {
    && s.sem.count + s.ps == init + s.vs
    && (forall i, j :: 0 <= i < j < |s.sem.chan| ==> s.sem.chan[i] != s.sem.chan[j])
    && (forall t :: t in s.sem.chan <==> t in s.pc && s.pc[t] == Asleep)
    && (s.locked ==> s.owner in s.pc && HasLock(s.pc[s.owner]))
    && (forall t :: t in s.pc && HasLock(s.pc[t]) ==> s.locked && s.owner == t)
    && NoneLost(s)
  }

  lemma WokenAdd(pc: map<nat, Pc>, t: nat, p: Pc)
    requires t in pc
    ensures |WokenSet(pc[t := p])| ==
            |WokenSet(pc)| + (if p == Woken && pc[t] != Woken then 1 else 0) - (if p != Woken && pc[t] == Woken then 1 else 0)
  {
    if p == Woken {
      assert WokenSet(pc[t := p]) == WokenSet(pc) + {t};
    } else {
      assert WokenSet(pc[t := p]) == WokenSet(pc) - {t};
    }
  }

  lemma StepInv(s: State, s': State, t: nat, a: Action, init: nat)
    requires Inv(s, init) && Step(s, s', t, a)
    ensures Inv(s', init)
  {
    match a
    case CallP => WokenAdd(s.pc, t, AtP);
    case CallV => WokenAdd(s.pc, t, AtV);
    case Lock => WokenAdd(s.pc, t, if s.pc[t] == AtV then InV else InP);
    case Turn => TurnInv(s, s', t, init);
    case Post => PostInv(s, s', t, init);
    case Unlock => WokenAdd(s.pc, t, Out);
  }

  lemma TurnInv(s: State, s': State, t: nat, init: nat)
    requires Inv(s, init) && Step(s, s', t, Turn)
    ensures Inv(s', init)
  {
    WokenAdd(s.pc, t, if s.sem.count == 0 then Asleep else Leaving);
  }

  lemma PostInv(s: State, s': State, t: nat, init: nat)
    requires Inv(s, init) && Step(s, s', t, Post)
    ensures Inv(s', init)
  {
    var pc1 := s.pc[t := Leaving];
    WokenAdd(s.pc, t, Leaving);
    if s.sem.chan != [] {
      var w := s.sem.chan[0];
      assert w in s.sem.chan && w != t;
      WokenAdd(pc1, w, Woken);
      assert s.sem.chan == [w] + s'.sem.chan;
    }
  }

  datatype Move = Move(t: nat, a: Action)

  ghost predicate Run(states: seq<State>, moves: seq<Move>) {
    |states| == |moves| + 1 && forall i :: 0 <= i < |moves| ==> StepAt(states, moves, i)
  }

  ghost predicate StepAt(states: seq<State>, moves: seq<Move>, i: nat)
    requires i < |moves| && |states| == |moves| + 1
  {
    Step(states[i], states[i + 1], moves[i].t, moves[i].a)
  }

  ghost predicate Created(s: State, init: nat) {
    s.sem == Sem(init, []) && !s.locked && s.ps == 0 && s.vs == 0 && forall t :: t in s.pc ==> s.pc[t] == Out
  }

  lemma RunInv(states: seq<State>, moves: seq<Move>, n: nat, init: nat)
    requires Run(states, moves) && Created(states[0], init) && n < |states|
    ensures Inv(states[n], init)
  {
    var inv := (s: State) => Inv(s, init);
    assert inv(states[0]) by { assert WokenSet(states[0].pc) == {}; }
    forall i: nat | i < n ensures Keeps(states, inv, i) {
      assert StepAt(states, moves, i);
      if inv(states[i]) { StepInv(states[i], states[i + 1], moves[i].t, moves[i].a, init); }
    }
    Throughout(states, inv, n);
  }

  /** Over every run, however threads barge: the count is the initial one and the Vs less
      the Ps; at most one thread has the lock; and when the lock is free, no thread is
      asleep, or those woken and not yet back are at least as many as the count. */
  lemma NoLostWakeup(states: seq<State>, moves: seq<Move>, n: nat, init: nat)
    requires Run(states, moves) && Created(states[0], init) && n < |states|
    ensures states[n].sem.count == init + states[n].vs - states[n].ps
    ensures !states[n].locked ==> states[n].sem.chan == [] || |WokenSet(states[n].pc)| >= states[n].sem.count
    ensures forall t, u :: t in states[n].pc && u in states[n].pc && HasLock(states[n].pc[t]) && HasLock(states[n].pc[u]) ==> t == u
  {
    RunInv(states, moves, n, init);
  }

  /** Sleepers join behind, and leave from the front. */
  lemma ChanTurn(s: State, s': State, t: nat, a: Action, init: nat)
    requires Inv(s, init) && Step(s, s', t, a)
    ensures Fifos.Turn(s.sem.chan, s'.sem.chan)
  {
    SameTurn(s.sem.chan);
    match a
    case Turn => assert t !in s.sem.chan; JoinTurn(s.sem.chan, [t]);
    case Post => if s.sem.chan != [] { assert s.sem.chan[1..|s.sem.chan|] == s.sem.chan[1..]; LeaveTurn(s.sem.chan, 1, |s.sem.chan|); }
    case _ =>
  }

  /** t is asleep at every time from i to n. */
  ghost predicate AsleepThroughout(states: seq<State>, i: nat, n: nat, t: nat) {
    n < |states| && forall k :: i <= k <= n ==> t in states[k].pc && states[k].pc[t] == Asleep
  }

  ghost function Channels(states: seq<State>): seq<seq<nat>> {
    seq(|states|, (k: nat) requires k < |states| => states[k].sem.chan)
  }

  lemma AsleepOnChannel(states: seq<State>, moves: seq<Move>, i: nat, n: nat, init: nat, t: nat)
    requires Run(states, moves) && Created(states[0], init) && i <= n < |states|
    ensures AsleepThroughout(states, i, n, t) <==> OnThroughout(Channels(states), i, n, t)
  {
    forall k: nat | i <= k <= n ensures (t in states[k].pc && states[k].pc[t] == Asleep) <==> t in Channels(states)[k] {
      RunInv(states, moves, k, init);
    }
  }

  /** Over every run: V by a thread with the lock wakes one thread if any is asleep, the one
      that has been asleep the longest, and no other. */
  lemma WakesLongest(states: seq<State>, moves: seq<Move>, i: nat, n: nat, init: nat, u: nat) returns (w: nat)
    requires Run(states, moves) && Created(states[0], init) && i <= n < |moves| && moves[n].a == Post
    requires AsleepThroughout(states, i, n, u)
    ensures AsleepThroughout(states, i, n, w)
    ensures states[n + 1].pc == states[n].pc[moves[n].t := Leaving][w := Woken]
    ensures states[n + 1].sem.count == states[n].sem.count + 1
  {
    var qs := Channels(states);
    AsleepOnChannel(states, moves, i, n, init, u);
    forall k: nat | i <= k < n ensures TurnAt(qs, k) {
      RunInv(states, moves, k, init);
      assert StepAt(states, moves, k);
      ChanTurn(states[k], states[k + 1], moves[k].t, moves[k].a, init);
    }
    HeadLongest(qs, i, n, u);
    w := qs[n][0];
    AsleepOnChannel(states, moves, i, n, init, w);
    assert StepAt(states, moves, n);
  }
}
