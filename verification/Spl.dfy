/** Interrupt levels: kern/thread/spl.c and the counting in kern/thread/spinlock.c. */
module Spl {

  const IPL_NONE := 0
  const IPL_HIGH := 1

  /** t_curspl is high, t_iplhigh_count, and whether the processor takes interrupts. */
  datatype Level = Level(high: bool, count: nat, irq: bool)

  function Raised(l: Level): Level {
    l.(count := l.count + 1, irq := l.irq && l.count != 0)
  }

  function Lowered(l: Level): Level
    requires l.count > 0
  {
    l.(count := l.count - 1, irq := l.irq || l.count == 1)
  }

  /** splx, to the high level or to none. */
  function AtLevel(l: Level, high: bool): Level
    requires l.high ==> l.count > 0
  {
    if high && !l.high then Raised(l).(high := true)
    else if !high && l.high then Lowered(l).(high := false)
    else l
  }

  /** The count has one for the level and one for every spinlock held, and interrupts
      are on exactly when it is zero. */
  predicate Counted(l: Level, spinlocks: nat) {
    l.count == (if l.high then 1 else 0) + spinlocks && l.irq == (l.count == 0)
  }

  lemma AtLevelCounted(l: Level, spinlocks: nat, high: bool)
    requires Counted(l, spinlocks)
    ensures Counted(AtLevel(l, high), spinlocks) && AtLevel(l, high).high == high
  {
  }

  /** What a thread may do, in any order; spinlocks and levels need not nest. */
  datatype IplOp = SetLevel(high: bool) | Take(lock: nat) | Drop(lock: nat)

  /** Levels and the set of spinlocks held, after some operations; taking a lock held or
      dropping one not held is an assertion failure and is not a run. */
  ghost predicate Runs(l: Level, held: set<nat>, ops: seq<IplOp>, l': Level, held': set<nat>)
    decreases |ops|
  {
    if ops == [] then l' == l && held' == held
    else match ops[0]
      case SetLevel(high) => (l.high ==> l.count > 0) && Runs(AtLevel(l, high), held, ops[1..], l', held')
      case Take(k) => k !in held && Runs(Raised(l), held + {k}, ops[1..], l', held')
      case Drop(k) => k in held && l.count > 0 && Runs(Lowered(l), held - {k}, ops[1..], l', held')
  }

  /** After any operations: interrupts are on exactly when the level is none and no
      spinlock is held. */
  lemma {:induction false} OpsCounted(l: Level, held: set<nat>, ops: seq<IplOp>, l': Level, held': set<nat>)
    requires Counted(l, |held|) && Runs(l, held, ops, l', held')
    ensures Counted(l', |held'|) && (l'.irq <==> !l'.high && held' == {})
    decreases |ops|
  {
    if ops != [] {
      match ops[0]
      case SetLevel(high) => OpsCounted(AtLevel(l, high), held, ops[1..], l', held');
      case Take(k) => OpsCounted(Raised(l), held + {k}, ops[1..], l', held');
      case Drop(k) =>
        assert |held - {k}| == |held| - 1;
        OpsCounted(Lowered(l), held - {k}, ops[1..], l', held');
    }
  }

  class Thread {
    var tCurspl: int
    var tIplhighCount: int

    /** thread_create: interrupts start off, which t_curspl accounts for. */
    constructor ()
      ensures tCurspl == IPL_HIGH && tIplhighCount == 1
    {
      tCurspl, tIplhighCount := IPL_HIGH, 1;
    }
  }

  class Spinlock {
    var data: nat
    var holder: Cpu?

    /** spinlock_init. */
    constructor ()
      ensures data == 0 && holder == null
    {
      data, holder := 0, null;
    }
  }

  class Cpu {
    var irq: bool
    var spinlocks: nat
    var curthread: Thread

    constructor (t: Thread)
      ensures curthread == t && spinlocks == 0 && !irq
    {
      irq, spinlocks, curthread := false, 0, t;
    }

    ghost predicate Valid()
      reads this, curthread
    {
      curthread.tIplhighCount >= 0 && (curthread.tCurspl == IPL_NONE || curthread.tCurspl == IPL_HIGH)
    }

    ghost function State(): Level
      requires Valid()
      reads this, curthread
    {
      Level(curthread.tCurspl == IPL_HIGH, curthread.tIplhighCount, irq)
    }

    method Splraise(oldspl: int, newspl: int)
      requires Valid() && oldspl == IPL_NONE && newspl == IPL_HIGH
      modifies this`irq, curthread`tIplhighCount
      ensures Valid() && State() == Raised(old(State()))
    {
      if curthread.tIplhighCount == 0 { irq := false; }
      curthread.tIplhighCount := curthread.tIplhighCount + 1;
    }

    method Spllower(oldspl: int, newspl: int)
      requires Valid() && oldspl == IPL_HIGH && newspl == IPL_NONE && State().count > 0
      modifies this`irq, curthread`tIplhighCount
      ensures Valid() && State() == Lowered(old(State()))
    {
      curthread.tIplhighCount := curthread.tIplhighCount - 1;
      if curthread.tIplhighCount == 0 { irq := true; }
    }

    method Splx(spl: int) returns (ret: int)
      requires Valid() && (spl == IPL_NONE || spl == IPL_HIGH) && (State().high ==> State().count > 0)
      modifies this`irq, curthread
      ensures Valid() && State() == AtLevel(old(State()), spl == IPL_HIGH)
      ensures ret == old(curthread.tCurspl)
    {
      if curthread.tCurspl < spl {
        Splraise(curthread.tCurspl, spl);
        ret := curthread.tCurspl;
        curthread.tCurspl := spl;
      } else if curthread.tCurspl > spl {
        ret := curthread.tCurspl;
        curthread.tCurspl := spl;
        Spllower(ret, spl);
      } else {
        ret := spl;
      }
    }

    /** spinlock_acquire once the lock word is seen clear. The spin itself, with other
        processors running, is module SpinSteps. */
    method SpinlockAcquire(splk: Spinlock)
      requires Valid() && splk.holder != this && splk.data == 0
      modifies this`irq, this`spinlocks, curthread`tIplhighCount, splk
      ensures Valid() && State() == Raised(old(State())) && spinlocks == old(spinlocks) + 1
      ensures splk.data == 1 && splk.holder == this
      ensures Counted(old(State()), old(spinlocks)) ==> Counted(State(), spinlocks)
    {
      Splraise(IPL_NONE, IPL_HIGH);
      spinlocks := spinlocks + 1;
      splk.data := 1;
      splk.holder := this;
    }

    method SpinlockRelease(splk: Spinlock)
      requires Valid() && splk.holder == this && spinlocks > 0 && State().count > 0
      modifies this`irq, this`spinlocks, curthread`tIplhighCount, splk
      ensures Valid() && State() == Lowered(old(State())) && spinlocks == old(spinlocks) - 1
      ensures splk.data == 0 && splk.holder == null
      ensures Counted(old(State()), old(spinlocks)) ==> Counted(State(), spinlocks)
    {
      spinlocks := spinlocks - 1;
      splk.holder := null;
      splk.data := 0;
      Spllower(IPL_HIGH, IPL_NONE);
    }
  }
}

/** The spin loop of kern/thread/spinlock.c with every processor running: one spinlock,
    each access to its word a step. */
module SpinSteps {
  import opened Runs

  /** Where a processor is: outside; past the check for deadlock; having read a clear lock
      word; having won the test-and-set; holding the lock; having cleared the holder. */
  datatype Pc = Out | Spinning | SawClear | Won | Holding | Dropping

  datatype State = State(word: nat, holder: int, pc: seq<Pc>)

  const NOBODY := -1

  datatype Step = Enter | Read | TestAndSet | SetHolder | ClearHolder | ClearWord

  /** spinlock_do_i_hold, read without the lock. */
  predicate DoIHold(s: State, c: nat) {
    s.holder == c
  }

  ghost predicate Next(s: State, s': State, c: nat, step: Step) {
    c < |s.pc| && match step
    case Enter => s.pc[c] == Out && !DoIHold(s, c) && s' == s.(pc := s.pc[c := Spinning])
    case Read => s.pc[c] == Spinning && s' == (if s.word != 0 then s else s.(pc := s.pc[c := SawClear]))
    case TestAndSet => s.pc[c] == SawClear && s' == s.(word := 1, pc := s.pc[c := if s.word != 0 then Spinning else Won])
    case SetHolder => s.pc[c] == Won && s' == s.(holder := c, pc := s.pc[c := Holding])
    case ClearHolder => s.pc[c] == Holding && s' == s.(holder := NOBODY, pc := s.pc[c := Dropping])
    case ClearWord => s.pc[c] == Dropping && s' == s.(word := 0, pc := s.pc[c := Out])
  }

  predicate Inside(pc: Pc) { pc == Won || pc == Holding || pc == Dropping }

  ghost predicate Inv(s: State) {
    && (forall c, d :: 0 <= c < |s.pc| && 0 <= d < |s.pc| && Inside(s.pc[c]) && Inside(s.pc[d]) ==> c == d)
    && (forall c :: 0 <= c < |s.pc| && Inside(s.pc[c]) ==> s.word == 1)
    && (s.word == 1 ==> exists c :: 0 <= c < |s.pc| && Inside(s.pc[c]))
    && (s.word == 0 || s.word == 1)
    && (forall c: nat :: c < |s.pc| ==> (DoIHold(s, c) <==> s.pc[c] == Holding))
    && (s.holder == NOBODY || 0 <= s.holder < |s.pc|)
  }

  lemma StepInv(s: State, s': State, c: nat, step: Step)
    requires Inv(s) && Next(s, s', c, step)
    ensures Inv(s')
  {
    assert |s'.pc| == |s.pc| && forall d :: 0 <= d < |s.pc| && d != c ==> s'.pc[d] == s.pc[d];
    if s'.word == 1 {
      if Inside(s'.pc[c]) {
      } else {
        var d :| 0 <= d < |s.pc| && Inside(s.pc[d]);
        assert Inside(s'.pc[d]);
      }
    }
  }

  datatype Move = Move(c: nat, step: Step)

  ghost predicate Run(states: seq<State>, moves: seq<Move>) {
    |states| == |moves| + 1 && forall i :: 0 <= i < |moves| ==> StepAt(states, moves, i)
  }

  ghost predicate StepAt(states: seq<State>, moves: seq<Move>, i: nat)
    requires i < |moves| && |states| == |moves| + 1
  {
    Next(states[i], states[i + 1], moves[i].c, moves[i].step)
  }

  /** Over every run from a free lock: at most one processor holds the lock, and
      spinlock_do_i_hold answers exactly, though it reads the holder without the lock. */
  lemma MutualExclusion(states: seq<State>, moves: seq<Move>, n: nat, c: nat, d: nat)
    requires Run(states, moves) && n < |states|
    requires states[0].word == 0 && states[0].holder == NOBODY && forall k :: 0 <= k < |states[0].pc| ==> states[0].pc[k] == Out
    requires c < |states[n].pc| && d < |states[n].pc|
    ensures states[n].pc[c] == Holding && states[n].pc[d] == Holding ==> c == d
    ensures DoIHold(states[n], c) <==> states[n].pc[c] == Holding
  {
    forall i: nat | i < n ensures Keeps(states, Inv, i) {
      assert StepAt(states, moves, i);
      if Inv(states[i]) { StepInv(states[i], states[i + 1], moves[i].c, moves[i].step); }
    }
    Throughout(states, Inv, n);
  }

  /** A processor spinning for a free lock gets it, if no other acts meanwhile. */
  lemma TakesFree(s: State, c: nat) returns (states: seq<State>, moves: seq<Move>)
    requires Inv(s) && c < |s.pc| && s.pc[c] == Spinning && s.word == 0
    ensures Run(states, moves) && states[0] == s && |moves| == 3
    ensures states[3].pc == s.pc[c := Holding] && DoIHold(states[3], c) && states[3].word == 1
  {
    var s1 := s.(pc := s.pc[c := SawClear]);
    var s2 := s1.(word := 1, pc := s1.pc[c := Won]);
    var s3 := s2.(holder := c, pc := s2.pc[c := Holding]);
    states, moves := [s, s1, s2, s3], [Move(c, Read), Move(c, TestAndSet), Move(c, SetHolder)];
    assert StepAt(states, moves, 0) && StepAt(states, moves, 1) && StepAt(states, moves, 2);
  }

  /** Releasing leaves the lock free, the holder nobody and the others where they are. */
  lemma ReleaseFrees(s: State, c: nat) returns (states: seq<State>, moves: seq<Move>)
    requires Inv(s) && c < |s.pc| && s.pc[c] == Holding
    ensures Run(states, moves) && states[0] == s && |moves| == 2
    ensures states[2] == State(0, NOBODY, s.pc[c := Out])
  {
    var s1 := s.(holder := NOBODY, pc := s.pc[c := Dropping]);
    var s2 := s1.(word := 0, pc := s1.pc[c := Out]);
    states, moves := [s, s1, s2], [Move(c, ClearHolder), Move(c, ClearWord)];
    assert StepAt(states, moves, 0) && StepAt(states, moves, 1);
  }
}
