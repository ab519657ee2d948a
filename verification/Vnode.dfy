/** Reference counts of kern/vfs/vnode.c: the operations, and every thread using them. */
module Vnodes {
  import opened Runs

  class Vnode {
    var refcount: int
    var live: bool

    /** vnode_init. */
    constructor ()
      ensures refcount == 1 && live
    {
      refcount, live := 1, true;
    }

    /** vnode_cleanup. */
    method Cleanup()
      requires refcount == 1
      modifies this
      ensures refcount == 0 && !live
    {
      refcount, live := 0, false;
    }

    /** vnode_incref. */
    method Incref()
      modifies this`refcount
      ensures refcount == old(refcount) + 1
    {
      refcount := refcount + 1;
    }

    /** vnode_decref up to VOP_RECLAIM: the last reference is not dropped but passed on. */
    method Decref() returns (destroy: bool)
      requires refcount > 0
      modifies this`refcount
      ensures destroy == (old(refcount) == 1)
      ensures refcount == if destroy then 1 else old(refcount) - 1
    {
      if refcount > 1 {
        refcount := refcount - 1;
        destroy := false;
      } else {
        destroy := true;
      }
    }
  }

  // ---------------------------------------------------------------- every thread

  /** One vnode: its count while it exists, the references each thread holds, the threads
      that have passed theirs to VOP_RECLAIM, and whether one was left behind. */
  datatype State = State(live: bool, count: nat, held: map<nat, nat>, reclaiming: set<nat>, leaked: bool)

  /** Get: VOP_INCREF, or the file system handing the vnode out. Reclaim: as a file system
      does it, consuming the reference if somebody else has the vnode by now (EBUSY), else
      destroying the vnode, or failing and leaving the reference behind. */
  datatype Action = Get | Drop | ReclaimBusy | ReclaimDone | ReclaimFail

  ghost predicate Step(s: State, s': State, t: nat, a: Action) {
    s.live && t in s.held && match a
    case Get => s' == s.(count := s.count + 1, held := s.held[t := s.held[t] + 1])
    case Drop =>
      && s.held[t] > 0 && t !in s.reclaiming
      && s' == if s.count > 1 then s.(count := s.count - 1, held := s.held[t := s.held[t] - 1])
               else s.(reclaiming := s.reclaiming + {t})
    case ReclaimBusy =>
      && t in s.reclaiming && s.count > 1 && s.held[t] > 0
      && s' == s.(count := s.count - 1, held := s.held[t := s.held[t] - 1], reclaiming := s.reclaiming - {t})
    case ReclaimDone =>
      && t in s.reclaiming && s.count == 1 && s.held[t] > 0
      && s' == s.(live := false, count := 0, held := s.held[t := s.held[t] - 1], reclaiming := s.reclaiming - {t})
    case ReclaimFail =>
      && t in s.reclaiming && s.count == 1 && s.held[t] > 0
      && s' == s.(held := s.held[t := s.held[t] - 1], reclaiming := s.reclaiming - {t}, leaked := true)
  }

  ghost function Total(held: map<nat, nat>): nat
    decreases |held|
  {
    if held == map[] then 0 else
      var t :| t in held;
      assert |held - {t}| < |held| by { assert (held - {t}).Keys == held.Keys - {t}; }
      held[t] + Total(held - {t})
  }

  /** The sum does not depend on the order it is taken in. */
  lemma {:induction false} TotalSplit(held: map<nat, nat>, t: nat)
    requires t in held
    ensures Total(held) == held[t] + Total(held - {t})
    decreases |held|
  {
    var u :| u in held && Total(held) == held[u] + Total(held - {u});
    if u != t {
      assert (held - {u}).Keys == held.Keys - {u} && (held - {t}).Keys == held.Keys - {t};
      TotalSplit(held - {u}, t);
      TotalSplit(held - {t}, u);
      assert held - {u} - {t} == held - {t} - {u};
    }
  }

  lemma TotalUpdate(held: map<nat, nat>, t: nat, n: nat)
    requires t in held
    ensures Total(held[t := n]) + held[t] == Total(held) + n
  {
    TotalSplit(held, t);
    TotalSplit(held[t := n], t);
    assert held[t := n] - {t} == held - {t};
  }

  ghost predicate Inv(s: State) {
    && (s.live ==> s.count > 0 && s.count == Total(s.held) + (if s.leaked then 1 else 0))
    && (s.live ==> forall t :: t in s.reclaiming ==> t in s.held && s.held[t] > 0)
    && (s.leaked ==> s.live && s.reclaiming == {})
    && (!s.live ==> s.count == 0 && Total(s.held) == 0)
  }

  lemma TwoHolders(held: map<nat, nat>, t: nat, u: nat)
    requires t in held && u in held && t != u
    ensures Total(held) >= held[t] + held[u]
  {
    TotalSplit(held, t);
    TotalSplit(held - {t}, u);
  }

  lemma StepInv(s: State, s': State, t: nat, a: Action)
    requires Inv(s) && Step(s, s', t, a)
    ensures Inv(s')
  {
    TotalSplit(s.held, t);
    match a
    case Get => TotalUpdate(s.held, t, s.held[t] + 1);
    case Drop => if s.count > 1 { TotalUpdate(s.held, t, s.held[t] - 1); }
    case ReclaimFail =>
      TotalUpdate(s.held, t, s.held[t] - 1);
      forall u | u in s.reclaiming ensures u == t { if u != t { TwoHolders(s.held, t, u); } }
    case _ => TotalUpdate(s.held, t, s.held[t] - 1);
  }

  datatype Move = Move(t: nat, a: Action)

  ghost predicate Run(states: seq<State>, moves: seq<Move>) {
    |states| == |moves| + 1 && forall i :: 0 <= i < |moves| ==> StepAt(states, moves, i)
  }

  ghost predicate StepAt(states: seq<State>, moves: seq<Move>, i: nat)
    requires i < |moves| && |states| == |moves| + 1
  {
    Step(states[i], states[i + 1], moves[i].t, moves[i].a)
  }

  /** vnode_init, with the one reference in somebody's hands. */
  ghost predicate Created(s: State) {
    s.live && s.count == 1 == Total(s.held) && s.reclaiming == {} && !s.leaked
  }

  lemma RunInv(states: seq<State>, moves: seq<Move>, n: nat)
    requires Run(states, moves) && n < |states| && Created(states[0])
    ensures Inv(states[n])
  {
    forall i: nat | i < n ensures Keeps(states, Inv, i) {
      assert StepAt(states, moves, i);
      if Inv(states[i]) { StepInv(states[i], states[i + 1], moves[i].t, moves[i].a); }
    }
    Throughout(states, Inv, n);
  }

  /** Over every run from vnode_init: the count is the number of references threads hold,
      and one more once VOP_RECLAIM has failed; when the vnode is destroyed nobody holds
      one; and a thread in VOP_RECLAIM finds a count of at least one. */
  lemma CountIsHeld(states: seq<State>, moves: seq<Move>, n: nat)
    requires Run(states, moves) && n < |states| && Created(states[0])
    ensures var s := states[n];
            if s.live then s.count == Total(s.held) + (if s.leaked then 1 else 0) else Total(s.held) == 0
    ensures states[n].live && states[n].reclaiming != {} ==> states[n].count >= 1
  {
    var s := states[n];
    RunInv(states, moves, n);
    if s.live && s.reclaiming != {} {
      var t :| t in s.reclaiming;
      TotalSplit(s.held, t);
    }
  }

  /** Over every run from vnode_init: from the first failed VOP_RECLAIM on, the vnode is never
      destroyed, nobody calls VOP_RECLAIM again, and its count stays one more than the
      references held. */
  lemma {:induction false} LeakedStays(states: seq<State>, moves: seq<Move>, i: nat, n: nat)
    requires Run(states, moves) && i <= n < |states| && Created(states[0]) && states[i].leaked
    ensures states[n].leaked && states[n].live && states[n].reclaiming == {}
    ensures states[n].count == Total(states[n].held) + 1
    decreases n
  {
    RunInv(states, moves, n);
    if i < n {
      LeakedStays(states, moves, i, n - 1);
      assert StepAt(states, moves, n - 1);
    }
  }

  /** Over every run from vnode_init: giving up a reference takes one from the count and from
      what the thread holds, or, if it is the only one there is, takes the thread to
      VOP_RECLAIM with it. */
  lemma DropOrReclaim(states: seq<State>, moves: seq<Move>, n: nat)
    requires Run(states, moves) && n < |moves| && Created(states[0]) && moves[n].a == Drop
    ensures moves[n].t in states[n].held && states[n].held[moves[n].t] > 0 && states[n].count > 0
    ensures var s, s', t := states[n], states[n + 1], moves[n].t;
            if Total(s.held) == 1 && !s.leaked then s' == s.(reclaiming := s.reclaiming + {t})
            else s' == s.(count := s.count - 1, held := s.held[t := s.held[t] - 1])
  {
    RunInv(states, moves, n);
    assert StepAt(states, moves, n);
    TotalSplit(states[n].held, moves[n].t);
  }

  /** Over every run from vnode_init: VOP_RECLAIM takes the caller's reference, whatever it
      does; it destroys the vnode only when that is the only one, and leaves it with one
      nobody holds only by failing. */
  lemma ReclaimTakes(states: seq<State>, moves: seq<Move>, n: nat)
    requires Run(states, moves) && n < |moves| && Created(states[0]) && moves[n].a != Get && moves[n].a != Drop
    ensures moves[n].t in states[n].held && states[n].held[moves[n].t] > 0
    ensures var s, s', t := states[n], states[n + 1], moves[n].t;
            && s'.held == s.held[t := s.held[t] - 1] && s'.reclaiming == s.reclaiming - {t}
            && (s'.live <==> moves[n].a != ReclaimDone) && (moves[n].a == ReclaimDone ==> Total(s.held) == 1 && Total(s'.held) == 0)
            && (s'.leaked <==> s.leaked || moves[n].a == ReclaimFail)
  {
    RunInv(states, moves, n);
    assert StepAt(states, moves, n);
    TotalUpdate(states[n].held, moves[n].t, states[n].held[moves[n].t] - 1);
  }

  /** Over every run from vnode_init: a vnode to which nobody has a reference is destroyed,
      unless VOP_RECLAIM has failed. */
  lemma NoneForgotten(states: seq<State>, moves: seq<Move>, n: nat)
    requires Run(states, moves) && n < |states| && Created(states[0])
    ensures Total(states[n].held) == 0 ==> !states[n].live || states[n].leaked
  {
    RunInv(states, moves, n);
  }
}
