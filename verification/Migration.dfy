/** The loops of thread_consider_migration and wchan_wakeall in kern/thread/thread.c, on
    the run queues themselves. */
module Migration {
  import opened Sched
  import opened MigrationSpec

  lemma SetTwice(qs: seq<seq<nat>>, i: nat, a: seq<nat>, b: seq<nat>)
    requires i < |qs|
    ensures qs[i := a][i := b] == qs[i := b] && qs[i := qs[i]] == qs
  {
  }

  class Processors {
    var runqs: seq<seq<nat>>
    var tcpu: map<nat, nat>

    constructor (n: nat)
      ensures runqs == seq(n, _ => []) && tcpu == map[]
    {
      runqs, tcpu := seq(n, _ => []), map[];
    }

    /** The first loop: each run queue's length, and our own. */
    method Count(me: nat) returns (myCount: nat, totalCount: nat)
      requires me < |runqs|
      ensures totalCount == TotalCount(runqs) && myCount == |runqs[me]|
    {
      myCount, totalCount := 0, 0;
      for i := 0 to |runqs|
        invariant totalCount == TotalCount(runqs[..i]) && (i > me ==> myCount == |runqs[me]|)
      {
        assert runqs[..i + 1][..i] == runqs[..i];
        totalCount := totalCount + |runqs[i]|;
        if i == me { myCount := |runqs[i]|; }
      }
      assert runqs[..|runqs|] == runqs;
    }

    /** Taking victims off the tail of our own run queue, keeping their order. */
    method TakeVictims(me: nat, toSend: nat) returns (victims: seq<nat>)
      requires me < |runqs| && toSend <= |runqs[me]|
      modifies this`runqs
      ensures victims == old(runqs[me])[|old(runqs[me])| - toSend..]
      ensures runqs == old(runqs)[me := old(runqs[me])[..|old(runqs[me])| - toSend]]
    {
      victims := [];
      ghost var q := runqs[me];
      assert q[..|q|] == q;
      SetTwice(runqs, me, q, q);
      for i := 0 to toSend
        invariant runqs == old(runqs)[me := q[..|q| - i]] && victims == q[|q| - i..]
      {
        var t := runqs[me][|runqs[me]| - 1];
        assert q[..|q| - i][..|q| - i - 1] == q[..|q| - i - 1];
        SetTwice(old(runqs), me, q[..|q| - i], q[..|q| - i - 1]);
        runqs := runqs[me := runqs[me][..|runqs[me]| - 1]];
        victims := [t] + victims;
      }
    }

    /** The inner sending loop, holding the run queue lock of processor c. */
    method SendTo(c: nat, curthread: nat, oneShare: nat, victims0: seq<nat>, toSend0: nat) returns (victims: seq<nat>, toSend: nat)
      requires c < |runqs| && toSend0 <= |victims0|
      modifies this
      ensures |runqs| == |old(runqs)| && forall i :: 0 <= i < |runqs| && i != c ==> runqs[i] == old(runqs[i])
      ensures Push(curthread, oneShare, victims0, old(runqs[c]), toSend0) == Did(Pushed(victims, runqs[c], toSend))
      ensures |old(runqs[c])| <= |runqs[c]|
      ensures forall t :: t in runqs[c][|old(runqs[c])|..] ==> t in tcpu && tcpu[t] == c
      ensures forall t :: t in old(tcpu) && t !in runqs[c][|old(runqs[c])|..] ==> t in tcpu && tcpu[t] == old(tcpu)[t]
    {
      victims, toSend := victims0, toSend0;
      while |runqs[c]| < oneShare && toSend > 0
        invariant |runqs| == |old(runqs)| && forall i :: 0 <= i < |runqs| && i != c ==> runqs[i] == old(runqs[i])
        invariant toSend <= |victims| && |old(runqs[c])| <= |runqs[c]|
        invariant Push(curthread, oneShare, victims, runqs[c], toSend) == Push(curthread, oneShare, victims0, old(runqs[c]), toSend0)
        invariant forall t :: t in runqs[c][|old(runqs[c])|..] ==> t in tcpu && tcpu[t] == c
        invariant forall t :: t in old(tcpu) && t !in runqs[c][|old(runqs[c])|..] ==> t in tcpu && tcpu[t] == old(tcpu)[t]
        decreases toSend
      {
        assert victims != [];
        var t := victims[0];
        victims := victims[1..];
        if t == curthread {
          victims := victims + [t];
          toSend := toSend - 1;
        } else {
          tcpu := tcpu[t := c];
          ghost var q := runqs[c];
          runqs := runqs[c := runqs[c] + [t]];
          assert runqs[c][|old(runqs[c])|..] == q[|old(runqs[c])|..] + [t];
          toSend := toSend - 1;
        }
      }
    }

    /** Leftovers back onto our own run queue. */
    method PutBack(me: nat, victims0: seq<nat>)
      requires me < |runqs|
      modifies this`runqs
      ensures runqs == old(runqs)[me := old(runqs[me]) + victims0]
    {
      var victims := victims0;
      ghost var k := 0;
      assert old(runqs)[me] + victims0[..0] == old(runqs)[me];
      SetTwice(runqs, me, [], []);
      while victims != []
        invariant k <= |victims0| && victims == victims0[k..]
        invariant runqs == old(runqs)[me := old(runqs[me]) + victims0[..k]]
        decreases |victims|
      {
        var t := victims[0];
        victims := victims[1..];
        assert old(runqs[me]) + victims0[..k + 1] == old(runqs[me]) + victims0[..k] + [t];
        SetTwice(old(runqs), me, old(runqs[me]) + victims0[..k], old(runqs[me]) + victims0[..k + 1]);
        runqs := runqs[me := runqs[me] + [t]];
        k := k + 1;
      }
      assert victims0[..k] == victims0;
    }

    /** One turn of the outer sending loop; qs0 are the queues before victims were taken. */
    method SendNext(c: nat, me: nat, curthread: nat, oneShare: nat, victims0: seq<nat>, toSend0: nat, ghost qs0: seq<seq<nat>>)
      returns (victims: seq<nat>, toSend: nat)
      requires c < |runqs| && c != me && toSend0 > 0 && Passing(qs0, runqs, me, curthread, oneShare, c, toSend0, victims0)
      modifies this
      ensures Passing(qs0, runqs, me, curthread, oneShare, c + 1, toSend, victims)
      ensures curthread in old(tcpu) ==> curthread in tcpu && tcpu[curthread] == old(tcpu)[curthread]
    {
      ghost var qs := runqs;
      victims, toSend := SendTo(c, curthread, oneShare, victims0, toSend0);
      assert runqs == qs[c := runqs[c]];
      assert Passing(qs0, runqs, me, curthread, oneShare, c + 1, toSend, victims) by {
        PassSend(qs0, qs, me, curthread, oneShare, c, toSend0, victims0, victims, runqs[c], toSend);
      }
      PushNotCur(curthread, oneShare, victims0, qs[c], toSend0);
    }

    /** The outer sending loop. */
    method SendAll(me: nat, curthread: nat, oneShare: nat, victims0: seq<nat>, toSend0: nat, ghost qs0: seq<seq<nat>>)
      returns (victims: seq<nat>, toSend: nat, ghost i: nat)
      requires Passing(qs0, runqs, me, curthread, oneShare, 0, toSend0, victims0)
      modifies this
      ensures Passing(qs0, runqs, me, curthread, oneShare, i, toSend, victims) && (i == |runqs| || toSend == 0)
      ensures curthread in old(tcpu) ==> curthread in tcpu && tcpu[curthread] == old(tcpu)[curthread]
    {
      victims, toSend := victims0, toSend0;
      var j: nat := 0;
      while j < |runqs| && toSend > 0
        invariant Passing(qs0, runqs, me, curthread, oneShare, j, toSend, victims)
        invariant curthread in old(tcpu) ==> curthread in tcpu && tcpu[curthread] == old(tcpu)[curthread]
        decreases |runqs| - j
      {
        if j != me {
          victims, toSend := SendNext(j, me, curthread, oneShare, victims, toSend, qs0);
        } else {
          PassSkip(qs0, runqs, me, curthread, oneShare, toSend, victims);
        }
        j := j + 1;
      }
      i := j;
    }

    /** From taking the victims on. */
    method SendExcess(me: nat, curthread: nat, oneShare: nat, toSend0: nat)
      requires me < |runqs| && toSend0 + oneShare == |runqs[me]| && Enough(oneShare, |runqs|, TotalCount(runqs))
      modifies this
      ensures Migrated(old(runqs), runqs, me, curthread, oneShare)
      ensures curthread in old(tcpu) ==> curthread in tcpu && tcpu[curthread] == old(tcpu)[curthread]
    {
      ghost var qs0 := runqs;
      var victims := TakeVictims(me, toSend0);
      PassStart(qs0, runqs, me, curthread, oneShare, victims);
      var toSend;
      ghost var i;
      victims, toSend, i := SendAll(me, curthread, oneShare, victims, toSend0, qs0);
      PassDone(qs0, runqs, me, curthread, oneShare, i, toSend, victims);
      if victims != [] { PutBack(me, victims); }
    }

    /** thread_consider_migration when nothing else runs. */
    method ConsiderMigration(me: nat, curthread: nat) returns (oneShare: nat)
      requires me < |runqs|
      modifies this
      ensures forall k: nat :: Enough(k, |old(runqs)|, TotalCount(old(runqs))) <==> k >= oneShare
      ensures Migrated(old(runqs), runqs, me, curthread, oneShare)
      ensures |old(runqs[me])| >= oneShare && curthread !in old(runqs[me]) ==> |runqs[me]| == oneShare
      ensures curthread in old(tcpu) ==> curthread in tcpu && tcpu[curthread] == old(tcpu)[curthread]
    {
      ghost var qs0 := runqs;
      var myCount, totalCount := Count(me);
      oneShare := DivRoundUp(totalCount, |runqs|);
      forall k: nat ensures Enough(k, |qs0|, TotalCount(qs0)) <==> k >= oneShare { LeastShare(totalCount, |qs0|, k); }
      if myCount < oneShare { return; }
      SendExcess(me, curthread, oneShare, myCount - oneShare);
      if curthread !in qs0[me] { KeepsShare(qs0, runqs, me, curthread, oneShare); }
    }
  }
}
