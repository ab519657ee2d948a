/** What thread_consider_migration of kern/thread/thread.c does to the run queues: how long
    a share is, which threads go, in what order and where. */
module MigrationSpec {
  import opened Sched

  ghost function TotalCount(qs: seq<seq<nat>>): nat {
    if qs == [] then 0 else TotalCount(qs[..|qs| - 1]) + |qs[|qs| - 1]|
  }

  /** All the threads on run queues. */
  ghost function Everyone(qs: seq<seq<nat>>): multiset<nat> {
    if qs == [] then multiset{} else Everyone(qs[..|qs| - 1]) + multiset(qs[|qs| - 1])
  }

  /** k threads for each of n processors are enough for all. */
  ghost predicate Enough(k: nat, n: nat, total: nat) { k * n >= total }

  /** The share is the least that is enough. */
  lemma LeastShare(total: nat, n: nat, k: nat)
    requires n > 0
    ensures Enough(k, n, total) <==> k >= DivRoundUp(total, n)
  {
    var q := DivRoundUp(total, n);
    assert (total + n - 1) / n == q;
    assert q * n <= total + n - 1 < q * n + n;
    if k >= q {
      assert k * n >= q * n by { Grows(q, k, n); }
    } else {
      assert k * n + n <= q * n by { Grows(k + 1, q, n); assert (k + 1) * n == k * n + n; }
    }
  }

  lemma Grows(a: nat, b: nat, n: nat)
    requires a <= b
    ensures a * n <= b * n
  {
  }

  /** l without x. */
  ghost function Without(l: seq<nat>, x: nat): seq<nat> {
    if l == [] then [] else (if l[0] == x then [] else [l[0]]) + Without(l[1..], x)
  }

  /** What the first i queues but that of me have got, in order. */
  ghost function Received(qs0: seq<seq<nat>>, qs: seq<seq<nat>>, me: nat, i: nat): seq<nat>
    requires i <= |qs0| == |qs|
  {
    if i == 0 then []
    else Received(qs0, qs, me, i - 1) + (if i - 1 == me || |qs[i - 1]| < |qs0[i - 1]| then [] else qs[i - 1][|qs0[i - 1]|..])
  }

  /** From q to q' threads were added behind, but not above the share. */
  ghost predicate Filled(q: seq<nat>, q': seq<nat>, share: nat) {
    |q| <= |q'| && q'[..|q|] == q && (|q'| <= share || q' == q)
  }

  /** The queues qs0 have become qs by the migration of processor me, which runs cur. With
      less than its share it does nothing. Otherwise it keeps a share, and the threads behind
      that go in order to the other processors in order, each getting what its share
      allows; only cur stays. */
  ghost predicate Migrated(qs0: seq<seq<nat>>, qs: seq<seq<nat>>, me: nat, cur: nat, share: nat) {
    && |qs| == |qs0| && me < |qs| && Everyone(qs) == Everyone(qs0)
    && if |qs0[me]| < share then qs == qs0 else
         && Stays(qs0[me], qs[me], cur, share)
         && Received(qs0, qs, me, |qs|) == Without(qs0[me][share..], cur)
         && (forall i: nat :: i < |qs| && i != me ==> Filled(qs0[i], qs[i], share))
         && InOrder(qs0, qs, me, share, |qs|)
  }

  /** A share of our own queue stays, and cur as often as it was behind that. */
  ghost predicate Stays(q: seq<nat>, q': seq<nat>, cur: nat, share: nat) {
    && share <= |q| && share <= |q'| && q'[..share] == q[..share]
    && |q'| == share + multiset(q[share..])[cur]
    && forall k :: share <= k < |q'| ==> q'[k] == cur
  }

  /** The sending phase with processor i next, k threads still to be sent and the victims v
      in hand. */
  ghost predicate Passing(qs0: seq<seq<nat>>, qs: seq<seq<nat>>, me: nat, cur: nat, share: nat, i: nat, k: nat, v: seq<nat>) {
    && |qs| == |qs0| && me < |qs| && i <= |qs| && share <= |qs0[me]| && qs[me] == qs0[me][..share]
    && Everyone(qs) + multiset(v) == Everyone(qs0)
    && InHand(qs0[me][share..], cur, k, v)
    && Received(qs0, qs, me, i) + Without(v[..k], cur) == Without(qs0[me][share..], cur)
    && FilledTo(qs0, qs, me, share, i, k) && InOrder(qs0, qs, me, share, i)
  }

  /** The queues before i are filled, to the share if there is more to send; the others are
      as they were. */
  ghost predicate FilledTo(qs0: seq<seq<nat>>, qs: seq<seq<nat>>, me: nat, share: nat, i: nat, k: nat)
    requires |qs| == |qs0|
  {
    && (forall j: nat :: j < i && j < |qs| && j != me ==> Filled(qs0[j], qs[j], share) && (k == 0 || |qs[j]| >= share))
    && (forall j: nat :: i <= j < |qs| && j != me ==> qs[j] == qs0[j])
  }

  /** A queue got something only if those before it were filled to the share. */
  ghost predicate InOrder(qs0: seq<seq<nat>>, qs: seq<seq<nat>>, me: nat, share: nat, n: nat)
    requires n <= |qs| == |qs0|
  {
    forall i: nat, j: nat :: i < j < n && i != me && j != me && qs[j] != qs0[j] ==> |qs[i]| >= share
  }

  /** After the k victims still to be sent comes only cur, as often as it has come up. */
  ghost predicate InHand(tail: seq<nat>, cur: nat, k: nat, v: seq<nat>) {
    k <= |v| && (forall j :: k <= j < |v| ==> v[j] == cur) && multiset(v)[cur] == multiset(tail)[cur]
  }

  // ---------------------------------------------------------------- the sending loop

  /** The sending loop conserves threads. */
  lemma {:induction false} PushConserves(cur: nat, share: nat, v: seq<nat>, q: seq<nat>, k: nat)
    requires k <= |v|
    ensures Push(cur, share, v, q, k).Did?
    ensures var r := Push(cur, share, v, q, k).p;
            && multiset(r.victims) + multiset(r.queue) == multiset(v) + multiset(q)
            && r.toSend <= |r.victims| && (|r.queue| <= share || r.queue == q)
    decreases k
  {
    if k != 0 && |q| < share {
      assert v == [v[0]] + v[1..];
      if v[0] == cur {
        PushConserves(cur, share, v[1..] + [cur], q, k - 1);
      } else {
        PushConserves(cur, share, v[1..], q + [v[0]], k - 1);
      }
    }
  }

  lemma Extends(q: seq<nat>, t: nat, q': seq<nat>)
    requires |q| < |q'| && q'[..|q| + 1] == q + [t]
    ensures q'[..|q|] == q && q'[|q|..] == [t] + q'[|q| + 1..]
  {
    assert q'[..|q|] == q'[..|q| + 1][..|q|] && q'[|q|] == q'[..|q| + 1][|q|] == t;
  }

  /** What it sends goes behind what the queue had, and is never the current thread. */
  lemma {:induction false} PushNotCur(cur: nat, share: nat, v: seq<nat>, q: seq<nat>, k: nat)
    requires k <= |v| && Push(cur, share, v, q, k).Did?
    ensures var r := Push(cur, share, v, q, k).p;
            |q| <= |r.queue| && r.queue[..|q|] == q && cur !in r.queue[|q|..] && multiset(r.queue)[cur] == multiset(q)[cur]
    decreases k
  {
    if k == 0 || |q| >= share {
      assert q[|q|..] == [];
    } else if v[0] == cur {
      PushNotCur(cur, share, v[1..] + [cur], q, k - 1);
    } else {
      PushNotCur(cur, share, v[1..], q + [v[0]], k - 1);
      Extends(q, v[0], Push(cur, share, v[1..], q + [v[0]], k - 1).p.queue);
    }
  }

  /** It stops only when there is no more to send or the queue has its share; what it passes
      over it keeps behind the rest. */
  lemma {:induction false} PushStops(cur: nat, share: nat, v: seq<nat>, q: seq<nat>, k: nat)
    requires k <= |v| && forall j :: k <= j < |v| ==> v[j] == cur
    ensures Push(cur, share, v, q, k).Did?
    ensures var r := Push(cur, share, v, q, k).p;
            && r.toSend <= |r.victims| && (forall j :: r.toSend <= j < |r.victims| ==> r.victims[j] == cur)
            && (r.toSend == 0 || |r.queue| >= share)
    decreases k
  {
    if k != 0 && |q| < share {
      if v[0] == cur {
        PushStops(cur, share, v[1..] + [cur], q, k - 1);
      } else {
        PushStops(cur, share, v[1..], q + [v[0]], k - 1);
      }
    }
  }

  /** It sends in order. */
  lemma {:induction false} PushInOrder(cur: nat, share: nat, v: seq<nat>, q: seq<nat>, k: nat)
    requires k <= |v| && Push(cur, share, v, q, k).Did?
    ensures var r := Push(cur, share, v, q, k).p;
            && |q| <= |r.queue| && r.toSend <= |r.victims|
            && r.queue[|q|..] + Without(r.victims[..r.toSend], cur) == Without(v[..k], cur)
    decreases k
  {
    if k == 0 || |q| >= share {
      assert q[|q|..] == [];
    } else if v[0] == cur {
      assert (v[1..] + [cur])[..k - 1] == v[..k][1..];
      PushInOrder(cur, share, v[1..] + [cur], q, k - 1);
    } else {
      assert v[1..][..k - 1] == v[..k][1..];
      PushInOrder(cur, share, v[1..], q + [v[0]], k - 1);
      PushNotCur(cur, share, v[1..], q + [v[0]], k - 1);
      Extends(q, v[0], Push(cur, share, v[1..], q + [v[0]], k - 1).p.queue);
    }
  }

  // ---------------------------------------------------------------- counting

  lemma {:induction false} EveryoneUpdate(qs: seq<seq<nat>>, i: nat, q: seq<nat>)
    requires i < |qs|
    ensures Everyone(qs[i := q]) + multiset(qs[i]) == Everyone(qs) + multiset(q)
  {
    var k := |qs| - 1;
    if i == k {
      assert qs[i := q][..k] == qs[..k];
    } else {
      assert qs[i := q][..k] == qs[..k][i := q] && qs[i := q][k] == qs[k];
      EveryoneUpdate(qs[..k], i, q);
      AddBoth(Everyone(qs[i := q][..k]), multiset(qs[i]), Everyone(qs[..k]), multiset(q), multiset(qs[k]));
    }
  }

  lemma AddBoth(a: multiset<nat>, x: multiset<nat>, b: multiset<nat>, y: multiset<nat>, r: multiset<nat>)
    requires a + x == b + y
    ensures a + r + x == b + r + y
  {
    forall t: nat ensures (a + r + x)[t] == (b + r + y)[t] { assert (a + x)[t] == (b + y)[t]; }
  }

  lemma Cancel(a: multiset<nat>, q: multiset<nat>, b: multiset<nat>, r: multiset<nat>, x: multiset<nat>, y: multiset<nat>)
    requires a + q == b + r && x + r == y + q
    ensures a + x == b + y
  {
    forall t: nat ensures (a + x)[t] == (b + y)[t] {
      assert (a + q)[t] == (b + r)[t] && (x + r)[t] == (y + q)[t];
    }
  }

  lemma SplitMultiset(l: seq<nat>, k: nat)
    requires k <= |l|
    ensures multiset(l[..k]) + multiset(l[k..]) == multiset(l)
  {
    assert l == l[..k] + l[k..];
  }

  lemma {:induction false} EveryoneCount(qs: seq<seq<nat>>)
    ensures |Everyone(qs)| == TotalCount(qs)
  {
    if qs != [] { EveryoneCount(qs[..|qs| - 1]); }
  }

  lemma {:induction false} AtLeastShares(qs: seq<seq<nat>>, share: nat)
    requires forall i :: 0 <= i < |qs| ==> |qs[i]| >= share
    ensures Enough(TotalCount(qs), 1, |qs| * share)
  {
    if qs != [] {
      AtLeastShares(qs[..|qs| - 1], share);
      assert |qs| * share == (|qs| - 1) * share + share;
    }
  }

  lemma {:induction false} AllCur(v: seq<nat>, cur: nat)
    requires forall j :: 0 <= j < |v| ==> v[j] == cur
    ensures |v| == multiset(v)[cur]
  {
    if v != [] {
      assert v == [v[0]] + v[1..];
      AllCur(v[1..], cur);
    }
  }

  lemma {:induction false} ReceivedSame(qs0: seq<seq<nat>>, qs: seq<seq<nat>>, qs': seq<seq<nat>>, me: nat, i: nat)
    requires i <= |qs0| == |qs| == |qs'| && forall j :: 0 <= j < i && j != me ==> qs'[j] == qs[j]
    ensures Received(qs0, qs', me, i) == Received(qs0, qs, me, i)
  {
    if i > 0 { ReceivedSame(qs0, qs, qs', me, i - 1); }
  }

  lemma {:induction false} ReceivedNoMore(qs0: seq<seq<nat>>, qs: seq<seq<nat>>, me: nat, i: nat, n: nat)
    requires i <= n <= |qs0| == |qs| && forall j :: i <= j < n && j != me ==> qs[j] == qs0[j]
    ensures Received(qs0, qs, me, n) == Received(qs0, qs, me, i)
    decreases n
  {
    if i < n {
      ReceivedNoMore(qs0, qs, me, i, n - 1);
      assert n - 1 != me ==> qs[n - 1][|qs0[n - 1]|..] == [];
    }
  }

  // ---------------------------------------------------------------- from victims to leftovers

  /** Taking what our queue has beyond its share. */
  lemma PassStart(qs0: seq<seq<nat>>, qs: seq<seq<nat>>, me: nat, cur: nat, share: nat, v: seq<nat>)
    requires me < |qs0| && share <= |qs0[me]| && qs == qs0[me := qs0[me][..share]] && v == qs0[me][share..]
    ensures Passing(qs0, qs, me, cur, share, 0, |v|, v)
  {
    SplitMultiset(qs0[me], share);
    EveryoneUpdate(qs0, me, qs[me]);
    Cancel(Everyone(qs), multiset(qs0[me]), Everyone(qs0), multiset(qs[me]), multiset(v), multiset{});
    assert v[..|v|] == v;
  }

  lemma PassSkip(qs0: seq<seq<nat>>, qs: seq<seq<nat>>, me: nat, cur: nat, share: nat, k: nat, v: seq<nat>)
    requires Passing(qs0, qs, me, cur, share, me, k, v)
    ensures Passing(qs0, qs, me, cur, share, me + 1, k, v)
  {
    assert Received(qs0, qs, me, me + 1) == Received(qs0, qs, me, me) by { Append(Received(qs0, qs, me, me), []); }
    assert FilledTo(qs0, qs, me, share, me + 1, k) && InOrder(qs0, qs, me, share, me + 1);
  }

  lemma SendConserves(all: multiset<nat>, qs: seq<seq<nat>>, cur: nat, share: nat, i: nat, k: nat, v: seq<nat>, v': seq<nat>, q': seq<nat>, k': nat)
    requires i < |qs| && k <= |v| && Everyone(qs) + multiset(v) == all
    requires Push(cur, share, v, qs[i], k) == Did(Pushed(v', q', k'))
    ensures Everyone(qs[i := q']) + multiset(v') == all
  {
    PushConserves(cur, share, v, qs[i], k);
    EveryoneUpdate(qs, i, q');
    Cancel(Everyone(qs[i := q']), multiset(qs[i]), Everyone(qs), multiset(q'), multiset(v'), multiset(v));
  }

  lemma SendHand(tail: seq<nat>, q: seq<nat>, cur: nat, share: nat, k: nat, v: seq<nat>, v': seq<nat>, q': seq<nat>, k': nat)
    requires InHand(tail, cur, k, v) && Push(cur, share, v, q, k) == Did(Pushed(v', q', k'))
    ensures InHand(tail, cur, k', v')
  {
    PushConserves(cur, share, v, q, k);
    PushNotCur(cur, share, v, q, k);
    PushStops(cur, share, v, q, k);
    CurKept(multiset(v'), multiset(q'), multiset(v), multiset(q), cur);
  }

  lemma SendReceived(qs0: seq<seq<nat>>, qs: seq<seq<nat>>, me: nat, cur: nat, share: nat, i: nat, k: nat, v: seq<nat>,
                     v': seq<nat>, q': seq<nat>, k': nat)
    requires i < |qs| == |qs0| && i != me && k <= |v| && qs[i] == qs0[i] && k' <= |v'|
    requires Push(cur, share, v, qs[i], k) == Did(Pushed(v', q', k'))
    ensures Received(qs0, qs[i := q'], me, i + 1) + Without(v'[..k'], cur) == Received(qs0, qs, me, i) + Without(v[..k], cur)
  {
    PushInOrder(cur, share, v, qs[i], k);
    ReceivedSame(qs0, qs, qs[i := q'], me, i);
    Assoc(Received(qs0, qs, me, i), q'[|qs[i]|..], Without(v'[..k'], cur));
  }

  lemma Append(l: seq<nat>, r: seq<nat>)
    ensures r == [] ==> l + r == l
  {
  }

  lemma Assoc(a: seq<nat>, b: seq<nat>, c: seq<nat>)
    ensures (a + b) + c == a + (b + c)
  {
  }

  lemma SendFills(qs0: seq<seq<nat>>, qs: seq<seq<nat>>, me: nat, cur: nat, share: nat, i: nat, k: nat, v: seq<nat>,
                  v': seq<nat>, q': seq<nat>, k': nat)
    requires i < |qs| == |qs0| && i != me && 0 < k <= |v| && (forall j :: k <= j < |v| ==> v[j] == cur)
    requires FilledTo(qs0, qs, me, share, i, k) && InOrder(qs0, qs, me, share, i)
    requires Push(cur, share, v, qs[i], k) == Did(Pushed(v', q', k'))
    ensures FilledTo(qs0, qs[i := q'], me, share, i + 1, k') && InOrder(qs0, qs[i := q'], me, share, i + 1)
  {
    PushConserves(cur, share, v, qs[i], k);
    PushNotCur(cur, share, v, qs[i], k);
    PushStops(cur, share, v, qs[i], k);
  }

  /** Sending to processor i. */
  lemma PassSend(qs0: seq<seq<nat>>, qs: seq<seq<nat>>, me: nat, cur: nat, share: nat, i: nat, k: nat, v: seq<nat>,
                 v': seq<nat>, q': seq<nat>, k': nat)
    requires Passing(qs0, qs, me, cur, share, i, k, v) && i < |qs| && i != me && k > 0
    requires Push(cur, share, v, qs[i], k) == Did(Pushed(v', q', k'))
    ensures Passing(qs0, qs[i := q'], me, cur, share, i + 1, k', v')
  {
    SendConserves(Everyone(qs0), qs, cur, share, i, k, v, v', q', k');
    SendHand(qs0[me][share..], qs[i], cur, share, k, v, v', q', k');
    SendReceived(qs0, qs, me, cur, share, i, k, v, v', q', k');
    SendFills(qs0, qs, me, cur, share, i, k, v, v', q', k');
  }

  lemma CurKept(a: multiset<nat>, b: multiset<nat>, c: multiset<nat>, d: multiset<nat>, cur: nat)
    requires a + b == c + d && b[cur] == d[cur]
    ensures a[cur] == c[cur]
  {
    assert (a + b)[cur] == (c + d)[cur];
  }

  /** When there is nowhere left to send to, or nothing, nothing is left to send. */
  lemma AllSent(qs0: seq<seq<nat>>, qs: seq<seq<nat>>, me: nat, share: nat, i: nat, k: nat, v: seq<nat>)
    requires |qs| == |qs0| && me < |qs| && |qs[me]| == share && k <= |v| && Everyone(qs) + multiset(v) == Everyone(qs0)
    requires FilledTo(qs0, qs, me, share, i, k) && (i == |qs| || k == 0)
    requires Enough(share, |qs0|, TotalCount(qs0))
    ensures k == 0
  {
    EveryoneCount(qs);
    EveryoneCount(qs0);
    assert |Everyone(qs) + multiset(v)| == |Everyone(qs)| + |v|;
    if k > 0 { AtLeastShares(qs, share); }
  }

  lemma BackConserves(all: multiset<nat>, qs: seq<seq<nat>>, me: nat, v: seq<nat>)
    requires me < |qs| && Everyone(qs) + multiset(v) == all
    ensures Everyone(qs[me := qs[me] + v]) == all
  {
    var q := qs[me] + v;
    EveryoneUpdate(qs, me, q);
    Cancel(Everyone(qs[me := q]), multiset(qs[me]), Everyone(qs), multiset(q), multiset{}, multiset(v));
  }

  lemma BackStays(q0: seq<nat>, cur: nat, share: nat, v: seq<nat>)
    requires share <= |q0| && InHand(q0[share..], cur, 0, v)
    ensures Stays(q0, q0[..share] + v, cur, share)
  {
    AllCur(v, cur);
  }

  lemma BackReceived(qs0: seq<seq<nat>>, qs: seq<seq<nat>>, me: nat, share: nat, i: nat, q: seq<nat>)
    requires |qs| == |qs0| && me < |qs| && i <= |qs| && FilledTo(qs0, qs, me, share, i, 0) && InOrder(qs0, qs, me, share, i)
    ensures Received(qs0, qs[me := q], me, |qs|) == Received(qs0, qs, me, i)
    ensures InOrder(qs0, qs[me := q], me, share, |qs|)
    ensures forall j: nat :: j < |qs| && j != me ==> Filled(qs0[j], qs[me := q][j], share)
  {
    ReceivedSame(qs0, qs, qs[me := q], me, i);
    ReceivedNoMore(qs0, qs[me := q], me, i, |qs|);
  }

  /** Putting back the leftovers. */
  lemma PassDone(qs0: seq<seq<nat>>, qs: seq<seq<nat>>, me: nat, cur: nat, share: nat, i: nat, k: nat, v: seq<nat>)
    requires Passing(qs0, qs, me, cur, share, i, k, v) && (i == |qs| || k == 0)
    requires Enough(share, |qs0|, TotalCount(qs0))
    ensures Migrated(qs0, qs[me := qs[me] + v], me, cur, share) && (v == [] ==> qs[me := qs[me] + v] == qs)
  {
    assert k == 0 by { AllSent(qs0, qs, me, share, i, k, v); }
    var tail := qs0[me][share..];
    assert Received(qs0, qs, me, i) == Without(tail, cur) by { assert Without(v[..0], cur) == []; Append(Received(qs0, qs, me, i), []); }
    var q := qs[me] + v;
    assert Stays(qs0[me], q, cur, share) by { BackStays(qs0[me], cur, share, v); }
    BackReceived(qs0, qs, me, share, i, q);
    assert Everyone(qs[me := q]) == Everyone(qs0) by { BackConserves(Everyone(qs0), qs, me, v); }
    assert v == [] ==> qs[me := q] == qs by { Append(qs[me], v); }
  }

  /** So our queue ends with exactly its share, if the current thread was not on it. */
  lemma KeepsShare(qs0: seq<seq<nat>>, qs: seq<seq<nat>>, me: nat, cur: nat, share: nat)
    requires Migrated(qs0, qs, me, cur, share) && |qs0[me]| >= share && cur !in qs0[me]
    ensures |qs[me]| == share
  {
    assert cur !in qs0[me][share..];
  }
}
