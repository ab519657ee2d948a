/** Queues over time: who is ahead has waited longer. */
module Fifos {

  /** In one step a stretch of the queue stays, and newcomers go behind it. */
  ghost predicate Kept(q: seq<nat>, q': seq<nat>, a: nat, b: nat) {
    && a <= b <= |q| && b - a <= |q'| && q'[..b - a] == q[a..b]
    && forall k :: b - a <= k < |q'| ==> q'[k] !in q
  }

  ghost predicate Turn(q: seq<nat>, q': seq<nat>) {
    exists a: nat, b: nat :: Kept(q, q', a, b)
  }

  ghost predicate Before(q: seq<nat>, t: nat, u: nat) {
    exists i: nat, j: nat :: i < j < |q| && q[i] == t && q[j] == u
  }

  /** Nobody who stays is overtaken, and nobody is put ahead of another. */
  lemma TurnOrder(q: seq<nat>, q': seq<nat>, t: nat, u: nat)
    requires Turn(q, q') && u in q && Before(q', t, u)
    ensures Before(q, t, u)
  {
    var a: nat, b: nat :| Kept(q, q', a, b);
    var i: nat, j: nat :| i < j < |q'| && q'[i] == t && q'[j] == u;
    assert j < b - a;
    assert q'[i] == q'[..b - a][i] == q[a + i] && q'[j] == q'[..b - a][j] == q[a + j];
  }

  /** Who is on the queue at every time from i to n. */
  ghost predicate OnThroughout(qs: seq<seq<nat>>, i: nat, n: nat, t: nat) {
    n < |qs| && forall k :: i <= k <= n ==> t in qs[k]
  }

  ghost predicate TurnAt(qs: seq<seq<nat>>, k: nat) {
    k + 1 < |qs| && Turn(qs[k], qs[k + 1])
  }

  /** Who is ahead of another has been on the queue for as long, and ahead all the time. */
  lemma {:induction false} AheadLonger(qs: seq<seq<nat>>, i: nat, n: nat, t: nat, u: nat)
    requires i <= n && OnThroughout(qs, i, n, u) && Before(qs[n], t, u)
    requires forall k: nat :: i <= k < n ==> TurnAt(qs, k)
    ensures forall k: nat :: i <= k <= n ==> Before(qs[k], t, u)
  {
    if i < n {
      assert TurnAt(qs, n - 1);
      TurnOrder(qs[n - 1], qs[n], t, u);
      AheadLonger(qs, i, n - 1, t, u);
    }
  }

  /** The head of the queue has been on it the longest. */
  lemma HeadLongest(qs: seq<seq<nat>>, i: nat, n: nat, u: nat)
    requires i <= n && OnThroughout(qs, i, n, u)
    requires forall k: nat :: i <= k < n ==> TurnAt(qs, k)
    ensures OnThroughout(qs, i, n, qs[n][0])
  {
    var t := qs[n][0];
    if t != u {
      var j: nat :| j < |qs[n]| && qs[n][j] == u;
      assert Before(qs[n], t, u);
      AheadLonger(qs, i, n, t, u);
    }
  }

  // ---------------------------------------------------------------- the usual turns

  lemma SameTurn(q: seq<nat>)
    ensures Turn(q, q)
  {
    assert Kept(q, q, 0, |q|);
  }

  lemma JoinTurn(q: seq<nat>, l: seq<nat>)
    requires forall t :: t in l ==> t !in q
    ensures Turn(q, q + l)
  {
    assert Kept(q, q + l, 0, |q|);
  }

  lemma LeaveTurn(q: seq<nat>, a: nat, b: nat)
    requires a <= b <= |q|
    ensures Turn(q, q[a..b])
  {
    assert Kept(q, q[a..b], a, b);
  }
}
