/** The bookend doubly linked list of kern/thread/threadlist.c, refined to the
    sequence of threads on it. */
module ThreadLists {

  /** struct threadlistnode. The bookends have no thread. */
  class Node {
    var prev: Node?
    var next: Node?
    var self: Thread?

    /** threadlistnode_init. */
    constructor (t: Thread?)
      ensures prev == null && next == null && self == t
    {
      prev, next, self := null, null, t;
    }
  }

  /** struct thread, as far as the list knows it. */
  class Thread {
    const listnode: Node

    constructor ()
      ensures Owns() && OffList() && fresh(listnode)
    {
      listnode := new Node(null);
      new;
      listnode.self := this;
    }

    ghost predicate Owns()
      reads listnode
    {
      listnode.self == this
    }

    /** threadlistnode_cleanup's assertions: the node is fully unlinked. */
    ghost predicate OffList()
      reads listnode
    {
      listnode.prev == null && listnode.next == null
    }
  }

  ghost predicate Distinct(s: seq<Node>) {
    forall i, j :: 0 <= i < j < |s| ==> s[i] != s[j]
  }

  /** prev and next are inverse along s, and open at both ends. */
  ghost predicate Linked(s: seq<Node>)
    reads s
  {
    && |s| >= 2 && Distinct(s)
    && s[0].prev == null && s[|s| - 1].next == null
    && (forall i :: 0 <= i < |s| - 1 ==> s[i].next == s[i + 1])
    && (forall i :: 0 < i < |s| ==> s[i].prev == s[i - 1])
  }

  function Reversed<T>(s: seq<T>): (r: seq<T>) {
    if s == [] then [] else Reversed(s[1..]) + [s[0]]
  }

  lemma {:induction false} ReversedAppend<T>(s: seq<T>, x: T)
    ensures Reversed(s + [x]) == [x] + Reversed(s)
  {
    if s != [] {
      assert (s + [x])[1..] == s[1..] + [x];
      ReversedAppend(s[1..], x);
    } else {
      assert s + [x] == [x];
      assert Reversed([x]) == Reversed<T>([]) + [x];
    }
  }

  /** threadlist_insertafternode: link x in after s[i]. */
  method InsertAfterNode(ghost s: seq<Node>, ghost i: nat, onlist: Node, addee: Node)
    requires Linked(s) && i < |s| - 1 && s[i] == onlist
    requires addee !in s && addee.prev == null && addee.next == null
    modifies addee`prev, addee`next, onlist`next, (s[i + 1] as Node)`prev
    ensures Linked(s[..i + 1] + [addee] + s[i + 1..])
  {
    ghost var after := s[i + 1];
    assert onlist.next == after;
    addee.prev := onlist;
    addee.next := onlist.next;
    onlist.next := addee;
    addee.next.prev := addee;
  }

  /** threadlist_insertbeforenode: link x in before s[i]. */
  method InsertBeforeNode(ghost s: seq<Node>, ghost i: nat, addee: Node, onlist: Node)
    requires Linked(s) && 0 < i < |s| && s[i] == onlist
    requires addee !in s && addee.prev == null && addee.next == null
    modifies addee`prev, addee`next, onlist`prev, (s[i - 1] as Node)`next
    ensures Linked(s[..i] + [addee] + s[i..])
  {
    ghost var before := s[i - 1];
    assert onlist.prev == before;
    addee.prev := onlist.prev;
    addee.next := onlist;
    addee.prev.next := addee;
    onlist.prev := addee;
  }

  /** threadlist_removenode: unlink s[i], which is not a bookend. */
  method RemoveNode(ghost s: seq<Node>, ghost i: nat, tln: Node)
    requires Linked(s) && 0 < i < |s| - 1 && s[i] == tln
    modifies tln`prev, tln`next, (s[i - 1] as Node)`next, (s[i + 1] as Node)`prev
    ensures Linked(s[..i] + s[i + 1..])
    ensures tln.prev == null && tln.next == null
  {
    tln.prev.next := tln.next;
    tln.next.prev := tln.prev;
    tln.prev := null;
    tln.next := null;
  }

  class ThreadList {
    const head: Node
    const tail: Node
    var count: nat
    ghost var threads: seq<Thread>
    ghost var chain: seq<Node>       // the nodes in order, bookends included
    ghost var Repr: set<Node>

    ghost predicate Valid()
      reads this, Repr
    {
      && |chain| == |threads| + 2 && count == |threads|
      && chain[0] == head && chain[|threads| + 1] == tail
      && (forall i :: 0 <= i < |chain| ==> chain[i] in Repr)
      && (forall i :: 1 <= i <= |threads| ==> chain[i] == threads[i - 1].listnode)
      && (forall i :: 1 <= i <= |threads| ==> chain[i].self == threads[i - 1])
      && head.self == null && tail.self == null
      && Linked(chain)
    }

    /** threadlist_init. */
    constructor ()
      ensures Valid() && threads == [] && fresh(Repr)
    {
      head := new Node(null);
      tail := new Node(null);
      count := 0;
      threads := [];
      chain := [head, tail];
      Repr := {head, tail};
      new;
      head.next := tail;
      tail.prev := head;
    }

    /** threadlist_isempty. */
    method IsEmpty() returns (empty: bool)
      requires Valid()
      ensures empty <==> threads == []
    {
      empty := count == 0;
    }

    /** What an insertion asks of the thread it adds. */
    ghost predicate CanAdd(t: Thread)
      reads this, t.listnode
    {
      t.listnode !in Repr && t.Owns() && t.OffList()
    }

    /** threadlist_addhead. */
    method AddHead(t: Thread)
      requires Valid() && CanAdd(t)
      modifies this, Repr, t.listnode
      ensures Valid() && threads == [t] + old(threads) && Repr == old(Repr) + {t.listnode}
    {
      InsertAfterNode(chain, 0, head, t.listnode);
      count := count + 1;
      chain := chain[..1] + [t.listnode] + chain[1..];
      threads := [t] + threads;
      Repr := Repr + {t.listnode};
    }

    /** threadlist_addtail. */
    method AddTail(t: Thread)
      requires Valid() && CanAdd(t)
      modifies this, Repr, t.listnode
      ensures Valid() && threads == old(threads) + [t] && Repr == old(Repr) + {t.listnode}
    {
      InsertBeforeNode(chain, |threads| + 1, t.listnode, tail);
      count := count + 1;
      chain := chain[..|threads| + 1] + [t.listnode] + chain[|threads| + 1..];
      threads := threads + [t];
      Repr := Repr + {t.listnode};
    }

    /** threadlist_insertafter. */
    method InsertAfter(onlist: Thread, addee: Thread, ghost pos: nat)
      requires Valid() && CanAdd(addee) && pos < |threads| && threads[pos] == onlist
      modifies this, Repr, addee.listnode
      ensures Valid() && threads == old(threads[..pos + 1]) + [addee] + old(threads[pos + 1..])
      ensures Repr == old(Repr) + {addee.listnode}
    {
      assert chain[pos + 1] == onlist.listnode;
      InsertAfterNode(chain, pos + 1, onlist.listnode, addee.listnode);
      count := count + 1;
      chain := chain[..pos + 2] + [addee.listnode] + chain[pos + 2..];
      threads := threads[..pos + 1] + [addee] + threads[pos + 1..];
      Repr := Repr + {addee.listnode};
    }

    /** threadlist_insertbefore. */
    method InsertBefore(addee: Thread, onlist: Thread, ghost pos: nat)
      requires Valid() && CanAdd(addee) && pos < |threads| && threads[pos] == onlist
      modifies this, Repr, addee.listnode
      ensures Valid() && threads == old(threads[..pos]) + [addee] + old(threads[pos..])
      ensures Repr == old(Repr) + {addee.listnode}
    {
      assert chain[pos + 1] == onlist.listnode;
      InsertBeforeNode(chain, pos + 1, addee.listnode, onlist.listnode);
      count := count + 1;
      chain := chain[..pos + 1] + [addee.listnode] + chain[pos + 1..];
      threads := threads[..pos] + [addee] + threads[pos..];
      Repr := Repr + {addee.listnode};
    }

    /** threadlist_remove. */
    method Remove(t: Thread, ghost pos: nat)
      requires Valid() && pos < |threads| && threads[pos] == t
      modifies this, Repr
      ensures Valid() && threads == old(threads[..pos]) + old(threads[pos + 1..])
      ensures t.OffList() && t.Owns() && Repr == old(Repr) - {t.listnode}
    {
      assert chain[pos + 1] == t.listnode;
      RemoveNode(chain, pos + 1, t.listnode);
      count := count - 1;
      chain := chain[..pos + 1] + chain[pos + 2..];
      threads := threads[..pos] + threads[pos + 1..];
      Repr := Repr - {t.listnode};
    }

    /** threadlist_remhead. */
    method RemHead() returns (t: Thread?)
      requires Valid()
      modifies this, Repr
      ensures Valid()
      ensures old(threads) == [] ==> t == null && threads == [] && Repr == old(Repr)
      ensures old(threads) != [] ==>
                && t == old(threads)[0] && threads == old(threads)[1..]
                && t.OffList() && t.Owns() && t.listnode in old(Repr) && Repr == old(Repr) - {t.listnode}
    {
      var tln := head.next;
      assert tln == chain[1];
      assert threads != [] ==> tln.next == chain[2];
      if tln.next == null {
        return null;
      }
      RemoveNode(chain, 1, tln);
      count := count - 1;
      chain := chain[..1] + chain[2..];
      threads := threads[1..];
      Repr := Repr - {tln};
      t := tln.self;
    }

    /** threadlist_remtail. */
    method RemTail() returns (t: Thread?)
      requires Valid()
      modifies this, Repr
      ensures Valid()
      ensures old(threads) == [] ==> t == null && threads == [] && Repr == old(Repr)
      ensures old(threads) != [] ==>
                && t == old(threads)[|old(threads)| - 1] && threads == old(threads)[..|old(threads)| - 1]
                && t.OffList() && t.Owns() && t.listnode in old(Repr) && Repr == old(Repr) - {t.listnode}
    {
      var tln := tail.prev;
      assert tln == chain[|threads|];
      assert threads != [] ==> tln.prev == chain[|threads| - 1];
      if tln.prev == null {
        return null;
      }
      RemoveNode(chain, |threads|, tln);
      count := count - 1;
      chain := chain[..|threads|] + chain[|threads| + 1..];
      threads := threads[..|threads| - 1];
      Repr := Repr - {tln};
      t := tln.self;
    }

    /** THREADLIST_FORALL: the threads met from the head. */
    method Forward() returns (met: seq<Thread>)
      requires Valid()
      ensures met == threads
    {
      met := [];
      var node := head.next;
      assert node == chain[1];
      while node.self != null
        invariant |met| <= |threads| && met == threads[..|met|]
        invariant node == chain[|met| + 1]
        invariant |met| < |threads| ==> node.self == threads[|met|]
        decreases |threads| - |met|
      {
        assert node != tail;
        met := met + [node.self];
        node := node.next;
      }
    }

    /** THREADLIST_FORALL_REV: the threads met from the tail. */
    method Backward() returns (met: seq<Thread>)
      requires Valid()
      ensures met == Reversed(threads)
    {
      met := [];
      ghost var left := |threads|;
      var node := tail.prev;
      assert node == chain[left];
      while node.self != null
        invariant 0 <= left <= |threads| && met == Reversed(threads[left..])
        invariant node == chain[left]
        invariant left > 0 ==> node.self == threads[left - 1]
        decreases left
      {
        assert node != head;
        ReversedCons(threads, left);
        met := met + [node.self];
        node := node.prev;
        left := left - 1;
      }
    }
  }

  /** One step of wchan_wakeall's first loop: the next sleeper moves to the private list. */
  method MoveOne(from: ThreadList, to: ThreadList) returns (target: Thread?)
    requires from != to && from.Valid() && to.Valid() && from.Repr !! to.Repr
    modifies from, to, from.Repr, to.Repr
    ensures from.Valid() && to.Valid() && from.Repr !! to.Repr
    ensures from.Repr + to.Repr == old(from.Repr + to.Repr)
    ensures old(from.threads) == [] ==> target == null && from.threads == [] && to.threads == old(to.threads)
    ensures old(from.threads) != [] ==>
              && target == old(from.threads)[0] && from.threads == old(from.threads)[1..]
              && to.threads == old(to.threads) + [target]
  {
    target := from.RemHead();
    if target != null {
      to.AddTail(target);
    }
  }

  /** wchan_wakeall's first loop: every thread moves to the private list, in FIFO order. */
  method MoveAll(from: ThreadList, to: ThreadList)
    requires from != to && from.Valid() && to.Valid() && from.Repr !! to.Repr
    modifies from, to, from.Repr, to.Repr
    ensures from.Valid() && to.Valid() && from.Repr !! to.Repr
    ensures from.threads == [] && to.threads == old(to.threads) + old(from.threads)
  {
    ghost var sleepers := from.threads;
    var target := MoveOne(from, to);
    ghost var moved := if target == null then 0 else 1;
    while target != null
      invariant from.Valid() && to.Valid() && from.Repr !! to.Repr
      invariant from.Repr + to.Repr == old(from.Repr + to.Repr)
      invariant moved <= |sleepers| && from.threads == sleepers[moved..]
      invariant to.threads == old(to.threads) + sleepers[..moved]
      invariant target == null ==> moved == |sleepers|
      decreases |sleepers| - moved, target != null
    {
      target := MoveOne(from, to);
      moved := if target == null then moved else moved + 1;
    }
  }

  lemma ReversedCons<T>(s: seq<T>, k: nat)
    requires 0 < k <= |s|
    ensures Reversed(s[k - 1..]) == Reversed(s[k..]) + [s[k - 1]]
  {
    assert s[k - 1..][1..] == s[k..];
  }

  /** Reversing twice is the identity, so the two traversals mirror each other. */
  lemma {:induction false} ReversedTwice<T>(s: seq<T>)
    ensures Reversed(Reversed(s)) == s
  {
    if s != [] {
      ReversedAppend(Reversed(s[1..]), s[0]);
      ReversedTwice(s[1..]);
    }
  }
}
