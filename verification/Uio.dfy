/** uiomove, uiomovezeros and uio_kinit of kern/lib/uio.c. */
module Uio {
  import opened UioMoves

  class UioState {
    var iovs: seq<Iovec>
    var offset: int
    var resid: nat
    var rw: Direction

    /** uio_kinit. */
    constructor Kinit(kbuf: nat, len: nat, pos: int, rw: Direction)
      ensures iovs == [Iovec(kbuf, len)] && resid == len && offset == pos && this.rw == rw
      ensures Exact(iovs, resid)
    {
      iovs, offset, resid, this.rw := [Iovec(kbuf, len)], pos, len, rw;
    }
  }

  class Space {
    var mem: map<nat, byte>
    const bad: set<nat>

    constructor (bad: set<nat>) {
      mem, this.bad := map[], bad;
    }
  }

  // ---------------------------------------------------------------- what is transferred

  /** Memory; a byte never stored reads as zero. */
  function ByteAt(mem: map<nat, byte>, a: nat): byte {
    if a in mem then mem[a] else 0
  }

  function BytesFrom(mem: map<nat, byte>, base: nat, n: nat): (r: seq<byte>)
    ensures |r| == n
    decreases n
  {
    if n == 0 then [] else [ByteAt(mem, base)] + BytesFrom(mem, base + 1, n - 1)
  }

  lemma {:induction false} BytesFromAt(mem: map<nat, byte>, base: nat, n: nat, i: nat)
    requires i < n
    ensures BytesFrom(mem, base, n)[i] == ByteAt(mem, base + i)
    decreases n
  {
    if i > 0 { BytesFromAt(mem, base + 1, n - 1, i - 1); }
  }

  /** Everything uiomove changes. */
  datatype Side = Side(iovs: seq<Iovec>, resid: nat, offset: int, mem: map<nat, byte>, buf: seq<byte>)

  function Put(buf: seq<byte>, at: nat, bytes: seq<byte>): seq<byte>
    requires at + |bytes| <= |buf|
  {
    buf[..at] + bytes + buf[at + |bytes|..]
  }

  /** m bytes read: the buffer's bytes from at on are stored at the first addresses, in order. */
  ghost predicate DidRead(x: Side, y: Side, at: nat, m: nat) {
    && m <= |Addrs(x.iovs)| && at + m <= |x.buf| && y.buf == x.buf
    && y.mem == Scatter(x.mem, Addrs(x.iovs)[..m], x.buf[at..at + m])
  }

  /** m bytes written: the buffer from at on has the bytes at the first addresses, in order, and
      is otherwise as it was. */
  ghost predicate DidWrite(x: Side, y: Side, at: nat, m: nat) {
    && m <= |Addrs(x.iovs)| && at + m <= |x.buf| && |y.buf| == |x.buf| && y.mem == x.mem
    && (forall i :: 0 <= i < m ==> y.buf[at + i] == ByteAt(x.mem, Addrs(x.iovs)[i]))
    && (forall j :: 0 <= j < |x.buf| && !(at <= j < at + m) ==> y.buf[j] == x.buf[j])
  }

  ghost predicate Transferred(x: Side, y: Side, at: nat, m: nat, rw: Direction) {
    if rw == UIO_READ then DidRead(x, y, at, m) else DidWrite(x, y, at, m)
  }

  /** A call of uiomove for n bytes at the buffer position at: the uio becomes what Move says,
      and so many bytes are transferred. */
  ghost predicate Called(x: Side, y: Side, at: nat, n: nat, rw: Direction, bad: set<nat>, outcome: Outcome) {
    && x.iovs != [] && n < SIZE_MOD
    && var r := Move(x.iovs, n, x.resid, bad);
       && Xfer(y.iovs, y.resid, r.moved, outcome) == r && y.offset == x.offset + r.moved
       && Transferred(x, y, at, r.moved, rw)
  }

  // ---------------------------------------------------------------- one turn

  /** After m bytes, what is left to do completes all. */
  ghost predicate LeftToMove(all: Xfer, iovs: seq<Iovec>, n: nat, resid: nat, bad: set<nat>, m: nat) {
    iovs != [] && n < SIZE_MOD && var r := Move(iovs, n, resid, bad); r.(moved := m + r.moved) == all
  }

  /** Where a call stands after m bytes: going on, or over. */
  ghost predicate Standing(all: Xfer, iovs: seq<Iovec>, n: nat, resid: nat, bad: set<nat>, m: nat, outcome: Outcome) {
    && (outcome == Done ==> LeftToMove(all, iovs, n, resid, bad, m))
    && (outcome != Done ==> all == Xfer(iovs, resid, m, outcome))
  }

  lemma CallOver(all: Xfer, iovs: seq<Iovec>, n: nat, resid: nat, bad: set<nat>, m: nat, outcome: Outcome)
    requires Standing(all, iovs, n, resid, bad, m, outcome) && (outcome != Done || n == 0 || resid == 0)
    ensures all == Xfer(iovs, resid, m, outcome)
  {
  }

  lemma LeftAfterSkip(all: Xfer, iovs: seq<Iovec>, n: nat, resid: nat, bad: set<nat>, m: nat)
    requires LeftToMove(all, iovs, n, resid, bad, m) && n > 0 && resid > 0 && iovs[0].len == 0
    ensures Addrs(iovs) == Addrs(iovs[1..])
    ensures if |iovs| == 1 then all == Xfer([], resid, m, RanOut) else LeftToMove(all, iovs[1..], n, resid, bad, m)
  {
  }

  lemma LeftAfterChunk(all: Xfer, iovs: seq<Iovec>, n: nat, resid: nat, bad: set<nat>, m: nat, size: nat)
    requires LeftToMove(all, iovs, n, resid, bad, m) && n > 0 && resid > 0 && 0 < size == Min(iovs[0].len, n)
    ensures if Hits(bad, iovs[0].base, size) then all == Xfer(iovs, resid, m, Fault)
            else LeftToMove(all, iovs[0 := Advance(iovs[0], size)], n - size, Less(resid, size), bad, m + size)
  {
  }

  /** The next addresses are those of the first buffer. */
  lemma NextAddrs(a: seq<nat>, m: nat, iovs: seq<Iovec>, size: nat)
    requires m <= |a| && Addrs(iovs) == a[m..] && iovs != [] && size <= iovs[0].len
    ensures m + size <= |a| && a[m..m + size] == Range(iovs[0].base, size)
    ensures Addrs(iovs[0 := Advance(iovs[0], size)]) == a[m + size..]
  {
    var r, rest := Range(iovs[0].base, size), Addrs(iovs[0 := Advance(iovs[0], size)]);
    assert a[m..] == r + rest by { AdvanceAddrs(iovs, size); }
    assert a[m..m + size] == a[m..][..size] == r;
    assert a[m + size..] == a[m..][size..] == rest;
  }

  /** One more chunk read. */
  lemma ReadMore(x: Side, y: Side, z: Side, at: nat, m: nat, size: nat, r: seq<nat>)
    requires DidRead(x, y, at, m) && m + size <= |Addrs(x.iovs)| && at + m + size <= |x.buf|
    requires |r| == size && Addrs(x.iovs)[m..m + size] == r
    requires z.buf == y.buf && z.mem == Scatter(y.mem, r, y.buf[at + m..at + m + size])
    ensures DidRead(x, z, at, m + size)
  {
    var a, b := Addrs(x.iovs), x.buf;
    assert a[..m + size] == a[..m] + a[m..m + size] && b[at..at + m + size] == b[at..at + m] + b[at + m..at + m + size];
    ScatterConcat(x.mem, a[..m], b[at..at + m], r, b[at + m..at + m + size]);
  }

  /** One more chunk written. */
  lemma WriteMore(x: Side, y: Side, z: Side, at: nat, m: nat, size: nat, base: nat)
    requires DidWrite(x, y, at, m) && m + size <= |Addrs(x.iovs)| && at + m + size <= |x.buf|
    requires Addrs(x.iovs)[m..m + size] == Range(base, size)
    requires z.mem == y.mem && z.buf == Put(y.buf, at + m, BytesFrom(y.mem, base, size))
    ensures DidWrite(x, z, at, m + size)
  {
    forall i | 0 <= i < m + size ensures z.buf[at + i] == ByteAt(x.mem, Addrs(x.iovs)[i]) {
      if i >= m {
        var k := i - m;
        RangeAt(base, size, k);
        BytesFromAt(y.mem, base, size, k);
        assert Addrs(x.iovs)[m..m + size][k] == Addrs(x.iovs)[i];
      }
    }
  }

  // ---------------------------------------------------------------- the code

  /** memmove, copyin or copyout of a chunk. */
  method CopyChunk(ptr: array<byte>, at: nat, base: nat, size: nat, rw: Direction, space: Space)
    requires at + size <= ptr.Length
    modifies ptr, space
    ensures space.mem == if rw == UIO_READ then Scatter(old(space.mem), Range(base, size), old(ptr[..])[at..at + size]) else old(space.mem)
    ensures ptr[..] == if rw == UIO_WRITE then Put(old(ptr[..]), at, BytesFrom(old(space.mem), base, size)) else old(ptr[..])
  {
    if rw == UIO_READ {
      assert ptr[..][at..at + size] == ptr[at..at + size];
      space.mem := Scatter(space.mem, Range(base, size), ptr[at..at + size]);
    } else {
      for i := 0 to size
        invariant forall j :: 0 <= j < ptr.Length ==> ptr[j] == if at <= j < at + i then ByteAt(space.mem, base + (j - at)) else old(ptr[j])
        modifies ptr
      {
        ptr[at + i] := ByteAt(space.mem, base + i);
      }
      forall i: nat | i < size ensures BytesFrom(space.mem, base, size)[i] == ByteAt(space.mem, base + i) {
        BytesFromAt(space.mem, base, size, i);
      }
    }
  }

  ghost function State(ptr: array<byte>, uio: UioState, space: Space): Side
    reads ptr, uio, space
  {
    Side(uio.iovs, uio.resid, uio.offset, space.mem, ptr[..])
  }

  /** After m bytes of a call from the state x: transferred, and off the front of the iovecs. */
  ghost predicate SoFar(x: Side, y: Side, at: nat, m: nat, rw: Direction) {
    && Transferred(x, y, at, m, rw) && y.offset == x.offset + m
    && Addrs(y.iovs) == Addrs(x.iovs)[m..]
  }

  /** What a chunk does. */
  lemma MoreSoFar(x: Side, y: Side, z: Side, p: nat, m: nat, at: nat, size: nat, rw: Direction)
    requires SoFar(x, y, p, m, rw) && y.iovs != [] && size <= y.iovs[0].len && at == p + m && at + size <= |x.buf|
    requires z.iovs == y.iovs[0 := Advance(y.iovs[0], size)] && z.offset == y.offset + size
    requires var base := y.iovs[0].base;
             && z.mem == (if rw == UIO_READ then Scatter(y.mem, Range(base, size), y.buf[at..at + size]) else y.mem)
             && z.buf == if rw == UIO_WRITE then Put(y.buf, at, BytesFrom(y.mem, base, size)) else y.buf
    ensures SoFar(x, z, p, m + size, rw)
  {
    var base := y.iovs[0].base;
    NextAddrs(Addrs(x.iovs), m, y.iovs, size);
    if rw == UIO_READ { ReadMore(x, y, z, p, m, size, Range(base, size)); } else { WriteMore(x, y, z, p, m, size, base); }
  }

  /** A chunk and its bookkeeping, m bytes into a call that started in the state x. */
  method MoveChunk(ptr: array<byte>, at: nat, size: nat, uio: UioState, space: Space, ghost x: Side, ghost p: nat, ghost m: nat)
    requires uio.iovs != [] && size <= uio.iovs[0].len && size < SIZE_MOD && uio.resid < SIZE_MOD
    requires |x.buf| == ptr.Length && at == p + m && at + size <= ptr.Length && SoFar(x, State(ptr, uio, space), p, m, uio.rw)
    modifies ptr, uio, space
    ensures SoFar(x, State(ptr, uio, space), p, m + size, uio.rw) && uio.rw == old(uio.rw)
    ensures uio.iovs == old(uio.iovs)[0 := Advance(old(uio.iovs)[0], size)] && uio.resid == Less(old(uio.resid), size) < SIZE_MOD
  {
    ghost var y := State(ptr, uio, space);
    var iov := uio.iovs[0];
    CopyChunk(ptr, at, iov.base, size, uio.rw, space);
    uio.iovs := uio.iovs[0 := Advance(iov, size)];
    LessIsMod(uio.resid, size);
    uio.resid := (uio.resid - size) % SIZE_MOD;
    uio.offset := uio.offset + size;
    MoreSoFar(x, y, State(ptr, uio, space), p, m, at, size, uio.rw);
  }

  /** One turn of the loop, m bytes into the call, which ends it unless the turn is Done. */
  method Turn(ptr: array<byte>, at: nat, n: nat, uio: UioState, space: Space, ghost x: Side, ghost p: nat, ghost m: nat, ghost all: Xfer)
    returns (at': nat, n': nat, turn: Outcome, ghost y: Side, ghost m': nat)
    requires 0 < n && |x.buf| == ptr.Length && at == p + m && at + n <= ptr.Length && 0 < uio.resid < SIZE_MOD
    requires SoFar(x, State(ptr, uio, space), p, m, uio.rw) && LeftToMove(all, uio.iovs, n, uio.resid, space.bad, m)
    modifies ptr, uio, space
    ensures uio.rw == old(uio.rw) && uio.resid < SIZE_MOD && at' == p + m' && at' + n' == at + n
    ensures y == State(ptr, uio, space) && SoFar(x, y, p, m', uio.rw)
    ensures turn == Done ==> n' < n || (n' == n && |uio.iovs| < |old(uio.iovs)|)
    ensures Standing(all, y.iovs, n', y.resid, space.bad, m', turn)
  {
    var iov := uio.iovs[0];
    var size := iov.len;
    if size > n { size := n; }
    at', n', turn, m' := at, n, Done, m;
    if size == 0 {
      LeftAfterSkip(all, uio.iovs, n, uio.resid, space.bad, m);
      uio.iovs := uio.iovs[1..];
      if uio.iovs == [] { turn := RanOut; }
    } else {
      LeftAfterChunk(all, uio.iovs, n, uio.resid, space.bad, m, size);
      if Hits(space.bad, iov.base, size) {
        turn := Fault;
      } else {
        MoveChunk(ptr, at, size, uio, space, x, p, m);
        at', n', m' := at + size, n - size, m + size;
      }
    }
    y := State(ptr, uio, space);
  }

  lemma NoneYet(x: Side, p: nat, rw: Direction)
    requires p <= |x.buf|
    ensures SoFar(x, x, p, 0, rw)
  {
    assert Addrs(x.iovs)[..0] == [] && x.buf[p..p] == [];
  }

  lemma CallMade(x: Side, y: Side, at: nat, n: nat, rw: Direction, bad: set<nat>, outcome: Outcome, m: nat)
    requires x.iovs != [] && n < SIZE_MOD && SoFar(x, y, at, m, rw)
    requires Move(x.iovs, n, x.resid, bad) == Xfer(y.iovs, y.resid, m, outcome)
    ensures Called(x, y, at, n, rw, bad, outcome)
  {
  }

  /** The loop of uiomove, which transfers m bytes. */
  method MoveLoop(ptr: array<byte>, p: nat, n0: nat, uio: UioState, space: Space, ghost x: Side, ghost all: Xfer)
    returns (outcome: Outcome, ghost y: Side, ghost m: nat)
    requires p + n0 <= ptr.Length == |x.buf| && uio.resid < SIZE_MOD
    requires SoFar(x, State(ptr, uio, space), p, 0, uio.rw) && LeftToMove(all, uio.iovs, n0, uio.resid, space.bad, 0)
    modifies ptr, uio, space
    ensures y == State(ptr, uio, space) && SoFar(x, y, p, m, uio.rw) && uio.rw == old(uio.rw)
    ensures all == Xfer(y.iovs, y.resid, m, outcome)
  {
    var n: nat, at := n0, p;
    m, y := 0, State(ptr, uio, space);
    outcome := Done;
    while outcome == Done && n > 0 && uio.resid > 0
      invariant at == p + m && at + n <= ptr.Length && uio.resid < SIZE_MOD && uio.rw == old(uio.rw)
      invariant y == State(ptr, uio, space) && SoFar(x, y, p, m, uio.rw)
      invariant Standing(all, y.iovs, n, y.resid, space.bad, m, outcome)
      decreases outcome == Done, n, |uio.iovs|
    {
      at, n, outcome, y, m := Turn(ptr, at, n, uio, space, x, p, m, all);
    }
    CallOver(all, y.iovs, n, y.resid, space.bad, m, outcome);
  }

  /** uiomove of n bytes from p in the kernel buffer. */
  method UioMove(ptr: array<byte>, p: nat, n: nat, uio: UioState, space: Space) returns (outcome: Outcome)
    requires p + n <= ptr.Length && n < SIZE_MOD && uio.resid < SIZE_MOD && uio.iovs != []
    modifies ptr, uio, space
    ensures Called(old(State(ptr, uio, space)), State(ptr, uio, space), p, n, uio.rw, space.bad, outcome)
    ensures uio.rw == old(uio.rw)
  {
    ghost var x, y, m := State(ptr, uio, space), State(ptr, uio, space), 0;
    NoneYet(x, p, uio.rw);
    outcome, y, m := MoveLoop(ptr, p, n, uio, space, x, Move(uio.iovs, n, uio.resid, space.bad));
    CallMade(x, y, p, n, uio.rw, space.bad, outcome, m);
  }

  // ---------------------------------------------------------------- two calls

  /** A call that ends well has moved all it was asked for, or brought resid to zero. */
  lemma {:induction false} DoneStops(iovs: seq<Iovec>, n: nat, resid: nat, bad: set<nat>)
    requires iovs != [] && n < SIZE_MOD && Move(iovs, n, resid, bad).outcome == Done
    ensures Move(iovs, n, resid, bad).moved == n || Move(iovs, n, resid, bad).resid == 0
    decreases |iovs|, n
  {
    var size := Min(iovs[0].len, n);
    if n == 0 || resid == 0 {
    } else if size == 0 {
      DoneStops(iovs[1..], n, resid, bad);
    } else {
      DoneStops(iovs[0 := Advance(iovs[0], size)], n - size, Less(resid, size), bad);
    }
  }

  lemma ReadsJoin(x: Side, y: Side, z: Side, w: Side, at: nat, m: nat, k: nat)
    requires DidRead(x, y, at, m) && DidRead(y, z, at + m, k) && Addrs(y.iovs) == Addrs(x.iovs)[m..]
    requires DidRead(x, w, at, m + k)
    ensures z.mem == w.mem && z.buf == w.buf
  {
    var a := Addrs(x.iovs);
    assert a[m..][..k] == a[m..m + k];
    ReadMore(x, y, z, at, m, k, a[m..m + k]);
  }

  lemma WritesJoin(x: Side, y: Side, z: Side, w: Side, at: nat, m: nat, k: nat)
    requires DidWrite(x, y, at, m) && DidWrite(y, z, at + m, k) && Addrs(y.iovs) == Addrs(x.iovs)[m..]
    requires DidWrite(x, w, at, m + k)
    ensures z.mem == w.mem && z.buf == w.buf
  {
    forall j | 0 <= j < |x.buf| ensures z.buf[j] == w.buf[j] {
      if at + m <= j < at + m + k {
        var i := j - at - m;
        assert Addrs(y.iovs)[i] == Addrs(x.iovs)[m + i];
        assert z.buf[at + m + i] == ByteAt(x.mem, Addrs(y.iovs)[i]) && w.buf[at + (m + i)] == ByteAt(x.mem, Addrs(x.iovs)[m + i]);
      } else if at <= j < at + m {
        var i := j - at;
        assert y.buf[at + i] == ByteAt(x.mem, Addrs(x.iovs)[i]) && w.buf[at + i] == ByteAt(x.mem, Addrs(x.iovs)[i]);
      }
    }
  }

  /** Nothing transferred changes nothing. */
  lemma NoneTransferred(y: Side, z: Side, at: nat, rw: Direction)
    requires Transferred(y, z, at, 0, rw)
    ensures z.mem == y.mem && z.buf == y.buf
  {
  }

  /** When two calls on adjacent chunks of the kernel buffer move what one on both does, they
      move the same bytes to the same places: everything ends the same. */
  lemma TwoTransfers(x: Side, y: Side, z: Side, w: Side, at: nat, n1: nat, n2: nat, rw: Direction, bad: set<nat>, o1: Outcome, o2: Outcome, o: Outcome)
    requires x.iovs != [] && n1 + n2 < SIZE_MOD && x.resid < SIZE_MOD && SameAsOne(x.iovs, n1, n2, x.resid, bad)
    requires Called(x, y, at, n1, rw, bad, o1) && Called(y, z, at + n1, n2, rw, bad, o2) && Called(x, w, at, n1 + n2, rw, bad, o)
    ensures z == w
  {
    var m, k := Move(x.iovs, n1, x.resid, bad).moved, Move(y.iovs, n2, y.resid, bad).moved;
    assert Addrs(y.iovs) == Addrs(x.iovs)[m..] by { MovedCounts(x.iovs, n1, x.resid, bad); }
    DoneStops(x.iovs, n1, x.resid, bad);
    if m < n1 {
      assert k == 0;
      NoneTransferred(y, z, at + n1, rw);
      SameTransfer(x, y, w, at, m, rw);
    } else if rw == UIO_READ {
      ReadsJoin(x, y, z, w, at, m, k);
    } else {
      WritesJoin(x, y, z, w, at, m, k);
    }
  }

  /** What is transferred is fixed by how much. */
  lemma SameTransfer(x: Side, y: Side, w: Side, at: nat, m: nat, rw: Direction)
    requires Transferred(x, y, at, m, rw) && Transferred(x, w, at, m, rw)
    ensures y.mem == w.mem && y.buf == w.buf
  {
    if rw == UIO_WRITE {
      forall j | 0 <= j < |x.buf| ensures y.buf[j] == w.buf[j] {
        if at <= j < at + m {
          var i := j - at;
          assert y.buf[at + i] == ByteAt(x.mem, Addrs(x.iovs)[i]) && w.buf[at + i] == ByteAt(x.mem, Addrs(x.iovs)[i]);
        }
      }
    }
  }

  // ---------------------------------------------------------------- zeros

  /** uiomovezeros: calls of sixteen bytes, and what is left. */
  ghost function ZeroCalls(iovs: seq<Iovec>, n: nat, resid: nat, bad: set<nat>): (r: Xfer)
    requires iovs != []
    ensures r.moved <= n
    decreases n
  {
    if n == 0 then Xfer(iovs, resid, 0, Done)
    else
      var amt := Min(16, n);
      var r := Move(iovs, amt, resid, bad);
      if r.outcome != Done then r
      else
        var r2 := ZeroCalls(r.iovs, n - amt, r.resid, bad);
        r2.(moved := r.moved + r2.moved)
  }

  function Zeros(n: nat): (r: seq<byte>)
    ensures |r| == n && forall i :: 0 <= i < n ==> r[i] == 0
  {
    seq(n, _ => 0)
  }

  /** m zeros stored at the first addresses. */
  ghost predicate Zeroed(iovs0: seq<Iovec>, mem0: map<nat, byte>, iovs: seq<Iovec>, mem: map<nat, byte>, m: nat) {
    && m <= |Addrs(iovs0)| && Addrs(iovs) == Addrs(iovs0)[m..]
    && mem == Scatter(mem0, Addrs(iovs0)[..m], Zeros(m))
  }

  lemma ZeroedMore(iovs0: seq<Iovec>, mem0: map<nat, byte>, x: Side, y: Side, m: nat, k: nat)
    requires Zeroed(iovs0, mem0, x.iovs, x.mem, m) && DidRead(x, y, 0, k)
    requires forall i :: 0 <= i < |x.buf| ==> x.buf[i] == 0
    requires Addrs(y.iovs) == Addrs(x.iovs)[k..]
    ensures Zeroed(iovs0, mem0, y.iovs, y.mem, m + k)
  {
    var a := Addrs(iovs0);
    assert x.buf[0..k] == Zeros(k);
    assert a[..m + k] == a[..m] + a[m..][..k] && Zeros(m + k) == Zeros(m) + Zeros(k);
    ScatterConcat(mem0, a[..m], Zeros(m), a[m..][..k], Zeros(k));
    assert a[m..][k..] == a[m + k..];
  }

  /** After m zeros, what is left to do completes all. */
  ghost predicate LeftToDo(all: Xfer, iovs: seq<Iovec>, n: nat, resid: nat, bad: set<nat>, m: nat) {
    iovs != [] && n < SIZE_MOD && var r := ZeroCalls(iovs, n, resid, bad); r.(moved := m + r.moved) == all
  }

  lemma OneCall(all: Xfer, iovs: seq<Iovec>, n: nat, resid: nat, bad: set<nat>, m: nat)
    requires LeftToDo(all, iovs, n, resid, bad, m) && n > 0
    ensures var amt := Min(16, n);
            var r := Move(iovs, amt, resid, bad);
            if r.outcome == Done then LeftToDo(all, r.iovs, n - amt, r.resid, bad, m + r.moved)
            else all == r.(moved := m + r.moved)
  {
  }

  lemma SentZeros(iovs0: seq<Iovec>, mem0: map<nat, byte>, x: Side, y: Side, m: nat, k: nat, n: nat, bad: set<nat>, outcome: Outcome)
    requires Zeroed(iovs0, mem0, x.iovs, x.mem, m) && DidRead(x, y, 0, k) && x.resid < SIZE_MOD
    requires forall i :: 0 <= i < |x.buf| ==> x.buf[i] == 0
    requires x.iovs != [] && n < SIZE_MOD && Move(x.iovs, n, x.resid, bad) == Xfer(y.iovs, y.resid, k, outcome)
    ensures Zeroed(iovs0, mem0, y.iovs, y.mem, m + k) && y.resid < SIZE_MOD
  {
    MovedCounts(x.iovs, n, x.resid, bad);
    ZeroedMore(iovs0, mem0, x, y, m, k);
  }

  /** One call of uiomove on the zeros, after m of them. */
  method SendZeros(zeros: array<byte>, n: nat, uio: UioState, space: Space,
                   ghost iovs0: seq<Iovec>, ghost mem0: map<nat, byte>, ghost m: nat, ghost all: Xfer)
    returns (amt: nat, outcome: Outcome, ghost m': nat)
    requires zeros.Length == 16 && 0 < n && uio.rw == UIO_READ && uio.resid < SIZE_MOD
    requires forall i :: 0 <= i < 16 ==> zeros[i] == 0
    requires LeftToDo(all, uio.iovs, n, uio.resid, space.bad, m) && Zeroed(iovs0, mem0, uio.iovs, space.mem, m)
    modifies zeros, uio, space
    ensures forall i :: 0 <= i < 16 ==> zeros[i] == 0
    ensures 0 < amt <= n && uio.rw == UIO_READ && uio.resid < SIZE_MOD && uio.offset - m' == old(uio.offset) - m
    ensures Zeroed(iovs0, mem0, uio.iovs, space.mem, m')
    ensures outcome == Done ==> LeftToDo(all, uio.iovs, n - amt, uio.resid, space.bad, m')
    ensures outcome != Done ==> all == Xfer(uio.iovs, uio.resid, m', outcome)
  {
    amt := 16;
    if amt > n { amt := n; }
    ghost var x := State(zeros, uio, space);
    OneCall(all, uio.iovs, n, uio.resid, space.bad, m);
    ghost var k := Move(x.iovs, amt, x.resid, space.bad).moved;
    outcome := UioMove(zeros, 0, amt, uio, space);
    ghost var y := State(zeros, uio, space);
    assert DidRead(x, y, 0, k) && zeros[..] == x.buf;
    SentZeros(iovs0, mem0, x, y, m, k, amt, space.bad, outcome);
    m' := m + k;
  }

  /** uiomovezeros: what its calls of uiomove move together, in zeros, at the first addresses. */
  method UioMoveZeros(n0: nat, uio: UioState, space: Space) returns (outcome: Outcome)
    requires n0 < SIZE_MOD && uio.rw == UIO_READ && uio.resid < SIZE_MOD && uio.iovs != []
    modifies uio, space
    ensures var r := ZeroCalls(old(uio.iovs), n0, old(uio.resid), space.bad);
            && Xfer(uio.iovs, uio.resid, r.moved, outcome) == r && uio.offset == old(uio.offset) + r.moved
            && Zeroed(old(uio.iovs), old(space.mem), uio.iovs, space.mem, r.moved)
  {
    var zeros := new byte[16](_ => 0);
    ghost var iovs0, mem0 := uio.iovs, space.mem;
    ghost var all := ZeroCalls(iovs0, n0, uio.resid, space.bad);
    var n: nat := n0;
    ghost var m: nat := 0;
    outcome := Done;
    assert Addrs(iovs0)[..0] == [] && Zeros(0) == [];
    while outcome == Done && n > 0
      invariant uio.rw == UIO_READ && uio.resid < SIZE_MOD && uio.offset == old(uio.offset) + m
      invariant forall i :: 0 <= i < 16 ==> zeros[i] == 0
      invariant Zeroed(iovs0, mem0, uio.iovs, space.mem, m)
      invariant outcome == Done ==> LeftToDo(all, uio.iovs, n, uio.resid, space.bad, m)
      invariant outcome != Done ==> all == Xfer(uio.iovs, uio.resid, m, outcome)
      decreases outcome == Done, n
    {
      var amt;
      amt, outcome, m := SendZeros(zeros, n, uio, space, iovs0, mem0, m, all);
      n := n - amt;
    }
  }

  /** A buffer ends at resid, after some of it is moved, when one did before. */
  lemma {:induction false} BoundaryMoved(iovs: seq<Iovec>, n: nat, resid: nat, bad: set<nat>)
    requires iovs != [] && n < resid < SIZE_MOD && Move(iovs, n, resid, bad).outcome == Done
    ensures Move(iovs, n, resid, bad).moved == n && Move(iovs, n, resid, bad).resid == resid - n
    ensures Boundary(Move(iovs, n, resid, bad).iovs, resid - n) <==> Boundary(iovs, resid)
    decreases |iovs|, n
  {
    var size := Min(iovs[0].len, n);
    if n == 0 {
    } else if size == 0 {
      BoundaryMoved(iovs[1..], n, resid, bad);
    } else {
      AdvanceBoundary(iovs, size, resid);
      BoundaryMoved(iovs[0 := Advance(iovs[0], size)], n - size, resid - size, bad);
    }
  }

  lemma ZerosStep(iovs: seq<Iovec>, n: nat, resid: nat, bad: set<nat>)
    requires iovs != [] && 16 < n < SIZE_MOD && resid < SIZE_MOD && SameAsOne(iovs, 16, n - 16, resid, bad)
    requires Move(iovs, n, resid, bad).outcome == Done
    ensures var r1 := Move(iovs, 16, resid, bad);
            && r1.outcome == Done && r1.resid < SIZE_MOD && Move(r1.iovs, n - 16, r1.resid, bad).outcome == Done
            && (ZeroCalls(iovs, n, resid, bad) == Move(iovs, n, resid, bad) <==>
                ZeroCalls(r1.iovs, n - 16, r1.resid, bad) == Move(r1.iovs, n - 16, r1.resid, bad))
  {
    MovedCounts(iovs, 16, resid, bad);
  }

  /** With no resid left nothing is moved. */
  lemma {:induction false} ZerosStop(iovs: seq<Iovec>, n: nat, bad: set<nat>)
    requires iovs != [] && n < SIZE_MOD
    ensures ZeroCalls(iovs, n, 0, bad) == Xfer(iovs, 0, 0, Done)
    decreases n
  {
    if n > 0 { ZerosStop(iovs, n - Min(16, n), bad); }
  }

  /** Where one call of uiomove for n zeros would succeed, uiomovezeros does the same, exactly
      unless one of its calls but the last ends at resid, and resid does not end where a
      buffer does. */
  lemma {:induction false} ZerosAreOne(iovs: seq<Iovec>, n: nat, resid: nat, bad: set<nat>)
    requires iovs != [] && n < SIZE_MOD && resid < SIZE_MOD && Move(iovs, n, resid, bad).outcome == Done
    ensures ZeroCalls(iovs, n, resid, bad) == Move(iovs, n, resid, bad) <==>
            n <= resid || Boundary(iovs, resid) || resid % 16 != 0
    decreases n
  {
    if n <= 16 {
      ZerosFew(iovs, n, resid, bad);
    } else if resid == 0 {
      ZerosStop(iovs, n, bad);
    } else if resid == 16 && !Boundary(iovs, resid) {
      ZerosSplit(iovs, n, bad);
    } else {
      var r1 := Move(iovs, 16, resid, bad);
      assert SameAsOne(iovs, 16, n - 16, resid, bad) by { TwoCalls(iovs, 16, n - 16, resid, bad); }
      ZerosStep(iovs, n, resid, bad);
      ZerosAreOne(r1.iovs, n - 16, r1.resid, bad);
      ZerosRest(iovs, n, resid, bad);
    }
  }

  lemma ZerosFew(iovs: seq<Iovec>, n: nat, resid: nat, bad: set<nat>)
    requires iovs != [] && n <= 16 && Move(iovs, n, resid, bad).outcome == Done
    ensures ZeroCalls(iovs, n, resid, bad) == Move(iovs, n, resid, bad)
    ensures n <= resid || resid == 0 || resid % 16 != 0
  {
    var r := Move(iovs, n, resid, bad);
    if n > 0 { assert ZeroCalls(r.iovs, 0, r.resid, bad) == Xfer(r.iovs, r.resid, 0, Done); }
  }

  /** The condition after the first sixteen. */
  lemma ZerosRest(iovs: seq<Iovec>, n: nat, resid: nat, bad: set<nat>)
    requires iovs != [] && 16 < n < SIZE_MOD && 0 < resid < SIZE_MOD && Move(iovs, 16, resid, bad).outcome == Done
    requires resid != 16 || Boundary(iovs, resid)
    ensures var r1 := Move(iovs, 16, resid, bad);
            (n - 16 <= r1.resid || Boundary(r1.iovs, r1.resid) || r1.resid % 16 != 0) <==>
            (n <= resid || Boundary(iovs, resid) || resid % 16 != 0)
  {
    var r1 := Move(iovs, 16, resid, bad);
    MovedCounts(iovs, 16, resid, bad);
    CallEnds(iovs, 16, resid, bad);
    DoneStops(iovs, 16, resid, bad);
    if resid > 16 { BoundaryMoved(iovs, 16, resid, bad); }
  }

  /** The first sixteen end at a resid inside a buffer: the calls after it move nothing. */
  lemma ZerosSplit(iovs: seq<Iovec>, n: nat, bad: set<nat>)
    requires iovs != [] && 16 < n < SIZE_MOD && !Boundary(iovs, 16) && Move(iovs, n, 16, bad).outcome == Done
    ensures ZeroCalls(iovs, n, 16, bad) != Move(iovs, n, 16, bad)
  {
    var r1 := Move(iovs, 16, 16, bad);
    CallEnds(iovs, n, 16, bad);
    if r1.outcome == Done {
      MovedCounts(iovs, 16, 16, bad);
      CallEnds(iovs, 16, 16, bad);
      ZerosStop(r1.iovs, n - 16, bad);
    }
  }

  /** With resid the length of the buffers, the smaller of n and resid zeros, or a fault. */
  lemma {:induction false} ZerosExact(iovs: seq<Iovec>, n: nat, resid: nat, bad: set<nat>)
    requires iovs != [] && n < SIZE_MOD && resid < SIZE_MOD && Exact(iovs, resid)
    ensures var r := ZeroCalls(iovs, n, resid, bad);
            r.outcome != RanOut && r.moved <= resid && (r.outcome == Done ==> r.moved == Min(n, resid))
    decreases n
  {
    if n > 0 {
      var r := Move(iovs, Min(16, n), resid, bad);
      ExactEnds(iovs, Min(16, n), resid, bad);
      CallEnds(iovs, Min(16, n), resid, bad);
      MovedCounts(iovs, Min(16, n), resid, bad);
      if r.outcome == Done { ZerosExact(r.iovs, n - Min(16, n), r.resid, bad); }
    }
  }
}
