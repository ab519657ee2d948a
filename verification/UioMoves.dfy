/** How much uiomove of kern/lib/uio.c moves, and how a call ends: the loop without the data. */
module UioMoves {
  const SIZE_MOD: nat := 0x1_0000_0000

  type byte = x: int | 0 <= x < 256

  datatype Iovec = Iovec(base: nat, len: nat)

  datatype Direction = UIO_READ | UIO_WRITE

  // ---------------------------------------------------------------- addresses

  function Range(base: nat, n: nat): (r: seq<nat>)
    ensures |r| == n
    decreases n
  {
    if n == 0 then [] else [base] + Range(base + 1, n - 1)
  }

  lemma {:induction false} RangeAt(base: nat, n: nat, i: nat)
    requires i < n
    ensures Range(base, n)[i] == base + i
    decreases n
  {
    if i > 0 { RangeAt(base + 1, n - 1, i - 1); }
  }

  /** The buffers laid end to end: the address of each byte. */
  function Addrs(iovs: seq<Iovec>): seq<nat> {
    if iovs == [] then [] else Range(iovs[0].base, iovs[0].len) + Addrs(iovs[1..])
  }

  /** Storing bytes one by one. */
  function Scatter(mem: map<nat, byte>, addrs: seq<nat>, bytes: seq<byte>): map<nat, byte>
    requires |addrs| == |bytes|
    decreases |addrs|
  {
    if addrs == [] then mem else Scatter(mem[addrs[0] := bytes[0]], addrs[1..], bytes[1..])
  }

  lemma {:induction false} ScatterConcat(mem: map<nat, byte>, a: seq<nat>, x: seq<byte>, b: seq<nat>, y: seq<byte>)
    requires |a| == |x| && |b| == |y|
    ensures Scatter(Scatter(mem, a, x), b, y) == Scatter(mem, a + b, x + y)
    decreases |a|
  {
    if a == [] {
      assert a + b == b && x + y == y;
    } else {
      assert (a + b)[1..] == a[1..] + b && (x + y)[1..] == x[1..] + y;
      ScatterConcat(mem[a[0] := x[0]], a[1..], x[1..], b, y);
    }
  }

  /** Bytes stored at distinct addresses are there afterwards, and nothing else changes. */
  lemma {:induction false} ScatterAt(mem: map<nat, byte>, a: seq<nat>, x: seq<byte>, p: nat)
    requires |a| == |x| && forall i, j :: 0 <= i < j < |a| ==> a[i] != a[j]
    ensures var mem' := Scatter(mem, a, x);
            && (forall i :: 0 <= i < |a| && a[i] == p ==> p in mem' && mem'[p] == x[i])
            && (p !in a ==> (p in mem' <==> p in mem) && (p in mem ==> mem'[p] == mem[p]))
    decreases |a|
  {
    if a != [] {
      ScatterAt(mem[a[0] := x[0]], a[1..], x[1..], p);
      forall i | 0 <= i < |a| && a[i] == p ensures p in Scatter(mem, a, x) && Scatter(mem, a, x)[p] == x[i] {
        if i > 0 {
          assert a[1..][i - 1] == p && x[1..][i - 1] == x[i];
        } else {
          assert p !in a[1..];
        }
      }
    }
  }

  lemma {:induction false} SplitRange(base: nat, n: nat, k: nat)
    requires k <= n
    ensures Range(base, n) == Range(base, k) + Range(base + k, n - k)
    decreases k
  {
    if k > 0 { SplitRange(base + 1, n - 1, k - 1); }
  }

  // ---------------------------------------------------------------- what the loop does

  /** The end of a call: done; a copy failed; or the assertion that buffers ran out. */
  datatype Outcome = Done | Fault | RanOut

  /** Whether copyin or copyout of n bytes at base fails. */
  predicate Hits(bad: set<nat>, base: nat, n: nat) {
    exists a | base <= a < base + n :: a in bad
  }

  datatype Xfer = Xfer(iovs: seq<Iovec>, resid: nat, moved: nat, outcome: Outcome)

  function Advance(v: Iovec, n: nat): Iovec
    requires n <= v.len
  {
    Iovec(v.base + n, v.len - n)
  }

  /** size_t subtraction. */
  function Less(resid: nat, n: nat): nat
    requires n < SIZE_MOD
  {
    if n <= resid then resid - n else resid + SIZE_MOD - n
  }

  lemma LessIsMod(resid: nat, n: nat)
    requires resid < SIZE_MOD && n < SIZE_MOD
    ensures Less(resid, n) == (resid - n) % SIZE_MOD
  {
  }

  function Min(a: nat, b: nat): nat { if a < b then a else b }

  /** The loop of uiomove with n bytes to go, from these buffers and this resid. */
  function Move(iovs: seq<Iovec>, n: nat, resid: nat, bad: set<nat>): (r: Xfer)
    requires iovs != [] && n < SIZE_MOD
    ensures r.moved <= n && (r.outcome == RanOut <==> r.iovs == [])
    decreases |iovs|, n
  {
    var size := Min(iovs[0].len, n);
    if n == 0 || resid == 0 then Xfer(iovs, resid, 0, Done)
    else if size == 0 then
      if |iovs| == 1 then Xfer([], resid, 0, RanOut) else Move(iovs[1..], n, resid, bad)
    else if Hits(bad, iovs[0].base, size) then Xfer(iovs, resid, 0, Fault)
    else
      var r := Move(iovs[0 := Advance(iovs[0], size)], n - size, Less(resid, size), bad);
      r.(moved := size + r.moved)
  }

  /** The buffers hold exactly what is left to transfer: what uio_kinit sets up. */
  ghost predicate Exact(iovs: seq<Iovec>, resid: nat) {
    |Addrs(iovs)| == resid
  }

  // ---------------------------------------------------------------- how much is moved

  /** resid is the length of some first buffers together. */
  ghost predicate Boundary(iovs: seq<Iovec>, resid: nat) {
    resid == 0 || (iovs != [] && iovs[0].len <= resid && Boundary(iovs[1..], resid - iovs[0].len))
  }

  lemma {:induction false} BoundaryFits(iovs: seq<Iovec>, resid: nat)
    requires Boundary(iovs, resid)
    ensures resid <= |Addrs(iovs)|
  {
    if resid > 0 { BoundaryFits(iovs[1..], resid - iovs[0].len); }
  }

  lemma {:induction false} ExactIsBoundary(iovs: seq<Iovec>)
    ensures Boundary(iovs, |Addrs(iovs)|)
  {
    if iovs != [] { ExactIsBoundary(iovs[1..]); }
  }

  lemma AddrsFirst(v: Iovec, tail: seq<Iovec>)
    ensures Addrs([v] + tail) == Range(v.base, v.len) + Addrs(tail)
  {
    assert ([v] + tail)[1..] == tail;
  }

  /** Moving within the first buffer keeps the rest of the addresses in step. */
  lemma AdvanceAddrs(iovs: seq<Iovec>, n: nat)
    requires iovs != [] && n <= iovs[0].len
    ensures Addrs(iovs) == Range(iovs[0].base, n) + Addrs(iovs[0 := Advance(iovs[0], n)])
  {
    var v, tail := iovs[0], iovs[1..];
    var v1 := Advance(v, n);
    assert Addrs(iovs) == Range(v.base, v.len) + Addrs(tail);
    assert Addrs(iovs[0 := v1]) == Range(v1.base, v1.len) + Addrs(tail) by {
      assert iovs[0 := v1] == [v1] + tail;
      AddrsFirst(v1, tail);
    }
    SplitRange(v.base, v.len, n);
    Regroup(Range(v.base, n), Range(v1.base, v1.len), Range(v.base, v.len), Addrs(tail));
  }

  lemma Regroup(a: seq<nat>, b: seq<nat>, ab: seq<nat>, c: seq<nat>)
    requires ab == a + b
    ensures ab + c == a + (b + c)
  {
  }

  lemma AdvanceBoundary(iovs: seq<Iovec>, n: nat, resid: nat)
    requires iovs != [] && n <= iovs[0].len && n <= resid
    ensures resid > 0 && (resid > n || iovs[0].len == n) ==>
              (Boundary(iovs, resid) <==> Boundary(iovs[0 := Advance(iovs[0], n)], resid - n))
  {
    assert iovs[0 := Advance(iovs[0], n)][1..] == iovs[1..];
  }

  /** No more than the buffers hold. */
  lemma {:induction false} MovedFits(iovs: seq<Iovec>, n: nat, resid: nat, bad: set<nat>)
    requires iovs != [] && n < SIZE_MOD
    ensures Move(iovs, n, resid, bad).moved <= |Addrs(iovs)|
    decreases |iovs|, n
  {
    var size := Min(iovs[0].len, n);
    if n == 0 || resid == 0 {
    } else if size == 0 {
      if |iovs| > 1 { MovedFits(iovs[1..], n, resid, bad); }
    } else if !Hits(bad, iovs[0].base, size) {
      AdvanceAddrs(iovs, size);
      MovedFits(iovs[0 := Advance(iovs[0], size)], n - size, Less(resid, size), bad);
    }
  }

  /** What is moved comes off resid and the buffers alike, on every outcome, in the
      arithmetic of size_t. */
  lemma {:induction false} MovedCounts(iovs: seq<Iovec>, n: nat, resid: nat, bad: set<nat>)
    requires iovs != [] && n < SIZE_MOD && resid < SIZE_MOD
    ensures var r := Move(iovs, n, resid, bad);
            && r.moved <= |Addrs(iovs)| && r.resid == Less(resid, r.moved)
            && Addrs(r.iovs) == Addrs(iovs)[r.moved..]
    decreases |iovs|, n
  {
    MovedFits(iovs, n, resid, bad);
    var size := Min(iovs[0].len, n);
    if n == 0 || resid == 0 {
    } else if size == 0 {
      assert Addrs(iovs) == Addrs(iovs[1..]);
      if |iovs| > 1 { MovedCounts(iovs[1..], n, resid, bad); }
    } else if !Hits(bad, iovs[0].base, size) {
      var iovs1 := iovs[0 := Advance(iovs[0], size)];
      AdvanceAddrs(iovs, size);
      MovedCounts(iovs1, n - size, Less(resid, size), bad);
      LessTwice(resid, size, Move(iovs1, n - size, Less(resid, size), bad).moved);
    }
  }

  lemma LessTwice(resid: nat, a: nat, b: nat)
    requires resid < SIZE_MOD && a + b < SIZE_MOD
    ensures Less(Less(resid, a), b) == Less(resid, a + b)
  {
  }

  // ---------------------------------------------------------------- how a call ends

  /** The length of the buffers up to, or the sum that, a call without faults moves. */
  ghost function WouldMove(iovs: seq<Iovec>, n: nat, resid: nat): nat {
    if n > resid && Boundary(iovs, resid) then resid else Min(n, |Addrs(iovs)|)
  }

  /** With no more to go than resid and no faults, the call moves it all, if the buffers
      hold it. */
  lemma {:induction false} MoveAll(iovs: seq<Iovec>, n: nat, resid: nat)
    requires iovs != [] && n <= resid < SIZE_MOD
    ensures var r := Move(iovs, n, resid, {});
            r.moved == Min(n, |Addrs(iovs)|) && r.outcome == if n <= |Addrs(iovs)| then Done else RanOut
    decreases |iovs|, n
  {
    var size := Min(iovs[0].len, n);
    if n == 0 {
    } else if size == 0 {
      assert Addrs(iovs) == Addrs(iovs[1..]);
      if |iovs| > 1 { MoveAll(iovs[1..], n, resid); }
    } else {
      AdvanceAddrs(iovs, size);
      MoveAll(iovs[0 := Advance(iovs[0], size)], n - size, Less(resid, size));
    }
  }

  /** With more to go than resid, the call stops at resid if that is where a buffer ends;
      otherwise a chunk takes resid below zero, it wraps, and the call goes on. */
  lemma {:induction false} MoveMore(iovs: seq<Iovec>, n: nat, resid: nat)
    requires iovs != [] && resid < n < SIZE_MOD
    ensures var r := Move(iovs, n, resid, {});
            if Boundary(iovs, resid) then r.outcome == Done && r.moved == resid
            else r.moved == Min(n, |Addrs(iovs)|) && r.outcome == if n <= |Addrs(iovs)| then Done else RanOut
    decreases |iovs|, n
  {
    var size := Min(iovs[0].len, n);
    var iovs1 := iovs[0 := Advance(iovs[0], size)];
    if resid == 0 {
    } else if size == 0 {
      assert Addrs(iovs) == Addrs(iovs[1..]) && Boundary(iovs, resid) == Boundary(iovs[1..], resid);
      if |iovs| > 1 { MoveMore(iovs[1..], n, resid); } else { assert iovs[1..] == []; }
    } else {
      AdvanceAddrs(iovs, size);
      if size <= resid {
        AdvanceBoundary(iovs, size, resid);
        MoveMore(iovs1, n - size, resid - size);
      } else {
        assert Less(resid, size) == resid - size + SIZE_MOD;
        MoveAll(iovs1, n - size, resid - size + SIZE_MOD);
      }
    }
  }

  /** A call that does not fault does what it would do with no faults to meet; and it faults
      exactly when there is one among the addresses it would have moved. */
  lemma {:induction false} Faults(iovs: seq<Iovec>, n: nat, resid: nat, bad: set<nat>)
    requires iovs != [] && n < SIZE_MOD && resid < SIZE_MOD
    ensures Move(iovs, n, resid, {}).moved <= |Addrs(iovs)|
    ensures Move(iovs, n, resid, bad).outcome == Fault <==> MeetsBad(iovs, Move(iovs, n, resid, {}).moved, bad)
    ensures Move(iovs, n, resid, bad).outcome != Fault ==> Move(iovs, n, resid, bad) == Move(iovs, n, resid, {})
    decreases |iovs|, n
  {
    MovedFits(iovs, n, resid, {});
    var size := Min(iovs[0].len, n);
    if n == 0 || resid == 0 {
    } else if size == 0 {
      assert Addrs(iovs) == Addrs(iovs[1..]);
      if |iovs| > 1 { Faults(iovs[1..], n, resid, bad); }
    } else {
      var iovs1 := iovs[0 := Advance(iovs[0], size)];
      Faults(iovs1, n - size, Less(resid, size), bad);
      FirstBad(iovs, size, Move(iovs1, n - size, Less(resid, size), {}).moved, bad);
    }
  }

  /** One of the first m addresses of the buffers cannot be copied to or from. */
  ghost predicate MeetsBad(iovs: seq<Iovec>, m: nat, bad: set<nat>)
    requires m <= |Addrs(iovs)|
  {
    exists i :: 0 <= i < m && Addrs(iovs)[i] in bad
  }

  /** Such an address is in the first chunk or later. */
  lemma FirstBad(iovs: seq<Iovec>, size: nat, m: nat, bad: set<nat>)
    requires iovs != [] && size <= iovs[0].len && m <= |Addrs(iovs[0 := Advance(iovs[0], size)])|
    ensures size + m <= |Addrs(iovs)|
    ensures MeetsBad(iovs, size + m, bad) <==>
              Hits(bad, iovs[0].base, size) || MeetsBad(iovs[0 := Advance(iovs[0], size)], m, bad)
  {
    var base, a, rest := iovs[0].base, Addrs(iovs), Addrs(iovs[0 := Advance(iovs[0], size)]);
    assert a == Range(base, size) + rest by { AdvanceAddrs(iovs, size); }
    if i :| 0 <= i < size + m && a[i] in bad {
      if i < size { RangeAt(base, size, i); } else { assert rest[i - size] in bad; }
    }
    if b :| base <= b < base + size && b in bad {
      RangeAt(base, size, b - base);
      assert a[b - base] in bad;
    }
    if i :| 0 <= i < m && rest[i] in bad { assert a[size + i] in bad; }
  }

  /** How every call ends. It faults exactly when one of the addresses it would move is bad;
      otherwise it moves so much; and it runs out of buffers exactly when they hold less than
      n, and resid does not end where one does. */
  lemma CallEnds(iovs: seq<Iovec>, n: nat, resid: nat, bad: set<nat>)
    requires iovs != [] && n < SIZE_MOD && resid < SIZE_MOD
    ensures var r := Move(iovs, n, resid, bad);
            && WouldMove(iovs, n, resid) <= |Addrs(iovs)|
            && (r.outcome == Fault <==> MeetsBad(iovs, WouldMove(iovs, n, resid), bad))
            && (r.outcome != Fault ==> r.moved == WouldMove(iovs, n, resid))
            && (r.outcome == RanOut <==> r.outcome != Fault && |Addrs(iovs)| < n && !Boundary(iovs, resid))
  {
    if Boundary(iovs, resid) { BoundaryFits(iovs, resid); }
    if n <= resid { MoveAll(iovs, n, resid); } else { MoveMore(iovs, n, resid); }
    Faults(iovs, n, resid, bad);
  }

  /** uiomove's promise, the smaller of n and resid transferred, is kept exactly when none of
      the addresses to move is bad, and the buffers hold n bytes of no more than resid, or
      resid ends where a buffer does. */
  lemma MovesMin(iovs: seq<Iovec>, n: nat, resid: nat, bad: set<nat>)
    requires iovs != [] && n < SIZE_MOD && resid < SIZE_MOD
    ensures WouldMove(iovs, n, resid) <= |Addrs(iovs)|
    ensures var r := Move(iovs, n, resid, bad);
            (r.outcome == Done && r.moved == Min(n, resid)) <==>
            && !MeetsBad(iovs, WouldMove(iovs, n, resid), bad)
            && (if n <= resid then n <= |Addrs(iovs)| else Boundary(iovs, resid))
  {
    CallEnds(iovs, n, resid, bad);
  }

  /** Twenty bytes asked of a ten-byte buffer with a resid of four, which is less than the
      buffers hold: the call runs out. */
  lemma RunsOut()
    ensures Move([Iovec(0, 10)], 20, 4, {}).outcome == RanOut
  {
    var after := [Iovec(0, 10)][0 := Advance(Iovec(0, 10), 10)];
    assert Move(after, 10, Less(4, 10), {}) == Xfer([], Less(4, 10), 0, RanOut);
  }

  /** When resid is the buffers' total length, a call does not run out. */
  lemma ExactEnds(iovs: seq<Iovec>, n: nat, resid: nat, bad: set<nat>)
    requires iovs != [] && n < SIZE_MOD && resid < SIZE_MOD && Exact(iovs, resid)
    ensures WouldMove(iovs, n, resid) == Min(n, resid)
    ensures Move(iovs, n, resid, bad).outcome == if MeetsBad(iovs, Min(n, resid), bad) then Fault else Done
  {
    ExactIsBoundary(iovs);
    CallEnds(iovs, n, resid, bad);
  }

  // ---------------------------------------------------------------- offset and resid

  /** A chunk will take resid below zero: more is asked than resid, some buffer holds bytes on
      both sides of it, and no chunk up to that one faults. */
  ghost predicate Overshoots(iovs: seq<Iovec>, n: nat, resid: nat, bad: set<nat>) {
    && n > resid > 0 && iovs != []
    && if iovs[0].len <= resid
       then !Hits(bad, iovs[0].base, iovs[0].len) && Overshoots(iovs[1..], n - iovs[0].len, resid - iovs[0].len, bad)
       else !Hits(bad, iovs[0].base, Min(iovs[0].len, n))
  }

  lemma {:induction false} OvershootMoves(iovs: seq<Iovec>, n: nat, resid: nat, bad: set<nat>)
    requires iovs != [] && n < SIZE_MOD && resid < SIZE_MOD
    ensures Move(iovs, n, resid, bad).moved > resid <==> Overshoots(iovs, n, resid, bad)
    decreases |iovs|, n
  {
    var v := iovs[0];
    var size := Min(v.len, n);
    if n <= resid || resid == 0 {
    } else if size == 0 {
      if |iovs| > 1 { OvershootMoves(iovs[1..], n, resid, bad); }
    } else if !Hits(bad, v.base, size) && v.len <= resid {
      var iovs1 := iovs[0 := Advance(v, size)];
      OvershootMoves(iovs1, n - size, resid - size, bad);
      assert iovs1[1..] == iovs[1..];
    }
  }

  /** On every outcome, offset and resid keep their sum exactly when no chunk takes resid
      below zero. */
  lemma {:induction false} SumKept(iovs: seq<Iovec>, n: nat, resid: nat, bad: set<nat>, offset: int)
    requires iovs != [] && n < SIZE_MOD && resid < SIZE_MOD
    ensures var r := Move(iovs, n, resid, bad);
            offset + r.moved + r.resid == offset + resid <==> !Overshoots(iovs, n, resid, bad)
  {
    OvershootMoves(iovs, n, resid, bad);
    MovedCounts(iovs, n, resid, bad);
  }

  /** Without faults that is when no more is asked than resid, or resid ends where a buffer
      does, or the buffers hold no more. */
  lemma {:induction false} OvershootsIff(iovs: seq<Iovec>, n: nat, resid: nat)
    requires iovs != [] && n < SIZE_MOD && resid < SIZE_MOD
    ensures Overshoots(iovs, n, resid, {}) <==> n > resid && !Boundary(iovs, resid) && |Addrs(iovs)| > resid
  {
    OvershootMoves(iovs, n, resid, {});
    CallEnds(iovs, n, resid, {});
  }

  /** Ten bytes asked of a ten-byte buffer with a resid of four: all ten move, and resid
      wraps. */
  lemma Overshoot()
    ensures Overshoots([Iovec(0, 10)], 10, 4, {})
    ensures Move([Iovec(0, 10)], 10, 4, {}).moved == 10
    ensures Move([Iovec(0, 10)], 10, 4, {}).resid == SIZE_MOD - 6
  {
    var after := [Iovec(0, 10)][0 := Advance(Iovec(0, 10), 10)];
    assert Move(after, 0, Less(4, 10), {}) == Xfer(after, Less(4, 10), 0, Done);
  }

  // ---------------------------------------------------------------- two calls

  /** Two calls in a row do what one does. */
  ghost predicate SameAsOne(iovs: seq<Iovec>, n1: nat, n2: nat, resid: nat, bad: set<nat>)
    requires iovs != [] && n1 + n2 < SIZE_MOD
  {
    var r1 := Move(iovs, n1, resid, bad);
    && r1.outcome == Done
    && var r2 := Move(r1.iovs, n2, r1.resid, bad);
       var r := Move(iovs, n1 + n2, resid, bad);
       r2.outcome == Done && r2.iovs == r.iovs && r2.resid == r.resid && r1.moved + r2.moved == r.moved
  }

  /** The first call uses up the first buffer. */
  lemma TwoCallsPast(iovs: seq<Iovec>, n1: nat, n2: nat, resid: nat, bad: set<nat>)
    requires iovs != [] && n1 + n2 < SIZE_MOD && 0 < resid < SIZE_MOD && 0 < iovs[0].len <= n1
    requires Move(iovs, n1 + n2, resid, bad).outcome == Done
    ensures var v := iovs[0];
            var iovs1 := iovs[0 := Advance(v, v.len)];
            && Move(iovs1, n1 - v.len + n2, Less(resid, v.len), bad).outcome == Done
            && (SameAsOne(iovs, n1, n2, resid, bad) <==> SameAsOne(iovs1, n1 - v.len, n2, Less(resid, v.len), bad))
  {
    assert !Hits(bad, iovs[0].base, iovs[0].len);
  }

  /** The first call ends inside the first buffer, and not at resid. */
  lemma TwoCallsInside(iovs: seq<Iovec>, n1: nat, n2: nat, resid: nat, bad: set<nat>)
    requires iovs != [] && n1 + n2 < SIZE_MOD && resid < SIZE_MOD && 0 < n1 < iovs[0].len && 0 < resid != n1
    requires Move(iovs, n1 + n2, resid, bad).outcome == Done
    ensures SameAsOne(iovs, n1, n2, resid, bad)
  {
    var v := iovs[0];
    var size := Min(v.len, n1 + n2);
    var iovs1 := iovs[0 := Advance(v, n1)];
    assert !Hits(bad, v.base, size);
    assert Move(iovs, n1, resid, bad) == Xfer(iovs1, Less(resid, n1), n1, Done) by {
      assert Move(iovs1, 0, Less(resid, n1), bad) == Xfer(iovs1, Less(resid, n1), 0, Done);
    }
    if n2 > 0 {
      assert iovs1[0 := Advance(iovs1[0], size - n1)] == iovs[0 := Advance(v, size)];
      assert Less(resid, n1) > 0;
      LessTwice(resid, n1, size - n1);
      assert !Hits(bad, iovs1[0].base, size - n1);
    }
  }

  /** The first call brings resid to zero inside the first buffer: a second one moves nothing,
      but one call for both goes on. */
  lemma TwoCallsStop(iovs: seq<Iovec>, n1: nat, n2: nat, resid: nat, bad: set<nat>)
    requires iovs != [] && n1 + n2 < SIZE_MOD && resid < SIZE_MOD && 0 < n1 == resid < iovs[0].len
    requires Move(iovs, n1 + n2, resid, bad).outcome == Done
    ensures SameAsOne(iovs, n1, n2, resid, bad) <==> n2 == 0
  {
    var v := iovs[0];
    var iovs1 := iovs[0 := Advance(v, n1)];
    assert !Hits(bad, v.base, Min(v.len, n1 + n2));
    assert Move(iovs, n1, resid, bad) == Xfer(iovs1, 0, n1, Done) by {
      assert Move(iovs1, 0, 0, bad) == Xfer(iovs1, 0, 0, Done);
    }
    assert Move(iovs, n1 + n2, resid, bad).moved >= Min(v.len, n1 + n2);
  }

  /** A call that succeeds does what two in a row do, exactly unless the first of the two ends
      at resid with more to come, and resid does not end where a buffer does. */
  lemma {:induction false} TwoCalls(iovs: seq<Iovec>, n1: nat, n2: nat, resid: nat, bad: set<nat>)
    requires iovs != [] && n1 + n2 < SIZE_MOD && resid < SIZE_MOD
    requires Move(iovs, n1 + n2, resid, bad).outcome == Done
    ensures SameAsOne(iovs, n1, n2, resid, bad) <==> n1 != resid || n2 == 0 || Boundary(iovs, resid)
    decreases |iovs|, n1
  {
    var v := iovs[0];
    if n1 == 0 || resid == 0 {
    } else if v.len == 0 {
      assert Move(iovs, n1 + n2, resid, bad) == Move(iovs[1..], n1 + n2, resid, bad);
      assert Move(iovs, n1, resid, bad) == Move(iovs[1..], n1, resid, bad);
      TwoCalls(iovs[1..], n1, n2, resid, bad);
    } else if v.len <= n1 {
      TwoCallsPast(iovs, n1, n2, resid, bad);
      TwoCalls(iovs[0 := Advance(v, v.len)], n1 - v.len, n2, Less(resid, v.len), bad);
      if v.len <= resid { AdvanceBoundary(iovs, v.len, resid); }
    } else if n1 != resid {
      TwoCallsInside(iovs, n1, n2, resid, bad);
    } else {
      TwoCallsStop(iovs, n1, n2, resid, bad);
    }
  }

  /** Four bytes and then six into a ten-byte buffer with a resid of four: one call for all ten
      moves them, but of the two calls the second moves nothing. */
  lemma {:induction false} TwoCallsDiffer()
    ensures Move([Iovec(0, 10)], 10, 4, {}).outcome == Done && !SameAsOne([Iovec(0, 10)], 4, 6, 4, {})
  {
    CallEnds([Iovec(0, 10)], 10, 4, {});
    TwoCalls([Iovec(0, 10)], 4, 6, 4, {});
  }
}
