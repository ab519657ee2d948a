/** The byte bitmap of kern/lib/bitmap.c, refined to a set of indices below nbits. */
module Bitmaps {
  import opened HalfWords
  import opened Bits

  const BITS_PER_WORD := 8
  const WORD_ALLBITS := 0xff

  type byte = x: int | 0 <= x < 0x100

  function DivRoundUp(a: nat, b: nat): nat
    requires b > 0
  {
    (a + b - 1) / b
  }

  lemma ByteRange(x: nat)
    ensures x < Pow2(8) <==> x < 0x100
  {
  }

  /** x | (1 << j) on a byte. */
  function SetByte(x: byte, j: nat): byte
    requires j < 8
  {
    Pow2Less(j, 8);
    OrBound(x, Pow2(j), 8);
    Or(x, Pow2(j))
  }

  /** x & ~(1 << j) on a byte. */
  function ClearByte(x: byte, j: nat): byte
    requires j < 8
  {
    ClearIsMask(x, j, 8);
    ClearBound(x, j);
    And(x, NotMask(j, 8))
  }

  // ---------------------------------------------------------------- the abstract set

  /** The smallest index from i on, below n, that is not in s; n when there is none. */
  ghost function LeastFree(s: set<nat>, i: nat, n: nat): (r: nat)
    requires i <= n
    ensures i <= r <= n && (r < n ==> r !in s)
    ensures forall k :: i <= k < r ==> k in s
    decreases n - i
  {
    if i == n || i !in s then i else LeastFree(s, i + 1, n)
  }

  datatype Op = Alloc | Mark(index: nat) | Unmark(index: nat)

  /** What an operation does to the set; mark and unmark only when their assertions hold. */
  ghost function Apply(s: set<nat>, n: nat, op: Op): set<nat> {
    match op
    case Alloc => if LeastFree(s, 0, n) < n then s + {LeastFree(s, 0, n)} else s
    case Mark(i) => if i < n && i !in s then s + {i} else s
    case Unmark(i) => if i < n && i in s then s - {i} else s
  }

  ghost function Replay(s: set<nat>, n: nat, ops: seq<Op>): set<nat> {
    if ops == [] then s else Apply(Replay(s, n, ops[..|ops| - 1]), n, ops[|ops| - 1])
  }

  // ---------------------------------------------------------------- the bytes

  /** Bit i of an array of bytes. */
  predicate At(v: seq<byte>, i: nat)
    requires i < 8 * |v|
  {
    Bit(v[i / 8], i % 8)
  }

  ghost function SetBits(v: seq<byte>, n: nat): set<nat>
    requires n <= 8 * |v|
  {
    set i: nat | i < n && At(v, i)
  }

  /** The bits past the end are always in use. */
  ghost predicate Padded(v: seq<byte>, n: nat) {
    && |v| == DivRoundUp(n, 8)
    && forall i: nat :: n <= i < 8 * |v| ==> At(v, i)
  }

  lemma Rounding(n: nat)
    ensures n <= 8 * DivRoundUp(n, 8) < n + 8
  {
  }

  lemma SetAt(v: seq<byte>, ix: nat, j: nat, i: nat)
    requires ix < |v| && j < 8 && i < 8 * |v|
    ensures At(v[ix := SetByte(v[ix], j)], i) == (i == 8 * ix + j || At(v, i))
  {
    SetBit(v[ix], j, i % 8);
  }

  lemma ClearAt(v: seq<byte>, ix: nat, j: nat, i: nat)
    requires ix < |v| && j < 8 && i < 8 * |v|
    ensures At(v[ix := ClearByte(v[ix], j)], i) == (i != 8 * ix + j && At(v, i))
  {
    ClearIsMask(v[ix], j, 8);
    ClearBit(v[ix], j, i % 8);
  }

  /** Setting bit i adds exactly i. */
  lemma SetAdds(v: seq<byte>, n: nat, i: nat)
    requires Padded(v, n) && i < n && !At(v, i)
    ensures var v' := v[i / 8 := SetByte(v[i / 8], i % 8)];
            Padded(v', n) && SetBits(v', n) == SetBits(v, n) + {i}
  {
    var v' := v[i / 8 := SetByte(v[i / 8], i % 8)];
    forall k: nat | k < 8 * |v|
      ensures At(v', k) == (k == i || At(v, k))
    {
      SetAt(v, i / 8, i % 8, k);
    }
  }

  /** Clearing bit i removes exactly i. */
  lemma ClearRemoves(v: seq<byte>, n: nat, i: nat)
    requires Padded(v, n) && i < n
    ensures var v' := v[i / 8 := ClearByte(v[i / 8], i % 8)];
            Padded(v', n) && SetBits(v', n) == SetBits(v, n) - {i}
  {
    var v' := v[i / 8 := ClearByte(v[i / 8], i % 8)];
    forall k: nat | k < 8 * |v|
      ensures At(v', k) == (k != i && At(v, k))
    {
      ClearAt(v, i / 8, i % 8, k);
    }
  }

  lemma LeastFreeIs(s: set<nat>, i: nat, n: nat, r: nat)
    requires i <= r <= n && (forall k :: i <= k < r ==> k in s) && (r < n ==> r !in s)
    ensures LeastFree(s, i, n) == r
  {
  }

  lemma FullByte(x: byte, j: nat)
    requires x == WORD_ALLBITS && j < 8
    ensures Bit(x, j)
  {
    AllOnes(8, j);
  }

  lemma SeenByte(v: seq<byte>, n: nat, ix: nat)
    requires ix < |v| && (forall k: nat :: k < 8 * ix ==> At(v, k)) && v[ix] == WORD_ALLBITS
    ensures forall k: nat :: k < 8 * (ix + 1) ==> At(v, k)
  {
    forall k: nat | k < 8 * (ix + 1)
      ensures At(v, k)
    {
      if k >= 8 * ix { FullByte(v[ix], k % 8); }
    }
  }

  class Bitmap {
    const nbits: nat
    const v: array<byte>

    ghost predicate Valid()
      reads v
    {
      Padded(v[..], nbits)
    }

    /** The indices in use. */
    ghost function Marked(): set<nat>
      reads v
      requires Valid()
    {
      Rounding(nbits);
      SetBits(v[..], nbits)
    }

    /** bitmap_create, when both kmallocs succeed. */
    constructor (nbits: nat)
      ensures Valid() && fresh(v) && this.nbits == nbits
      ensures Marked() == {}
    {
      var words := DivRoundUp(nbits, BITS_PER_WORD);
      var a := new byte[words](i => 0);
      this.nbits := nbits;
      this.v := a;
      new;
      Rounding(nbits);
      ZeroedBits(a[..]);
      if words > nbits / BITS_PER_WORD {
        var ix := words - 1;
        var overbits := nbits - ix * BITS_PER_WORD;
        assert nbits / BITS_PER_WORD == words - 1;
        assert 0 < overbits < BITS_PER_WORD;
        for j := overbits to BITS_PER_WORD
          invariant a.Length == words
          invariant forall k: nat :: k < 8 * words ==> At(a[..], k) == (nbits <= k < 8 * ix + j)
        {
          ghost var before := a[..];
          a[ix] := SetByte(a[ix], j);
          assert a[..] == before[ix := SetByte(before[ix], j)];
          forall k: nat | k < 8 * words
            ensures At(a[..], k) == (nbits <= k < 8 * ix + j + 1)
          {
            SetAt(before, ix, j, k);
          }
        }
      }
    }

    /** bitmap_alloc: the least free index, or None for ENOSPC. */
    method Allocate() returns (index: nat, ok: bool)
      requires Valid()
      modifies v
      ensures Valid() && Marked() == Apply(old(Marked()), nbits, Alloc)
      ensures ok <==> LeastFree(old(Marked()), 0, nbits) < nbits
      ensures ok ==> index == LeastFree(old(Marked()), 0, nbits)
      ensures Marked() == if ok then old(Marked()) + {index} else old(Marked())
    {
      ghost var v0 := v[..];
      Rounding(nbits);
      var maxix := DivRoundUp(nbits, BITS_PER_WORD);
      for ix := 0 to maxix
        invariant v[..] == v0
        invariant forall k: nat :: k < 8 * ix ==> At(v0, k)
      {
        if v[ix] != WORD_ALLBITS {
          for offset := 0 to BITS_PER_WORD
            invariant v[..] == v0
            invariant forall j: nat :: j < offset ==> Bit(v0[ix], j)
          {
            TestBit(v[ix], offset);
            if And(v[ix], Pow2(offset)) == 0 {
              index := ix * BITS_PER_WORD + offset;
              assert !At(v0, index);
              assert index < nbits;
              assert forall k: nat :: k < index ==> At(v0, k) by { BelowIndex(v0, ix, offset); }
              LeastFreeIs(SetBits(v0, nbits), 0, nbits, index);
              SetAdds(v0, nbits, index);
              v[ix] := SetByte(v[ix], offset);
              assert v[..] == v0[ix := SetByte(v0[ix], offset)];
              return index, true;
            }
          }
          ByteNotFull(v0[ix]);
          assert false;
        }
        SeenByte(v0, nbits, ix);
      }
      LeastFreeIs(SetBits(v0, nbits), 0, nbits, nbits);
      return 0, false;
    }

    /** bitmap_mark. */
    method Mark(index: nat)
      requires Valid() && index < nbits && index !in Marked()
      modifies v
      ensures Valid() && Marked() == old(Marked()) + {index}
    {
      Rounding(nbits);
      ghost var v0 := v[..];
      SetAdds(v0, nbits, index);
      v[index / 8] := SetByte(v[index / 8], index % 8);
      assert v[..] == v0[index / 8 := SetByte(v0[index / 8], index % 8)];
    }

    /** bitmap_unmark. */
    method Unmark(index: nat)
      requires Valid() && index < nbits && index in Marked()
      modifies v
      ensures Valid() && Marked() == old(Marked()) - {index}
    {
      Rounding(nbits);
      ghost var v0 := v[..];
      ClearRemoves(v0, nbits, index);
      v[index / 8] := ClearByte(v[index / 8], index % 8);
      assert v[..] == v0[index / 8 := ClearByte(v0[index / 8], index % 8)];
    }

    /** bitmap_isset; the source does not check the index against nbits. */
    method IsSet(index: nat) returns (set_: bool)
      requires Valid() && index < 8 * v.Length
      ensures set_ <==> index >= nbits || index in Marked()
    {
      Rounding(nbits);
      TestBit(v[index / 8], index % 8);
      set_ := And(v[index / 8], Pow2(index % 8)) != 0;
      assert At(v[..], index) == set_;
    }

    /** Any sequence of operations does to the bits what it does to the set. */
    method Run(ops: seq<Op>)
      requires Valid()
      modifies v
      ensures Valid() && Marked() == Replay(old(Marked()), nbits, ops)
    {
      ghost var s0 := Marked();
      assert ops[..0] == [];
      for k := 0 to |ops|
        invariant Valid() && Marked() == Replay(s0, nbits, ops[..k])
      {
        assert ops[..k + 1][..k] == ops[..k];
        match ops[k] {
          case Alloc =>
            var _, _ := Allocate();
          case Mark(i) =>
            if i < nbits {
              var isSet := IsSetBelow(i);
              if !isSet { Mark(i); }
            }
          case Unmark(i) =>
            if i < nbits {
              var isSet := IsSetBelow(i);
              if isSet { Unmark(i); }
            }
        }
      }
      assert ops[..|ops|] == ops;
    }

    method IsSetBelow(i: nat) returns (isSet: bool)
      requires Valid() && i < nbits
      ensures isSet <==> i in Marked()
    {
      Rounding(nbits);
      isSet := IsSet(i);
    }
  }

  lemma ZeroedBits(v: seq<byte>)
    requires forall i :: 0 <= i < |v| ==> v[i] == 0
    ensures forall k: nat :: k < 8 * |v| ==> !At(v, k)
  {
    forall k: nat | k < 8 * |v|
      ensures !At(v, k)
    {
      ZeroBits(k % 8);
    }
  }

  lemma BelowIndex(v: seq<byte>, ix: nat, offset: nat)
    requires ix < |v| && offset < 8
    requires (forall k: nat :: k < 8 * ix ==> At(v, k)) && (forall j: nat :: j < offset ==> Bit(v[ix], j))
    ensures forall k: nat :: k < 8 * ix + offset ==> At(v, k)
  {
    forall k: nat | k < 8 * ix + offset
      ensures At(v, k)
    {
      if k >= 8 * ix { assert k / 8 == ix && k % 8 < offset; }
    }
  }

  lemma ByteNotFull(x: byte)
    requires x != WORD_ALLBITS
    ensures exists j: nat :: j < 8 && !Bit(x, j)
  {
    ByteRange(x);
    var j := ClearBitExists(x, 8);
  }
}
