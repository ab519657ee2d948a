/** Single bits of a natural number, and what or, and and shift do to them. */
module Bits {
  import opened HalfWords

  /** Bit j of w. */
  predicate Bit(w: nat, j: nat) {
    if j == 0 then w % 2 == 1 else Bit(w / 2, j - 1)
  }

  lemma {:induction false} ZeroBits(j: nat)
    ensures !Bit(0, j)
  {
    if j > 0 { ZeroBits(j - 1); }
  }

  /** (w & (1 << j)) == 0 tests bit j. */
  lemma {:induction false} TestBit(w: nat, j: nat)
    ensures And(w, Pow2(j)) == 0 <==> !Bit(w, j)
    decreases j
  {
    if w == 0 {
      ZeroBits(j);
    } else if j > 0 {
      TestBit(w / 2, j - 1);
    } else {
      assert And(w / 2, 0) == 0;
    }
  }

  /** w |= 1 << j sets bit j and leaves the others. */
  lemma {:induction false} SetBit(w: nat, j: nat, i: nat)
    ensures Bit(Or(w, Pow2(j)), i) == (i == j || Bit(w, i))
    decreases i
  {
    var r := Or(w, Pow2(j));
    if w == 0 {
      ZeroBits(i);
      PowerBit(j, i);
    } else {
      assert r / 2 == Or(w / 2, Pow2(j) / 2);
      if i > 0 {
        if j > 0 {
          SetBit(w / 2, j - 1, i - 1);
        } else {
          assert Pow2(0) / 2 == 0;
          assert Or(w / 2, 0) == w / 2;
        }
      }
    }
  }

  lemma {:induction false} PowerBit(j: nat, i: nat)
    ensures Bit(Pow2(j), i) == (i == j)
  {
    if i > 0 {
      if j > 0 {
        PowerBit(j - 1, i - 1);
      } else {
        ZeroBits(i - 1);
      }
    }
  }

  /** w & ~(1 << j), for a w that has bit j. */
  function Clear(w: nat, j: nat): nat
  {
    if j == 0 then w - w % 2 else 2 * Clear(w / 2, j - 1) + w % 2
  }

  /** The complement of 1 << j in n bits. */
  function NotMask(j: nat, n: nat): nat
    requires j < n
  {
    Pow2Less(j, n);
    Pow2(n) - 1 - Pow2(j)
  }

  lemma {:induction false} Pow2Less(j: nat, n: nat)
    requires j < n
    ensures Pow2(j) < Pow2(n)
  {
    if j + 1 < n { Pow2Less(j, n - 1); }
  }

  lemma LowPart(x: nat, n: nat)
    requires x < Pow2(n)
    ensures And(x, Pow2(n) - 1) == x
  {
    AndLowMask(x, n);
    DivModUnique(x, Pow2(n), 0, x);
  }

  lemma AndEven(w: nat, m: nat)
    ensures And(w, 2 * m) == 2 * And(w / 2, m)
  {
    assert (2 * m) / 2 == m && (2 * m) % 2 == 0;
  }

  /** w &= ~(1 << j) in n bits is Clear. */
  lemma {:induction false} ClearIsMask(w: nat, j: nat, n: nat)
    requires w < Pow2(n) && j < n
    ensures And(w, NotMask(j, n)) == Clear(w, j)
    decreases n
  {
    var mask := NotMask(j, n);
    var half := Pow2(n - 1);
    assert w / 2 < half;
    if j == 0 {
      assert mask == 2 * (half - 1);
      LowPart(w / 2, n - 1);
      AndEven(w, half - 1);
    } else {
      ClearIsMask(w / 2, j - 1, n - 1);
      assert mask == 2 * NotMask(j - 1, n - 1) + 1;
      if w == 0 { ClearZero(j); }
    }
  }

  lemma {:induction false} ClearZero(j: nat)
    ensures Clear(0, j) == 0
  {
    if j > 0 { ClearZero(j - 1); }
  }

  /** Clearing bit j leaves the other bits. */
  lemma {:induction false} ClearBit(w: nat, j: nat, i: nat)
    ensures Bit(Clear(w, j), i) == (i != j && Bit(w, i))
    decreases i
  {
    if i > 0 {
      if j > 0 {
        assert Clear(w, j) / 2 == Clear(w / 2, j - 1);
        ClearBit(w / 2, j - 1, i - 1);
      } else {
        assert (w - w % 2) / 2 == w / 2;
      }
    }
  }

  lemma {:induction false} ClearBound(w: nat, j: nat)
    ensures Clear(w, j) <= w
  {
    if j > 0 { ClearBound(w / 2, j - 1); }
  }

  lemma {:induction false} OrBound(a: nat, b: nat, n: nat)
    requires a < Pow2(n) && b < Pow2(n)
    ensures Or(a, b) < Pow2(n)
  {
    if a != 0 && b != 0 {
      OrBound(a / 2, b / 2, n - 1);
    }
  }

  /** A word that is not all ones has a clear bit. */
  lemma {:induction false} ClearBitExists(w: nat, n: nat) returns (j: nat)
    requires w < Pow2(n) - 1
    ensures j < n && !Bit(w, j)
  {
    if w % 2 == 0 {
      j := 0;
    } else {
      assert w / 2 < Pow2(n - 1) - 1;
      var i := ClearBitExists(w / 2, n - 1);
      j := i + 1;
    }
  }

  /** All ones has no clear bit. */
  lemma {:induction false} AllOnes(n: nat, j: nat)
    requires j < n
    ensures Bit(Pow2(n) - 1, j)
  {
    assert Pow2(n) - 1 == 2 * (Pow2(n - 1) - 1) + 1;
    if j > 0 { AllOnes(n - 1, j - 1); }
  }
}
