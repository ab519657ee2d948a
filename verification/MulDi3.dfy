/** __lmulq and __muldi3 of common/gcc-millicode/muldi3.c: multiplication by the
    method of section 4.3.3 of The Art of Computer Programming, volume 2, with
    every carry and borrow done by hand. */
module MulDi3 {
  import opened HalfWords
  import opened TwosComplement

  lemma Monotone(a: int, b: int, c: int)
    requires a <= b && c >= 0
    ensures a * c <= b * c && c * a <= c * b
  {
    assert (b - a) * c >= 0;
  }

  lemma MulBounds(a: int, b: int, n: int)
    requires 0 <= a < n && 0 <= b < n
    ensures 0 <= a * b <= (n - 1) * (n - 1)
  {
    Monotone(0, a, b);
    Monotone(b, n - 1, a);
    Monotone(a, n - 1, n - 1);
  }

  /** The unsigned product a word keeps. */
  function MulWord(a: word, b: word): word { Wrap32(a * b) }

  lemma HalfProductExact(a: word, b: word)
    requires a < B && b < B
    ensures MulWord(a, b) == a * b
  {
    MulBounds(a, b, B);
  }

  /** A number's distance from another, and whether the first is below. */
  method Difference(x: word, y: word) returns (diff: word, below: bool)
    ensures diff == if x >= y then x - y else y - x
    ensures below <==> x < y
  {
    if x >= y {
      diff, below := x - y, false;
    } else {
      diff, below := y - x, true;
    }
  }

  // ---------------------------------------------------------------- carries

  /** prod += x << N, in two words with a carry. */
  method AddShifted(h: word, l: word, x: word) returns (h': word, l': word)
    ensures h' * W32 + l' == Wrap64(h * W32 + l + x * B)
  {
    l' := Wrap32(l + LHUP(x));
    h' := Wrap32(h + HHALF(x) + (if l' < l then 1 else 0));
    assert x * B == HHALF(x) * W32 + LHUP(x);
  }

  lemma BorrowWord(h: word, l: word, xh: digit, xl: word)
    ensures var l' := Wrap32(l - xl);
            var h' := Wrap32(h - xh - (if l' > l then 1 else 0));
            h' * W32 + l' == Wrap64(h * W32 + l - xh * W32 - xl)
  {
  }

  /** prod -= x << N, in two words with a borrow. */
  method SubShifted(h: word, l: word, x: word) returns (h': word, l': word)
    ensures h' * W32 + l' == Wrap64(h * W32 + l - x * B)
  {
    l' := Wrap32(l - LHUP(x));
    h' := Wrap32(h - (HHALF(x) + (if l' > l then 1 else 0)));
    assert x * B == HHALF(x) * W32 + LHUP(x);
    BorrowWord(h, l, HHALF(x), LHUP(x));
  }

  /** prod += x, in two words with a carry. */
  method AddLow(h: word, l: word, x: word) returns (h': word, l': word)
    ensures h' * W32 + l' == Wrap64(h * W32 + l + x)
  {
    l' := Wrap32(l + x);
    h' := h;
    if l' < x {
      h' := Wrap32(h + 1);
    }
  }

  /** The middle product with its sign. */
  function SignedMid(mid: int, neg: bool): int { if neg then -mid else mid }

  /** uv == (2^2n + 2^n) u1 v1 + 2^n (u1 - u0)(v0 - v1) + (2^n + 1) u0 v0. */
  lemma Karatsuba(u1: int, u0: int, v1: int, v0: int, n: int)
    ensures (u1 * n + u0) * (v1 * n + v0)
            == (u1 * v1) * n * n + (u1 * v1) * n + ((u1 - u0) * (v0 - v1)) * n + (u0 * v0) * n + u0 * v0
  {
    assert (u1 * n + u0) * (v1 * n + v0) == (u1 * v1) * n * n + (u1 * v0) * n + (u0 * v1) * n + u0 * v0 by {
      assert (u1 * n + u0) * (v1 * n + v0) == (u1 * n) * (v1 * n) + (u1 * n) * v0 + u0 * (v1 * n) + u0 * v0;
      assert (u1 * n) * (v1 * n) == (u1 * v1) * n * n;
    }
    assert (u1 - u0) * (v0 - v1) == u1 * v0 - u1 * v1 - u0 * v0 + u0 * v1;
    var mid := (u1 - u0) * (v0 - v1);
    assert mid * n == (u1 * v0) * n - (u1 * v1) * n - (u0 * v0) * n + (u0 * v1) * n;
  }

  lemma SignedProduct(x: word, y: word, z: word, w: word, xy: word, zw: word, neg: bool)
    requires xy == (if x >= y then x - y else y - x) && zw == (if z >= w then z - w else w - z)
    requires neg == ((x < y) != (z < w))
    ensures SignedMid(xy * zw, neg) == (x - y) * (z - w)
  {
  }

  lemma WrapChain(a: int, b: int, c: int, d: int)
    ensures Wrap64(Wrap64(Wrap64(a + b) + c) + d) == Wrap64(a + b + c + d)
  {
  }

  lemma WordProduct(u: word, v: word)
    ensures 0 <= u * v < W64
  {
    MulBounds(u, v, W32);
  }

  /** The three half-size products make the whole one. */
  lemma HalvesMakeProduct(u: word, v: word, udiff: word, vdiff: word, neg: bool, high: word, mid: word, low: word)
    requires var u1, u0, v1, v0 := HHALF(u), LHALF(u), HHALF(v), LHALF(v);
             && low == MulWord(u0, v0) && high == MulWord(u1, v1) && mid == MulWord(udiff, vdiff)
             && udiff == (if u1 >= u0 then u1 - u0 else u0 - u1)
             && vdiff == (if v0 >= v1 then v0 - v1 else v1 - v0)
             && neg == ((u1 < u0) != (v0 < v1))
    ensures high <= (B - 1) * (B - 1)
    ensures Wrap64(high * W32 + high * B + SignedMid(mid, neg) * B + low * B + low) == u * v
  {
    var u1, u0, v1, v0 := HHALF(u), LHALF(u), HHALF(v), LHALF(v);
    HalfProductExact(u0, v0);
    HalfProductExact(u1, v1);
    HalfProductExact(udiff, vdiff);
    MulBounds(u1, v1, B);
    SignedProduct(u1, u0, v0, v1, udiff, vdiff, neg);
    Karatsuba(u1, u0, v1, v0, B);
    WordProduct(u, v);
  }

  /** __lmulq: the exact 64-bit product of two 32-bit numbers. */
  method LMulQ(u: word, v: word) returns (prod: dword)
    ensures prod == u * v
  {
    var u1, u0, v1, v0 := HHALF(u), LHALF(u), HHALF(v), LHALF(v);
    var low := MulWord(u0, v0);
    if u1 == 0 && v1 == 0 {
      HalfProductExact(u0, v0);
      return low;
    }
    var udiff, neg := Difference(u1, u0);
    var vdiff, below := Difference(v0, v1);
    neg := neg != below;
    var mid := MulWord(udiff, vdiff);
    var high := MulWord(u1, v1);
    HalvesMakeProduct(u, v, udiff, vdiff, neg, high, mid, low);
    prod := Assemble(high, mid, neg, low);
  }

  /** (high << 2N) + (high << N) +- (mid << N) + (low << N) + low, in two words. */
  method Assemble(high: word, mid: word, neg: bool, low: word) returns (prod: dword)
    requires high <= (B - 1) * (B - 1)
    ensures prod == Wrap64(high * W32 + high * B + SignedMid(mid, neg) * B + low * B + low)
  {
    var prodh, prodl := Wrap32(high + HHALF(high)), LHUP(high);
    assert prodh * W32 + prodl == high * W32 + high * B;
    if neg {
      prodh, prodl := SubShifted(prodh, prodl, mid);
    } else {
      prodh, prodl := AddShifted(prodh, prodl, mid);
    }
    prodh, prodl := AddShifted(prodh, prodl, low);
    prodh, prodl := AddLow(prodh, prodl, low);
    prod := prodh * W32 + prodl;
    WrapChain(high * W32 + high * B, SignedMid(mid, neg) * B, low * B, low);
  }

  // ---------------------------------------------------------------- __muldi3

  lemma WrapProduct(a: word, b: word)
    ensures (MulWord(a, b) - a * b) % W32 == 0
  {
  }

  /** The upper word only needs high and mid modulo 2^32. */
  lemma UpperWord(high: int, mid: int, highW: word, midW: int, low: dword, h: word)
    requires (highW - high) % W32 == 0 && (midW - mid) % W32 == 0
    requires h == Wrap32(highW + midW + low % W32 + low / W32)
    ensures h * W32 + low % W32 == Wrap64((high + mid) * W32 + low * W32 + low)
  {
    var k := (highW - high) / W32;
    var j := (midW - mid) / W32;
    var x := high + mid + low % W32 + low / W32;
    assert h == Wrap32(x + (k + j) * W32);
    WrapShift(x, k + j);
    assert low * W32 + low == (low % W32) * W32 + (low / W32) * W64 + (low / W32) * W32 + low % W32;
  }

  lemma WrapShift(x: int, k: int)
    ensures Wrap32(x + k * W32) == Wrap32(x)
  {
  }

  /** Multiply two 64-bit magnitudes, keeping the low 64 bits. */
  method MulMagnitudes(u: dword, v: dword) returns (prod: dword)
    ensures prod == Wrap64(u * v)
  {
    var u1: word, u0: word, v1: word, v0: word := u / W32, u % W32, v / W32, v % W32;
    var low := LMulQ(u0, v0);
    if u1 == 0 && v1 == 0 {
      WordProduct(u0, v0);
      return low;
    }
    var udiff, negmid := Difference(u1, u0);
    var vdiff, below := Difference(v0, v1);
    negmid := negmid != below;
    var mid := MulWord(udiff, vdiff);
    var high := MulWord(u1, v1);
    var prodH := Wrap32(high + (if negmid then Wrap32(-(mid as int)) else mid) + low % W32 + low / W32);
    WordsMakeProduct(u1, u0, v1, v0, udiff, vdiff, negmid, mid, high, low, prodH);
    prod := prodH * W32 + low % W32;
  }

  lemma WordsMakeProduct(u1: word, u0: word, v1: word, v0: word, udiff: word, vdiff: word, negmid: bool,
                         mid: word, high: word, low: dword, prodH: word)
    requires udiff == (if u1 >= u0 then u1 - u0 else u0 - u1)
    requires vdiff == (if v0 >= v1 then v0 - v1 else v1 - v0)
    requires negmid == ((u1 < u0) != (v0 < v1))
    requires mid == MulWord(udiff, vdiff) && high == MulWord(u1, v1) && low == u0 * v0
    requires prodH == Wrap32(high + (if negmid then Wrap32(-(mid as int)) else mid) + low % W32 + low / W32)
    ensures prodH * W32 + low % W32 == Wrap64((u1 * W32 + u0) * (v1 * W32 + v0))
  {
    var m := (u1 - u0) * (v0 - v1);
    var midW := if negmid then Wrap32(-(mid as int)) else mid;
    assert (midW - m) % W32 == 0 by {
      SignedProduct(u1, u0, v0, v1, udiff, vdiff, negmid);
      WrapProduct(udiff, vdiff);
      SignedWrap(mid, udiff * vdiff, negmid);
    }
    var top := u1 * v1;
    assert prodH * W32 + low % W32 == Wrap64((top + m) * W32 + low * W32 + low) by {
      WrapProduct(u1, v1);
      UpperWord(top, m, high, midW, low, prodH);
    }
    FoldProduct(u1, u0, v1, v0, top, m, low);
  }

  /** Modulo 2^64 the product only needs high, middle and low as they stand. */
  lemma FoldProduct(u1: int, u0: int, v1: int, v0: int, top: int, m: int, low: int)
    requires top == u1 * v1 && m == (u1 - u0) * (v0 - v1) && low == u0 * v0
    ensures Wrap64((u1 * W32 + u0) * (v1 * W32 + v0)) == Wrap64((top + m) * W32 + low * W32 + low)
  {
    assert (u1 * W32 + u0) * (v1 * W32 + v0) == top * W32 * W32 + top * W32 + m * W32 + low * W32 + low by {
      Karatsuba(u1, u0, v1, v0, W32);
    }
    DropTop(top, m, low);
  }

  lemma SignedWrap(midW: word, mid: int, neg: bool)
    requires (midW - mid) % W32 == 0
    ensures ((if neg then Wrap32(-(midW as int)) else midW) - SignedMid(mid, neg)) % W32 == 0
  {
  }

  lemma DropTop(high: int, m: int, low: int)
    ensures Wrap64(high * W32 * W32 + high * W32 + m * W32 + low * W32 + low) == Wrap64((high + m) * W32 + low * W32 + low)
  {
    assert high * W32 * W32 == high * W64;
    WrapShift64((high + m) * W32 + low * W32 + low, high);
  }

  lemma WrapShift64(x: int, k: int)
    ensures Wrap64(x + k * W64) == Wrap64(x)
  {
  }

  lemma SignOfProduct(a: int, b: int)
    ensures a * b == if (a < 0) != (b < 0) then -(Abs(a) * Abs(b)) else Abs(a) * Abs(b)
  {
  }

  /** The magnitude of a signed number, as an unsigned one. */
  lemma MagnitudeFits(a: sdword)
    ensures (if a >= 0 then Unsigned(a) else Wrap64(-(a as int))) == Abs(a)
  {
  }

  /** The product of the magnitudes with its sign put back. */
  lemma SignBack(a: sdword, b: sdword, u: dword, v: dword, p: dword, neg: bool)
    requires u == Abs(a) && v == Abs(b) && p == Wrap64(u * v) && neg == ((a < 0) != (b < 0))
    ensures Signed(if neg then Wrap64(-(p as int)) else p) == Keep64(a * b)
  {
    var x := u * v;
    assert a * b == if neg then -x else x by { SignOfProduct(a, b); }
    NegateKept(x, p, neg);
  }

  /** __muldi3: the signed product modulo 2^64, for all inputs. */
  method MulDi3(a: sdword, b: sdword) returns (prod: sdword)
    ensures prod == Keep64(a * b)
  {
    var negall := a < 0;
    var u := if a >= 0 then Unsigned(a) else Wrap64(-(a as int));
    var v := if b >= 0 then Unsigned(b) else Wrap64(-(b as int));
    negall := negall != (b < 0);
    MagnitudeFits(a);
    MagnitudeFits(b);
    var p := MulMagnitudes(u, v);
    prod := Signed(if negall then Wrap64(-(p as int)) else p);
    SignBack(a, b, u, v, p, negall);
  }
}
