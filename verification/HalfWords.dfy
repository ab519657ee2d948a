/** The machine arithmetic of common/gcc-millicode/longlong.h: 32-bit unsigned
    words, 16-bit halves ("digits"), and the shift, mask and combine macros. */
module HalfWords {

  const B: int := 0x1_0000
  const W32: int := 0x1_0000_0000
  const W64: int := 0x1_0000_0000_0000_0000

  type digit = x: int | 0 <= x < 0x1_0000
  type word = x: int | 0 <= x < 0x1_0000_0000
  type dword = x: int | 0 <= x < 0x1_0000_0000_0000_0000

  /** The value an unsigned int keeps of a mathematical integer. */
  function Wrap32(x: int): word { x % W32 }

  /** The value an unsigned long long keeps of a mathematical integer. */
  function Wrap64(x: int): dword { x % W64 }

  lemma WrapSmall(x: int)
    requires 0 <= x < W32
    ensures Wrap32(x) == x
  {
  }

  function Pow2(k: nat): (p: int)
    ensures p > 0
  {
    if k == 0 then 1 else 2 * Pow2(k - 1)
  }

  /** Bitwise or, bit by bit from the least significant end. */
  function Or(a: nat, b: nat): nat {
    if a == 0 then b
    else if b == 0 then a
    else 2 * Or(a / 2, b / 2) + (if a % 2 == 1 || b % 2 == 1 then 1 else 0)
  }

  /** Bitwise and, bit by bit from the least significant end. */
  function And(a: nat, b: nat): nat {
    if a == 0 || b == 0 then 0
    else 2 * And(a / 2, b / 2) + (if a % 2 == 1 && b % 2 == 1 then 1 else 0)
  }

  function Shl(x: word, k: nat): word { Wrap32(x * Pow2(k)) }

  function Shr(x: word, k: nat): word {
    ShrBound(x, Pow2(k));
    x / Pow2(k)
  }

  lemma ShrBound(x: nat, p: int)
    requires p > 0
    ensures 0 <= x / p <= x
  {
    var q := x / p;
    assert q >= 0 ==> q * p >= q;
  }

  /** Or-ing a value below 2^k into one whose low k bits are clear is addition. */
  lemma {:induction false} OrDisjoint(a: nat, b: nat, k: nat)
    requires a % Pow2(k) == 0 && b < Pow2(k)
    ensures Or(a, b) == a + b
    decreases k
  {
    if a != 0 && b != 0 {
      var p := Pow2(k - 1);
      var c := a / Pow2(k);
      assert a == p * (2 * c) by { assert a == Pow2(k) * c; }
      assert a / 2 == p * c && a % 2 == 0;
      ModMultiple(p, c);
      OrDisjoint(a / 2, b / 2, k - 1);
    }
  }

  lemma ModMultiple(p: int, c: int)
    requires p > 0
    ensures (p * c) % p == 0 && (p * c) / p == c
  {
    DivModUnique(p * c, p, c, 0);
  }

  /** Quotient and remainder are unique. */
  lemma DivModUnique(x: int, d: int, q: int, r: int)
    requires d > 0 && x == d * q + r && 0 <= r < d
    ensures x / d == q && x % d == r
  {
    var q' := x / d;
    assert x == d * q' + x % d;
    assert d * (q - q') == x % d - r;
    assert q - q' >= 1 ==> d * (q - q') >= d;
    assert q - q' <= -1 ==> d * (q - q') <= -d;
  }

  /** The quotient, by repeated subtraction. */
  ghost function Quo(u: nat, v: nat): nat
    requires v > 0
  {
    if u < v then 0 else 1 + Quo(u - v, v)
  }

  /** The remainder, by repeated subtraction. */
  ghost function Rem(u: nat, v: nat): nat
    requires v > 0
  {
    if u < v then u else Rem(u - v, v)
  }

  lemma {:induction false} QuoRemIsDivMod(u: nat, v: nat)
    requires v > 0
    ensures Quo(u, v) == u / v && Rem(u, v) == u % v
  {
    if u < v {
      DivModUnique(u, v, 0, u);
    } else {
      QuoRemIsDivMod(u - v, v);
      var q := (u - v) / v;
      assert u - v == v * q + (u - v) % v;
      assert v * (q + 1) == v * q + v;
      DivModUnique(u, v, q + 1, (u - v) % v);
    }
  }

  lemma QuoRemUnique(u: nat, v: nat, q: int, r: int)
    requires v > 0 && u == q * v + r && 0 <= r < v
    ensures Quo(u, v) == q && Rem(u, v) == r
  {
    QuoRemIsDivMod(u, v);
    DivModUnique(u, v, q, r);
  }

  /** x shifted left by d bits, by doubling. */
  ghost function Scaled(x: nat, d: nat): nat {
    if d == 0 then x else 2 * Scaled(x, d - 1)
  }

  lemma {:induction false} ScaledIsProduct(x: nat, d: nat)
    ensures Scaled(x, d) == x * Pow2(d)
  {
    if d > 0 {
      ScaledIsProduct(x, d - 1);
      assert x * (2 * Pow2(d - 1)) == 2 * (x * Pow2(d - 1));
    }
  }

  lemma ModDouble(x: nat, p: int)
    requires p > 0
    ensures x % (2 * p) == 2 * ((x / 2) % p) + x % 2
  {
    var q, r := (x / 2) / p, (x / 2) % p;
    assert x / 2 == p * q + r;
    assert 2 * (p * q) == (2 * p) * q;
    DivModUnique(x, 2 * p, q, 2 * r + x % 2);
  }

  /** Masking with 2^k - 1 keeps the remainder modulo 2^k. */
  lemma {:induction false} AndLowMask(x: nat, k: nat)
    ensures And(x, Pow2(k) - 1) == x % Pow2(k)
    decreases k
  {
    if k > 0 {
      var p := Pow2(k - 1);
      AndLowMask(x / 2, k - 1);
      ModDouble(x, p);
      var mask := 2 * p - 1;
      assert mask / 2 == p - 1 && mask % 2 == 1;
    }
  }

  lemma Pow2Sixteen()
    ensures Pow2(16) == B
  {
    assert Pow2(8) == 256;
    Pow2Sum(8, 8);
  }

  lemma {:induction false} Pow2Sum(a: nat, b: nat)
    ensures Pow2(a + b) == Pow2(a) * Pow2(b)
  {
    if a > 0 {
      Pow2Sum(a - 1, b);
      assert 2 * (Pow2(a - 1) * Pow2(b)) == (2 * Pow2(a - 1)) * Pow2(b);
    }
  }

  /** HHALF(x): the upper half of a word. */
  function HHALF(x: word): digit { x / B }

  /** LHALF(x): the lower half of a word. */
  function LHALF(x: word): digit { x % B }

  /** LHUP(x): the lower half moved to the upper half. */
  function LHUP(x: word): word { (x % B) * B }

  /** COMBINE(a, b): two digits as one word. */
  function COMBINE(a: word, b: digit): word { (a % B) * B + b }

  /** The macros' own bit expressions: x >> 16, x & (2^16 - 1), x << 16 and
      (a << 16) | b, all in 32 bits. */
  lemma HalfMacros(x: word, b: digit)
    ensures HHALF(x) == Shr(x, 16)
    ensures LHALF(x) == And(x, B - 1)
    ensures LHUP(x) == Shl(x, 16)
    ensures COMBINE(x, b) == Or(Shl(x, 16), b)
  {
    Pow2Sixteen();
    AndLowMask(x, 16);
    assert x * B == (x % B) * B + (x / B) * W32;
    DivModUnique(x * B, W32, x / B, (x % B) * B);
    ModMultiple(B, x % B);
    OrDisjoint(LHUP(x), b, 16);
  }
}
