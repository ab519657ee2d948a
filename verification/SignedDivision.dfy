/** __divdi3 and __moddi3 (common/gcc-millicode/divdi3.c and moddi3.c), the signed
    64-bit quotient and remainder, and the unsigned wrappers __udivdi3 and
    __umoddi3, all over __qdivrem. */
module SignedDivision {
  import opened HalfWords
  import opened TwosComplement
  import opened ProgramD

  /** Section 6.5.5 of ISO/IEC 9899:1999: the quotient truncates toward zero, and
      the remainder makes up the difference with the sign of the dividend. */
  ghost predicate Truncates(a: int, b: int, q: int, r: int) {
    && a == b * q + r
    && Abs(r) < Abs(b)
    && (r != 0 ==> (r < 0) == (a < 0))
  }

  /** The truncated quotient. */
  function TruncQuo(a: int, b: int): int
    requires b != 0
  {
    if (a < 0) != (b < 0) then -(Abs(a) / Abs(b)) else Abs(a) / Abs(b)
  }

  /** The truncated remainder. */
  function TruncRem(a: int, b: int): int
    requires b != 0
  {
    if a < 0 then -(Abs(a) % Abs(b)) else Abs(a) % Abs(b)
  }

  /** TruncQuo and TruncRem meet the standard's description. */
  lemma TruncMeetsStandard(a: int, b: int)
    requires b != 0
    ensures Truncates(a, b, TruncQuo(a, b), TruncRem(a, b))
  {
    var n, d := Abs(a), Abs(b);
    var q, r := n / d, n % d;
    assert n == d * q + r;
    SignedTimes(b, q);
  }

  lemma SignedTimes(b: int, q: int)
    ensures b * q == if b < 0 then -(Abs(b) * q) else Abs(b) * q
    ensures b * (0 - q) == if b < 0 then Abs(b) * q else -(Abs(b) * q)
  {
  }

  lemma Gap(b: int, k: int)
    requires k != 0
    ensures Abs(b * k) >= Abs(b)
  {
    if b >= 0 {
      if k > 0 { assert b * (k - 1) >= 0; } else { assert b * (-k - 1) >= 0; }
    } else {
      if k > 0 { assert -b * (k - 1) >= 0; } else { assert -b * (-k - 1) >= 0; }
    }
  }

  /** Nothing else meets the standard's description. */
  lemma TruncUnique(a: int, b: int, q: int, r: int)
    requires b != 0 && Truncates(a, b, q, r)
    ensures q == TruncQuo(a, b) && r == TruncRem(a, b)
  {
    TruncMeetsStandard(a, b);
    var k := q - TruncQuo(a, b);
    assert b * k == b * q - b * TruncQuo(a, b);
    assert b * k == TruncRem(a, b) - r;
    if k != 0 { Gap(b, k); }
  }

  /** The quotient fits a long long except when the most negative number is divided by -1. */
  lemma QuotientOverflow(a: sdword, b: sdword)
    requires b != 0
    ensures Keep64(TruncQuo(a, b)) == TruncQuo(a, b) <==> !(a == MIN64 && b == -1)
  {
    var n, d := Abs(a), Abs(b);
    KeepExact(TruncQuo(a, b));
    ShrBound(n, d);
    if d >= 2 { QuotientHalves(n, d); }
    if d == 1 { assert n / 1 == n; }
  }

  lemma QuotientHalves(n: nat, d: nat)
    requires d >= 2
    ensures n / d <= n / 2
  {
    var q := n / d;
    assert n == d * q + n % d;
    assert (d - 2) * q >= 0;
  }

  /** A number's magnitude as an unsigned value, and whether it was negated. */
  method Magnitude(a: sdword) returns (ua: dword, neg: bool)
    ensures ua == Abs(a) && neg == (a < 0)
  {
    ua, neg := Unsigned(a), false;
    if a < 0 {
      ua, neg := Wrap64(-(ua as int)), true;
    }
  }

  /** Give an unsigned magnitude its sign back and return it as a long long. */
  method WithSign(u: dword, neg: bool) returns (r: sdword)
    ensures r == Keep64(if neg then 0 - u as int else u)
  {
    NegateKept(u, u, neg);
    r := Signed(if neg then Wrap64(-(u as int)) else u);
  }

  /** __divdi3. */
  method DivDi3(a: sdword, b: sdword) returns (r: Option<sdword>)
    ensures b == 0 ==> r == None
    ensures b != 0 ==> r == Some(Keep64(TruncQuo(a, b)))
  {
    var ua, negA := Magnitude(a);
    var ub, negB := Magnitude(b);
    var d := QDivRem(ua, ub, false);
    if d.DivideByZero? {
      return None;
    }
    var q := WithSign(d.quot, negA != negB);
    return Some(q);
  }

  /** __moddi3. */
  method ModDi3(a: sdword, b: sdword) returns (r: Option<sdword>)
    ensures b == 0 ==> r == None
    ensures b != 0 ==> r == Some(TruncRem(a, b))
  {
    var ua, neg := Magnitude(a);
    var ub, _ := Magnitude(b);
    var d := QDivRem(ua, ub, true);
    if d.DivideByZero? {
      return None;
    }
    RemainderFits(a, b);
    var m := WithSign(d.rem.value, neg);
    return Some(m);
  }

  lemma RemainderFits(a: sdword, b: sdword)
    requires b != 0
    ensures Abs(TruncRem(a, b)) == Abs(a) % Abs(b) < Abs(b) <= -MIN64
    ensures Keep64(TruncRem(a, b)) == TruncRem(a, b)
  {
    KeepExact(TruncRem(a, b));
  }

  /** The kept quotient and the remainder recombine modulo 2^64, overflow included. */
  lemma Recombine(a: sdword, b: sdword)
    requires b != 0
    ensures Keep64(b * Keep64(TruncQuo(a, b)) + TruncRem(a, b)) == a
  {
    TruncMeetsStandard(a, b);
    QuotientOverflow(a, b);
    KeepExact(a);
  }

  /** __udivdi3. */
  method UDivDi3(a: dword, b: dword) returns (r: Option<dword>)
    ensures b == 0 ==> r == None
    ensures b != 0 ==> r == Some(a / b)
  {
    var d := QDivRem(a, b, false);
    r := if d.DivideByZero? then None else Some(d.quot);
  }

  /** __umoddi3. */
  method UModDi3(a: dword, b: dword) returns (r: Option<dword>)
    ensures b == 0 ==> r == None
    ensures b != 0 ==> r == Some(a % b)
  {
    var d := QDivRem(a, b, true);
    r := if d.DivideByZero? then None else d.rem;
  }
}
