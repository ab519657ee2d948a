/** The digit-array steps of __qdivrem (common/gcc-millicode/qdivrem.c): shl, the
    quotient estimate of D3, the multiply-and-subtract of D4, the add-back of D6
    and the final right shift, each exact in 32-bit arithmetic. */
module DigitOps {
  import opened HalfWords
  import opened Radix

  // ---------------------------------------------------------------- shl

  lemma QuotientBound(q: int, s: int, c: int)
    requires 0 <= q < s * c && s > 0 && c > 0
    ensures 0 <= q / c < s
  {
    if q / c >= s { MulMono(s, q / c, c); }
    assert q == c * (q / c) + q % c;
  }

  lemma LowBitsArith(p: int, s: int, c: int)
    requires 0 <= p < B && s > 0 && c > 0 && s * c == B
    ensures 0 <= p * s < B * s
    ensures (p * s) % B == (p % c) * s
    ensures (p % c) * s <= B - s
  {
    var q, r := p / c, p % c;
    assert p * s == (c * q) * s + r * s;
    assert (c * q) * s == (s * c) * q;
    MulMono(0, r, s);
    MulMono(r, c - 1, s);
    assert (c - 1) * s == B - s;
    DivModUnique(p * s, B, q, r * s);
    MulMono(p, B - 1, s);
    MulMono(0, p, s);
  }

  lemma {:induction false} Pow2Mono(a: nat, b: nat)
    requires a < b
    ensures 2 * Pow2(a) <= Pow2(b)
  {
    if a + 1 < b { Pow2Mono(a, b - 1); }
  }

  lemma ShiftFactors(sh: nat)
    requires 0 < sh < 16
    ensures Pow2(sh) * Pow2(16 - sh) == B && Pow2(sh) <= B / 2
  {
    Pow2Sixteen();
    Pow2Sum(sh, 16 - sh);
    Pow2Mono(sh, 16);
  }

  /** The bits LHALF keeps of a digit shifted left. */
  lemma LowBits(p: digit, sh: nat)
    requires 0 < sh < 16
    ensures LHALF(Shl(p, sh)) == (p % Pow2(16 - sh)) * Pow2(sh) <= B - Pow2(sh)
    ensures LHALF(Shl(p, sh)) % Pow2(sh) == 0
  {
    var s, c := Pow2(sh), Pow2(16 - sh);
    var x, low := p * s, (p % c) * s;
    assert 0 <= x < W32 && x % B == low <= B - s by {
      ShiftFactors(sh);
      LowBitsArith(p, s, c);
    }
    assert LHALF(Shl(p, sh)) == low by { WrapSmall(x); }
    assert low % s == 0 by { ModMultiple(s, p % c); }
  }

  /** What shl stores: the low bits of one digit and the high bits of the next. */
  function Merge(p: digit, q: digit, sh: nat): (r: digit)
    requires 0 < sh < 16
  {
    LowBits(p, sh);
    ShiftFactors(sh);
    QuotientBound(q, Pow2(sh), Pow2(16 - sh));
    (p % Pow2(16 - sh)) * Pow2(sh) + q / Pow2(16 - sh)
  }

  /** The code writes it LHALF(p[i] << sh) | (p[i+1] >> (16 - sh)). */
  lemma MergeIsOr(p: digit, q: digit, sh: nat)
    requires 0 < sh < 16
    ensures Merge(p, q, sh) == Or(LHALF(Shl(p, sh)), Shr(q, 16 - sh))
  {
    LowBits(p, sh);
    ShiftFactors(sh);
    QuotientBound(q, Pow2(sh), Pow2(16 - sh));
    OrDisjoint(LHALF(Shl(p, sh)), Shr(q, 16 - sh), sh);
  }

  lemma ShlArith(p: int, c: int, s: int, prev: int, v: int, hi: int)
    requires s > 0 && c > 0 && s * c == B && p >= 0
    requires prev == v * s + p / c
    ensures prev * B + ((p % c) * s + hi) == (v * B + p) * s + hi
  {
    assert p == (p / c) * c + p % c;
    assert ((p / c) * c) * s == (p / c) * B by { assert c * s == B; }
    assert p * s == (p / c) * B + (p % c) * s;
    assert (v * s) * B == (v * B) * s;
  }

  /** After i digits: p[o..o+i] is the old prefix shifted, and the rest is untouched. */
  ghost predicate Shifted(s0: seq<digit>, s: seq<digit>, o: nat, i: nat, sh: nat)
    requires 0 < sh < 16
  {
    && |s| == |s0| && o + i < |s0|
    && (forall k :: 0 <= k < |s| && !(o <= k < o + i) ==> s[k] == s0[k])
    && Val(s[o..o + i]) == Val(s0[o..o + i]) * Pow2(sh) + s0[o + i] / Pow2(16 - sh)
  }

  lemma ShlStart(s0: seq<digit>, o: nat, sh: nat)
    requires o < |s0| && 0 < sh < 16 && s0[o] < Pow2(16 - sh)
    ensures Shifted(s0, s0, o, 0, sh)
  {
    assert s0[o..o] == [];
    DivModUnique(s0[o], Pow2(16 - sh), 0, s0[o]);
  }

  lemma ShlExtend(s0: seq<digit>, s: seq<digit>, o: nat, i: nat, sh: nat, x: digit, hi: int)
    requires 0 < sh < 16 && Shifted(s0, s, o, i, sh)
    requires x == (s0[o + i] % Pow2(16 - sh)) * Pow2(sh) + hi
    ensures var s' := s[o + i := x];
            Val(s'[o..o + i + 1]) == Val(s0[o..o + i + 1]) * Pow2(sh) + hi
  {
    var s' := s[o + i := x];
    assert s'[o..o + i] == s[o..o + i];
    ValLast(s', o, o + i + 1);
    ValLast(s0, o, o + i + 1);
    ShiftFactors(sh);
    ShlArith(s0[o + i], Pow2(16 - sh), Pow2(sh), Val(s[o..o + i]), Val(s0[o..o + i]), hi);
  }

  lemma ShlStep(s0: seq<digit>, s: seq<digit>, o: nat, i: nat, sh: nat)
    requires 0 < sh < 16 && Shifted(s0, s, o, i, sh) && o + i + 1 < |s0|
    ensures Shifted(s0, s[o + i := Merge(s[o + i], s[o + i + 1], sh)], o, i + 1, sh)
  {
    ShlExtend(s0, s, o, i, sh, Merge(s[o + i], s[o + i + 1], sh), s0[o + i + 1] / Pow2(16 - sh));
  }

  lemma ShlEnd(s0: seq<digit>, s: seq<digit>, o: nat, len: nat, sh: nat)
    requires 0 < sh < 16 && Shifted(s0, s, o, len, sh)
    ensures Val(s[o + len := LHALF(Shl(s[o + len], sh))][o..o + len + 1]) == Val(s0[o..o + len + 1]) * Pow2(sh)
  {
    LowBits(s[o + len], sh);
    ShlExtend(s0, s, o, len, sh, LHALF(Shl(s[o + len], sh)), 0);
  }

  /** Shift p[o..o+len] left by sh bits in place; exact when nothing falls out. */
  method ShiftLeft(p: array<digit>, o: nat, len: nat, sh: nat)
    requires o + len < p.Length && 0 < sh < 16
    requires p[o] < Pow2(16 - sh)
    modifies p
    ensures Val(p[..][o..o + len + 1]) == old(Val(p[..][o..o + len + 1])) * Pow2(sh)
    ensures forall k :: 0 <= k < p.Length && !(o <= k <= o + len) ==> p[k] == old(p[k])
  {
    ghost var s0 := p[..];
    ShlStart(s0, o, sh);
    for i := 0 to len
      invariant Shifted(s0, p[..], o, i, sh)
    {
      ghost var s := p[..];
      ShlStep(s0, s, o, i, sh);
      p[o + i] := Merge(p[o + i], p[o + i + 1], sh);
      assert p[..] == s[o + i := Merge(s[o + i], s[o + i + 1], sh)];
    }
    ghost var s := p[..];
    ShlEnd(s0, s, o, len, sh);
    p[o + len] := LHALF(Shl(p[o + len], sh));
    assert p[..] == s[o + len := LHALF(Shl(s[o + len], sh))];
  }

  // ---------------------------------------------------------------- D4 and D5

  lemma ProductBound(a: int, b: int)
    requires 0 <= a < B && 0 <= b < B
    ensures 0 <= a * b <= (B - 1) * (B - 1)
  {
    MulMono(0, a, b);
    MulMono(a, B - 1, b);
    MulMono(b, B - 1, B - 1);
  }

  lemma SplitWrapped(x: int)
    requires -((B - 1) * B) <= x < B
    ensures var w := x % W32;
            var h := (B - w / B) % B;
            w % B - h * B == x
  {
    var f, r := x / B, x % B;
    var w := x % W32;
    if x >= 0 {
      assert w == x;
    } else {
      assert w == x + W32;
      DivModUnique(w, B, f + B, r);
      assert -B < f < 0;
    }
  }

  /** t = u[i+j] - v[i] * qhat - t, in 32 bits. */
  function SubtractWord(ui: digit, vi: digit, qhat: word, t: word): word {
    Wrap32(ui - Wrap32(vi * qhat) - t)
  }

  /** The borrow D4 passes to the next digit. */
  function BorrowOut(w: word): digit { (B - HHALF(w)) % B }

  /** The code writes the borrow as (B - HHALF(t)) & (B - 1). */
  lemma BorrowOutMask(w: word)
    ensures BorrowOut(w) == And(Wrap32(B - HHALF(w)), B - 1)
  {
    Pow2Sixteen();
    AndLowMask(Wrap32(B - HHALF(w)), 16);
  }

  /** v[i] * qhat never overflows, so the word is the difference modulo 2^32. */
  lemma SubtractWordExact(ui: digit, vi: digit, qhat: word, t: digit)
    requires qhat < B
    ensures SubtractWord(ui, vi, qhat, t) == (ui - vi * qhat - t) % W32
    ensures -((B - 1) * B) <= ui - vi * qhat - t < B
  {
    var product := vi * qhat;
    ProductBound(vi, qhat);
    WrapSmall(product);
  }

  /** One digit of D4: the wrapped word splits into a digit and a borrow, exactly. */
  lemma BorrowExact(ui: digit, vi: digit, qhat: word, t: digit)
    requires qhat < B
    ensures var w := SubtractWord(ui, vi, qhat, t);
            LHALF(w) - BorrowOut(w) * B == ui - vi * qhat - t
  {
    SubtractWordExact(ui, vi, qhat, t);
    SplitWrapped(ui - vi * qhat - t);
  }

  lemma SubtractArith(low: int, tNew: int, ui: int, vi: int, qhat: int, t: int, p: int, s: int, s0: int, sv: int)
    requires low - tNew * B == ui - vi * qhat - t
    requires s - t * p == s0 - qhat * sv
    ensures (low * p + s) - tNew * (p * B) == (ui * p + s0) - qhat * (vi * p + sv)
  {
    assert (low - tNew * B) * p == low * p - tNew * (p * B) by { assert (tNew * B) * p == tNew * (p * B); }
    assert (ui - vi * qhat - t) * p == ui * p - qhat * (vi * p) - t * p by { assert (vi * qhat) * p == qhat * (vi * p); }
    assert qhat * (vi * p + sv) == qhat * (vi * p) + qhat * sv;
  }

  /** s is s0 - qhat * v on the same digits, owing a borrow of t at the top. */
  ghost predicate Owes(s: seq<digit>, s0: seq<digit>, v: seq<digit>, qhat: int, t: int) {
    && |s| == |s0| == |v|
    && Val(s) - t * BPow(|s|) == Val(s0) - qhat * Val(v)
  }

  /** Folding one more digit into the multiply-and-subtract invariant. */
  lemma OwesPrepend(s: seq<digit>, s0: seq<digit>, v: seq<digit>, qhat: word, t: digit, ui: digit, vi: digit)
    requires Owes(s, s0, v, qhat, t) && qhat < B
    ensures var w := SubtractWord(ui, vi, qhat, t);
            Owes([LHALF(w)] + s, [ui] + s0, [vi] + v, qhat, BorrowOut(w))
  {
    var w := SubtractWord(ui, vi, qhat, t);
    BorrowExact(ui, vi, qhat, t);
    ValPrepend(LHALF(w), s);
    ValPrepend(ui, s0);
    ValPrepend(vi, v);
    SubtractArith(LHALF(w), BorrowOut(w), ui, vi, qhat, t, BPow(|s|), Val(s), Val(s0), Val(v));
  }

  /** D4 down to digit i: the low digits of u hold u - qhat * v, short by t * B^(n-i). */
  ghost predicate Subtracted(s0: seq<digit>, s: seq<digit>, v: seq<digit>, uj: nat, vo: nat, n: nat, i: nat, qhat: int, t: int) {
    && i <= n && |s| == |s0| && uj + n < |s0| && vo + n < |v|
    && 0 <= t < B
    && (forall k :: 0 <= k < |s| && !(uj + i < k <= uj + n) ==> s[k] == s0[k])
    && Owes(s[uj + i + 1..uj + n + 1], s0[uj + i + 1..uj + n + 1], v[vo + i + 1..vo + n + 1], qhat, t)
  }

  lemma SubtractStep(s0: seq<digit>, s: seq<digit>, v: seq<digit>, uj: nat, vo: nat, n: nat, i: nat, qhat: word, t: digit)
    requires 0 < i && qhat < B && Subtracted(s0, s, v, uj, vo, n, i, qhat, t)
    ensures var w := SubtractWord(s[uj + i], v[vo + i], qhat, t);
            Subtracted(s0, s[uj + i := LHALF(w)], v, uj, vo, n, i - 1, qhat, BorrowOut(w))
  {
    var ui, vi := s[uj + i], v[vo + i];
    var w := SubtractWord(ui, vi, qhat, t);
    var x, borrow := LHALF(w), BorrowOut(w);
    var s' := s[uj + i := x];
    var hi, vhi := uj + n + 1, vo + n + 1;
    assert Owes(s'[uj + i..hi], s0[uj + i..hi], v[vo + i..vhi], qhat, borrow) by {
      OwesPrepend(s[uj + i + 1..hi], s0[uj + i + 1..hi], v[vo + i + 1..vhi], qhat, t, ui, vi);
      assert s'[uj + i..hi] == [x] + s[uj + i + 1..hi];
      assert s0[uj + i..hi] == [ui] + s0[uj + i + 1..hi];
      assert v[vo + i..vhi] == [vi] + v[vo + i + 1..vhi];
    }
  }

  lemma LastDigit(u: digit, t: digit)
    ensures var w := Wrap32(u - t);
            && HHALF(w) == (if u < t then B - 1 else 0)
            && LHALF(w) == u - t + (if u < t then B else 0)
  {
    var w := Wrap32(u - t);
    if u < t {
      DivModUnique(w, B, B - 1, u - t + B);
    }
  }

  lemma LastFold(low: int, u: int, t: int, b: int, p: int, s: int)
    requires low == u - t + b
    ensures low * p + s == u * p + (s - t * p) + b * p
  {
  }

  /** What D4 leaves: s is s0 with qhat * v[1..n] taken from the window u[j..j+n],
      plus B^(n+1) when t reports a borrow past the window. */
  ghost predicate SubtractedAll(s0: seq<digit>, s: seq<digit>, v: seq<digit>, uj: nat, vo: nat, n: nat, qhat: int, t: word) {
    && |s| == |s0| && uj + n < |s0| && vo + n < |v|
    && (forall k :: 0 <= k < |s| && !(uj <= k <= uj + n) ==> s[k] == s0[k])
    && Val(s[uj..uj + n + 1]) == Val(s0[uj..uj + n + 1]) - qhat * Val(v[vo + 1..vo + n + 1])
         + (if HHALF(t) != 0 then BPow(n + 1) else 0)
  }

  lemma OwesLast(s: seq<digit>, s0: seq<digit>, v: seq<digit>, qhat: int, t: digit, u: digit)
    requires Owes(s, s0, v, qhat, t)
    ensures var w := Wrap32(u - t);
            Val([LHALF(w)] + s) == Val([u] + s0) - qhat * Val(v) + (if HHALF(w) != 0 then BPow(|s| + 1) else 0)
  {
    var w := Wrap32(u - t);
    ValPrepend(LHALF(w), s);
    ValPrepend(u, s0);
    LastDigit(u, t);
    var p := BPow(|s|);
    if u < t {
      LastFold(LHALF(w), u, t, B, p, Val(s));
      assert BPow(|s| + 1) == B * p;
    } else {
      LastFold(LHALF(w), u, t, 0, p, Val(s));
    }
  }

  lemma SubtractLast(s0: seq<digit>, s: seq<digit>, v: seq<digit>, uj: nat, vo: nat, n: nat, qhat: int, t: digit)
    requires Subtracted(s0, s, v, uj, vo, n, 0, qhat, t)
    ensures var w := Wrap32(s[uj] - t);
            SubtractedAll(s0, s[uj := LHALF(w)], v, uj, vo, n, qhat, w)
  {
    var w := Wrap32(s[uj] - t);
    var hi := uj + n + 1;
    OwesLast(s[uj + 1..hi], s0[uj + 1..hi], v[vo + 1..vo + n + 1], qhat, t, s[uj]);
    assert s[uj := LHALF(w)][uj..hi] == [LHALF(w)] + s[uj + 1..hi];
    assert s0[uj..hi] == [s[uj]] + s0[uj + 1..hi];
  }

  lemma SubtractStart(s0: seq<digit>, v: seq<digit>, uj: nat, vo: nat, n: nat, qhat: int)
    requires uj + n < |s0| && vo + n < |v|
    ensures Subtracted(s0, s0, v, uj, vo, n, n, qhat, 0)
  {
    assert s0[uj + n + 1..uj + n + 1] == [] == v[vo + n + 1..vo + n + 1];
  }

  /** A turn of D4's loop. */
  method SubtractDigit(u: array<digit>, uj: nat, v: array<digit>, vo: nat, n: nat, i: nat, qhat: word, t0: word, ghost s0: seq<digit>)
    returns (t: word)
    requires u != v && 0 < i && qhat < B && Subtracted(s0, u[..], v[..], uj, vo, n, i, qhat, t0)
    modifies u
    ensures v[..] == old(v[..]) && Subtracted(s0, u[..], v[..], uj, vo, n, i - 1, qhat, t)
  {
    ghost var s := u[..];
    SubtractStep(s0, s, v[..], uj, vo, n, i, qhat, t0);
    t := SubtractWord(u[i + uj], v[i + vo], qhat, t0);
    u[i + uj] := LHALF(t);
    assert u[..] == s[uj + i := LHALF(t)];
    t := BorrowOut(t);
  }

  /** D4: subtract qhat * v[1..n] from u[j..j+n] in place. The upper half of the
      result tells whether the subtraction borrowed past u[j]. */
  method MultiplySubtract(u: array<digit>, uj: nat, v: array<digit>, vo: nat, n: nat, qhat: word) returns (t: word)
    requires u != v && uj + n < u.Length && vo + n < v.Length && qhat < B
    modifies u
    ensures SubtractedAll(old(u[..]), u[..], old(v[..]), uj, vo, n, qhat, t)
  {
    ghost var s0, vs := u[..], v[..];
    var i := n;
    t := 0;
    SubtractStart(s0, vs, uj, vo, n, qhat);
    while i > 0
      invariant 0 <= i <= n && v[..] == vs
      invariant Subtracted(s0, u[..], vs, uj, vo, n, i, qhat, t)
    {
      t := SubtractDigit(u, uj, v, vo, n, i, qhat, t, s0);
      i := i - 1;
    }
    ghost var s := u[..];
    SubtractLast(s0, s, vs, uj, vo, n, qhat, t);
    t := Wrap32(u[uj] - t);
    u[uj] := LHALF(t);
    assert u[..] == s[uj := LHALF(t)];
  }

  // ---------------------------------------------------------------- D6

  /** t += u[i+j] + v[i]. */
  function AddWord(t: word, ui: digit, vi: digit): word { Wrap32(t as int + ui as int + vi as int) }

  /** One digit of D6: the sum splits into a digit and a carry, exactly. */
  lemma CarryExact(t: word, ui: digit, vi: digit)
    requires 0 <= t <= 1
    ensures var w := AddWord(t, ui, vi);
            && LHALF(w) + HHALF(w) * B == t + ui + vi
            && HHALF(w) <= 1
  {
  }

  lemma CarryArith(low: int, tNew: int, ui: int, vi: int, t: int, p: int, s: int, s0: int, sv: int)
    requires low + tNew * B == t + ui + vi
    requires s + t * p == s0 + sv
    ensures (low * p + s) + tNew * (p * B) == (ui * p + s0) + (vi * p + sv)
  {
    assert (low + tNew * B) * p == low * p + tNew * (p * B) by { assert (tNew * B) * p == tNew * (p * B); }
    assert (t + ui + vi) * p == t * p + ui * p + vi * p;
  }

  /** s is s0 + v on the same digits, with a carry of t out of the top. */
  ghost predicate Carries(s: seq<digit>, s0: seq<digit>, v: seq<digit>, t: int) {
    && |s| == |s0| == |v|
    && Val(s) + t * BPow(|s|) == Val(s0) + Val(v)
  }

  lemma CarriesPrepend(s: seq<digit>, s0: seq<digit>, v: seq<digit>, t: word, ui: digit, vi: digit)
    requires Carries(s, s0, v, t) && 0 <= t <= 1
    ensures var w := AddWord(t, ui, vi);
            Carries([LHALF(w)] + s, [ui] + s0, [vi] + v, HHALF(w))
  {
    var w := AddWord(t, ui, vi);
    CarryExact(t, ui, vi);
    ValPrepend(LHALF(w), s);
    ValPrepend(ui, s0);
    ValPrepend(vi, v);
    CarryArith(LHALF(w), HHALF(w), ui, vi, t, BPow(|s|), Val(s), Val(s0), Val(v));
  }

  ghost predicate Added(s0: seq<digit>, s: seq<digit>, v: seq<digit>, uj: nat, vo: nat, n: nat, i: nat, t: int) {
    && i <= n && |s| == |s0| && uj + n < |s0| && vo + n < |v|
    && 0 <= t <= 1
    && (forall k :: 0 <= k < |s| && !(uj + i < k <= uj + n) ==> s[k] == s0[k])
    && Carries(s[uj + i + 1..uj + n + 1], s0[uj + i + 1..uj + n + 1], v[vo + i + 1..vo + n + 1], t)
  }

  lemma AddStart(s0: seq<digit>, v: seq<digit>, uj: nat, vo: nat, n: nat)
    requires uj + n < |s0| && vo + n < |v|
    ensures Added(s0, s0, v, uj, vo, n, n, 0)
  {
    assert s0[uj + n + 1..uj + n + 1] == [] == v[vo + n + 1..vo + n + 1];
  }

  lemma AddStep(s0: seq<digit>, s: seq<digit>, v: seq<digit>, uj: nat, vo: nat, n: nat, i: nat, t: word)
    requires 0 < i && Added(s0, s, v, uj, vo, n, i, t)
    ensures var w := AddWord(t, s[uj + i], v[vo + i]);
            Added(s0, s[uj + i := LHALF(w)], v, uj, vo, n, i - 1, HHALF(w))
  {
    var ui, vi := s[uj + i], v[vo + i];
    var w := AddWord(t, ui, vi);
    var x, carry := LHALF(w), HHALF(w);
    var s' := s[uj + i := x];
    var hi, vhi := uj + n + 1, vo + n + 1;
    assert 0 <= carry <= 1 by { CarryExact(t, ui, vi); }
    assert Carries(s'[uj + i..hi], s0[uj + i..hi], v[vo + i..vhi], carry) by {
      CarriesPrepend(s[uj + i + 1..hi], s0[uj + i + 1..hi], v[vo + i + 1..vhi], t, ui, vi);
      assert s'[uj + i..hi] == [x] + s[uj + i + 1..hi];
      assert s0[uj + i..hi] == [ui] + s0[uj + i + 1..hi];
      assert v[vo + i..vhi] == [vi] + v[vo + i + 1..vhi];
    }
  }

  /** What D6 leaves: the window u[j..j+n] with v[1..n] added, modulo B^(n+1). */
  ghost predicate AddedAll(s0: seq<digit>, s: seq<digit>, v: seq<digit>, uj: nat, vo: nat, n: nat) {
    && |s| == |s0| && uj + n < |s0| && vo + n < |v|
    && (forall k :: 0 <= k < |s| && !(uj <= k <= uj + n) ==> s[k] == s0[k])
    && var sum := Val(s0[uj..uj + n + 1]) + Val(v[vo + 1..vo + n + 1]);
       Val(s[uj..uj + n + 1]) == if sum < BPow(n + 1) then sum else sum - BPow(n + 1)
  }

  lemma CarryOutArith(x: int, u: digit, t: int, p: int, sv: int, s0v: int, vv: int)
    requires 0 <= t <= 1 && sv + t * p == s0v + vv
    requires 0 <= sv < p && 0 <= s0v < p && 0 <= vv < p
    requires x == (u + t) % B
    ensures var sum := (u * p + s0v) + vv;
            x * p + sv == if sum < B * p then sum else sum - B * p
  {
    assert (u + t) * p == u * p + t * p;
    if u + t < B {
      assert (u + t) % B == u + t;
      MulMono(u + t, B - 1, p);
      assert (B - 1) * p == B * p - p;
    } else {
      assert u + t == B;
    }
  }

  lemma CarryOut(s: seq<digit>, s0: seq<digit>, v: seq<digit>, t: int, u: digit, x: digit)
    requires Carries(s, s0, v, t) && 0 <= t <= 1 && x == (u as int + t) % B
    ensures var sum := Val([u] + s0) + Val(v);
            Val([x] + s) == if sum < BPow(|s| + 1) then sum else sum - BPow(|s| + 1)
  {
    var p := BPow(|s|);
    ValPrepend(x, s);
    ValPrepend(u, s0);
    ValBound(s);
    ValBound(s0);
    ValBound(v);
    CarryOutArith(x, u, t, p, Val(s), Val(s0), Val(v));
    assert BPow(|s| + 1) == p * B;
  }

  lemma AddLast(s0: seq<digit>, s: seq<digit>, v: seq<digit>, uj: nat, vo: nat, n: nat, t: int)
    requires Added(s0, s, v, uj, vo, n, 0, t)
    ensures AddedAll(s0, s[uj := LHALF(Wrap32(s[uj] + t))], v, uj, vo, n)
  {
    var x := LHALF(Wrap32(s[uj] + t));
    var hi := uj + n + 1;
    CarryOut(s[uj + 1..hi], s0[uj + 1..hi], v[vo + 1..vo + n + 1], t, s[uj], x);
    assert s[uj := x][uj..hi] == [x] + s[uj + 1..hi];
    assert s0[uj..hi] == [s[uj]] + s0[uj + 1..hi];
  }

  /** A turn of D6's loop. */
  method AddDigit(u: array<digit>, uj: nat, v: array<digit>, vo: nat, n: nat, i: nat, t0: word, ghost s0: seq<digit>) returns (t: word)
    requires u != v && 0 < i && Added(s0, u[..], v[..], uj, vo, n, i, t0)
    modifies u
    ensures v[..] == old(v[..]) && Added(s0, u[..], v[..], uj, vo, n, i - 1, t)
  {
    ghost var s := u[..];
    AddStep(s0, s, v[..], uj, vo, n, i, t0);
    t := AddWord(t0, u[i + uj], v[i + vo]);
    u[i + uj] := LHALF(t);
    assert u[..] == s[uj + i := LHALF(t)];
    t := HHALF(t);
  }

  /** D6: add v[1..n] back to u[j..j+n] in place, dropping the carry. */
  method AddBack(u: array<digit>, uj: nat, v: array<digit>, vo: nat, n: nat)
    requires u != v && uj + n < u.Length && vo + n < v.Length
    modifies u
    ensures AddedAll(old(u[..]), u[..], old(v[..]), uj, vo, n)
  {
    ghost var s0, vs := u[..], v[..];
    var t: word, i := 0, n;
    AddStart(s0, vs, uj, vo, n);
    while i > 0
      invariant 0 <= i <= n && v[..] == vs
      invariant Added(s0, u[..], vs, uj, vo, n, i, t)
    {
      t := AddDigit(u, uj, v, vo, n, i, t, s0);
      i := i - 1;
    }
    ghost var s := u[..];
    AddLast(s0, s, vs, uj, vo, n, t);
    u[uj] := LHALF(Wrap32(u[uj] + t));
    assert u[..] == s[uj := LHALF(Wrap32(s[uj] + t))];
  }

  // ---------------------------------------------------------------- D3

  lemma AtMostQuotient(q: int, x: int, d: int)
    requires d > 0
    ensures q <= x / d <==> q * d <= x
  {
    var k := x / d;
    assert x == d * k + x % d;
    if q <= k { MulMono(q, k, d); } else { MulMono(k + 1, q, d); assert (k + 1) * d == k * d + d; }
  }

  /** The first three digits of the window divided by the first two of the
      divisor, and never more than B - 1. */
  ghost function TrialDigit(u3: nat, v2: nat): nat
    requires v2 > 0
  {
    if u3 / v2 < B then u3 / v2 else B - 1
  }

  lemma TrialBound(q: int, u3: nat, v2: nat)
    requires v2 > 0 && 0 <= q
    ensures q <= TrialDigit(u3, v2) <==> q < B && q * v2 <= u3
  {
    AtMostQuotient(q, u3, v2);
  }

  /** With rhat the matching remainder, the loop test of D3 compares qhat with the trial digit. */
  lemma TestExact(qhat: int, rhat: int, v1: int, v2: int, nn: int, uj2: int)
    requires qhat * v1 + rhat == nn
    ensures v2 * qhat > rhat * B + uj2 <==> qhat * (v1 * B + v2) > nn * B + uj2
  {
    assert qhat * (v1 * B + v2) == (qhat * v1) * B + v2 * qhat;
  }

  lemma RemainderTooBig(qhat: int, rhat: int, v1: int, v2: digit, nn: int, uj2: digit)
    requires qhat * v1 + rhat == nn && 0 <= qhat < B && rhat >= B
    ensures qhat * (v1 * B + v2) <= nn * B + uj2
  {
    ProductBound(qhat, v2);
    assert qhat * (v1 * B + v2) == (qhat * v1) * B + qhat * v2;
  }

  lemma FirstEstimate(uj0: digit, uj1: digit, uj2: digit, v1: digit, v2: digit)
    requires uj0 < v1
    ensures var nn := uj0 * B + uj1;
            && nn / v1 < B && nn % v1 < B
            && (nn / v1) * v1 + nn % v1 == nn
            && TrialDigit(nn * B + uj2, v1 * B + v2) <= nn / v1
  {
    var nn := uj0 * B + uj1;
    var q := nn / v1;
    assert nn == v1 * q + nn % v1;
    MulMono(uj0, v1 - 1, B);
    AtMostQuotient(B, nn, v1);
    AtMostQuotient(q + 1, nn, v1);
    AboveTrial(q + 1, nn, v1, v2, uj2);
  }

  lemma AboveTrial(q: int, nn: int, v1: int, v2: int, uj2: int)
    requires 0 <= q && nn >= 0 && v1 > 0 && v2 >= 0 && 0 <= uj2 < B
    requires q * v1 > nn
    ensures q > TrialDigit(nn * B + uj2, v1 * B + v2)
  {
    TrialBound(q, nn * B + uj2, v1 * B + v2);
    assert q * (v1 * B + v2) == (q * v1) * B + q * v2;
    MulMono(0, q, v2);
  }

  /** D3's running state: qhat and rhat match, and qhat is not below the trial digit. */
  ghost predicate Estimating(uj0: digit, uj1: digit, uj2: digit, v1: digit, v2: digit, qhat: int, rhat: int)
    requires v1 > 0
  {
    && qhat * v1 + rhat == uj0 * B + uj1
    && 0 <= rhat
    && TrialDigit((uj0 * B + uj1) * B + uj2, v1 * B + v2) <= qhat <= B
  }

  /** v2 * qhat > COMBINE(rhat, u[j+2]), in 32 bits. */
  predicate TooBig(v2: digit, qhat: word, rhat: word, uj2: digit) {
    Wrap32(v2 * qhat) > COMBINE(rhat, uj2)
  }

  lemma TestTrial(qhat: int, rhat: int, v1: int, v2: int, nn: int, uj2: int)
    requires qhat * v1 + rhat == nn && 0 <= qhat < B
    requires v1 > 0 && v2 >= 0 && nn >= 0 && uj2 >= 0
    ensures v2 * qhat > rhat * B + uj2 <==> qhat > TrialDigit(nn * B + uj2, v1 * B + v2)
  {
    TestExact(qhat, rhat, v1, v2, nn, uj2);
    TrialBound(qhat, nn * B + uj2, v1 * B + v2);
  }

  /** The 32-bit comparison is the mathematical one. */
  lemma TooBigExact(uj0: digit, uj1: digit, uj2: digit, v1: digit, v2: digit, qhat: word, rhat: word)
    requires v1 > 0 && qhat < B && rhat < B && Estimating(uj0, uj1, uj2, v1, v2, qhat, rhat)
    ensures TooBig(v2, qhat, rhat, uj2) <==> qhat > TrialDigit((uj0 * B + uj1) * B + uj2, v1 * B + v2)
  {
    var product := v2 * qhat;
    assert Wrap32(product) == product by {
      ProductBound(v2, qhat);
      WrapSmall(product);
    }
    assert COMBINE(rhat, uj2) == rhat * B + uj2;
    TestTrial(qhat, rhat, v1, v2, uj0 * B + uj1, uj2);
  }

  lemma Decrement(uj0: digit, uj1: digit, uj2: digit, v1: digit, v2: digit, qhat: int, rhat: int)
    requires v1 > 0 && Estimating(uj0, uj1, uj2, v1, v2, qhat, rhat)
    requires qhat > TrialDigit((uj0 * B + uj1) * B + uj2, v1 * B + v2)
    ensures Estimating(uj0, uj1, uj2, v1, v2, qhat - 1, rhat + v1)
    ensures rhat + v1 >= B ==> qhat - 1 == TrialDigit((uj0 * B + uj1) * B + uj2, v1 * B + v2)
  {
    assert (qhat - 1) * v1 + (rhat + v1) == qhat * v1 + rhat;
    if rhat + v1 >= B {
      RemainderTooBig(qhat - 1, rhat + v1, v1, v2, uj0 * B + uj1, uj2);
      TrialBound(qhat - 1, (uj0 * B + uj1) * B + uj2, v1 * B + v2);
    }
  }

  /** The first estimate and its remainder start the running state. */
  lemma EstimateStart(uj0: digit, uj1: digit, uj2: digit, v1: digit, v2: digit, nn: word)
    requires uj0 < v1 && nn == COMBINE(uj0, uj1)
    ensures nn / v1 < B && nn % v1 < B
    ensures Estimating(uj0, uj1, uj2, v1, v2, nn / v1, nn % v1)
  {
    assert nn == uj0 * B + uj1;
    FirstEstimate(uj0, uj1, uj2, v1, v2);
  }

  /** D3: the estimate of the next quotient digit. */
  method EstimateDigit(uj0: digit, uj1: digit, uj2: digit, v1: digit, v2: digit) returns (qhat: word)
    requires uj0 <= v1 && v1 > 0
    ensures qhat == TrialDigit((uj0 * B + uj1) * B + uj2, v1 * B + v2)
  {
    var rhat: word;
    var tooBig: bool;
    ghost var target := TrialDigit((uj0 * B + uj1) * B + uj2, v1 * B + v2);
    if uj0 == v1 {
      qhat := B;
      rhat := uj1;
      tooBig := true;
    } else {
      var nn := COMBINE(uj0, uj1);
      EstimateStart(uj0, uj1, uj2, v1, v2, nn);
      ShrBound(nn, v1);
      qhat := nn / v1;
      rhat := nn % v1;
      TooBigExact(uj0, uj1, uj2, v1, v2, qhat, rhat);
      tooBig := TooBig(v2, qhat, rhat, uj2);
    }
    while tooBig
      invariant Estimating(uj0, uj1, uj2, v1, v2, qhat, rhat) && rhat < B
      invariant tooBig <==> qhat > target
      decreases qhat
    {
      Decrement(uj0, uj1, uj2, v1, v2, qhat, rhat);
      qhat := qhat - 1;
      rhat := rhat + v1;
      if rhat >= B {
        break;
      }
      TooBigExact(uj0, uj1, uj2, v1, v2, qhat, rhat);
      tooBig := TooBig(v2, qhat, rhat, uj2);
    }
  }

  // ---------------------------------------------------------------- denormalise

  /** What the remainder loop stores: high bits of u[i] below low bits of u[i-1]. */
  function MergeRight(p: digit, q: digit, sh: nat): (r: digit)
    requires 0 < sh < 16
  {
    ShiftFactors(sh);
    QuotientBound(p, Pow2(16 - sh), Pow2(sh));
    LowBitsArith(q, Pow2(16 - sh), Pow2(sh));
    p / Pow2(sh) + (q % Pow2(sh)) * Pow2(16 - sh)
  }

  /** The code writes it (u[i] >> d) | LHALF(u[i-1] << (16 - d)). */
  lemma MergeRightIsOr(p: digit, q: digit, sh: nat)
    requires 0 < sh < 16
    ensures MergeRight(p, q, sh) == Or(Shr(p, sh), LHALF(Shl(q, 16 - sh)))
  {
    ShiftFactors(sh);
    LowBits(q, 16 - sh);
    QuotientBound(p, Pow2(16 - sh), Pow2(sh));
    OrDisjoint(LHALF(Shl(q, 16 - sh)), Shr(p, sh), 16 - sh);
    OrCommutes(LHALF(Shl(q, 16 - sh)), Shr(p, sh));
  }

  lemma {:induction false} OrCommutes(a: nat, b: nat)
    ensures Or(a, b) == Or(b, a)
  {
    if a != 0 && b != 0 { OrCommutes(a / 2, b / 2); }
  }

  lemma ShrArith(x: int, p: int, q: int, s: int, c: int, w: int, vNew: int, vOld: int, r: int)
    requires s > 0 && c > 0 && s * c == B
    requires x == p / s + (q % s) * c
    requires vOld + (p % s) * w == vNew * s + r
    ensures (p * w + vOld) + (q % s) * (w * B) == (x * w + vNew) * s + r
  {
    assert p == (p / s) * s + p % s;
    assert x * s == (p / s) * s + (q % s) * B by { assert ((q % s) * c) * s == (q % s) * (s * c); }
    assert x * s == p - p % s + (q % s) * B;
    assert (x * w) * s == (x * s) * w;
    assert (x * s) * w == p * w - (p % s) * w + ((q % s) * B) * w;
    assert ((q % s) * B) * w == (q % s) * (w * B);
  }

  /** The digits from i+1 on are shifted right; r bits fell out at the end. */
  ghost predicate ShiftedRight(s0: seq<digit>, s: seq<digit>, lo: nat, hi: nat, i: nat, sh: nat, r: int)
    requires 0 < sh < 16
  {
    && |s| == |s0| && lo <= i < hi <= |s|
    && (forall k :: 0 <= k < |s| && !(i < k < hi) ==> s[k] == s0[k])
    && Val(s0[i + 1..hi]) + (s0[i] % Pow2(sh)) * BPow(hi - i - 1) == Val(s[i + 1..hi]) * Pow2(sh) + r
  }

  lemma ShrStart(s0: seq<digit>, lo: nat, hi: nat, sh: nat)
    requires 0 < sh < 16 && lo < hi <= |s0|
    ensures ShiftedRight(s0, s0, lo, hi, hi - 1, sh, s0[hi - 1] % Pow2(sh))
  {
    assert s0[hi..hi] == [];
  }

  lemma ShrStep(s0: seq<digit>, s: seq<digit>, lo: nat, hi: nat, i: nat, sh: nat, r: int)
    requires 0 < sh < 16 && lo < i && ShiftedRight(s0, s, lo, hi, i, sh, r)
    ensures ShiftedRight(s0, s[i := MergeRight(s[i], s[i - 1], sh)], lo, hi, i - 1, sh, r)
  {
    var x := MergeRight(s[i], s[i - 1], sh);
    var s' := s[i := x];
    assert s'[i + 1..hi] == s[i + 1..hi];
    ValFirst(s0, i, hi);
    ValFirst(s', i, hi);
    ShiftFactors(sh);
    ShrArith(x, s0[i], s0[i - 1], Pow2(sh), Pow2(16 - sh), BPow(hi - i - 1), Val(s[i + 1..hi]), Val(s0[i + 1..hi]), r);
  }

  lemma ZeroFirst(w: seq<digit>, rest: seq<digit>)
    requires w == [0] + rest
    ensures Val(w) == Val(rest)
  {
    ValPrepend(0, rest);
  }

  lemma ZeroTerm(x: digit, p: int, q: int)
    requires x == 0 && p > 0
    ensures (x % p) * q == 0
  {
  }

  lemma DropRemainder(x: int, p: int, q: int, r: int)
    requires x == q * p + r && 0 <= r < p
    ensures x / p == q
  {
    DivModUnique(x, p, q, r);
  }

  lemma ShrEnd(s0: seq<digit>, s: seq<digit>, lo: nat, hi: nat, sh: nat, r: int)
    requires 0 < sh < 16 && ShiftedRight(s0, s, lo, hi, lo, sh, r) && s0[lo] == 0 && 0 <= r < Pow2(sh)
    ensures Val(s[lo := 0][lo..hi]) == Val(s0[lo..hi]) / Pow2(sh)
  {
    var s' := s[lo := 0];
    var tail := Val(s[lo + 1..hi]);
    var p := Pow2(sh);
    assert Val(s'[lo..hi]) == tail by {
      assert s'[lo + 1..hi] == s[lo + 1..hi];
      assert s'[lo..hi] == [0] + s[lo + 1..hi];
      ZeroFirst(s'[lo..hi], s[lo + 1..hi]);
    }
    assert Val(s0[lo..hi]) == Val(s0[lo + 1..hi]) by {
      assert s0[lo..hi] == [0] + s0[lo + 1..hi];
      ZeroFirst(s0[lo..hi], s0[lo + 1..hi]);
    }
    assert Val(s0[lo + 1..hi]) == tail * p + r by {
      ZeroTerm(s0[lo], p, BPow(hi - lo - 1));
    }
    DropRemainder(Val(s0[lo..hi]), p, tail, r);
  }

  /** Shift u[lo..hi) right by sh bits in place, when the leading digit is zero. */
  method ShiftRight(u: array<digit>, lo: nat, hi: nat, sh: nat)
    requires lo < hi <= u.Length && 0 < sh < 16 && u[lo] == 0
    modifies u
    ensures u[lo] == 0 && Val(u[..][lo..hi]) == old(Val(u[..][lo..hi])) / Pow2(sh)
    ensures forall k :: 0 <= k < u.Length && !(lo <= k < hi) ==> u[k] == old(u[k])
  {
    ghost var s0 := u[..];
    ghost var r := s0[hi - 1] % Pow2(sh);
    ShrStart(s0, lo, hi, sh);
    var i := hi - 1;
    while i > lo
      invariant lo <= i < hi
      invariant ShiftedRight(s0, u[..], lo, hi, i, sh, r)
    {
      ghost var s := u[..];
      ShrStep(s0, s, lo, hi, i, sh, r);
      u[i] := MergeRight(u[i], u[i - 1], sh);
      assert u[..] == s[i := MergeRight(s[i], s[i - 1], sh)];
      i := i - 1;
    }
    ghost var s := u[..];
    ShrEnd(s0, s, lo, hi, sh, r);
    u[i] := 0;
    assert u[..] == s[lo := 0];
  }
}
