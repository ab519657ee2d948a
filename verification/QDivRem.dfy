/** __qdivrem of common/gcc-millicode/qdivrem.c: 64-bit unsigned division by
    Program D of section 4.3.1 of The Art of Computer Programming, volume 2. */
module ProgramD {
  import opened HalfWords
  import opened Radix
  import opened DigitOps

  // ---------------------------------------------------------------- the quotient digit

  /** The two bounds that make one add-back enough. */
  lemma QhatBounds(w: nat, v: nat, u3: nat, v2: nat, p: nat, ru: nat, rv: nat)
    requires p > 0 && w == u3 * p + ru && ru < p && v == v2 * p + rv && rv < p
    requires v2 >= B && w < v * B
    ensures var qhat := TrialDigit(u3, v2);
            (qhat - 1) * v <= w < (qhat + 1) * v
  {
    var qhat := TrialDigit(u3, v2);
    TrialBound(qhat, u3, v2);
    TrialBound(qhat + 1, u3, v2);
    QhatLow(w, v, u3, v2, p, ru, rv, qhat);
    QhatHigh(w, v, u3, v2, p, ru, rv, qhat);
  }

  lemma QhatLow(w: nat, v: nat, u3: nat, v2: nat, p: nat, ru: nat, rv: nat, qhat: nat)
    requires p > 0 && w == u3 * p + ru && v == v2 * p + rv && rv < p
    requires v2 >= B && qhat < B && qhat * v2 <= u3
    ensures (qhat - 1) * v <= w
  {
    assert qhat * v == (qhat * v2) * p + qhat * rv;
    MulMono(qhat * v2, u3, p);
    MulMono(rv, p, qhat);
    MulMono(qhat, v2, p);
    assert p * qhat == qhat * p;
    assert (qhat - 1) * v == qhat * v - v;
  }

  lemma QhatHigh(w: nat, v: nat, u3: nat, v2: nat, p: nat, ru: nat, rv: nat, qhat: nat)
    requires p > 0 && w == u3 * p + ru && ru < p && v == v2 * p + rv
    requires w < v * B && qhat <= B - 1 && (qhat + 1 < B ==> (qhat + 1) * v2 > u3)
    ensures w < (qhat + 1) * v
  {
    if qhat + 1 < B {
      assert (qhat + 1) * v == ((qhat + 1) * v2) * p + (qhat + 1) * rv;
      MulMono(u3 + 1, (qhat + 1) * v2, p);
      assert (u3 + 1) * p == u3 * p + p;
    } else {
      assert qhat + 1 == B;
    }
  }

  lemma Val2(s: seq<digit>, lo: nat)
    requires lo + 2 <= |s|
    ensures Val(s[lo..lo + 2]) == s[lo] * B + s[lo + 1]
  {
    ValLast(s, lo, lo + 2);
    ValLast(s, lo, lo + 1);
    assert s[lo..lo] == [];
  }

  lemma Val3(s: seq<digit>, lo: nat)
    requires lo + 3 <= |s|
    ensures Val(s[lo..lo + 3]) == (s[lo] * B + s[lo + 1]) * B + s[lo + 2]
  {
    ValLast(s, lo, lo + 3);
    Val2(s, lo);
  }

  /** What one turn of the main loop needs: a normalised divisor of n >= 2 digits
      and a window whose first n digits are below it. */
  ghost predicate WindowReady(u: seq<digit>, uj: nat, v: seq<digit>, vo: nat, n: nat) {
    && 2 <= n && uj + n < |u| && vo + n < |v|
    && v[vo + 1] >= B / 2
    && Val(u[uj..uj + n]) < Val(v[vo + 1..vo + n + 1])
  }

  lemma TopDigits(u: seq<digit>, uj: nat, v: seq<digit>, vo: nat, n: nat)
    requires WindowReady(u, uj, v, vo, n)
    ensures u[uj] <= v[vo + 1]
  {
    var p := BPow(n - 1);
    ValFirst(u, uj, uj + n);
    ValFirst(v, vo + 1, vo + n + 1);
    ValBound(v[vo + 2..vo + n + 1]);
    assert (v[vo + 1] + 1) * p == v[vo + 1] * p + p;
    if u[uj] > v[vo + 1] { MulMono(v[vo + 1] + 1, u[uj], p); }
  }

  lemma BelowNextPower(u: seq<digit>, uj: nat, n: nat, v: nat)
    requires uj + n < |u| && Val(u[uj..uj + n]) < v
    ensures Val(u[uj..uj + n + 1]) < v * B
  {
    ValLast(u, uj, uj + n + 1);
  }

  lemma EstimateBounds(u: seq<digit>, uj: nat, v: seq<digit>, vo: nat, n: nat)
    requires WindowReady(u, uj, v, vo, n)
    ensures var qhat := TrialDigit((u[uj] * B + u[uj + 1]) * B + u[uj + 2], v[vo + 1] * B + v[vo + 2]);
            var divisor := Val(v[vo + 1..vo + n + 1]);
            (qhat - 1) * divisor <= Val(u[uj..uj + n + 1]) < (qhat + 1) * divisor
  {
    var hi, vhi := uj + n + 1, vo + n + 1;
    BelowNextPower(u, uj, n, Val(v[vo + 1..vhi]));
    ValCut(u, uj, uj + 3, hi);
    ValCut(v, vo + 1, vo + 3, vhi);
    Val3(u, uj);
    Val2(v, vo + 1);
    ValBound(u[uj + 3..hi]);
    ValBound(v[vo + 3..vhi]);
    QhatBounds(Val(u[uj..hi]), Val(v[vo + 1..vhi]), Val(u[uj..uj + 3]), Val(v[vo + 1..vo + 3]), BPow(n - 2),
               Val(u[uj + 3..hi]), Val(v[vo + 3..vhi]));
  }

  lemma QuotientBetween(w: nat, v: nat, q: int)
    requires v > 0 && (q - 1) * v <= w < (q + 1) * v
    ensures w / v <= q <= w / v + 1
  {
    AtMostQuotient(q - 1, w, v);
    AtMostQuotient(q + 1, w, v);
  }

  /** The estimate of D3 is the true digit or one more, and always a digit. */
  lemma EstimateWithinOne(u: seq<digit>, uj: nat, v: seq<digit>, vo: nat, n: nat)
    requires WindowReady(u, uj, v, vo, n)
    ensures var qhat := TrialDigit((u[uj] * B + u[uj + 1]) * B + u[uj + 2], v[vo + 1] * B + v[vo + 2]);
            var trueDigit := Val(u[uj..uj + n + 1]) / Val(v[vo + 1..vo + n + 1]);
            trueDigit <= qhat <= trueDigit + 1 && qhat < B
  {
    var qhat := TrialDigit((u[uj] * B + u[uj + 1]) * B + u[uj + 2], v[vo + 1] * B + v[vo + 2]);
    EstimateBounds(u, uj, v, vo, n);
    QuotientBetween(Val(u[uj..uj + n + 1]), Val(v[vo + 1..vo + n + 1]), qhat);
  }

  /** The window after one turn: the quotient digit times the divisor is gone. */
  ghost predicate Divided1(u0: seq<digit>, u: seq<digit>, uj: nat, v: seq<digit>, vo: nat, n: nat, q: digit) {
    && |u| == |u0| && uj + n < |u0| && vo + n < |v|
    && (forall k :: 0 <= k < |u| && !(uj <= k <= uj + n) ==> u[k] == u0[k])
    && Val(u[uj..uj + n + 1]) == Val(u0[uj..uj + n + 1]) - q * Val(v[vo + 1..vo + n + 1])
    && Val(u[uj..uj + n + 1]) < Val(v[vo + 1..vo + n + 1])
  }

  /** D5: whether D4 borrowed tells whether qhat was one too large. */
  lemma BorrowMeansTooLarge(w: int, v: int, qhat: int, b: int, w1: int, borrowed: bool)
    requires 0 <= w1 < b && w1 == w - qhat * v + (if borrowed then b else 0)
    requires (qhat - 1) * v <= w < (qhat + 1) * v && 0 <= v < b
    ensures !borrowed ==> 0 <= w - qhat * v < v
    ensures borrowed ==> qhat > 0 || w < 0
    ensures borrowed ==> w1 + v >= b && w1 + v - b == w - (qhat - 1) * v < v
  {
    assert (qhat - 1) * v == qhat * v - v;
    assert (qhat + 1) * v == qhat * v + v;
  }

  lemma AfterSubtract(u0: seq<digit>, u1: seq<digit>, uj: nat, v: seq<digit>, vo: nat, n: nat, qhat: digit, t: word)
    requires WindowReady(u0, uj, v, vo, n) && SubtractedAll(u0, u1, v, uj, vo, n, qhat, t)
    requires qhat == TrialDigit((u0[uj] * B + u0[uj + 1]) * B + u0[uj + 2], v[vo + 1] * B + v[vo + 2])
    ensures HHALF(t) == 0 ==> Divided1(u0, u1, uj, v, vo, n, qhat)
    ensures HHALF(t) != 0 ==> qhat > 0
    ensures HHALF(t) != 0 ==>
              forall u2 | AddedAll(u1, u2, v, uj, vo, n) :: Divided1(u0, u2, uj, v, vo, n, qhat - 1)
  {
    var hi := uj + n + 1;
    var divisor := Val(v[vo + 1..vo + n + 1]);
    EstimateBounds(u0, uj, v, vo, n);
    ValBound(u1[uj..hi]);
    ValBound(v[vo + 1..vo + n + 1]);
    assert BPow(n) <= BPow(n + 1);
    BorrowMeansTooLarge(Val(u0[uj..hi]), divisor, qhat, BPow(n + 1), Val(u1[uj..hi]), HHALF(t) != 0);
    if HHALF(t) != 0 {
      forall u2 | AddedAll(u1, u2, v, uj, vo, n)
        ensures Divided1(u0, u2, uj, v, vo, n, qhat - 1)
      {
        assert Val(u2[uj..hi]) == Val(u1[uj..hi]) + divisor - BPow(n + 1);
      }
    }
  }

  /** D3 to D6: one quotient digit, with the window reduced in place. */
  method DivideStep(u: array<digit>, uj: nat, v: array<digit>, vo: nat, n: nat) returns (q: digit)
    requires u != v && WindowReady(u[..], uj, v[..], vo, n)
    modifies u
    ensures Divided1(old(u[..]), u[..], uj, v[..], vo, n, q)
  {
    ghost var u0, vs := u[..], v[..];
    TopDigits(u0, uj, vs, vo, n);
    var qhat := EstimateDigit(u[uj], u[uj + 1], u[uj + 2], v[vo + 1], v[vo + 2]);
    var t := MultiplySubtract(u, uj, v, vo, n, qhat);
    ghost var u1 := u[..];
    assert v[..] == vs;
    AfterSubtract(u0, u1, uj, vs, vo, n, qhat, t);
    if HHALF(t) != 0 {
      qhat := qhat - 1;
      AddBack(u, uj, v, vo, n);
      assert v[..] == vs;
    }
    q := qhat;
  }

  // ---------------------------------------------------------------- the main loop

  /** D7's invariant. `total` is the normalised dividend and `divisor` the normalised
      divisor; j quotient digits are stored and the digits before u[j] are zero. */
  ghost predicate Dividing(total: nat, divisor: nat, u: seq<digit>, q: seq<digit>, uo: nat, qo: nat, m: nat, n: nat, j: nat) {
    && |u| == 5 && |q| == 5 && uo + m + n == 4 && qo + m == 4 && j <= m + 1
    && (forall k :: 0 <= k < uo + j ==> u[k] == 0)
    && Val(u[uo + j..uo + j + n]) < divisor
    && total == (Val(q[..qo + j]) * divisor) * BPow(m + 1 - j) + Val(u[uo + j..5])
  }

  /** The value left of a step: the window, then the digits below it. */
  lemma StepArith(q0: nat, q: nat, d: nat, p: nat, w0: nat, w: int, rest: nat)
    requires w == w0 - q * d
    ensures (q0 * d) * (p * B) + (w0 * p + rest) == ((q0 * B + q) * d) * p + (w * p + rest)
  {
    assert ((q0 * B + q) * d) * p == (q0 * d) * (p * B) + (q * d) * p by {
      assert (q0 * B + q) * d == (q0 * d) * B + q * d;
      assert ((q0 * d) * B + q * d) * p == ((q0 * d) * B) * p + (q * d) * p;
      assert ((q0 * d) * B) * p == (q0 * d) * (p * B);
    }
    assert w * p == w0 * p - (q * d) * p;
  }

  /** One turn keeps total == quotient * divisor * B^k + what is left. */
  lemma StepTotal(u0: seq<digit>, u: seq<digit>, q: seq<digit>, d: nat, lo: nat, mid: nat, qj: digit)
    requires |u0| == |u| == 5 && lo <= mid <= 5 && u[mid..5] == u0[mid..5]
    requires Val(u[lo..mid]) == Val(u0[lo..mid]) - qj * d
    ensures (Val(q) * d) * BPow(5 - mid + 1) + Val(u0[lo..5])
            == (Val(q + [qj]) * d) * BPow(5 - mid) + Val(u[lo..5])
  {
    var p := BPow(5 - mid);
    ValAppend(q, qj);
    ValCut(u0, lo, mid, 5);
    ValCut(u, lo, mid, 5);
    StepArith(Val(q), qj, d, p, Val(u0[lo..mid]), Val(u[lo..mid]), Val(u[mid..5]));
    assert BPow(5 - mid + 1) == p * B;
  }

  lemma DividingStep(total: nat, u0: seq<digit>, u: seq<digit>, v: seq<digit>, q: seq<digit>, vo: nat, uo: nat, qo: nat, m: nat, n: nat, j: nat, qj: digit)
    requires 2 <= n && vo + n == 4 && |v| == 5 && j <= m
    requires Dividing(total, Val(v[vo + 1..5]), u0, q, uo, qo, m, n, j)
    requires Divided1(u0, u, uo + j, v, vo, n, qj)
    ensures Dividing(total, Val(v[vo + 1..5]), u, q[qo + j := qj], uo, qo, m, n, j + 1)
  {
    var lo, hi, d := uo + j, uo + j + n + 1, Val(v[vo + 1..5]);
    assert total == (Val(q[qo + j := qj][..qo + j + 1]) * d) * BPow(m - j) + Val(u[lo..5]) by {
      assert u[hi..5] == u0[hi..5];
      assert q[qo + j := qj][..qo + j + 1] == q[..qo + j] + [qj];
      StepTotal(u0, u, q[..qo + j], d, lo, hi, qj);
    }
    assert Val(u[lo..hi]) < BPow(hi - lo - 1) by { ValBound(v[vo + 1..5]); }
    LeadingZero(u, lo, hi);
    assert Val(u[lo..5]) == Val(u[lo + 1..5]) by { ZeroSkip(u, lo, 5); }
  }

  lemma ZeroSkip(u: seq<digit>, lo: nat, hi: nat)
    requires lo < hi <= |u| && u[lo] == 0
    ensures Val(u[lo..hi]) == Val(u[lo + 1..hi])
  {
    ValFirst(u, lo, hi);
  }

  /** D2 and D7: all quotient digits, leaving the normalised remainder in u. */
  method DivideDigits(u: array<digit>, uo: nat, v: array<digit>, vo: nat, q: array<digit>, qo: nat, m: nat, n: nat, ghost total: nat)
    requires u != v && u != q && v != q && v.Length == 5 && vo + n == 4
    requires 2 <= n && v[vo + 1] >= B / 2
    requires Dividing(total, Val(v[..][vo + 1..5]), u[..], q[..], uo, qo, m, n, 0)
    modifies u, q
    ensures Dividing(total, Val(old(v[..])[vo + 1..5]), u[..], q[..], uo, qo, m, n, m + 1)
    ensures forall k :: 0 <= k < qo ==> q[k] == old(q[k])
  {
    ghost var vs := v[..];
    var j := 0;
    while true
      invariant j <= m && v[..] == vs
      invariant forall k :: 0 <= k < qo ==> q[k] == old(q[k])
      invariant Dividing(total, Val(vs[vo + 1..5]), u[..], q[..], uo, qo, m, n, j)
      decreases m - j
    {
      ghost var u0, q0 := u[..], q[..];
      var qj := DivideStep(u, uo + j, v, vo, n);
      assert v[..] == vs && q[..] == q0;
      DividingStep(total, u0, u[..], vs, q0, vo, uo, qo, m, n, j, qj);
      q[qo + j] := qj;
      assert q[..] == q0[qo + j := qj];
      j := j + 1;
      if j > m {
        break;
      }
    }
  }

  // ---------------------------------------------------------------- words and digits

  datatype Option<T> = None | Some(value: T)

  /** The trap on a zero divisor, or the quotient and the remainder if asked for. */
  datatype DivResult = DivideByZero | Quotient(quot: dword, rem: Option<dword>)

  /** The union's halves: tmp.ui[H] and tmp.ui[L]. */
  function High(x: dword): word { x / W32 }
  function Low(x: dword): word { x % W32 }
  function Join(h: word, l: word): dword { h * W32 + l }

  lemma Val4(s: seq<digit>)
    requires |s| == 5
    ensures Val(s[1..5]) == ((s[1] * B + s[2]) * B + s[3]) * B + s[4]
  {
    ValLast(s, 1, 5);
    Val3(s, 1);
  }

  lemma JoinIsVal(s: seq<digit>)
    requires |s| == 5
    ensures Join(COMBINE(s[1], s[2]), COMBINE(s[3], s[4])) == Val(s[1..5])
  {
    Val4(s);
  }

  /** Break a 64-bit number into digits 1 to 4 of an array; digit 0 is left alone. */
  method LoadDigits(a: array<digit>, x: dword)
    requires a.Length == 5
    modifies a
    ensures a[0] == old(a[0]) && Val(a[..][1..5]) == x
  {
    a[1] := HHALF(High(x));
    a[2] := LHALF(High(x));
    a[3] := HHALF(Low(x));
    a[4] := LHALF(Low(x));
    Val4(a[..]);
  }

  // ---------------------------------------------------------------- one-digit divisors

  lemma ShortArith(done: nat, qs: nat, r: nat, u: digit, t: digit, x: nat)
    requires r < t && done == qs * t + r && x == r * B + u
    ensures x < B * t && 0 <= x / t < B
    ensures done * B + u == (qs * B + x / t) * t + x % t
  {
    var k := x / t;
    assert x == t * k + x % t;
    MulMono(r, t - 1, B);
    QuotientBound(x, B, t);
    assert (qs * B + k) * t == (qs * t) * B + t * k;
  }

  /** One step of exercise 16: r * B + u divided by a digit t, when r is what is
      left of the digits before u. */
  lemma ShortStep(r: word, u: digit, t: digit, done: nat)
    requires t > 0 && r == Rem(done, t)
    ensures r < t
    ensures var x := COMBINE(r, u);
            && 0 <= x / t < B && 0 <= x % t < t
            && Quo(done * B + u, t) == Quo(done, t) * B + x / t
            && Rem(done * B + u, t) == x % t
  {
    QuoRemIsDivMod(done, t);
    var qs := Quo(done, t);
    assert done == qs * t + r;
    var x := COMBINE(r, u);
    ShortArith(done, qs, r, u, t, x);
    QuoRemUnique(done * B + u, t, qs * B + x / t, x % t);
  }

  /** rbj = COMBINE(r, u); q = (digit)(rbj / t); the next r is rbj % t. */
  method ShortDigit(r: word, u: digit, t: digit, ghost done: nat) returns (q: digit, r': word)
    requires t > 0 && r == Rem(done, t)
    ensures Quo(done * B + u, t) == Quo(done, t) * B + q
    ensures r' == Rem(done * B + u, t)
  {
    ShortStep(r, u, t, done);
    var rbj := COMBINE(r, u);
    q := rbj / t;
    r' := rbj % t;
  }

  lemma JoinDigits(q1: digit, q2: digit, q3: digit, q4: digit)
    ensures Join(COMBINE(q1, q2), COMBINE(q3, q4)) == ((q1 * B + q2) * B + q3) * B + q4
  {
  }

  /** n == 1: the unrolled short division. */
  method ShortDivide(u: array<digit>, t: digit) returns (quot: dword, rem: dword)
    requires u.Length == 5 && t > 0
    ensures quot == Quo(Val(u[..][1..5]), t) && rem == Rem(Val(u[..][1..5]), t)
  {
    ghost var n1 := u[1] as int;
    ghost var n2 := n1 * B + u[2];
    ghost var n3 := n2 * B + u[3];
    Val4(u[..]);
    var q1, q2, q3, q4, r;
    q1, r := ShortDigit(0, u[1], t, 0);
    q2, r := ShortDigit(r, u[2], t, n1);
    q3, r := ShortDigit(r, u[3], t, n2);
    q4, r := ShortDigit(r, u[4], t, n3);
    JoinDigits(q1, q2, q3, q4);
    assert Quo(n1, t) == q1 && Quo(n2, t) == q1 * B + q2 && Quo(n3, t) == (q1 * B + q2) * B + q3;
    quot, rem := Join(COMBINE(q1, q2), COMBINE(q3, q4)), r;
  }

  // ---------------------------------------------------------------- normalisation

  lemma DoubleShift(v1: digit, d: nat, t: word)
    requires t == v1 * Pow2(d) && t < B / 2
    ensures Shl(t, 1) == 2 * t == v1 * Pow2(d + 1)
  {
    assert v1 * (2 * Pow2(d)) == 2 * (v1 * Pow2(d));
    assert Pow2(1) == 2;
  }

  lemma ShiftCountBound(v1: digit, d: nat)
    requires v1 > 0 && v1 * Pow2(d) < B
    ensures d < 16
  {
    MulMono(1, v1, Pow2(d));
    Pow2Sixteen();
    if d > 16 { Pow2Mono(16, d); }
  }

  /** D1: the number of bits that brings the leading digit to B/2 or more. */
  method ShiftCount(v1: digit) returns (d: nat)
    requires v1 > 0
    ensures d < 16 && B / 2 <= v1 * Pow2(d) < B
  {
    d := 0;
    var t: word := v1;
    while t < B / 2
      invariant t == v1 * Pow2(d) && 0 < t < B
      decreases B - t
    {
      DoubleShift(v1, d, t);
      t := Shl(t, 1);
      d := d + 1;
    }
    ShiftCountBound(v1, d);
  }

  /** D1's digit v1 * 2^d fits, so nothing falls out of the divisor. */
  lemma FitsLeft(v1: digit, d: nat)
    requires 0 < d < 16 && v1 * Pow2(d) < B
    ensures v1 < Pow2(16 - d)
  {
    ShiftFactors(d);
    if v1 >= Pow2(16 - d) { MulMono(Pow2(16 - d), v1, Pow2(d)); }
  }

  lemma DivisorNormal(v0: seq<digit>, v: seq<digit>, vo: nat, n: nat, s: nat)
    requires |v0| == |v| == 5 && vo + n == 4 && n >= 1
    requires v0[vo + 1] * s >= B / 2
    requires Val(v[vo + 1..5]) == Val(v0[vo + 1..5]) * s
    ensures v[vo + 1] >= B / 2
  {
    var p := BPow(n - 1);
    assert Val(v0[vo + 1..5]) >= v0[vo + 1] * p by { ValFirst(v0, vo + 1, 5); }
    ScaledLeading(v0[vo + 1], Val(v0[vo + 1..5]), p, s);
    LeadingAtLeast(v, vo + 1, 5, B / 2);
  }

  lemma ScaledLeading(d: int, x: int, p: int, s: int)
    requires x >= d * p && d * s >= B / 2 && p > 0 && s >= 0
    ensures x * s >= (B / 2) * p
  {
    MulMono(d * p, x, s);
    assert (d * p) * s == (d * s) * p;
    MulMono(B / 2, d * s, p);
  }

  lemma PrefixBound(prefix: nat, rest: nat, p: nat, x: nat, y: nat, s: nat)
    requires p > 0 && prefix * p + rest == x * s && x < y * p && s > 0
    ensures prefix < y * s
  {
    MulMono(x + 1, y * p, s);
    assert (x + 1) * s == x * s + s;
    assert (y * s) * p == (y * p) * s;
    if prefix >= y * s { MulMono(y * s, prefix, p); }
  }

  /** The dividend's first n digits are below the normalised divisor. */
  lemma DividendNormal(u0: seq<digit>, u: seq<digit>, v: seq<digit>, uo: nat, vo: nat, m: nat, n: nat, s: nat)
    requires |u0| == |u| == |v| == 5 && uo + m + n == 4 && vo + n == 4 && n >= 1
    requires u0[uo] == 0 && 0 < s <= B / 2
    requires Val(u[uo..5]) == Val(u0[uo..5]) * s && v[vo + 1] >= B / 2
    ensures Val(u[uo..uo + n]) < Val(v[vo + 1..5])
  {
    var p := BPow(n - 1);
    ZeroSkip(u0, uo, 5);
    ValBound(u0[uo + 1..5]);
    BPowAdd(n - 1, m + 1);
    ValCut(u, uo, uo + n, 5);
    PrefixBound(Val(u[uo..uo + n]), Val(u[uo + n..5]), BPow(m + 1), Val(u0[uo..5]), p, s);
    ValFirst(v, vo + 1, 5);
    MulMono(s, v[vo + 1], p);
    assert p * s == s * p;
  }

  /** D1: shift both numbers left in place. */
  method Normalise(u: array<digit>, uo: nat, v: array<digit>, vo: nat, m: nat, n: nat) returns (d: nat)
    requires u != v && u.Length == v.Length == 5 && uo + m + n == 4 && vo + n == 4 && n >= 2
    requires u[uo] == 0 && v[vo + 1] > 0
    modifies u, v
    ensures d < 16 && v[vo + 1] >= B / 2
    ensures Val(v[..][vo + 1..5]) == Scaled(old(Val(v[..][vo + 1..5])), d)
    ensures Val(u[..][uo..5]) == Scaled(old(Val(u[..][uo..5])), d)
    ensures Val(u[..][uo..uo + n]) < Val(v[..][vo + 1..5])
    ensures forall k :: 0 <= k < uo ==> u[k] == old(u[k])
  {
    ghost var u0, v0 := u[..], v[..];
    d := ShiftCount(v[vo + 1]);
    if d > 0 {
      FitsLeft(v[vo + 1], d);
      ShiftLeft(u, uo, m + n, d);
      ghost var u1 := u[..];
      ShiftLeft(v, vo + 1, n - 1, d);
      assert u[..] == u1;
      ShiftFactors(d);
    }
    ScaledIsProduct(Val(u0[uo..5]), d);
    ScaledIsProduct(Val(v0[vo + 1..5]), d);
    DivisorNormal(v0, v[..], vo, n, Pow2(d));
    DividendNormal(u0, u[..], v[..], uo, vo, m, n, Pow2(d));
  }

  // ---------------------------------------------------------------- __qdivrem

  /** The dividend has as many digits as the divisor, so m never goes negative. */
  lemma DividendLongEnough(u: seq<digit>, v: seq<digit>, uo: nat, vo: nat, m: nat, n: nat)
    requires |u| == |v| == 5 && uo + m + n == 4 && vo + n == 4 && n >= 1
    requires forall k :: 0 <= k <= uo ==> u[k] == 0
    requires v[vo + 1] > 0 && Val(u[1..5]) >= Val(v[vo + 1..5])
    ensures u[uo + 1] == 0 ==> m > 0
  {
    LeadingNonzero(v, vo + 1, 5);
    SkipZeros(u, 1, uo + 1, 5);
    if u[uo + 1] == 0 && m == 0 {
      ZeroSkip(u, uo + 1, 5);
      ValBound(u[uo + 2..5]);
    }
  }

  lemma FinalArith(ull: nat, vll: nat, s: nat, q: nat, r: nat)
    requires s > 0 && vll > 0 && ull * s == q * (vll * s) + r && r < vll * s
    ensures Quo(ull, vll) == q && Rem(ull, vll) * s == r
  {
    var x := ull - q * vll;
    assert q * (vll * s) == (q * vll) * s;
    assert x * s == r;
    if x < 0 { MulMono(x, -1, s); }
    if x >= vll { MulMono(vll, x, s); }
    QuoRemUnique(ull, vll, q, x);
  }

  /** After D7 the arrays hold the answer: all of q, and the remainder shifted left by d. */
  lemma FinalValues(ull: nat, vll: nat, d: nat, u: seq<digit>, q: seq<digit>, uo: nat, qo: nat, m: nat, n: nat)
    requires vll > 0 && n >= 1 && qo >= 1
    requires Dividing(Scaled(ull, d), Scaled(vll, d), u, q, uo, qo, m, n, m + 1)
    ensures forall k :: 0 <= k <= uo + m ==> u[k] == 0
    ensures Val(q) == Quo(ull, vll) && Val(u[uo + m..5]) == Scaled(Rem(ull, vll), d)
  {
    assert q[..qo + m + 1] == q;
    assert BPow(0) == 1;
    ZeroSkip(u, uo + m, 5);
    ScaledIsProduct(ull, d);
    ScaledIsProduct(vll, d);
    FinalArith(ull, vll, Pow2(d), Val(q), Val(u[uo + m..5]));
    ScaledIsProduct(Rem(ull, vll), d);
  }

  lemma DividingStart(total: nat, divisor: nat, u: seq<digit>, q: seq<digit>, uo: nat, qo: nat, m: nat, n: nat)
    requires |u| == 5 && |q| == 5 && uo + m + n == 4 && qo + m == 4
    requires forall k :: 0 <= k < uo ==> u[k] == 0
    requires forall k :: 0 <= k < qo ==> q[k] == 0
    requires Val(u[uo..5]) == total && Val(u[uo..uo + n]) < divisor
    ensures Dividing(total, divisor, u, q, uo, qo, m, n, 0)
  {
    ValZeros(q[..qo]);
  }

  /** Program D proper, for a divisor of n >= 2 digits in v[vo+1..5). */
  method LongDivide(u: array<digit>, v: array<digit>, vo: nat, n0: nat, ghost ull: dword, ghost vll: dword, wantRem: bool)
    returns (quot: dword, rem: Option<dword>)
    requires u != v && u.Length == v.Length == 5 && vo + n0 == 4 && n0 >= 2
    requires u[0] == 0 && Val(u[..][1..5]) == ull
    requires v[vo + 1] > 0 && Val(v[..][vo + 1..5]) == vll && vll <= ull
    modifies u, v
    ensures vll > 0 && quot == Quo(ull, vll)
    ensures rem == if wantRem then Some(Rem(ull, vll)) else None
  {
    ghost var us, vs := u[..], v[..];
    var n := n0;
    var q := new digit[5];
    var m, uo := 4 - n, 0;
    LeadingNonzero(vs, vo + 1, 5);
    while true
      invariant 0 <= m && uo + m + n == 4
      invariant u[..] == us && v[..] == vs
      invariant forall k :: 0 <= k <= uo ==> us[k] == 0
      decreases m
    {
      DividendLongEnough(us, vs, uo, vo, m, n);
      if u[uo + 1] != 0 {
        break;
      }
      m, uo := m - 1, uo + 1;
    }
    SkipZeros(us, 1, uo + 1, 5);
    ZeroSkip(us, uo, 5);
    var i := 3 - m;
    while i >= 0
      invariant -1 <= i <= 3 - m
      invariant u[..] == us && v[..] == vs
      invariant forall k :: i < k <= 3 - m ==> q[k] == 0
    {
      q[i] := 0;
      i := i - 1;
    }
    quot, rem := FinishDivide(u, uo, v, vo, q, 4 - m, m, n, ull, vll, wantRem);
  }

  method FinishDivide(u: array<digit>, uo: nat, v: array<digit>, vo: nat, q: array<digit>, qo: nat, m: nat, n: nat,
                      ghost ull: dword, ghost vll: dword, wantRem: bool)
    returns (quot: dword, rem: Option<dword>)
    requires u != v && u != q && v != q && u.Length == v.Length == q.Length == 5
    requires uo + m + n == 4 && vo + n == 4 && qo + m == 4 && n >= 2
    requires (forall k :: 0 <= k <= uo ==> u[k] == 0) && (forall k :: 0 <= k < qo ==> q[k] == 0)
    requires v[vo + 1] > 0 && vll > 0 && Val(v[..][vo + 1..5]) == vll && Val(u[..][uo..5]) == ull
    modifies u, v, q
    ensures quot == Quo(ull, vll)
    ensures rem == if wantRem then Some(Rem(ull, vll)) else None
  {
    ghost var q0 := q[..];
    var d := Normalise(u, uo, v, vo, m, n);
    assert q[..] == q0;
    DividingStart(Scaled(ull, d), Scaled(vll, d), u[..], q[..], uo, qo, m, n);
    DivideDigits(u, uo, v, vo, q, qo, m, n, Scaled(ull, d));
    FinalValues(ull, vll, d, u[..], q[..], uo, qo, m, n);
    quot := ReadDigits(q);
    rem := None;
    if wantRem {
      var r := TakeRemainder(u, uo + m, d, Rem(ull, vll));
      rem := Some(r);
    }
  }

  /** COMBINE digits 1 to 4 back into a 64-bit number. */
  method ReadDigits(a: array<digit>) returns (x: dword)
    requires a.Length == 5 && a[0] == 0
    ensures x == Val(a[..])
  {
    JoinIsVal(a[..]);
    assert a[..][0..5] == a[..];
    ZeroSkip(a[..], 0, 5);
    x := Join(COMBINE(a[1], a[2]), COMBINE(a[3], a[4]));
  }

  lemma Unscale(x: nat, d: nat)
    ensures Scaled(x, d) / Pow2(d) == x
  {
    ScaledIsProduct(x, d);
    DivModUnique(x * Pow2(d), Pow2(d), x, 0);
  }

  /** The remainder is u[lo..] shifted back by d, with zeros before it. */
  method TakeRemainder(u: array<digit>, lo: nat, d: nat, ghost r0: nat) returns (r: dword)
    requires u.Length == 5 && lo < 4 && d < 16
    requires forall k :: 0 <= k <= lo ==> u[k] == 0
    requires Val(u[..][lo..5]) == Scaled(r0, d)
    modifies u
    ensures r == r0
  {
    if d > 0 {
      ShiftRight(u, lo, 5, d);
      Unscale(r0, d);
    }
    SkipZeros(u[..], 0, lo, 5);
    assert u[..][0..5] == u[..];
    r := ReadDigits(u);
  }

  /** __qdivrem(ull, vll, arq): the quotient, and the remainder when arq is not NULL. */
  method QDivRem(ull: dword, vll: dword, wantRem: bool) returns (r: DivResult)
    ensures vll == 0 ==> r == DivideByZero
    ensures vll != 0 ==> r == Quotient(ull / vll, if wantRem then Some(ull % vll) else None)
  {
    if vll == 0 {
      return DivideByZero;
    }
    if ull < vll {
      QuoRemIsDivMod(ull, vll);
      return Quotient(0, if wantRem then Some(ull) else None);
    }
    QuoRemIsDivMod(ull, vll);
    var u, v := new digit[5], new digit[5];
    u[0] := 0;
    LoadDigits(u, ull);
    LoadDigits(v, vll);
    var n, vo := 4, 0;
    ghost var us, vs := u[..], v[..];
    while v[vo + 1] == 0
      invariant 2 <= n && vo + n == 4
      invariant u[..] == us && v[..] == vs
      invariant forall k :: 1 <= k <= vo ==> vs[k] == 0
      decreases n
    {
      n := n - 1;
      if n == 1 {
        SkipZeros(vs, 1, 4, 5);
        OneDigit(vs);
        var quot, rem := ShortDivide(u, v[vo + 2]);
        return Quotient(quot, if wantRem then Some(rem) else None);
      }
      vo := vo + 1;
    }
    SkipZeros(vs, 1, vo + 1, 5);
    var quot, rem := LongDivide(u, v, vo, n, ull, vll, wantRem);
    return Quotient(quot, rem);
  }

  lemma OneDigit(v: seq<digit>)
    requires |v| == 5
    ensures Val(v[4..5]) == v[4]
  {
    assert v[4..5] == [v[4]];
    ValOne(v[4]);
  }
}
