/** Numbers written as sequences of base-2^16 digits, most significant first. */
module Radix {
  import opened HalfWords

  function BPow(k: nat): (p: int)
    ensures p > 0
  {
    if k == 0 then 1 else BPow(k - 1) * B
  }

  lemma MulMono(x: int, y: int, p: int)
    requires x <= y && p >= 0
    ensures x * p <= y * p
  {
    assert (y - x) * p >= 0;
  }

  function Val(s: seq<digit>): (v: nat)
  {
    if s == [] then 0 else Val(s[..|s| - 1]) * B + s[|s| - 1]
  }

  lemma {:induction false} BPowAdd(a: nat, b: nat)
    ensures BPow(a + b) == BPow(a) * BPow(b)
  {
    if b > 0 {
      BPowAdd(a, b - 1);
      assert BPow(a) * BPow(b - 1) * B == BPow(a) * (BPow(b - 1) * B);
    }
  }

  lemma {:induction false} ValBound(s: seq<digit>)
    ensures Val(s) < BPow(|s|)
  {
    if s != [] {
      ValBound(s[..|s| - 1]);
      assert Val(s[..|s| - 1]) + 1 <= BPow(|s| - 1);
    }
  }

  lemma {:induction false} ValConcat(s: seq<digit>, t: seq<digit>)
    ensures Val(s + t) == Val(s) * BPow(|t|) + Val(t)
  {
    if t == [] {
      assert s + t == s;
    } else {
      var t' := t[..|t| - 1];
      assert (s + t)[..|s + t| - 1] == s + t';
      ValConcat(s, t');
      assert (Val(s) * BPow(|t'|)) * B == Val(s) * (BPow(|t'|) * B);
    }
  }

  lemma ValOne(x: digit)
    ensures Val([x]) == x
  {
    assert [x][..0] == [];
  }

  lemma ValAppend(s: seq<digit>, x: digit)
    ensures Val(s + [x]) == Val(s) * B + x
  {
    assert (s + [x])[..|s|] == s;
  }

  lemma ValPrepend(x: digit, s: seq<digit>)
    ensures Val([x] + s) == x * BPow(|s|) + Val(s)
  {
    ValConcat([x], s);
    ValOne(x);
  }

  /** Leading zero digits do not count. */
  lemma {:induction false} ValZeros(s: seq<digit>)
    requires forall k :: 0 <= k < |s| ==> s[k] == 0
    ensures Val(s) == 0
  {
    if s != [] { ValZeros(s[..|s| - 1]); }
  }

  /** A window that starts at lo, cut at mid. */
  lemma ValCut(s: seq<digit>, lo: nat, mid: nat, hi: nat)
    requires lo <= mid <= hi <= |s|
    ensures Val(s[lo..hi]) == Val(s[lo..mid]) * BPow(hi - mid) + Val(s[mid..hi])
  {
    assert s[lo..hi] == s[lo..mid] + s[mid..hi];
    ValConcat(s[lo..mid], s[mid..hi]);
  }

  lemma ValFirst(s: seq<digit>, lo: nat, hi: nat)
    requires lo < hi <= |s|
    ensures Val(s[lo..hi]) == s[lo] * BPow(hi - lo - 1) + Val(s[lo + 1..hi])
  {
    assert s[lo..hi] == [s[lo]] + s[lo + 1..hi];
    ValPrepend(s[lo], s[lo + 1..hi]);
  }

  lemma ValLast(s: seq<digit>, lo: nat, hi: nat)
    requires lo < hi <= |s|
    ensures Val(s[lo..hi]) == Val(s[lo..hi - 1]) * B + s[hi - 1]
  {
    assert s[lo..hi] == s[lo..hi - 1] + [s[hi - 1]];
    ValAppend(s[lo..hi - 1], s[hi - 1]);
  }

  /** A value below B^(n-1) has a zero leading digit among n. */
  lemma LeadingZero(s: seq<digit>, lo: nat, hi: nat)
    requires lo < hi <= |s|
    requires Val(s[lo..hi]) < BPow(hi - lo - 1)
    ensures s[lo] == 0 && Val(s[lo..hi]) == Val(s[lo + 1..hi])
  {
    ValFirst(s, lo, hi);
    if s[lo] >= 1 { MulMono(1, s[lo], BPow(hi - lo - 1)); }
  }

  /** A nonzero leading digit makes the value at least B^(n-1). */
  lemma LeadingNonzero(s: seq<digit>, lo: nat, hi: nat)
    requires lo < hi <= |s| && s[lo] > 0
    ensures Val(s[lo..hi]) >= BPow(hi - lo - 1)
  {
    ValFirst(s, lo, hi);
    if s[lo] >= 1 { MulMono(1, s[lo], BPow(hi - lo - 1)); }
  }

  lemma SkipZeros(s: seq<digit>, a: nat, b: nat, hi: nat)
    requires a <= b <= hi <= |s|
    requires forall k :: a <= k < b ==> s[k] == 0
    ensures Val(s[a..hi]) == Val(s[b..hi])
  {
    ValCut(s, a, b, hi);
    ValZeros(s[a..b]);
  }

  lemma LeadingArith(d: int, p: int, c: int, rest: int)
    requires d * p + rest >= c * p && rest < p && p > 0
    ensures d >= c
  {
    assert (d + 1) * p == d * p + p;
    if d + 1 <= c { MulMono(d + 1, c, p); }
  }

  /** A large value has a large leading digit. */
  lemma LeadingAtLeast(s: seq<digit>, lo: nat, hi: nat, c: nat)
    requires lo < hi <= |s| && Val(s[lo..hi]) >= c * BPow(hi - lo - 1)
    ensures s[lo] >= c
  {
    var p, rest := BPow(hi - lo - 1), Val(s[lo + 1..hi]);
    assert rest < p by { ValBound(s[lo + 1..hi]); }
    assert s[lo] * p + rest >= c * p by { ValFirst(s, lo, hi); }
    LeadingArith(s[lo], p, c, rest);
  }
}
