/** Signed and unsigned 64-bit views of the same bits. */
module TwosComplement {
  import opened HalfWords

  const MIN64: int := -0x8000_0000_0000_0000

  type sdword = x: int | -0x8000_0000_0000_0000 <= x < 0x8000_0000_0000_0000

  /** (unsigned long long)x. */
  function Unsigned(x: sdword): dword { Wrap64(x) }

  /** (long long)x. */
  function Signed(x: dword): sdword { if x < -MIN64 then x else x - W64 }

  /** The long long that keeps the low 64 bits of a mathematical integer. */
  function Keep64(x: int): sdword { Signed(Wrap64(x)) }

  /** A number a long long can hold is kept as it is, and no other is. */
  lemma KeepExact(x: int)
    ensures Keep64(x) == x <==> MIN64 <= x < -MIN64
  {
  }

  /** Negating the kept bits keeps the negation. */
  lemma KeepNegated(x: int)
    ensures Wrap64(0 - Wrap64(x) as int) == Wrap64(-x)
  {
  }

  /** Negating the kept bits of a magnitude, then reading them as signed. */
  lemma NegateKept(x: int, p: dword, neg: bool)
    requires p == Wrap64(x)
    ensures Signed(if neg then Wrap64(-(p as int)) else p) == Keep64(if neg then -x else x)
  {
    KeepNegated(x);
  }

  function Abs(x: int): nat { if x < 0 then -x else x }
}
