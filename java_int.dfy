/** Java's 32-bit `int`: additions wrap around modulo 2^32, and
    `BigDecimal.intValue()` keeps the low 32 bits. */
module JavaInt {

  const TwoTo32: int := 0x1_0000_0000
  const IntMin: int := -0x8000_0000
  const IntMax: int := 0x7fff_ffff

  predicate IsInt32(x: int) { IntMin <= x <= IntMax }

  /** The 32-bit two's-complement value congruent to `x`: `x` moved into
      the int range by whole multiples of 2^32. */
  function Wrap32(x: int): (r: int)
    ensures IsInt32(r)
    ensures IsInt32(x) ==> r == x
    decreases if x < IntMin then IntMin - x else if x > IntMax then x - IntMax else 0
  {
    if x < IntMin then Wrap32(x + TwoTo32)
    else if x > IntMax then Wrap32(x - TwoTo32)
    else x
  }

  /** Adding whole multiples of 2^32 does not change the remainder; the
      step that WrapIsModulo and WrapShift need, kept linear here. */
  lemma ModShift(a: int, k: int)
    ensures (a + k * 0x1_0000_0000) % 0x1_0000_0000 == a % 0x1_0000_0000
  {
    var q, r := a / 0x1_0000_0000, a % 0x1_0000_0000;
    assert a + k * 0x1_0000_0000 == (q + k) * 0x1_0000_0000 + r;
  }

  /** Wrapping is reduction modulo 2^32, offset to start at `IntMin`. */
  lemma {:induction false} WrapIsModulo(x: int)
    ensures Wrap32(x) == (x - IntMin) % TwoTo32 + IntMin
    decreases if x < IntMin then IntMin - x else if x > IntMax then x - IntMax else 0
  {
    if x < IntMin {
      WrapIsModulo(x + TwoTo32);
      ModShift(x - IntMin, 1);
    } else if x > IntMax {
      WrapIsModulo(x - TwoTo32);
      ModShift(x - IntMin, -1);
    }
  }

  /** Wrapping ignores multiples of 2^32. */
  lemma WrapShift(x: int, k: int)
    ensures Wrap32(x + k * TwoTo32) == Wrap32(x)
  {
    WrapIsModulo(x);
    WrapIsModulo(x + k * TwoTo32);
    ModShift(x - IntMin, k);
  }

  /** Wrapping an operand first does not change a wrapped sum. */
  lemma WrapAddLeft(a: int, b: int)
    ensures Wrap32(Wrap32(a) + b) == Wrap32(a + b)
  {
    WrapIsModulo(a);
    var k := (a - IntMin) / 0x1_0000_0000;
    assert Wrap32(a) == a - k * 0x1_0000_0000;
    WrapShift(a + b, -k);
  }
}
