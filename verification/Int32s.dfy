/** 32-bit integers, which wrap. */
module Int32s {
  type Int32 = x: int | -0x8000_0000 <= x <= 0x7FFF_FFFF

  function Wrap(x: int): Int32 {
    (x + 0x8000_0000) % 0x1_0000_0000 - 0x8000_0000
  }

  lemma WrapOnce(a: int, b: int)
    ensures Wrap(Wrap(a) + b) == Wrap(a + b)
  {
  }

  lemma WrapSame(x: Int32)
    ensures Wrap(x) == x
  {
  }

  lemma WrapSum(a: int, b: int)
    ensures Wrap(Wrap(a) + Wrap(b)) == Wrap(a + b)
  {
  }
}
