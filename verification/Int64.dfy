/** Go's signed 64-bit integers, as whole numbers that wrap around. */
module Int64 {

  const TWO_63 := 0x8000_0000_0000_0000
  const TWO_64 := 0x1_0000_0000_0000_0000

  predicate Fits(x: int) {
    -TWO_63 <= x < TWO_63
  }

  function Wrap(x: int): (w: int)
    ensures Fits(w)
    ensures w == x <==> Fits(x)
  {
    (x + TWO_63) % TWO_64 - TWO_63
  }

  lemma WrapShift(x: int, k: int)
    ensures Wrap(x + k * TWO_64) == Wrap(x)
  {
  }

  lemma WrapSum(a: int, b: int)
    ensures Wrap(Wrap(a) + b) == Wrap(a + b)
  {
    WrapShift(a + b, -((a + TWO_63) / TWO_64));
  }

  lemma {:induction false} WrapProduct(a: int, b: int)
    ensures Wrap(Wrap(a) * b) == Wrap(a * b)
  {
    var k := -((a + TWO_63) / TWO_64);
    assert Wrap(a) == a + k * TWO_64;
    assert (a + k * TWO_64) * b == a * b + (k * b) * TWO_64;
    WrapShift(a * b, k * b);
  }
}
