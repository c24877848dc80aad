/** Java's 32-bit `int`: the range and the wrap-around of `+`. */
module JavaInt {
  const MinInt: int := -0x8000_0000
  const MaxInt: int := 0x7fff_ffff
  const Modulus: int := 0x1_0000_0000

  predicate IsInt(x: int) {
    MinInt <= x <= MaxInt
  }

  /** `a + b` evaluated on Java ints: the unique int congruent to the exact sum modulo 2^32. */
  function Add(a: int, b: int): (r: int)
    requires IsInt(a) && IsInt(b)
    ensures IsInt(r)
    ensures (r - (a + b)) % Modulus == 0
    ensures IsInt(a + b) ==> r == a + b
  {
    var t := a + b;
    if t > MaxInt then t - Modulus
    else if t < MinInt then t + Modulus
    else t
  }
}
