/** Java's 32-bit `int` and its wrap-around subtraction. */
module JavaInt {

  const IntMin: int := -0x8000_0000
  const IntMax: int := 0x7FFF_FFFF

  /** A value of Java type `int` (or a non-null `Integer`). */
  type Int32 = x: int | IntMin <= x <= IntMax

  /** Reduces a mathematical integer to the `int` with the same low 32 bits. */
  function Wrap(x: int): (r: Int32)
    ensures IntMin <= x <= IntMax ==> r == x
    ensures (r - x) % 0x1_0000_0000 == 0
  {
    (x - IntMin) % 0x1_0000_0000 + IntMin
  }

  /** Java `a - b` on `int`: the exact difference when it fits, wrapped otherwise. */
  function Sub(a: Int32, b: Int32): (r: Int32)
    ensures IntMin <= a - b <= IntMax ==> r == a - b
    ensures a - b > IntMax ==> r == a - b - 0x1_0000_0000
    ensures a - b < IntMin ==> r == a - b + 0x1_0000_0000
  {
    Wrap(a - b)
  }

  /** Java `Math.max(a, b)` on `int`. */
  function Max(a: int, b: int): (r: int)
    ensures r >= a && r >= b && (r == a || r == b)
  {
    if a >= b then a else b
  }
}
