/**
 * ModN: addition (and, for Mod7, multiplication) of non-negative Kotlin
 * `Int`s followed by `% n`, with 32-bit wrap-around and Kotlin's
 * truncating remainder written out.
 */
module ModN {
  import opened Wrappers

  const MinInt := -0x8000_0000
  const MaxInt := 0x7fff_ffff

  /** A Kotlin `Int`. */
  type Int32 = x: int | MinInt <= x <= MaxInt

  /** Two's-complement wrap-around of an `Int` operation's exact result. */
  function Wrap(x: int): (r: Int32)
    ensures MinInt <= x <= MaxInt ==> r == x
    ensures (r - x) % 0x1_0000_0000 == 0
  {
    var m := (x - MinInt) % 0x1_0000_0000;
    m + MinInt
  }

  /** Kotlin's `%`: the remainder of division truncated toward zero, with the sign of `a`. */
  function Rem(a: int, b: int): (r: int)
    requires b != 0
    ensures a >= 0 ==> 0 <= r < if b > 0 then b else -b
    ensures a >= 0 ==> r == a % b
    ensures a < 0 ==> -(if b > 0 then b else -b) < r <= 0
    ensures a < 0 ==> r == -((-a) % b)
  {
    var q := if a >= 0 then a / b else -((-a) / b);
    a - b * q
  }

  /** How a call fails: `require` (IllegalArgumentException) or `% 0` (ArithmeticException). */
  datatype ModError = IllegalArgument | DivisionByZero

  datatype ModN = ModN(n: Int32)

  /** The factory `ModN(n)`. */
  function Make(n: Int32): (m: ModN)
    ensures m.n == n
  {
    ModN(n)
  }

  /** `a.add(b)`: both operands must be non-negative; then `(a + b) % n` on `Int`s. */
  function Add(m: ModN, a: Int32, b: Int32): (r: Result<Int32, ModError>)
    ensures a < 0 || b < 0 ==> r == Failure(IllegalArgument)
    ensures a >= 0 && b >= 0 && m.n == 0 ==> r == Failure(DivisionByZero)
    ensures a >= 0 && b >= 0 && m.n != 0 && a + b <= MaxInt ==> r == Success((a + b) % m.n)
  {
    if a < 0 || b < 0 then Failure(IllegalArgument)
    else if m.n == 0 then Failure(DivisionByZero)
    else Success(Rem(Wrap(a + b), m.n))
  }

  /** For a positive modulus and a sum that fits in an `Int`, the result lies in `[0, n)`. */
  lemma AddInRange(m: ModN, a: Int32, b: Int32)
    requires a >= 0 && b >= 0 && m.n > 0 && a + b <= MaxInt
    ensures Add(m, a, b).Success? && 0 <= Add(m, a, b).value < m.n
  {
  }

  /** An operand sum past `Int.MAX_VALUE` wraps to a negative number and gives a negative result. */
  lemma AddOverflowIsNegative()
    ensures Add(ModN(3), MaxInt, 1) == Success(-2)
  {
  }

  const Mod7 := ModN(7)

  /** `Mod7`'s `a.multiply(b)`: both operands non-negative; then `(a * b) % 7` on `Int`s. */
  function Multiply7(a: Int32, b: Int32): (r: Result<Int32, ModError>)
    ensures a < 0 || b < 0 ==> r == Failure(IllegalArgument)
    ensures a >= 0 && b >= 0 && a * b <= MaxInt ==> r == Success((a * b) % 7)
    ensures r.Success? && a * b <= MaxInt ==> 0 <= r.value < 7
  {
    if a < 0 || b < 0 then Failure(IllegalArgument)
    else Success(Rem(Wrap(a * b), Mod7.n))
  }

  /** The checks in Kotlin `main`: `7.add(3)` for moduli 3, 4, 5 and 7. */
  lemma MainChecks()
    ensures Add(Make(3), 7, 3) == Success(1)
    ensures Add(Make(4), 7, 3) == Success(2)
    ensures Add(Make(5), 7, 3) == Success(0)
    ensures Add(Mod7, 7, 3) == Success(3)
  {
  }
}
