/**
 * Shared vocabulary of the model: optional values (the nullable references
 * of C# and the `undefined`/`null` of JavaScript), 32-bit integers with the
 * wrap-around of unchecked C# arithmetic, bytes, and C#'s truncating integer
 * division.
 */
module Core {

  datatype Option<T> = None | Some(value: T)

  /** A C# `int`. */
  type Int32 = x: int | -0x8000_0000 <= x < 0x8000_0000

  /** A C# `long`. */
  type Int64 = x: int | -0x8000_0000_0000_0000 <= x < 0x8000_0000_0000_0000

  type byte = x: int | 0 <= x < 256

  const Int32Min: int := -0x8000_0000
  const Int32Max: int := 0x7FFF_FFFF
  const Int64Min: int := -0x8000_0000_0000_0000
  const Int64Max: int := 0x7FFF_FFFF_FFFF_FFFF

  /** The value an unchecked C# `int` operation leaves for the exact result `x`. */
  function Wrap32(x: int): (r: Int32)
    ensures Int32Min <= x <= Int32Max ==> r == x
    ensures (x - r) % 0x1_0000_0000 == 0
  {
    var m := (x + 0x8000_0000) % 0x1_0000_0000;
    m - 0x8000_0000
  }

  /**
   * `x + d` in unchecked 32-bit arithmetic, for a step small enough to wrap
   * at most once.
   */
  function Step32(x: Int32, d: int): Int32
    requires Int32Min <= d <= Int32Max
  {
    if x + d > Int32Max then x + d - 0x1_0000_0000
    else if x + d < Int32Min then x + d + 0x1_0000_0000
    else x + d
  }

  /** The step agrees with the general wrap-around. */
  lemma Step32Wraps(x: Int32, d: int)
    requires Int32Min <= d <= Int32Max
    ensures Step32(x, d) == Wrap32(x + d)
  {
    var r := Wrap32(x + d);
    assert (x + d - r) % 0x1_0000_0000 == 0;
  }

  /** C#'s `a / b` on integers: the quotient rounded toward zero. */
  function Quot(a: int, b: int): (q: int)
    requires b != 0
    ensures a >= 0 && b > 0 ==> q == a / b
    ensures a <= 0 && b > 0 ==> q == -((-a) / b)
  {
    if (a >= 0) == (b > 0) then Abs(a) / Abs(b) else -(Abs(a) / Abs(b))
  }

  /** C#'s `a % b` on integers: the remainder takes the sign of the dividend. */
  function Rem(a: int, b: int): (m: int)
    requires b != 0
    ensures a == Quot(a, b) * b + m
    ensures Abs(m) < Abs(b)
    ensures a >= 0 ==> m >= 0
    ensures a <= 0 ==> m <= 0
  {
    var q := Quot(a, b);
    assert Abs(a) == Abs(a) / Abs(b) * Abs(b) + Abs(a) % Abs(b);
    a - q * b
  }

  function Abs(x: int): nat { if x < 0 then -x else x }

  function Max(a: int, b: int): (r: int)
    ensures r >= a && r >= b && (r == a || r == b)
  {
    if a >= b then a else b
  }
}
