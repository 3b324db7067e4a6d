/** Shared vocabulary: optional values and results, the machine integer
    widths the virtual machine works with, and Rust's truncating integer
    division. Dafny integers are unbounded, so every width is written out. */
module Common {

  datatype Option<+T> = None | Some(value: T)

  datatype Result<+T, +E> = Ok(value: T) | Err(error: E)

  /** An unsigned 8-bit value (Rust `u8`). */
  type byte = x: int | 0 <= x < 256

  const U16_MODULUS: int := 0x1_0000
  const U32_MODULUS: int := 0x1_0000_0000
  const USIZE_MODULUS: int := 0x1_0000_0000_0000_0000

  const I32_MIN: int := -0x8000_0000
  const I32_MAX: int := 0x7fff_ffff

  /** `x` fits a Rust `i32`. */
  predicate IsI32(x: int) {
    I32_MIN <= x <= I32_MAX
  }

  /** Rust `x as u16`: keep the low 16 bits (two's complement). */
  function AsU16(x: int): (r: nat)
    ensures r < U16_MODULUS
    ensures 0 <= x < U16_MODULUS ==> r == x
    ensures (x - r) % U16_MODULUS == 0
  {
    x % U16_MODULUS
  }

  /** Rust `x as u32` for an `i32`: reinterpret the two's complement bits. */
  function AsU32(x: int): (r: nat)
    ensures r < U32_MODULUS
    ensures 0 <= x < U32_MODULUS ==> r == x
    ensures -U32_MODULUS <= x < 0 ==> r == x + U32_MODULUS
  {
    x % U32_MODULUS
  }

  /** Rust `x as usize` for an `i32` on a 64-bit target: sign-extend, then
      reinterpret as unsigned. A negative value becomes a huge offset. */
  function AsUsize(x: int): (r: nat)
    ensures r < USIZE_MODULUS
    ensures 0 <= x < USIZE_MODULUS ==> r == x
    ensures -USIZE_MODULUS <= x < 0 ==> r == x + USIZE_MODULUS
  {
    x % USIZE_MODULUS
  }

  function Abs(x: int): nat {
    if x < 0 then -x else x
  }

  /** Rust `a / b` on signed integers: the quotient rounded toward zero. */
  function TruncDiv(a: int, b: int): (q: int)
    requires b != 0
    ensures Abs(q) == Abs(a) / Abs(b)
    ensures q == 0 || ((q < 0) <==> ((a < 0) != (b < 0)))
  {
    EuclidNonNegative(Abs(a), Abs(b));
    if (a < 0) == (b < 0) then Abs(a) / Abs(b) else -(Abs(a) / Abs(b))
  }

  /** Rust `a % b` on signed integers: the remainder takes the dividend's sign. */
  function TruncRem(a: int, b: int): (r: int)
    requires b != 0
    ensures Abs(r) == Abs(a) % Abs(b)
    ensures r == 0 || ((r < 0) <==> (a < 0))
  {
    if a < 0 then -(Abs(a) % Abs(b)) else Abs(a) % Abs(b)
  }

  /** Truncating division and remainder are the pair with `a == b * q + r`,
      `|r| < |b|`, and `r` zero or of the sign of `a`; the quotient is never
      larger in magnitude than the dividend. */
  lemma TruncDivRem(a: int, b: int)
    requires b != 0
    ensures a == b * TruncDiv(a, b) + TruncRem(a, b)
    ensures Abs(TruncRem(a, b)) < Abs(b)
    ensures TruncRem(a, b) == 0 || (TruncRem(a, b) < 0 <==> a < 0)
    ensures Abs(TruncDiv(a, b)) <= Abs(a)
  {
    var aa: int, bb: int := Abs(a), Abs(b);
    var q: int, r: int := aa / bb, aa % bb;
    EuclidNonNegative(aa, bb);
    SignedProduct(a, b, q);
  }

  /** On non-negative operands Dafny's division is the truncating one. */
  lemma EuclidNonNegative(x: int, y: int)
    requires x >= 0 && y > 0
    ensures x == y * (x / y) + x % y && 0 <= x % y < y
    ensures 0 <= x / y <= x
  {
    var q := x / y;
    assert y * q >= q by {
      MulAtLeast(y, q);
    }
  }

  lemma SignedProduct(a: int, b: int, q: int)
    ensures b * q == (if b < 0 then -(Abs(b) * q) else Abs(b) * q)
    ensures b * -q == -(b * q)
  {
  }

  lemma MulAtLeast(m: int, n: nat)
    requires m >= 1
    ensures m * n >= n
  {
  }

  /** Examples of Rust's rounding toward zero, against Dafny's Euclidean `/`. */
  lemma TruncDivExamples()
    ensures TruncDiv(200, 30) == 6 && TruncRem(200, 30) == 20
    ensures TruncDiv(-7, 2) == -3 && TruncRem(-7, 2) == -1
    ensures TruncDiv(7, -2) == -3 && TruncRem(7, -2) == 1
    ensures AsU32(TruncRem(-7, 2)) == 0xffff_ffff
  {
  }
}
