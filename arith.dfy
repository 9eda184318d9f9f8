/** Integer helpers shared by the engine and the viewport: powers of two
    (the `1 << n` of both sources), unsigned 32-bit wrap-around and the
    row-major index bound. */
module Arith {

  const U32: nat := 0x1_0000_0000

  /** `1 << n`. */
  function Pow2(n: nat): (r: nat)
    ensures r >= 1
  {
    if n == 0 then 1 else 2 * Pow2(n - 1)
  }

  /** Shifting by `a + b` is shifting by `a`, then by `b`. */
  lemma {:induction false} Pow2Add(a: nat, b: nat)
    ensures Pow2(a + b) == Pow2(a) * Pow2(b)
  {
    if a > 0 {
      Pow2Add(a - 1, b);
    }
  }

  /** The value a `u32` holds after an operation whose mathematical result is `v`
      (release-mode wrapping; `as u32` casts from `i32` behave the same way). */
  function Wrap32(v: int): (r: nat)
    ensures r < U32
    ensures 0 <= v < U32 ==> r == v
  {
    v % U32
  }

  /** Splitting a coordinate below `2 * h` by `h`: the quotient is the half it
      lies in and the remainder its offset inside that half. */
  lemma DivModHalf(x: nat, h: nat)
    requires h > 0 && x < 2 * h
    ensures x / h == Half(x, h) && x % h == Offset(x, h)
  {
    if x < h {
      assert x == h * 0 + x;
    } else {
      assert x == h * 1 + (x - h);
    }
  }

  /** `x / h` for a coordinate below `2 * h` (see `DivModHalf`): which half it lies in. */
  function Half(x: nat, h: nat): (q: nat)
    ensures q <= 1
  {
    if x < h then 0 else 1
  }

  /** `x % h` for a coordinate below `2 * h` (see `DivModHalf`): its offset inside its half. */
  function Offset(x: nat, h: nat): (r: nat)
    ensures x < 2 * h ==> r < h
  {
    if x < h then x else x - h
  }

  /** The coordinate with half `q` and offset `r`: the inverse of `Half` and `Offset`. */
  function Join(q: nat, r: nat, h: nat): (x: nat)
    requires q <= 1 && r < h
    ensures x < 2 * h && Half(x, h) == q && Offset(x, h) == r
  {
    if q == 0 then r else h + r
  }

  /** A row-major index `x * n + y` of a cell of an `n`-by-`n` grid lies in `[0, n * n)`. */
  lemma RowMajorBound(x: int, y: int, n: int)
    requires 0 <= x < n && 0 <= y < n
    ensures 0 <= x * n + y < n * n
  {
    assert x * n <= (n - 1) * n;
  }
}
