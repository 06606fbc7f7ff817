/** Machine-word types and small helpers shared by every module of the kernel model. */
module Prelude {

  /** Largest value of a Rust `u32`. */
  const U32_MAX: int := 0xFFFF_FFFF

  /** Number of distinct `usize` values on the 64-bit target. */
  const USIZE_LIMIT: int := 0x1_0000_0000_0000_0000

  /** A Rust `u32`. */
  type U32 = x: int | 0 <= x <= U32_MAX

  /** A Rust `usize` on a 64-bit hart. */
  type Usize = x: int | 0 <= x < USIZE_LIMIT

  datatype Option<T> = None | Some(value: T)

  /** 2 to the power `k`. */
  function Pow2(k: nat): (p: nat)
    ensures p >= 1
  {
    if k == 0 then 1 else 2 * Pow2(k - 1)
  }

  /** `a` is 1, 2, 4, 8, ... */
  predicate IsPowerOfTwo(a: nat)
    decreases a
  {
    a == 1 || (a > 1 && a % 2 == 0 && IsPowerOfTwo(a / 2))
  }

  /** The exponent of a power of two. */
  function Log2(a: nat): (k: nat)
    requires IsPowerOfTwo(a)
    ensures Pow2(k) == a
    decreases a
  {
    if a == 1 then 0 else Log2(a / 2) + 1
  }

  /** Rust's `usize::checked_add`: the sum, or None when it would wrap. */
  function CheckedAdd(a: Usize, b: Usize): (r: Option<Usize>)
    ensures r.Some? <==> a + b < USIZE_LIMIT
    ensures r.Some? ==> r.value == a + b
  {
    if a + b < USIZE_LIMIT then Some(a + b) else None
  }

  /** A positive multiple of `d` is at least `d`. */
  lemma {:induction false} MulAtLeast(d: nat, t: nat)
    requires t >= 1
    ensures d * t >= d
    decreases t
  {
    if t > 1 {
      MulAtLeast(d, t - 1);
      assert d * t == d * (t - 1) + d;
    }
  }

  /** `d * q + s` with `s < d` determines both `q` and `s`. */
  lemma DivModUnique(x: nat, d: nat, q: nat, s: nat)
    requires d > 0 && x == d * q + s && s < d
    ensures x / d == q && x % d == s
  {
    var q', s' := x / d, x % d;
    assert x == d * q' + s';
    if q' > q {
      MulAtLeast(d, q' - q);
    } else if q' < q {
      MulAtLeast(d, q - q');
    }
  }

  /** A multiple of `d` leaves no remainder. */
  lemma MultipleMod(d: nat, q: nat)
    requires d > 0
    ensures (d * q) % d == 0 && (d * q) / d == q
  {
    DivModUnique(d * q, d, q, 0);
  }

  /** Two multiples of `d` less than `d` apart are equal. */
  lemma MultiplesApart(d: nat, r1: nat, r2: nat)
    requires d > 0 && r1 % d == 0 && r2 % d == 0
    requires r1 <= r2 < r1 + d
    ensures r1 == r2
  {
    assert r1 == d * (r1 / d) + r1 % d;
    DivModUnique(r2, d, r1 / d, r2 - r1);
  }
}
