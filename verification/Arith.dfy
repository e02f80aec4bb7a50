/** Machine integers and the two roundings of integer division. */
module Arith {

  const U16_MAX: nat := 0xFFFF
  const U32_MAX: nat := 0xFFFF_FFFF
  const U64_MAX: nat := 0xFFFF_FFFF_FFFF_FFFF
  const U128_MAX: nat := 0xFFFF_FFFF_FFFF_FFFF_FFFF_FFFF_FFFF_FFFF

  /** Nanoseconds per second. */
  const SECOND: nat := 1_000_000_000

  type u32 = n: nat | n <= U32_MAX
  type u64 = n: nat | n <= U64_MAX

  datatype Option<+T> = None | Some(value: T)

  function Min(a: int, b: int): int {
    if a <= b then a else b
  }

  function Max(a: int, b: int): int {
    if a >= b then a else b
  }

  /** `saturating_sub` of any unsigned type. */
  function SatSub(a: nat, b: nat): nat {
    if a >= b then a - b else 0
  }

  /** The value a saturating `u64` computation leaves for the exact result `n`. */
  function Sat64(n: nat): u64 {
    if n <= U64_MAX then n else U64_MAX
  }

  /** The value a saturating `u128` computation leaves for the exact result `n`. */
  function Sat128(n: nat): nat {
    if n <= U128_MAX then n else U128_MAX
  }

  /** `div_ceil`. */
  function DivCeil(a: nat, b: nat): nat
    requires b > 0
  {
    if a % b == 0 then a / b else a / b + 1
  }

  lemma {:induction false} MulStep(d: nat, m: nat)
    requires d >= 1
    ensures d * m >= m
  {
  }

  lemma MulOrder(a: int, b: int, m: nat)
    requires m > 0
    ensures a < b <==> a * m < b * m
    ensures a < b ==> a * m + m <= b * m
  {
    if a < b {
      MulStep(b - a, m);
      assert b * m == (b - a) * m + a * m;
    } else if a > b {
      MulStep(a - b, m);
      assert a * m == (a - b) * m + b * m;
    }
  }

  /** A floored quotient lies below `k` exactly when the dividend lies below `k` divisors. */
  lemma FloorBelow(a: nat, b: nat, k: nat)
    requires b > 0
    ensures a / b < k <==> a < k * b
  {
    assert a == (a / b) * b + a % b;
    MulOrder(a / b, k, b);
  }

  /** `k` lies below a ceiling quotient exactly when `k` divisors lie below the dividend. */
  lemma BelowCeil(a: nat, b: nat, k: nat)
    requires b > 0
    ensures k < DivCeil(a, b) <==> k * b < a
  {
    var q := a / b;
    assert a == q * b + a % b;
    MulOrder(k, q, b);
    MulOrder(q, k, b);
  }

  lemma MulBound(a: nat, b: nat, x: nat, y: nat)
    requires a <= x && b <= y
    ensures a * b <= x * y
  {
    assert a * b <= a * y;
    assert a * y <= x * y;
  }

  /** A quotient and a remainder are unique. */
  lemma RemainderOf(x: nat, n: nat, q: nat, r: nat)
    requires r < n
    ensures x == q * n + r ==> x % n == r
  {
    if x == q * n + r {
      FloorBelow(x, n, q);
      FloorBelow(x, n, q + 1);
      assert (q + 1) * n == q * n + n;
      assert x / n == q;
    }
  }

  ghost predicate Increasing(s: seq<nat>) {
    forall i, j | 0 <= i < j < |s| :: s[i] < s[j]
  }

  lemma {:induction false} IntervalSize(lo: nat, hi: nat, s: set<nat>)
    requires lo <= hi && forall x: nat :: x in s <==> lo <= x < hi
    ensures |s| == hi - lo
  {
    if lo == hi {
      assert s == {};
    } else {
      IntervalSize(lo, hi - 1, s - {hi - 1});
    }
  }
}
