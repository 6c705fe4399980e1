// Shared vocabulary: optional values, results, and the server's machine words.

module Wrappers {
  datatype Option<+T> = None | Some(value: T) {
    function UnwrapOr(default: T): T {
      if Some? then value else default
    }
  }

  datatype Result<+T, +E> = Ok(value: T) | Err(error: E) {
    predicate IsFailure() {
      Err?
    }

    function PropagateFailure<U>(): Result<U, E>
      requires Err?
    {
      Err(error)
    }

    function Extract(): T
      requires Ok?
    {
      value
    }
  }
}

/** Rust's unsigned words, with the saturating operations the timers use. */
module MachineWords {
  const U8_MAX: nat := 0xFF
  const U32_MAX: nat := 0xFFFF_FFFF
  const U64_MAX: nat := 0xFFFF_FFFF_FFFF_FFFF
  const I64_MAX: nat := 0x7FFF_FFFF_FFFF_FFFF
  const I64_MIN: int := -0x8000_0000_0000_0000

  type U32 = n: nat | n <= U32_MAX
  type U64 = n: nat | n <= U64_MAX
  type I32 = n: int | -0x8000_0000 <= n <= 0x7FFF_FFFF

  /** Clocks below this bound are never close enough to the top for a timer
      addition to saturate; every interval in the rule layer is far shorter. */
  const CLOCK_LIMIT: nat := U64_MAX - 1_000_000

  function Min(a: int, b: int): int {
    if a <= b then a else b
  }

  function Max(a: int, b: int): int {
    if a >= b then a else b
  }

  function Abs(a: int): int {
    if a < 0 then -a else a
  }

  /** Products by name, so that long proofs can treat them as opaque terms and
      reason about them only through the three lemmas below. */
  function Times(a: nat, b: nat): nat {
    a * b
  }

  function Quotient(a: nat, b: nat): nat
    requires b > 0
  {
    a / b
  }

  lemma TimesStep(a: nat, b: nat)
    ensures Times(a + 1, b) == Times(a, b) + b
    ensures Times(0, b) == 0 && Times(1, b) == b
  {
  }

  lemma TimesMonotone(a: nat, b: nat, c: nat, d: nat)
    requires a <= c && b <= d
    ensures Times(a, b) <= Times(c, d)
  {
    assert a * b <= c * b;
    assert c * b <= c * d;
  }

  lemma TimesCommutes(a: nat, b: nat)
    ensures Times(a, b) == Times(b, a)
  {
  }

  lemma TimesGrows(a: nat, b: nat)
    requires b > 0
    ensures a <= Times(a, b)
  {
    assert a * b == a + a * (b - 1);
  }

  lemma UniqueRow(n: nat, q: nat, r: nat, p: nat, s: nat)
    requires r < n && s < n && Times(q, n) + r == Times(p, n) + s
    ensures q == p && r == s
  {
    hide Times;
    TimesStep(p, n);
    TimesStep(q, n);
    if p < q {
      TimesMonotone(p + 1, n, q, n);
    } else if q < p {
      TimesMonotone(q + 1, n, p, n);
    }
  }

  lemma UniqueDivMod(a: nat, n: nat, q: nat, r: nat)
    requires n > 0 && r < n && a == Times(q, n) + r
    ensures a / n == q && a % n == r
  {
    assert a == Times(a / n, n) + a % n;
    UniqueRow(n, q, r, a / n, a % n);
  }

  function Square(n: int): (s: nat)
    ensures s == Times(Abs(n), Abs(n))
  {
    Abs(n) * Abs(n)
  }

  /** `u64::saturating_add` */
  function SaturatingAdd(a: nat, b: nat): nat {
    if a + b > U64_MAX then U64_MAX else a + b
  }

  /** `u32::saturating_sub` and `u64::saturating_sub` */
  function SaturatingSub(a: nat, b: nat): nat {
    if a < b then 0 else a - b
  }
}
