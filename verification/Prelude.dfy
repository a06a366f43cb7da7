/** Values every contract shares: results, traps, and the host's integer widths. */
module Prelude {

  datatype Option<+T> = None | Some(value: T) {
    /** `ok_or`: the value, or a typed error in its place. */
    function OkOr<E>(error: E): Result<T, E> {
      match this
      case Some(v) => Ok(v)
      case None => Err(error)
    }

    function Or<U>(default: U, f: T -> U): U {
      match this
      case Some(v) => f(v)
      case None => default
    }
  }

  /** What an entry point gives back: a value, a typed error, or a trap of the host. */
  datatype Result<+T, +E> = Ok(value: T) | Err(error: E) | Trap {
    predicate IsFailure() { !Ok? }

    function PropagateFailure<U>(): Result<U, E>
      requires IsFailure()
    {
      if Err? then Err(error) else Trap
    }

    function Extract(): T
      requires Ok?
    {
      value
    }
  }

  /** A check that carries no value. */
  datatype Outcome<+E> = Pass | Fail(error: E) | Abort {
    predicate IsFailure() { !Pass? }

    function PropagateFailure<U>(): Result<U, E>
      requires IsFailure()
    {
      if Fail? then Err(error) else Trap
    }

    function Extract(): ()
      requires Pass?
    {
      ()
    }
  }

  function Check<E>(condition: bool, error: E): Outcome<E> {
    if condition then Pass else Fail(error)
  }

  /** `require_auth` and other host checks: their failure traps. */
  function Demand<E>(condition: bool): Outcome<E> {
    if condition then Pass else Abort
  }

  const I128_MAX: int := 0x7fff_ffff_ffff_ffff_ffff_ffff_ffff_ffff
  const I128_MIN: int := -0x8000_0000_0000_0000_0000_0000_0000_0000
  const U32_MAX: nat := 0xffff_ffff
  const U64_MAX: nat := 0xffff_ffff_ffff_ffff

  /** How many values 2^n bits tell apart: two for one bit, and the square for twice the bits. */
  function ValuesOf(n: nat): nat { if n == 0 then 2 else ValuesOf(n - 1) * ValuesOf(n - 1) }

  /** The widths: 32 and 64 bits unsigned, and 128 bits in two's complement. */
  lemma WidthsAreExact()
    ensures U32_MAX + 1 == ValuesOf(5) && U64_MAX + 1 == ValuesOf(6)
    ensures 2 * (I128_MAX + 1) == -2 * I128_MIN == ValuesOf(7)
  {
    assert ValuesOf(4) == 0x1_0000;
  }

  predicate InI128(x: int) { I128_MIN <= x <= I128_MAX }

  /** Amounts as callers pass them. */
  type i128 = x: int | I128_MIN <= x <= I128_MAX
  type u32 = n: int | 0 <= n <= U32_MAX

  /** `checked_add`, `checked_mul` and the like on i128: out of range is a typed error. */
  function Checked<E>(exact: int, overflow: E): Result<int, E> {
    if InI128(exact) then Ok(exact) else Err(overflow)
  }

  /** Plain operators on i128: the release profile keeps overflow checks on, so out of range traps. */
  function Plain<E>(exact: int): Result<int, E> {
    if InI128(exact) then Ok(exact) else Trap
  }

  /** Division as i128 does it, toward zero; every divisor in the contracts is positive. */
  function Quotient(x: int, d: int): (q: int)
    requires 0 < d
    ensures 0 <= x ==> 0 <= q && q * d <= x < (q + 1) * d
  {
    if 0 <= x then x / d else -((-x) / d)
  }

  lemma ScaleOrder(x: int, y: int, d: int)
    requires 0 <= d
    ensures x <= y ==> x * d <= y * d
  {
  }

  lemma Distributes(x: int, y: int, d: int)
    ensures (x + y) * d == x * d + y * d
  {
  }

  lemma CancelFactor(x: int, y: int, d: int)
    requires 0 < d && x * d <= y * d
    ensures x <= y
  {
    if y < x {
      ScaleOrder(y + 1, x, d);
      Distributes(y, 1, d);
    }
  }

  /** The quotient is the only integer between the two bounds. */
  lemma QuotientIs(x: int, d: int, q: int)
    requires 0 <= x && 0 < d && q * d <= x < (q + 1) * d
    ensures Quotient(x, d) == q
  {
    ScaleOrder(Quotient(x, d) + 1, q, d);
    ScaleOrder(q + 1, Quotient(x, d), d);
  }

  lemma QuotientOrder(x: int, y: int, d: int)
    requires 0 <= x <= y && 0 < d
    ensures Quotient(x, d) <= Quotient(y, d)
  {
    if Quotient(y, d) < Quotient(x, d) {
      ScaleOrder(Quotient(y, d) + 1, Quotient(x, d), d);
    }
  }

  /** `saturating_add(1)` and `saturating_sub(1)` on u32. */
  function Increment(n: nat): nat { if n < U32_MAX then n + 1 else U32_MAX }
  function Decrement(n: nat): nat { if n == 0 then 0 else n - 1 }

  /** A u32 counter that only ever counts up shows the true count until it saturates. */
  function Shown(count: int): int { if count < U32_MAX then count else U32_MAX }

  function Lookup<K, V>(m: map<K, V>, k: K): Option<V> {
    if k in m then Some(m[k]) else None
  }

  function LookupOr<K, V>(m: map<K, V>, k: K, default: V): V {
    if k in m then m[k] else default
  }

  /** `push_back` guarded by `contains`, as the region, agent and corridor lists are kept. */
  function PushUnique<T(==)>(list: seq<T>, x: T): seq<T> {
    if x in list then list else list + [x]
  }

  predicate NoDuplicates<T(==)>(list: seq<T>) {
    forall i, j :: 0 <= i < j < |list| ==> list[i] != list[j]
  }
}
