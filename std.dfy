/** The parts of Rust's standard library that the extension traits are built on:
    `Option`, `Result`, the fixed-width unsigned integers with their checked
    operations, and `std::time::Duration` with its constructors. */
module Std {

  const U32_MAX: int := 0xFFFF_FFFF
  const U64_MAX: int := 0xFFFF_FFFF_FFFF_FFFF

  /** Rust's `u32` and `u64`. */
  type uint32 = x: int | 0 <= x <= U32_MAX
  type uint64 = x: int | 0 <= x <= U64_MAX

  /** `core::option::Option`. */
  datatype Option<T> = None | Some(value: T) {

    /** `Option::unwrap`: panics on `None`. */
    function Unwrap(): T
      requires Some?
    {
      value
    }

    /** `Option::map`. */
    function Map<U>(f: T -> U): Option<U> {
      match this
      case Some(v) => Some(f(v))
      case None => None
    }

    /** `Option::and_then`. */
    function AndThen<U>(f: T -> Option<U>): Option<U> {
      match this
      case Some(v) => f(v)
      case None => None
    }

    /** `Option::zip`: `Some` of the pair when both are `Some`. */
    function Zip<U>(other: Option<U>): Option<(T, U)> {
      match (this, other)
      case (Some(a), Some(b)) => Some((a, b))
      case _ => None
    }

    /** `Option::ok_or`: the value goes to `Ok`. */
    function OkOr<E>(err: E): Result<T, E> {
      match this
      case Some(v) => Ok(v)
      case None => Err(err)
    }

    /** `Option::is_some_and`. */
    predicate IsSomeAnd(f: T -> bool) {
      match this
      case Some(v) => f(v)
      case None => false
    }
  }

  /** `core::result::Result`. */
  datatype Result<T, E> = Ok(value: T) | Err(error: E) {

    /** `Result::unwrap`: panics on `Err`. */
    function Unwrap(): T
      requires Ok?
    {
      value
    }

    /** `Result::ok`. */
    function OkValue(): Option<T> {
      match this
      case Ok(v) => Some(v)
      case Err(_) => None
    }

    /** `Result::err`. */
    function ErrValue(): Option<E> {
      match this
      case Ok(_) => None
      case Err(e) => Some(e)
    }
  }

  /** `u64::checked_add`. */
  function CheckedAdd(a: uint64, b: uint64): Option<uint64> {
    if a + b <= U64_MAX then Some(a + b) else None
  }

  /** `u64::checked_mul`. */
  function CheckedMul(a: uint64, b: uint64): Option<uint64> {
    if a * b <= U64_MAX then Some(a * b) else None
  }

  /** `u32::checked_mul`. */
  function CheckedMulU32(a: uint32, b: uint32): Option<uint32> {
    if a * b <= U32_MAX then Some(a * b) else None
  }

  /** `u64::checked_div`: `None` only for a zero divisor (unsigned division truncates). */
  function CheckedDiv(a: uint64, b: uint64): Option<uint64> {
    if b == 0 then None else Some(a / b)
  }

  /** `u64::checked_rem`. */
  function CheckedRem(a: uint64, b: uint64): Option<uint64> {
    if b == 0 then None else Some(a % b)
  }

  /** `TryInto<u32>` followed by `.ok()`. */
  function TryIntoU32(x: int): Option<uint32> {
    if 0 <= x <= U32_MAX then Some(x) else None
  }

  /** `TryInto<u64>` followed by `.ok()`, from any integer type. */
  function TryIntoU64(x: int): Option<uint64> {
    if 0 <= x <= U64_MAX then Some(x) else None
  }

  const NANOS_PER_SECOND: int := 1_000_000_000

  /** Sub-second part of a duration. */
  type SubsecNanos = n: int | 0 <= n < NANOS_PER_SECOND

  /** `std::time::Duration`: whole seconds plus a normalised nanosecond part. */
  datatype Duration = Duration(secs: uint64, nanos: SubsecNanos)

  /** The length of a duration in nanoseconds; it determines the duration. */
  function TotalNanos(d: Duration): nat {
    d.secs * NANOS_PER_SECOND + d.nanos
  }

  /** Two durations of the same length are the same duration. */
  lemma TotalNanosInjective(d1: Duration, d2: Duration)
    requires TotalNanos(d1) == TotalNanos(d2)
    ensures d1 == d2
  {
  }

  /** `m == (m / d) * d + m % d`, scaled by `k`. */
  lemma ScaledDivMod(m: nat, d: nat, k: nat)
    requires d > 0
    ensures (m / d) * (d * k) + (m % d) * k == m * k
  {
    calc {
      (m / d) * (d * k) + (m % d) * k;
      ((m / d) * d) * k + (m % d) * k;
      ((m / d) * d + m % d) * k;
      m * k;
    }
  }

  /** `Duration::new`: carries whole seconds out of `nanos`; panics when the
      seconds overflow `u64`. */
  function DurationNew(secs: uint64, nanos: uint32): (d: Duration)
    requires secs + nanos / NANOS_PER_SECOND <= U64_MAX
    ensures TotalNanos(d) == secs * NANOS_PER_SECOND + nanos
  {
    if nanos < NANOS_PER_SECOND then Duration(secs, nanos)
    else Duration(secs + nanos / NANOS_PER_SECOND, nanos % NANOS_PER_SECOND)
  }

  /** `Duration::from_secs`. */
  function FromSecs(secs: uint64): (d: Duration)
    ensures TotalNanos(d) == secs * NANOS_PER_SECOND
  {
    Duration(secs, 0)
  }

  /** `Duration::from_millis`. */
  function FromMillis(millis: uint64): (d: Duration)
    ensures TotalNanos(d) == millis * 1_000_000
  {
    ScaledDivMod(millis, 1_000, 1_000_000);
    Duration(millis / 1_000, (millis % 1_000) * 1_000_000)
  }

  /** `Duration::from_micros`. */
  function FromMicros(micros: uint64): (d: Duration)
    ensures TotalNanos(d) == micros * 1_000
  {
    ScaledDivMod(micros, 1_000_000, 1_000);
    Duration(micros / 1_000_000, (micros % 1_000_000) * 1_000)
  }

  /** `Duration::from_nanos`. */
  function FromNanos(nanos: uint64): (d: Duration)
    ensures TotalNanos(d) == nanos
  {
    ScaledDivMod(nanos, NANOS_PER_SECOND, 1);
    Duration(nanos / NANOS_PER_SECOND, nanos % NANOS_PER_SECOND)
  }
}
