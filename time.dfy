/** Building `Duration`s from numbers: the checked constructors of `extfn`,
    the `DurationNumExtFallible` implementations for the integer types and the
    panicking `DurationNumExt` methods built on them. */
module Time {
  import opened Std

  const SECS_PER_MINUTE: uint64 := 60
  const SECS_PER_HOUR: uint64 := 60 * 60
  const SECS_PER_DAY: uint64 := 60 * 60 * 24

  const NANOS_PER_SEC: uint32 := 1_000_000_000
  const NANOS_PER_MILLI: uint32 := 1_000_000
  const NANOS_PER_MICRO: uint32 := 1_000
  const MILLIS_PER_SEC: uint64 := 1_000
  const MICROS_PER_SEC: uint64 := 1_000_000

  // ---------------------------------------------------------------------------
  // extfn

  /** `checked_new`: a `Duration::new` that reports the seconds overflow as
      `None` instead of panicking. */
  function CheckedNew(secs: uint64, nanos: uint32): (r: Option<Duration>)
    ensures r.None? <==> secs + nanos / NANOS_PER_SEC > U64_MAX
    ensures r.Some? ==> r.value.secs == secs + nanos / NANOS_PER_SEC
                        && r.value.nanos == nanos % NANOS_PER_SEC
    ensures r.Some? ==> TotalNanos(r.value) == secs * NANOS_PER_SEC + nanos
  {
    match CheckedAdd(secs, nanos / NANOS_PER_SEC)
    case None => None
    case Some(s) =>
      ScaledDivMod(nanos, NANOS_PER_SEC, 1);
      Some(DurationNew(s, nanos % NANOS_PER_SEC))
  }

  /** `checked_from_secs`. */
  function CheckedFromSecs(secs: uint64): (r: Option<Duration>)
    ensures r == Some(FromSecs(secs))
  {
    CheckedNew(secs, 0)
  }

  /** `checked_from_millis`: whole seconds and the remainder scaled to nanoseconds. */
  function CheckedFromMillis(millis: uint64): (r: Option<Duration>)
    ensures r == Some(FromMillis(millis))
    ensures TotalNanos(r.value) == millis * NANOS_PER_MILLI
  {
    CheckedDiv(millis, MILLIS_PER_SEC)
      .Zip(CheckedRem(millis, MILLIS_PER_SEC)
             .AndThen(r => TryIntoU32(r))
             .AndThen((r: uint32) => CheckedMulU32(r, NANOS_PER_MILLI)))
      .AndThen((p: (uint64, uint32)) => CheckedNew(p.0, p.1))
  }

  /** `checked_from_micros`. */
  function CheckedFromMicros(micros: uint64): (r: Option<Duration>)
    ensures r == Some(FromMicros(micros))
    ensures TotalNanos(r.value) == micros * NANOS_PER_MICRO
  {
    CheckedDiv(micros, MICROS_PER_SEC)
      .Zip(CheckedRem(micros, MICROS_PER_SEC)
             .AndThen(r => TryIntoU32(r))
             .AndThen((r: uint32) => CheckedMulU32(r, NANOS_PER_MICRO)))
      .AndThen((p: (uint64, uint32)) => CheckedNew(p.0, p.1))
  }

  /** `checked_from_nanos`. */
  function CheckedFromNanos(nanos: uint64): (r: Option<Duration>)
    ensures r == Some(FromNanos(nanos))
    ensures TotalNanos(r.value) == nanos
  {
    CheckedDiv(nanos, NANOS_PER_SEC as uint64)
      .Zip(CheckedRem(nanos, NANOS_PER_SEC as uint64).AndThen(r => TryIntoU32(r)))
      .AndThen((p: (uint64, uint32)) => CheckedNew(p.0, p.1))
  }

  // ---------------------------------------------------------------------------
  // The integer implementations of `DurationNumExtFallible`

  /** The primitive integer types that implement the traits; a value of one of
      them is an `int` within its bounds. */
  datatype IntKind = I8 | I16 | I32 | I64 | I128 | U8 | U16 | U32 | U64 | U128 {

    function Min(): int {
      match this
      case I8 => -0x80
      case I16 => -0x8000
      case I32 => -0x8000_0000
      case I64 => -0x8000_0000_0000_0000
      case I128 => -0x8000_0000_0000_0000_0000_0000_0000_0000
      case _ => 0
    }

    function Max(): int {
      match this
      case I8 => 0x7F
      case I16 => 0x7FFF
      case I32 => 0x7FFF_FFFF
      case I64 => 0x7FFF_FFFF_FFFF_FFFF
      case I128 => 0x7FFF_FFFF_FFFF_FFFF_FFFF_FFFF_FFFF_FFFF
      case U8 => 0xFF
      case U16 => 0xFFFF
      case U32 => 0xFFFF_FFFF
      case U64 => 0xFFFF_FFFF_FFFF_FFFF
      case U128 => 0xFFFF_FFFF_FFFF_FFFF_FFFF_FFFF_FFFF_FFFF
    }

    predicate Contains(v: int) {
      Min() <= v <= Max()
    }

    /** `u8`, `u16`, `u32` and `u64`: the types that also get the direct,
        non-failing `DurationNumExt` methods. */
    predicate IsNarrowUnsigned() {
      U8? || U16? || U32? || U64?
    }
  }

  /** The seven postfix constructors of the traits. */
  datatype Unit = Seconds | Milliseconds | Microseconds | Nanoseconds | Minutes | Hours | Days {

    /** The units converted by an `extfn` constructor straight from the `u64`
        count; the others are first multiplied into seconds. */
    predicate IsSubMinute() {
      Seconds? || Milliseconds? || Microseconds? || Nanoseconds?
    }

    /** Seconds in one minute, hour or day. */
    function SecsPer(): uint64
      requires !IsSubMinute()
    {
      match this
      case Minutes => SECS_PER_MINUTE
      case Hours => SECS_PER_HOUR
      case Days => SECS_PER_DAY
    }

    /** Nanoseconds in one unit. */
    function NanosPer(): nat {
      match this
      case Seconds => NANOS_PER_SEC
      case Milliseconds => NANOS_PER_MILLI
      case Microseconds => NANOS_PER_MICRO
      case Nanoseconds => 1
      case Minutes => SECS_PER_MINUTE * NANOS_PER_SEC
      case Hours => SECS_PER_HOUR * NANOS_PER_SEC
      case Days => SECS_PER_DAY * NANOS_PER_SEC
    }
  }

  /** A `u64` count of whole minutes, hours or days as seconds (`checked_mul`). */
  function ToSecs(count: uint64, unit: Unit): Option<uint64>
    requires !unit.IsSubMinute()
  {
    CheckedMul(count, unit.SecsPer())
  }

  /** `DurationNumExtFallible` for an integer `v` of type `k`: narrow to `u64`
      (`try_into().ok()`), scale minutes, hours and days into seconds, then
      build the duration with the checked constructor of the unit. */
  function Fallible(k: IntKind, v: int, unit: Unit): (r: Option<Duration>)
    requires k.Contains(v)
    ensures r.Some? <==> 0 <= v <= U64_MAX && (!unit.IsSubMinute() ==> v * unit.SecsPer() <= U64_MAX)
    ensures r.Some? ==> TotalNanos(r.value) == v * unit.NanosPer()
  {
    var count := TryIntoU64(v);
    match unit
    case Seconds => count.AndThen(e => CheckedFromSecs(e))
    case Milliseconds => count.AndThen(e => CheckedFromMillis(e))
    case Microseconds => count.AndThen(e => CheckedFromMicros(e))
    case Nanoseconds => count.AndThen(e => CheckedFromNanos(e))
    case _ => count.AndThen((e: uint64) => ToSecs(e, unit)).AndThen(s => CheckedFromSecs(s))
  }

  /** The largest count each unit accepts: all of `u64` below a minute, and
      `u64::MAX` divided by the unit's seconds above. */
  lemma FallibleLimit(k: IntKind, v: int, unit: Unit)
    requires k.Contains(v)
    ensures Fallible(k, v, unit).Some? <==>
            0 <= v <= (if unit.IsSubMinute() then U64_MAX else U64_MAX / unit.SecsPer())
  {
    if !unit.IsSubMinute() {
      var f := unit.SecsPer();
      if 0 <= v {
        if v <= U64_MAX / f {
          assert v * f <= (U64_MAX / f) * f <= U64_MAX;
        } else {
          assert v >= U64_MAX / f + 1;
          assert v * f >= (U64_MAX / f + 1) * f > U64_MAX;
        }
      }
    }
  }

  /** The "theoretically infallible" types: below a minute, every `u8` to
      `u64` value converts. */
  lemma NarrowUnsignedNeverFails(k: IntKind, v: int, unit: Unit)
    requires k.IsNarrowUnsigned() && k.Contains(v) && unit.IsSubMinute()
    ensures Fallible(k, v, unit).Some?
  {
  }

  /** Negative values never convert. */
  lemma NegativeFails(k: IntKind, v: int, unit: Unit)
    requires k.Contains(v) && v < 0
    ensures Fallible(k, v, unit) == None
  {
  }

  /** `u128::MAX` converts to nothing in any unit. */
  lemma U128MaxFails(unit: Unit)
    ensures Fallible(U128, U128.Max(), unit) == None
  {
  }

  /** The documented examples: `10u128` in each unit is the `std` duration of
      the same length. */
  lemma FallibleExamples()
    ensures Fallible(U128, 10, Seconds) == Some(FromSecs(10))
    ensures Fallible(U128, 10, Milliseconds) == Some(FromMillis(10))
    ensures Fallible(U128, 10, Microseconds) == Some(FromMicros(10))
    ensures Fallible(U128, 10, Nanoseconds) == Some(FromNanos(10))
    ensures Fallible(U128, 10, Minutes) == Some(FromSecs(10 * 60))
    ensures Fallible(U128, 10, Hours) == Some(FromSecs(10 * 60 * 60))
    ensures Fallible(U128, 10, Days) == Some(FromSecs(10 * 60 * 60 * 24))
  {
  }

  /** The repository's integer duration tests: `10u8.seconds()` through both
      traits, and `u128::MAX.seconds()` through the fallible one. */
  lemma TestExamples()
    ensures Fallible(U8, 10, Seconds) == Some(FromSecs(10))
    ensures Fallible(U128, U128.Max(), Seconds) == None
    ensures Infallible(U8, 10, Seconds) == FromSecs(10)
  {
  }

  // ---------------------------------------------------------------------------
  // `DurationNumExt`

  /** `DurationNumExt` for an integer `v` of type `k`. For `u8` to `u64` below a
      minute it is the `std` constructor on `v as u64`; everywhere else it is
      the fallible method unwrapped, so it panics exactly when that is `None`. */
  function Infallible(k: IntKind, v: int, unit: Unit): (d: Duration)
    requires k.Contains(v)
    requires Fallible(k, v, unit).Some?
    ensures Fallible(k, v, unit) == Some(d)
    ensures TotalNanos(d) == v * unit.NanosPer()
  {
    if k.IsNarrowUnsigned() && unit.IsSubMinute() then
      match unit
      case Seconds => FromSecs(v)
      case Milliseconds => FromMillis(v)
      case Microseconds => FromMicros(v)
      case Nanoseconds => FromNanos(v)
    else
      Fallible(k, v, unit).Unwrap()
  }

  /** The documented examples of `DurationNumExt`. */
  lemma InfallibleExamples()
    ensures Infallible(U8, 10, Seconds) == FromSecs(10)
    ensures Infallible(U8, 10, Milliseconds) == FromMillis(10)
    ensures Infallible(U8, 10, Microseconds) == FromMicros(10)
    ensures Infallible(U8, 10, Nanoseconds) == FromNanos(10)
    ensures Infallible(U128, 10, Minutes) == FromSecs(10 * 60)
    ensures Infallible(U128, 10, Hours) == FromSecs(10 * 60 * 60)
    ensures Infallible(U128, 10, Days) == FromSecs(10 * 60 * 60 * 24)
  {
  }
}
