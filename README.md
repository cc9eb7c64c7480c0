# rust-std-ext core, modelled in Dafny

This project models three parts of the `std-ext` Rust crate, which adds extension traits to standard types:

- **Duration construction from numbers** (`src/time.rs`). This covers the checked constructors of `extfn`, the integer implementations of `DurationNumExtFallible`, and the `DurationNumExt` methods. A `Duration` is a pair of whole seconds (`u64`) and sub-second nanoseconds (below 10^9). `TotalNanos` gives its length, and every constructor is proved to produce a duration of exactly the requested length. `checked_new` is proved to fail exactly when the carried seconds overflow `u64`. The integer `minutes`, `hours` and `days` are proved to fail exactly when the value is negative, or when it times 60, 3600 or 86400 exceeds `u64::MAX`.
- **Positional tuple transforms** (`src/tuple.rs`, `src/tuple_short_impl.rs`). A tuple is the sequence of its elements. The instance table is written out as data: which (arity, position) pairs have an instance, and for insert and remove the output order each instance lists. Every row is proved equal to the generic splice or delete. Zip, insert, remove and concat are proved to append, splice, delete and concatenate. Removing the position just inserted at is proved to give back the input.
- **Option/Result combinators** (`src/option.rs`, `src/result.rs`, `src/unwrap.rs`). These are case analyses on two-variant datatypes. An update through `&mut` becomes a `T -> T` function. A panic becomes a precondition.

The Rust standard library pieces these rely on are in `std.dfy` (module `Std`). They are `Option`, `Result`, `u32`/`u64` with `checked_*` and `try_into`, and `Duration` with `new` and `from_*` as the standard library documents them.

The crate's documentation (`src/tuple.rs:5`, `src/tuple.rs:132-135`) says the default concat limit is a result of five elements. The short instance table that is always compiled goes up to ten (`src/tuple_short_impl.rs:63-97`). The model follows the table.

## Model

| member | source | states |
|---|---|---|
| Time.CheckedNew | src/time.rs:558-565 | `None` exactly when `secs + nanos / 10^9` exceeds `u64::MAX`; otherwise those seconds and `nanos % 10^9`, a duration of exactly `secs * 10^9 + nanos` nanoseconds |
| Time.CheckedFromSecs | src/time.rs:502-504 | always `Some`, equal to `Duration::from_secs` (`secs` seconds, 0 nanos) |
| Time.CheckedFromMillis | src/time.rs:509-519 | always `Some`, equal to `Duration::from_millis`, of length `millis * 10^6` ns; the `u32` narrowing and `checked_mul` never fail |
| Time.CheckedFromMicros | src/time.rs:524-534 | always `Some`, equal to `Duration::from_micros`, of length `micros * 1000` ns |
| Time.CheckedFromNanos | src/time.rs:539-548 | always `Some`, equal to `Duration::from_nanos`, of length `nanos` ns |
| Time.Fallible | src/time.rs:381-430 | integer `DurationNumExtFallible`: `Some` iff `0 <= v <= u64::MAX` and, for minutes/hours/days, `v * 60/3600/86400 <= u64::MAX`; the result is `v` units long |
| Time.FallibleLimit | src/time.rs:403-428 | the largest accepted count is `u64::MAX` below a minute and `u64::MAX / 60`, `/ 3600`, `/ 86400` for minutes, hours, days |
| Time.NarrowUnsignedNeverFails | src/time.rs:433-435 | for `u8` to `u64`, seconds, millis, micros and nanos never return `None` |
| Time.NegativeFails | src/time.rs:384-428 | a negative value gives `None` in every unit |
| Time.U128MaxFails | src/time.rs:150-152 | `u128::MAX` gives `None` in every unit |
| Time.FallibleExamples | src/time.rs:143-230 | the documented `10u128` results in all seven units |
| Time.TestExamples | tests/test_duration.rs:12-27 | the integer tests: `10u8.seconds()` is `from_secs(10)` through both traits, and `u128::MAX.seconds()` is `None` |
| Time.Infallible | src/time.rs:339-374 | `DurationNumExt`: callable exactly when the fallible method is `Some` (it panics otherwise) and equal to it unwrapped; for `u8`..`u64` below a minute, the direct `std` constructor agrees with the fallible path |
| Time.InfallibleExamples | src/time.rs:17-121 | the documented `DurationNumExt` examples |
| TupleMacros.Place | src/tuple.rs:182-196 | an instance's output tuple has one element per slot of its row |
| TupleMacros.PlaceAt | src/tuple.rs:182-196 | element k of an instance's output is the input element, or the argument, that slot k of its row names |
| TupleMacros.PlaceOwns | src/tuple.rs:167-169 | a run of input slots in order copies that slice of the input (the `let (a, b, ..) = self` destructuring) |
| TupleMacros.PlaceArgs | src/tuple.rs:227-229 | the slots of the whole argument tuple copy the argument |
| TupleMacros.PlaceAppend | src/tuple.rs:220-234 | the output of two rows one after the other is the two outputs one after the other |
| TupleMacros.PlaceSpliceRow | src/tuple.rs:182-196 | the splice order places exactly `t[..p] + [v] + t[p..]` |
| TupleMacros.PlaceDeleteRow | src/tuple.rs:204-218 | the delete order places exactly `t[..p] + t[p + 1..]` |
| TupleMacros.ZipRow | src/tuple.rs:161-173 | defines the zip macro's output order; it has n + 1 slots (its content is proved through `Tuple.Zip`) |
| TupleMacros.ConcatRow | src/tuple.rs:220-234 | defines the concat macro's output order; it has n + m slots (its content is proved through `Tuple.Concat`) |
| TupleShortImpl.InsertTableDomain | src/tuple_short_impl.rs:13-32 | an insert instance exists iff the arity is 1..5 and the position is at most the arity (n + 1 positions) |
| TupleShortImpl.RemoveTableDomain | src/tuple_short_impl.rs:40-61 | a remove instance exists iff the arity is 1..5 and the position is below it, the 1-tuple case included |
| TupleShortImpl.ConcatTableDomain | src/tuple_short_impl.rs:63-97 | a concat instance exists iff the left arity is 1..5, the right is at least 1, and the sum is at most 10 |
| TupleShortImpl.InsertRowIsSplice | src/tuple_short_impl.rs:13-32 | every listed insert row is the prefix, the new value, then the rest |
| TupleShortImpl.RemoveRowIsDelete | src/tuple_short_impl.rs:40-61 | every listed remove row is the input order without the removed position; the hand-written 1-tuple row is empty |
| Tuple.Zip | src/tuple.rs:161-173 | arity n + 1, the input as prefix, the value last |
| Tuple.InsertExact | src/tuple.rs:182-196 | arity n + 1; elements before `pos` keep their index, `val` is at `pos`, the rest shift up by one |
| Tuple.Insert | src/tuple.rs:71-78 | the generic-position method gives the splice `t[..pos] + [val] + t[pos..]`, as its exact instance does |
| Tuple.RemoveExact | src/tuple.rs:204-218 | arity n - 1; equal to the input without element `pos` |
| Tuple.Remove | src/tuple.rs:119-126 | the generic-position method: element k is input element k before `pos` and k + 1 from it on |
| Tuple.Concat | src/tuple.rs:220-234 | arity a + b, left tuple as prefix, right tuple as suffix |
| Tuple.RemoveAfterInsert | src/tuple_short_impl.rs:13-61 | for arity 1..4 and every position p ≤ n, removing at p after inserting at p gives the input back |
| Tuple.InsertAtEndIsZip | src/tuple_short_impl.rs:1-32 | inserting at the last position equals zipping |
| Tuple.ConcatSingleIsZip | src/tuple_short_impl.rs:1-97 | concatenating a 1-tuple equals zipping its element |
| Tuple.RemoveAfterZip | src/tuple_short_impl.rs:1-61 | removing the last position of a zipped tuple gives the input back |
| Tuple.RemoveOnlyElement | src/tuple_short_impl.rs:40-47 | removing position 0 of a 1-tuple gives the empty tuple |
| Tuple.DocExamples | src/tuple.rs:15-147 | the documented zip, insert, remove and concat examples |
| Tuple.TestExamples | tests/test_tuple.rs:1-32 | the repository's tuple tests |
| OptionExt.ErrOr | src/option.rs:108-113 | `Some(t)` becomes `Err(t)`, `None` becomes `Ok(ok)` |
| OptionExt.ErrOrElse | src/option.rs:115-120 | `Some(t)` becomes `Err(t)`, `None` becomes `Ok(f())` |
| OptionExt.ErrOrDefault | src/option.rs:122-127 | `Some(t)` becomes `Err(t)`, `None` becomes `Ok(default)` |
| OptionExt.IsNoneOr | src/option.rs:129-134 | true iff the option is `None` or `f` holds of its value |
| OptionExt.ExpectNone | src/option.rs:136-140 | returns only on `None` (precondition); `Some` panics |
| OptionExt.TapMut | src/option.rs:142-148 | `None` stays `None`; `Some(v)` becomes `Some(f(v))` |
| OptionExt.ErrOrIsSwappedOkOr | src/option.rs:5-22 | `err_or` puts the value on the error side: `.err()` of it is the option, `.ok()` is `ok` only on `None` |
| OptionExt.ErrOrVariantsAgree | src/option.rs:108-127 | `err_or_else(f)` and `err_or_default` are `err_or` with the produced value |
| OptionExt.IsNoneOrIsNotSomeAndNot | src/option.rs:55-68 | `is_none_or(f)` equals `!is_some_and(!f)` |
| OptionExt.IsNoneOrIsNotAsDocumented | src/option.rs:55-68 | the documented formula `is_some_and(!f)` differs from `is_none_or(f)` on every input |
| OptionExt.TapMutIsMap | src/option.rs:142-148 | `tap_mut(f)` equals `map(f)` |
| OptionExt.TapMutCompose | src/option.rs:142-148 | two taps equal one tap with the composed update |
| OptionExt.Examples | src/option.rs:14-102 | the documented examples of `err_or`, `err_or_else`, `err_or_default`, `is_none_or` and `tap_mut` |
| ResultExt.TapMut | src/result.rs:47-53 | keeps the variant; `Ok(v)` becomes `Ok(f(v))`; an `Err` is unchanged |
| ResultExt.TapErrMut | src/result.rs:55-61 | keeps the variant; `Err(e)` becomes `Err(f(e))`; an `Ok` is unchanged |
| ResultExt.Swap | src/result.rs:63-68 | `Ok(t)` becomes `Err(t)` and `Err(e)` becomes `Ok(e)` |
| ResultExt.SwapInvolution | src/result.rs:63-68 | swapping twice gives the input |
| ResultExt.TapMutThroughSwap | src/result.rs:47-68 | tapping `Ok` then swapping equals swapping then tapping `Err` |
| ResultExt.TapsCommute | src/result.rs:47-61 | the two taps commute |
| ResultExt.Examples | src/result.rs:8-42 | the documented examples |
| UnwrapExt.UnwrapResultOption | src/unwrap.rs:26-32 | defined only on `Ok(Some(x))` and returns that `x` |
| UnwrapExt.UnwrapResultResult | src/unwrap.rs:34-40 | defined only on `Ok(Ok(x))` and returns that `x` |
| UnwrapExt.UnwrapOptionResult | src/unwrap.rs:42-48 | defined only on `Some(Ok(x))` and returns that `x` |
| UnwrapExt.UnwrapOptionOption | src/unwrap.rs:50-56 | defined only on `Some(Some(x))` and returns that `x` |
| UnwrapExt.UnwrapAllRoundTrips | src/unwrap.rs:26-56 | wrapping a value in both layers and unwrapping gives it back |
| UnwrapExt.Example | src/unwrap.rs:17-21 | `Ok(Some(10)).unwrap_all() == 10` |

## Findings

| source | as written | input that shows it | evidently intended | confidence | as-written member | corrected member |
|---|---|---|---|---|---|---|
| src/option.rs:57 | the doc comment calls `is_none_or(f)` equivalent to `is_some_and(!f)`, while the code at `src/option.rs:129-134` computes its negation | `None.is_none_or(f)` is `true`, but `None.is_some_and(!f)` is `false` | `is_none_or(f)` equals `!is_some_and(!f)`; the code is right and the doc misses the outer negation | not executed | OptionExt.IsNoneOrIsNotAsDocumented | OptionExt.IsNoneOrIsNotSomeAndNot |

The model follows the code. `OptionExt.IsNoneOr` is defined as the code computes it.

## Left out

- Float implementations of `DurationNumExtFallible` (`src/time.rs:437-484`): floating-point arithmetic is not modelled.
- `BigInt`/`BigUint` implementations (`src/time.rs:237-330`): they call the `num` crate's `to_u64`, which is not part of this model. On values that fit, they behave as `Time.Fallible` does.
- `src/tuple_long_impl.rs` (the `long-tuple-impl` feature) is not part of this model. Only the short table is modelled.
- `src/vec.rs`, `src/compile_warning.rs`, `src/lib.rs` and the empty `DurationExt` trait are not modelled. They delegate to std sorting and reversing, emit a compile-time warning, or wire modules together.
- Trait resolution and macro identifier pasting are not modelled. A missing (arity, position) instance is a compile error in Rust; here it is a precondition over the instance table.
- Heterogeneous element types are not modelled. A tuple is a `seq<T>`; the examples use a tagged `Value` type.
- Panic messages (`expect_none`'s `msg`, `unwrap`'s `Debug` output) are not modelled. A panic is a precondition.
- OptionExt.ExpectNone: has no postcondition, because it returns nothing; its only content is the precondition that the option is `None`.
- OptionExt.ErrOrElse: the closure's laziness and side effects are not modelled; `f` is a pure function.
- OptionExt.TapMut, ResultExt.TapMut, ResultExt.TapErrMut: the `&mut` update is a pure `T -> T` function; side effects of the closure beyond the new value are not modelled.
