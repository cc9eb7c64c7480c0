/** `OptionExt`: conversions of an `Option` into a `Result` that treat the
    contained value as the error, a predicate that holds on `None`, a guard
    that panics on `Some`, and an in-place update of the contained value. */
module OptionExt {
  import opened Std

  /** `err_or`: the value becomes the error; `None` becomes `Ok(ok)`. */
  function ErrOr<T, U>(o: Option<T>, ok: U): (r: Result<U, T>)
    ensures r.Err? <==> o.Some?
    ensures o.Some? ==> r.error == o.value
    ensures o.None? ==> r.value == ok
  {
    match o
    case Some(t) => Err(t)
    case None => Ok(ok)
  }

  /** `err_or_else`: as `err_or`, with the `Ok` value produced by `f`. */
  function ErrOrElse<T, U>(o: Option<T>, f: () -> U): (r: Result<U, T>)
    ensures r.Err? <==> o.Some?
    ensures o.Some? ==> r.error == o.value
    ensures o.None? ==> r.value == f()
  {
    match o
    case Some(t) => Err(t)
    case None => Ok(f())
  }

  /** `err_or_default`: as `err_or`, with `U::default()` (the parameter
      `dflt`) as the `Ok` value. */
  function ErrOrDefault<T, U>(o: Option<T>, dflt: U): (r: Result<U, T>)
    ensures r.Err? <==> o.Some?
    ensures o.Some? ==> r.error == o.value
    ensures o.None? ==> r.value == dflt
  {
    match o
    case Some(t) => Err(t)
    case None => Ok(dflt)
  }

  /** `is_none_or`: `true` on `None`, the predicate's verdict on `Some`. */
  function IsNoneOr<T>(o: Option<T>, f: T -> bool): (b: bool)
    ensures b <==> o.None? || f(o.value)
  {
    match o
    case Some(t) => f(t)
    case None => true
  }

  /** `expect_none`: returns only when the option is `None`; on `Some` it
      panics with `msg`. */
  method ExpectNone<T>(o: Option<T>, msg: string)
    requires o.None?
  {
  }

  /** `tap_mut`: `f` updates the contained value; `None` stays `None`. */
  function TapMut<T>(o: Option<T>, f: T -> T): (r: Option<T>)
    ensures r.Some? <==> o.Some?
    ensures o.Some? ==> r.value == f(o.value)
  {
    match o
    case Some(v) => Some(f(v))
    case None => None
  }

  /** `err_or` is the standard `ok_or` with the two variants exchanged. */
  lemma ErrOrIsSwappedOkOr<T, U>(o: Option<T>, ok: U)
    ensures ErrOr(o, ok).OkValue() == (if o.Some? then None else Some(ok))
    ensures ErrOr(o, ok).ErrValue() == o
    ensures o.OkOr(ok).OkValue() == o
  {
  }

  /** The three conversions agree when they produce the same `Ok` value. */
  lemma ErrOrVariantsAgree<T, U>(o: Option<T>, f: () -> U)
    ensures ErrOrElse(o, f) == ErrOr(o, f())
    ensures ErrOrDefault(o, f()) == ErrOr(o, f())
  {
  }

  /** `is_none_or(f)` is the negation of `is_some_and(!f)`. */
  lemma IsNoneOrIsNotSomeAndNot<T>(o: Option<T>, f: T -> bool)
    ensures IsNoneOr(o, f) == !o.IsSomeAnd(x => !f(x))
  {
  }

  /** The formula `is_some_and(!f)` given in `is_none_or`'s doc comment
      disagrees with `is_none_or` on every input. */
  lemma IsNoneOrIsNotAsDocumented<T>(o: Option<T>, f: T -> bool)
    ensures IsNoneOr(o, f) != o.IsSomeAnd(x => !f(x))
  {
  }

  /** `tap_mut` is the standard `map` with a function of the same type. */
  lemma TapMutIsMap<T>(o: Option<T>, f: T -> T)
    ensures TapMut(o, f) == o.Map(f)
  {
  }

  /** Two taps are one tap with the composed update. */
  lemma TapMutCompose<T>(o: Option<T>, f: T -> T, g: T -> T)
    ensures TapMut(TapMut(o, f), g) == TapMut(o, x => g(f(x)))
  {
  }

  /** The documented examples (`"4"` tapped with a push of `'2'`; `0` is
      `usize::default()`). */
  lemma Examples()
    ensures ErrOr(Some("err"), 0) == Err("err")
    ensures ErrOr(None, 0) == Result<int, string>.Ok(0)
    ensures ErrOrElse(Some("err"), () => 0) == Err("err")
    ensures ErrOrElse(None, () => 0) == Result<int, string>.Ok(0)
    ensures ErrOrDefault(Some("err"), 0) == Err("err")
    ensures ErrOrDefault(None, 0) == Result<int, string>.Ok(0)
    ensures IsNoneOr(None, (i: int) => i == 2)
    ensures !IsNoneOr(Some(5), (i: int) => i == 2)
    ensures TapMut(Some("4"), (s: string) => s + "2") == Some("42")
  {
    assert "4" + "2" == "42";
  }
}
