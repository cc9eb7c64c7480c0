/** `UnwrapExt::unwrap_all`: both layers of a nested `Option`/`Result`
    unwrapped; it panics when either layer is `None` or `Err`. */
module UnwrapExt {
  import opened Std

  /** On `Result<Option<T>, E>`. */
  function UnwrapResultOption<T, E>(r: Result<Option<T>, E>): (x: T)
    requires r.Ok? && r.value.Some?
    ensures r == Ok(Some(x))
  {
    r.Unwrap().Unwrap()
  }

  /** On `Result<Result<T, E1>, E2>`. */
  function UnwrapResultResult<T, E1, E2>(r: Result<Result<T, E1>, E2>): (x: T)
    requires r.Ok? && r.value.Ok?
    ensures r == Ok(Ok(x))
  {
    r.Unwrap().Unwrap()
  }

  /** On `Option<Result<T, E>>`. */
  function UnwrapOptionResult<T, E>(o: Option<Result<T, E>>): (x: T)
    requires o.Some? && o.value.Ok?
    ensures o == Some(Ok(x))
  {
    o.Unwrap().Unwrap()
  }

  /** On `Option<Option<T>>`. */
  function UnwrapOptionOption<T>(o: Option<Option<T>>): (x: T)
    requires o.Some? && o.value.Some?
    ensures o == Some(Some(x))
  {
    o.Unwrap().Unwrap()
  }

  /** Wrapping a value in both layers and unwrapping them gives it back. */
  lemma UnwrapAllRoundTrips<T, E>(x: T)
    ensures UnwrapResultOption(Result<Option<T>, E>.Ok(Some(x))) == x
    ensures UnwrapResultResult(Result<Result<T, E>, E>.Ok(Ok(x))) == x
    ensures UnwrapOptionResult(Some(Result<T, E>.Ok(x))) == x
    ensures UnwrapOptionOption(Some(Some(x))) == x
  {
  }

  /** The documented example. */
  lemma Example()
    ensures UnwrapResultOption(Result<Option<int>, string>.Ok(Some(10))) == 10
  {
  }
}
