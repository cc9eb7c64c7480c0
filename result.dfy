/** `ResultExt`: in-place updates of the `Ok` or the `Err` value, and the
    exchange of the two variants. */
module ResultExt {
  import opened Std

  /** `tap_mut`: `f` updates an `Ok` value; an `Err` is left as it is. */
  function TapMut<T, E>(r: Result<T, E>, f: T -> T): (s: Result<T, E>)
    ensures s.Ok? <==> r.Ok?
    ensures r.Ok? ==> s.value == f(r.value)
    ensures r.Err? ==> s == r
  {
    match r
    case Ok(v) => Ok(f(v))
    case Err(_) => r
  }

  /** `tap_err_mut`: `f` updates an `Err` value; an `Ok` is left as it is. */
  function TapErrMut<T, E>(r: Result<T, E>, f: E -> E): (s: Result<T, E>)
    ensures s.Err? <==> r.Err?
    ensures r.Err? ==> s.error == f(r.error)
    ensures r.Ok? ==> s == r
  {
    match r
    case Ok(_) => r
    case Err(e) => Err(f(e))
  }

  /** `swap`: the `Ok` value becomes the error and the error the `Ok` value. */
  function Swap<T, E>(r: Result<T, E>): (s: Result<E, T>)
    ensures s.Ok? <==> r.Err?
    ensures r.Ok? ==> s.error == r.value
    ensures r.Err? ==> s.value == r.error
  {
    match r
    case Ok(t) => Err(t)
    case Err(e) => Ok(e)
  }

  /** Swapping twice changes nothing. */
  lemma SwapInvolution<T, E>(r: Result<T, E>)
    ensures Swap(Swap(r)) == r
  {
  }

  /** Tapping the `Ok` value is tapping the error of the swapped result. */
  lemma TapMutThroughSwap<T, E>(r: Result<T, E>, f: T -> T)
    ensures Swap(TapMut(r, f)) == TapErrMut(Swap(r), f)
  {
  }

  /** The two taps touch different variants, so their order does not matter. */
  lemma TapsCommute<T, E>(r: Result<T, E>, f: T -> T, g: E -> E)
    ensures TapErrMut(TapMut(r, f), g) == TapMut(TapErrMut(r, g), f)
  {
  }

  /** The documented examples. */
  lemma Examples()
    ensures TapMut(Result<string, int>.Ok("4"), s => s + "2") == Ok("42")
    ensures TapErrMut(Result<string, int>.Err(40), e => e + 2) == Err(42)
    ensures Swap(Result<string, int>.Ok("foo")) == Err("foo")
  {
    assert "4" + "2" == "42";
  }
}
