/** Outcome types shared by every module: an optional value, a result that is
    either a value or a raised Python exception, and the exceptions the
    modelled code raises. */
module Base {

  datatype Option<+T> = None | Some(value: T)

  /** The Python exceptions the modelled code can raise. `Raised` carries an
      exception raised by a caller-supplied function; `Unmodelled` marks the
      one behaviour this model cannot express (iterating a dict, whose key
      order it does not keep). */
  datatype Error =
    | ValueError
    | IndexError
    | TypeError
    | AttributeError
    | Raised(reason: string)
    | Unmodelled

  datatype Result<+T> = Ok(value: T) | Err(error: Error)

  /** `Ok(prefix + rest)` when `r` is `Ok(rest)`; the same failure otherwise. */
  function Prepend<T>(prefix: seq<T>, r: Result<seq<T>>): (p: Result<seq<T>>)
    ensures p.Ok? <==> r.Ok?
    ensures p.Ok? ==> p.value == prefix + r.value
    ensures p.Err? ==> p == r
  {
    match r
    case Ok(rest) => Ok(prefix + rest)
    case Err(e) => Err(e)
  }

  lemma PrependAssoc<T>(a: seq<T>, b: seq<T>, r: Result<seq<T>>)
    ensures Prepend(a, Prepend(b, r)) == Prepend(a + b, r)
  {
    if r.Ok? {
      assert a + (b + r.value) == (a + b) + r.value;
    }
  }
}
