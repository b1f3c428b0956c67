/** Failure-compatible result types shared by every handler of the codec.
    The error constructors follow the failure kinds the handlers raise:
    a required field missing from a structural payload, a payload of the
    wrong shape for the operation applied to it, a scalar string that does
    not parse, and a wire tag with no registered handler. */
module Results {

  datatype Option<+T> = None | Some(value: T)

  datatype Error =
    | MissingField(field: string)     // `v["id"]` on a payload without that key
    | NotSubscriptable                // `v["id"]` on a payload that is not an object
    | NotIterable                     // `for x in v` / `set(v)` on a scalar payload
    | Unhashable                      // a list, dict or set placed in a set
    | NotAString                      // a text parser applied to a non-string payload
    | ParseError(text: string)        // a string payload that does not parse
    | UnsupportedType(tag: string)    // a wire tag with no handler in the table
    | Unmodelled(what: string)        // a library behaviour this model does not describe

  datatype Result<+T> = Ok(value: T) | Err(error: Error) {

    predicate IsFailure() {
      Err?
    }

    function PropagateFailure<U>(): Result<U>
      requires Err?
    {
      Err(error)
    }

    function Extract(): T
      requires Ok?
    {
      value
    }
  }

  /** Applies `f` to each element in order and stops at the first failure,
      as a Python loop that appends `f(x)` stops at the first exception. */
  function MapAll<A, B>(xs: seq<A>, f: A -> Result<B>): (r: Result<seq<B>>)
    ensures r.Ok? <==> forall i :: 0 <= i < |xs| ==> f(xs[i]).Ok?
    ensures r.Ok? ==> |r.value| == |xs| && forall i :: 0 <= i < |xs| ==> Ok(r.value[i]) == f(xs[i])
    ensures r.Err? ==> exists i :: 0 <= i < |xs| && f(xs[i]) == Err(r.error)
                                   && forall j :: 0 <= j < i ==> f(xs[j]).Ok?
  {
    if |xs| == 0 then Ok([])
    else
      var head :- f(xs[0]);
      var tail :- MapAll(xs[1..], f);
      Ok([head] + tail)
  }

  /** `outer` is `inner` with its success value passed through `f`. */
  predicate Wraps<A, B(==)>(outer: Result<B>, inner: Result<A>, f: A -> B)
  {
    match inner
    case Ok(a) => outer == Ok(f(a))
    case Err(e) => outer == Err(e)
  }
}
