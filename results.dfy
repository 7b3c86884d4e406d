/** Failure-compatible wrappers and the Python exceptions the scripts raise. */
module Results {

  datatype Option<+T> = None | Some(value: T)

  datatype Result<+T, +E> = Success(value: T) | Failure(error: E)

  /** The outcome of a procedure that returns nothing (Python's `None`) or raises. */
  datatype Outcome<+E> = Pass | Fail(error: E)

  /** The Python exceptions that the modelled code can raise. */
  datatype PyError =
    | FileNotFoundError(path: seq<string>)
    | IndexError
    | ValueError(text: string)
    | KeyError(key: string)

  /**
   * Applies `f` to every element in order and collects the results, stopping
   * at the first failure: a loop whose body may raise.
   */
  function MapResult<T, U, E>(xs: seq<T>, f: T -> Result<U, E>): (r: Result<seq<U>, E>)
    ensures r.Success? <==> forall k :: 0 <= k < |xs| ==> f(xs[k]).Success?
    ensures r.Success? ==> |r.value| == |xs|
    ensures r.Success? ==> forall k :: 0 <= k < |xs| ==> f(xs[k]) == Success(r.value[k])
    ensures r.Failure? ==> exists k :: 0 <= k < |xs| && f(xs[k]) == Failure(r.error)
                                     && forall j :: 0 <= j < k ==> f(xs[j]).Success?
    decreases |xs|
  {
    if xs == [] then Success([])
    else
      var prefix := xs[..|xs| - 1];
      match MapResult(prefix, f)
      case Failure(e) =>
        assert forall k :: 0 <= k < |prefix| ==> prefix[k] == xs[k];
        Failure(e)
      case Success(prev) =>
        match f(xs[|xs| - 1])
        case Failure(e) => Failure(e)
        case Success(y) => Success(prev + [y])
  }

  /** One more element: the traversal of `xs[..i + 1]` extends that of `xs[..i]` by `f(xs[i])`. */
  lemma MapResultSnoc<T, U, E>(xs: seq<T>, i: nat, f: T -> Result<U, E>, prev: seq<U>)
    requires i < |xs|
    requires MapResult(xs[..i], f) == Success(prev)
    ensures MapResult(xs[..i + 1], f) == match f(xs[i]) case Success(y) => Success(prev + [y]) case Failure(e) => Failure(e)
  {
    assert xs[..i + 1][..i] == xs[..i];
  }

  /** Once a prefix fails, the whole traversal fails with the same error. */
  lemma {:induction false} MapResultFailurePropagates<T, U, E>(xs: seq<T>, i: nat, f: T -> Result<U, E>)
    requires i <= |xs|
    requires MapResult(xs[..i], f).Failure?
    ensures MapResult(xs, f) == MapResult(xs[..i], f)
    decreases |xs| - i
  {
    if i < |xs| {
      assert xs[..i + 1][..i] == xs[..i];
      MapResultFailurePropagates(xs, i + 1, f);
    } else {
      assert xs[..i] == xs;
    }
  }
}
