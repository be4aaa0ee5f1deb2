/**
 * Failure-compatible wrappers shared by the kCSD model, and the error
 * conditions the engine can raise.
 */
module Base {

  /** The exceptions the modelled engine raises, one constructor per cause. */
  datatype Error =
    | EmptyElectrodes   // np.min / np.max over an empty electrode column
    | ZeroSpacing       // (max - min) / gd with gd == 0
    | NegativeCount     // np.linspace asked for a negative number of samples
    | InvalidBasis      // source_type not among the basis types
    | EmptySearch       // np.min over an empty cross-validation error matrix

  datatype Option<+T> = None | Some(value: T) {
    /** The wrapped value, or `default` when absent (dict.get with a default). */
    function GetOr(default: T): T {
      match this
      case Some(v) => v
      case None => default
    }
  }

  datatype Result<+T> = Ok(value: T) | Err(error: Error) {
    predicate IsFailure() { Err? }
    function PropagateFailure<U>(): Result<U>
      requires Err?
    {
      Err(error)
    }
    function Extract(): T
      requires Ok?
    {
      value
    }
  }

  /** f(xs[0]), ..., f(xs[k - 1]) in order: what a loop appending f of each element builds. */
  function Tabulate<X, Y>(f: X --> Y, xs: seq<X>, k: nat): (ys: seq<Y>)
    requires k <= |xs| && forall i :: 0 <= i < k ==> f.requires(xs[i])
    ensures |ys| == k
  {
    if k == 0 then [] else Tabulate(f, xs, k - 1) + [f(xs[k - 1])]
  }

  /** Entry j of a tabulation is f of element j. */
  lemma {:induction false} TabulateAt<X, Y>(f: X --> Y, xs: seq<X>, k: nat, j: nat)
    requires j < k <= |xs| && forall i :: 0 <= i < k ==> f.requires(xs[i])
    ensures Tabulate(f, xs, k)[j] == f(xs[j])
  {
    if j < k - 1 {
      TabulateAt(f, xs, k - 1, j);
    }
  }
}
