/**
 The Python values that cross the boundary of the scoring service: `None` as the
 empty Option, "returned or raised" as a Result, raw `bytes`, and the exceptions
 the request glue can raise or has to classify.
 */
module Python {

  datatype Option<+T> = None | Some(value: T)

  /** Either the value a Python call returned, or the exception it raised. */
  datatype Result<+R, +E> = Success(value: R) | Failure(error: E)

  /** One element of a Python `bytes` object. */
  type byte = x: int | 0 <= x < 256

  type bytes = seq<byte>

  /**
   The exception classes that occur at the boundary: the five label-extraction errors
   of the scoring pipeline, the built-in errors the glue itself raises, a failure of
   the HTTP client, and any other class by name.
   */
  datatype ExceptionKind =
    | MaterialNotFound
    | CountryNotFound
    | TextNotFound
    | MissingMaterialPercentage
    | MultipleLabelErrors
    | ValueError
    | TypeError
    | NotImplementedError
    | RequestException
    | OtherException(name: string)

  /** An exception object: its class and whatever payload it carries. */
  datatype Exception = Exception(kind: ExceptionKind, detail: string)

  /**
   A loop or comprehension that applies a step which may raise to every element, left
   to right, collecting the results: the first step that raises ends it with that
   exception.
   */
  function MapInOrder<A, B>(xs: seq<A>, f: A -> Result<B, Exception>): Result<seq<B>, Exception>
    decreases |xs|
  {
    if |xs| == 0 then Success([])
    else match MapInOrder(xs[..|xs| - 1], f)
      case Failure(e) => Failure(e)
      case Success(init) =>
        match f(xs[|xs| - 1])
        case Failure(e) => Failure(e)
        case Success(y) => Success(init + [y])
  }

  /** The loop completes exactly when no step raises, and then holds every step's result in order. */
  lemma {:induction false} MapInOrderSuccess<A, B>(xs: seq<A>, f: A -> Result<B, Exception>)
    ensures MapInOrder(xs, f).Success? <==> forall i :: 0 <= i < |xs| ==> f(xs[i]).Success?
    ensures MapInOrder(xs, f).Success? ==>
      |MapInOrder(xs, f).value| == |xs| &&
      forall i :: 0 <= i < |xs| ==> MapInOrder(xs, f).value[i] == f(xs[i]).value
    decreases |xs|
  {
    if |xs| > 0 {
      var init := xs[..|xs| - 1];
      MapInOrderSuccess(init, f);
      assert forall i :: 0 <= i < |init| ==> init[i] == xs[i];
    }
  }

  /** The exception of the first step that raises is the exception of the whole loop. */
  lemma {:induction false} MapInOrderFirstFailure<A, B>(xs: seq<A>, f: A -> Result<B, Exception>, k: nat)
    requires k < |xs| && f(xs[k]).Failure?
    requires forall j :: 0 <= j < k ==> f(xs[j]).Success?
    ensures MapInOrder(xs, f) == Failure(f(xs[k]).error)
    decreases |xs|
  {
    var init := xs[..|xs| - 1];
    if k < |xs| - 1 {
      assert init[k] == xs[k];
      assert forall j :: 0 <= j < k ==> init[j] == xs[j];
      MapInOrderFirstFailure(init, f, k);
    } else {
      assert forall j :: 0 <= j < |init| ==> init[j] == xs[j];
      MapInOrderSuccess(init, f);
    }
  }

  /** Once a prefix of the elements has raised, the rest of the loop does not run. */
  lemma {:induction false} MapInOrderPrefixFailure<A, B>(xs: seq<A>, f: A -> Result<B, Exception>, n: nat)
    requires n <= |xs| && MapInOrder(xs[..n], f).Failure?
    ensures MapInOrder(xs, f) == MapInOrder(xs[..n], f)
    decreases |xs| - n
  {
    if n < |xs| {
      assert xs[..n + 1][..n] == xs[..n];
      MapInOrderPrefixFailure(xs, f, n + 1);
    } else {
      assert xs[..n] == xs;
    }
  }

  /** A loop that raised did so at a step that raised, every step before it having returned. */
  lemma {:induction false} MapInOrderFailureAt<A, B>(xs: seq<A>, f: A -> Result<B, Exception>) returns (k: nat)
    requires MapInOrder(xs, f).Failure?
    ensures k < |xs| && f(xs[k]).Failure? && MapInOrder(xs, f).error == f(xs[k]).error
    ensures forall j :: 0 <= j < k ==> f(xs[j]).Success?
    decreases |xs|
  {
    var init := xs[..|xs| - 1];
    assert forall j :: 0 <= j < |init| ==> init[j] == xs[j];
    if MapInOrder(init, f).Failure? {
      k := MapInOrderFailureAt(init, f);
    } else {
      MapInOrderSuccess(init, f);
      k := |xs| - 1;
    }
  }
}
