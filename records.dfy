/**
 The normalised record shapes of the scraper (an error code, its symbolic
 alias and its description), the structural failures the extraction can
 raise, and the "apply a per-element rule to every element, stopping at the
 first failure" combinator that every per-page loop of the scraper follows.
 */
module Records {

  /** One documented error code of one source. */
  datatype ErrorDetail = ErrorDetail(code: int, alias: string, description: string)

  /** The full, ordered output of one source. */
  datatype ErrorDetails = ErrorDetails(errors: seq<ErrorDetail>)

  /** The exceptions a malformed page raises; none of them is caught. */
  datatype Error =
    | AttributeError  // a lookup returned None and an attribute of it was read
    | IndexError      // a list was indexed past its end
    | ValueError      // int() was given a string that is not an integer literal

  datatype Option<+T> = None | Some(value: T) {
    predicate IsFailure() { None? }
    function PropagateFailure<U>(): Option<U> requires None? { None }
    function Extract(): T requires Some? { value }
  }

  /** The outcome of an extraction step: a value, or the exception it raises. */
  datatype Result<+T> = Success(value: T) | Failure(error: Error) {
    predicate IsFailure() { Failure? }
    function PropagateFailure<U>(): Result<U> requires Failure? { Failure(error) }
    function Extract(): T requires Success? { value }
  }

  /** Turns a missing element into the AttributeError that reading it raises. */
  function Present<T>(o: Option<T>): (r: Result<T>)
    ensures r.Success? <==> o.Some?
    ensures r.Success? ==> r.value == o.value
    ensures r.Failure? ==> r.error == AttributeError
  {
    match o
    case Some(v) => Success(v)
    case None => Failure(AttributeError)
  }

  /**
   Applies `f` to every element of `xs` in order and collects the results;
   the first element on which `f` fails makes the whole call fail with that
   element's error, as an exception raised inside a Python `for` loop does.
   */
  function MapAll<T, U>(xs: seq<T>, f: T -> Result<U>): Result<seq<U>>
  {
    if xs == [] then Success([])
    else
      match MapAll(xs[..|xs| - 1], f)
      case Failure(e) => Failure(e)
      case Success(rs) =>
        match f(xs[|xs| - 1])
        case Failure(e) => Failure(e)
        case Success(r) => Success(rs + [r])
  }

  /** Index of the first element on which `f` fails, if there is one. */
  function FirstFailure<T, U>(xs: seq<T>, f: T -> Result<U>): (k: Option<nat>)
    ensures k.Some? ==> k.value < |xs| && f(xs[k.value]).Failure?
    ensures k.Some? ==> forall j :: 0 <= j < k.value ==> f(xs[j]).Success?
    ensures k.None? ==> forall j :: 0 <= j < |xs| ==> f(xs[j]).Success?
  {
    if xs == [] then None
    else if f(xs[0]).Failure? then Some(0)
    else
      match FirstFailure(xs[1..], f)
      case None => None
      case Some(k) => Some(k + 1)
  }

  /** One more element: the loop step of every per-page parser. */
  lemma MapAllSnoc<T, U>(xs: seq<T>, x: T, f: T -> Result<U>)
    ensures MapAll(xs + [x], f) ==
      match MapAll(xs, f)
      case Failure(e) => Failure(e)
      case Success(rs) =>
        match f(x)
        case Failure(e) => Failure(e)
        case Success(r) => Success(rs + [r])
  {
    assert (xs + [x])[..|xs + [x]| - 1] == xs;
  }

  /** A failure in a prefix is the failure of the whole sequence. */
  lemma {:induction false} MapAllPrefixFailure<T, U>(xs: seq<T>, k: nat, f: T -> Result<U>)
    requires k <= |xs|
    requires MapAll(xs[..k], f).Failure?
    ensures MapAll(xs, f) == MapAll(xs[..k], f)
    decreases |xs| - k
  {
    if k < |xs| {
      MapAllSnoc(xs[..k], xs[k], f);
      assert xs[..k] + [xs[k]] == xs[..k + 1];
      MapAllPrefixFailure(xs, k + 1, f);
    } else {
      assert xs[..k] == xs;
    }
  }

  /**
   MapAll succeeds exactly when `f` succeeds on every element; then it keeps
   one result per element, in the same order.
   */
  lemma {:induction false} MapAllSuccess<T, U>(xs: seq<T>, f: T -> Result<U>)
    ensures MapAll(xs, f).Success? <==> forall j :: 0 <= j < |xs| ==> f(xs[j]).Success?
    ensures MapAll(xs, f).Success? ==>
      |MapAll(xs, f).value| == |xs| &&
      forall j :: 0 <= j < |xs| ==> MapAll(xs, f).value[j] == f(xs[j]).value
  {
    if xs != [] {
      var init := xs[..|xs| - 1];
      MapAllSuccess(init, f);
      assert forall j :: 0 <= j < |init| ==> init[j] == xs[j];
    }
  }

  /** When MapAll fails, it fails with the error of the FIRST failing element. */
  lemma {:induction false} MapAllFailure<T, U>(xs: seq<T>, f: T -> Result<U>)
    ensures MapAll(xs, f).Failure? <==> FirstFailure(xs, f).Some?
    ensures MapAll(xs, f).Failure? ==>
      MapAll(xs, f).error == f(xs[FirstFailure(xs, f).value]).error
  {
    MapAllSuccess(xs, f);
    var k := FirstFailure(xs, f);
    if k.Some? {
      var i := k.value;
      assert forall j :: 0 <= j < i ==> xs[..i][j] == xs[j];
      MapAllSuccess(xs[..i], f);
      MapAllSnoc(xs[..i], xs[i], f);
      assert xs[..i] + [xs[i]] == xs[..i + 1];
      MapAllPrefixFailure(xs, i + 1, f);
    }
  }

  /**
   The step of a loop that has mapped `xs[..i]` to `acc`: element `i` either
   extends the results or, failing, is the failure of the whole sequence.
   */
  lemma MapAllExtend<T, U>(xs: seq<T>, i: nat, f: T -> Result<U>, acc: seq<U>)
    requires i < |xs| && MapAll(xs[..i], f) == Success(acc)
    ensures f(xs[i]).Success? ==> MapAll(xs[..i + 1], f) == Success(acc + [f(xs[i]).value])
    ensures f(xs[i]).Failure? ==> MapAll(xs, f) == Failure(f(xs[i]).error)
  {
    MapAllSnoc(xs[..i], xs[i], f);
    assert xs[..i] + [xs[i]] == xs[..i + 1];
    if f(xs[i]).Failure? {
      MapAllPrefixFailure(xs, i + 1, f);
    }
  }
}
