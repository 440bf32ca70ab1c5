/** Failure-carrying datatypes shared by every component of the model.

    The extraction pipeline is written against Python exceptions.  Here an
    exception is a value: its class (only the classes the pipeline tells apart,
    plus a catch-all) and the text `str(e)` would produce. */
module Outcomes {

  /** The exception classes the pipeline raises or catches by name. */
  datatype ExcKind =
    | DriverError        // fiona could not open the container or file
    | PermissionError    // the operating system refused access
    | ValueError         // raised explicitly by the extractors
    | IndexError         // list index out of range
    | AttributeError     // e.g. calling a method on None
    | TypeError          // e.g. joining labels that are not strings
    | ZeroDivisionError  // aspect ratio of a zero-height image
    | OtherError         // anything raised inside a library call

  /** An exception: its class and the message `str(e)` returns. */
  datatype Exc = Exc(kind: ExcKind, message: string)

  datatype Option<+T> = None | Some(value: T)

  /** The outcome of a call that may raise. */
  datatype Result<+T> = Ok(value: T) | Err(exc: Exc)

  /** The message Python gives when a list is indexed past its end. */
  const IndexOutOfRange: Exc := Exc(IndexError, "list index out of range")

  /** Runs calls in order and stops at the first that raises: the values of all
      of them, or the first exception. */
  function AllOk<T>(rs: seq<Result<T>>): (r: Result<seq<T>>)
    ensures r.Ok? <==> forall k :: 0 <= k < |rs| ==> rs[k].Ok?
    ensures r.Ok? ==> |r.value| == |rs| && forall k :: 0 <= k < |rs| ==> rs[k] == Ok(r.value[k])
    ensures r.Err? ==> exists k :: 0 <= k < |rs| && rs[k] == Err(r.exc) && forall j :: 0 <= j < k ==> rs[j].Ok?
    decreases |rs|
  {
    if |rs| == 0 then Ok([])
    else
      var init := rs[..|rs| - 1];
      assert forall k :: 0 <= k < |init| ==> init[k] == rs[k];
      match AllOk(init)
      case Err(e) => Err(e)
      case Ok(vs) =>
        match rs[|rs| - 1]
        case Err(e) => Err(e)
        case Ok(v) => Ok(vs + [v])
  }
}
