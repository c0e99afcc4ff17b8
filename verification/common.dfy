/**
 Failure-compatible wrappers shared by the navigation-expansion model, and the
 exceptions the rewrite can raise, as values.
 */
module Common {

  /** A value that may be absent: the model of a C# reference that may be null. */
  datatype Option<+T> = None | Some(value: T) {
    function GetOr(default: T): T {
      match this
      case Some(v) => v
      case None => default
    }
  }

  /** The exceptions the rewrite throws, one constructor per throw site. */
  datatype ExpansionError =
    /** `SingleOrDefault` found several accessor paths for one navigation path. */
    | AmbiguousAccessorPath
    /** `Concat` was handed a null accessor path while the initial path was set. */
    | NullAccessorPath
    /** A nested lambda declares the parameter a replacing visitor rewrites into a member access. */
    | ReboundReplacedParameter
    /** A terminal operator the rewrite does not know. */
    | UnsupportedMethod(name: string)

  datatype Result<+T> = Success(value: T) | Failure(error: ExpansionError) {
    predicate IsFailure() {
      Failure?
    }

    function PropagateFailure<U>(): Result<U>
      requires Failure?
    {
      Failure(error)
    }

    function Extract(): T
      requires Success?
    {
      value
    }
  }
}
