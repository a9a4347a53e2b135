/** The error taxonomy of the ION reader and the failure-compatible wrappers built on it.

    Every exception the reader can raise becomes one constructor of `Error`. The kinds
    that carry a line carry the 0-based document line the exception reports; the kinds
    raised through a message-only constructor report line 0, as the exception's
    `NodeLine` property does in that case. */
module Wrappers {

  datatype Error =
    | RootNodeNotFound
    | InvalidRootNode
    | TextFileParser(line: int)
    | InvalidNode(line: int)
    | InvalidAttribute(line: int)
      /** `names` lists every attribute name that occurs more than once, each once. */
    | DuplicateAttribute(line: int, names: seq<Option<string>>)
    | RequiredFieldNotFound(line: int)
    | AttributeCast(line: int)
      /** A `ParserException` raised while assigning a property (for instance a read-only one). */
    | Parser
      /** .NET `InvalidOperationException`: popping an empty stack, unboxing a missing level,
          `First()` over no element. */
    | InvalidOperation
      /** .NET `ArgumentNullException`. */
    | ArgumentNull
      /** .NET `IndexOutOfRangeException`. */
    | IndexOutOfRange
      /** An exception thrown by a scalar type's own `Parse` method. */
    | TargetInvocation
      /** .NET `AmbiguousMatchException`: `Type.GetProperty` found more than one property with
          the name asked for. */
    | AmbiguousMatch

  datatype Option<+T> = None | Some(value: T) {
    function GetOr(default: T): T {
      match this
      case Some(v) => v
      case None => default
    }
  }

  /** The result of an operation that either yields a value or raises the first error it meets. */
  datatype Result<+T> = Ok(value: T) | Err(error: Error) {
    predicate IsFailure() { Err? }

    function PropagateFailure<U>(): Result<U>
      requires Err?
    {
      Err(error)
    }

    function Extract(): T
      requires Ok?
    {
      value
    }
  }

  /** The result of a check that either passes or raises an error. */
  datatype Outcome = Pass | Fail(error: Error) {
    predicate IsFailure() { Fail? }

    function PropagateFailure<U>(): Result<U>
      requires Fail?
    {
      Err(error)
    }
  }
}
