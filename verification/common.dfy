/** Vocabulary shared by every module of the IR model: entity handles,
    optional values and the result of an operation that may hit one of the
    core's fatal checks. The core signals every malformed-IR condition with
    an assertion; here each becomes an `Err` carrying a tag that says which
    check fired, and the state the failing call had partly mutated is dropped
    (every such failure aborts compilation). */
module Common {

  /** Entities (functions, blocks, variables, events, units) live in an arena
      and are referred to by integer handles instead of object identity. */
  type Handle = nat

  datatype Option<+T> = None | Some(value: T)

  /** Which of the core's checks rejected an operation. */
  datatype Failure =
    | NameNotFound(name: string)
    | ValueNotFound
    | DuplicateDefinition(name: string)
    | NotPreambleSafe
    | BlockTerminated
    | NothingToBind
    | NoTraitHolder
    | NoUserBlock
    | NoBlocks
    | BlockUndefined
    | FunctionUndefined
    | AlreadyFinished
    | AlreadyFinalized
    | NotFinished
    | SignatureMismatch
    | StackTipNotZero
    | StackBaseMismatch
    | StackCollision
    | MissingArgs
    | UnexpectedArgs
    | ArgCount
    | LiteralIntOnNonI32
    | LiteralFloatOnNonQ10
    | ArgNotVariable
    | ArgTypeMismatch
    | MissingReturnVars
    | UnexpectedReturnVars
    | ReturnVarCount
    | ReturnVarNotVariable
    | ReturnVarTypeMismatch
    | UnfinishedFunction(name: string)
    | UnknownPragma(key: string)
    | TempNotInUse(temp: string)
    | TempsOutstanding
    | InlineHandler
    | NoUnits
    | NotAVisibleFunction(name: string)
    | ExternNotReferenceable
    | NotIterable
    | VersionMismatch

  datatype Result<+T> = Ok(value: T) | Err(error: Failure) {

    predicate IsFailure() {
      Err?
    }

    function PropagateFailure<U>(): Result<U>
      requires Err?
    {
      Err(error)
    }

    function Extract(): T
      requires Ok?
    {
      value
    }
  }

  /** A check with no value of its own: `Pass` or the failure it raised. */
  datatype Outcome = Pass | Fail(error: Failure) {

    predicate IsFailure() {
      Fail?
    }

    function PropagateFailure<U>(): Result<U>
      requires Fail?
    {
      Err(error)
    }
  }

  /** `xs` is `ys` with some elements left out, the rest kept in order. */
  predicate Subsequence<T(==)>(xs: seq<T>, ys: seq<T>)
    decreases |ys|
  {
    |xs| == 0 || (|ys| > 0 && if xs[0] == ys[0] then Subsequence(xs[1..], ys[1..]) else Subsequence(xs, ys[1..]))
  }

  function Need(condition: bool, error: Failure): (r: Outcome)
  {
    if condition then Pass else Fail(error)
  }
}
