/** Failure-compatible wrappers used by every parse step.

    The C parser reports a problem by calling `error` or `error_at`, which
    print a message and terminate the process. Here every such call becomes a
    `Fail` value carrying the kind of problem and the token index it was found
    at, and it is propagated with `:-` instead of ending the program.
 */
module Results {

  datatype Option<+T> = None | Some(value: T)

  /** Why a parse stopped. `at` is the index of the token being looked at. */
  datatype Error =
    | Unexpected(at: nat, want: string)   // `expect`: the token is not the reserved symbol `want`
    | NotANumber(at: nat)                 // `expect_number`: the token is not a number
    | UnknownType(at: nat)                // `gettk`: a type name other than "int"
    | BadDeclaration(at: nat)             // `function_def`: the name is not an identifier
    | ArgNeedsType(at: nat)               // `function_def`: a parameter without a type
    | TooManyArgs(at: nat)                // `function_def`: the argument counter passed 128
    | PastEnd(at: nat)                    // the cursor would leave the token list

  datatype Result<+T> = Ok(value: T) | Fail(error: Error) {

    predicate IsFailure() {
      Fail?
    }

    function PropagateFailure<U>(): Result<U>
      requires Fail?
    {
      Fail(error)
    }

    function Extract(): T
      requires Ok?
    {
      value
    }
  }
}
