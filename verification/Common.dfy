/**
 Vocabulary shared by the models: optional values, results, error codes and
 cancellation reasons, plus facts about sequences without duplicates.
 */
module Common {

  datatype Option<+T> = None | Some(value: T)

  datatype Result<+T, +E> = Ok(value: T) | Err(error: E)

  /** The `vio_error_code` values that the modelled code produces. */
  datatype ErrorCode =
    | InvalidState
    | Cancelled(reason: CancellationReason)
    | ResourceExhausted
    | OperationInProgress
    | Closed
    | BackendFailure(providerCode: int)
    | Unsupported

  datatype CancellationReason = Manual | Deadline | ScopeShutdown | RuntimeShutdown | BackendAbort

  type VoidResult = Result<(), ErrorCode>

  function Min(a: nat, b: nat): nat {
    if a <= b then a else b
  }

  ghost predicate NoDuplicates<T(!new)>(s: seq<T>) {
    forall i, j :: 0 <= i < j < |s| ==> s[i] != s[j]
  }

  /** Prefixes grow by one element at a time. */
  lemma PrefixNext<T>(s: seq<T>, i: nat)
    requires i < |s|
    ensures s[..i + 1] == s[..i] + [s[i]]
  {
  }

  lemma WholePrefix<T>(s: seq<T>)
    ensures s[..|s|] == s
  {
  }
}
