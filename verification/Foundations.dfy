/** Shared vocabulary: optional values, results, and the one-way digest. */
module Foundations {
  datatype Option<+T> = None | Some(value: T)

  datatype Result<+T, +E> = Success(value: T) | Failure(error: E)

  /** The exceptions that the modelled services raise or propagate. */
  datatype Error =
    | EntityAlreadyExists
    | EntityNotFound
    | VersionConflict
    | ValidationFailed
    | ProjectForbidden
    | RoleRequired
    | IdempotencyConflict
    | FenceRejected
    | ScopeMismatch
    | ApprovalFailed
    | ActorMismatch
    | ReadAfterWrite
    | UnsupportedOperation
    | ClientError(code: int)
    | Interrupted

  function Max(a: int, b: int): int {
    if a < b then b else a
  }

  ghost predicate Injective<A(!new), B>(f: A -> B) {
    forall x, y :: f(x) == f(y) ==> x == y
  }

  type InjectiveDigest = f: string -> string | Injective(f) witness (s => s)

  /** SHA-256 rendered as hexadecimal.  Nothing but its injectivity is known. */
  const Sha256: InjectiveDigest

  lemma DigestInjective(a: string, b: string)
    requires Sha256(a) == Sha256(b)
    ensures a == b
  {
    assert Injective(Sha256);
  }
}
