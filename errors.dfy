/** The error values of internal/repository/errors.go, and how errors.Is
    compares an error with a target. */
module Errors {

  /** An error a repository call returns: one of the five package-level
      sentinel values, or some other error (wrapped driver errors and the
      messages built with errors.New at the call), described by its text. */
  datatype RepoError =
    | UserNotFound
    | UsernameAlreadyExists
    | EmailAlreadyExists
    | TokenIsNotFound
    | NoResult
    | Failed(reason: string)

  /** The value errors.Is is asked to find: a package-level sentinel, or an
      error allocated at the comparison itself by errors.New. */
  datatype ErrorTarget = Sentinel(kind: RepoError) | NewlyAllocated(message: string)

  /** errors.Is compares error values by identity. A sentinel is found only in
      an error that is that sentinel; an error allocated at the comparison is
      a fresh allocation that no error returned earlier can be, whatever its text. */
  function ErrorsIs(err: RepoError, target: ErrorTarget): (r: bool)
    ensures r ==> target.Sentinel? && err == target.kind && !err.Failed?
    ensures target.Sentinel? && !target.kind.Failed? && err == target.kind ==> r
  {
    match target
    case Sentinel(kind) => !kind.Failed? && err == kind
    case NewlyAllocated(_) => false
  }
}
