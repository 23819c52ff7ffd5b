/** Option and Result with the failure-compatible members that `:-` needs. */
module Wrappers {
  datatype Option<T> = None | Some(value: T) {
    predicate IsFailure() { None? }

    function PropagateFailure<U>(): Option<U>
      requires None?
    {
      None
    }

    function Extract(): T
      requires Some?
    {
      value
    }

    function GetOr(default: T): T {
      if Some? then value else default
    }
  }

  datatype Result<T, E> = Success(value: T) | Failure(error: E) {
    predicate IsFailure() { Failure? }

    function PropagateFailure<U>(): Result<U, E>
      requires Failure?
    {
      Failure(error)
    }

    function Extract(): T
      requires Success?
    {
      value
    }
  }
}

/**
 * The exceptions the services throw, one constructor per Java exception type.
 * Where the Java message ends with an identifier, `id` carries it.
 */
module Errors {
  import opened Wrappers

  type Uuid = nat

  datatype JwtError = ExpiredJwt | MalformedJwt | SignatureMismatch | UnsupportedJwt | EmptyJwt

  datatype Error =
    | AccessDenied(message: string)                      // AccessDeniedException
    | EntityNotFound(message: string, id: Option<Uuid>)  // jakarta.persistence.EntityNotFoundException
    | IllegalArgument(message: string)                   // IllegalArgumentException
    | BadCredentials(message: string)                    // BadCredentialsException
    | Runtime(message: string, id: Option<Uuid>)         // RuntimeException
    | NullPointer(field: string)                         // NullPointerException
    | UsernameNotFound(message: string)                  // UsernameNotFoundException
    | ConstraintViolation(field: string)                 // Bean Validation when an entity is persisted
    | DataIntegrityViolation(column: string)             // a database constraint rejects the row
    | IOFailure(message: string)                         // IOException
    | InvalidJwt(reason: JwtError)                       // the JWT parser's exceptions

  /** Spring Data's message for a null identifier passed to findById / existsById. */
  const NULL_ID_MESSAGE: string := "The given id must not be null"
}
