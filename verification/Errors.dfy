/** The errors that the protocol layer and the task store report. */
module Errors {
  datatype Error =
    | InvalidParams
    | InvalidRequest
    | ParseError
    | Unauthenticated
    | TaskNotFound
    | TaskAlreadyExists
    | ConcurrentModification
    | VersionNotSupported
    | InternalError
    | InvalidToken
    | MessageRequired
    | DatabaseError
}
