/**
  Failure-compatible result types for the sockets layer. The C++ code reports
  failures by throwing Poco exceptions; here every exception kind the core can
  raise becomes an `Error` value carried by `Result`.
 */
module Outcomes {

  /** The exception kinds the modelled code can raise. */
  datatype Error =
    | InvalidArgument      // Poco::InvalidArgumentException: family not supported by this build
    | UnsupportedFamily    // Poco::Net::UnsupportedFamilyException
    | NotFound             // Poco::NotFoundException: no eligible interface, or no address of a family
    | InterfaceNotFound    // Poco::Net::InterfaceNotFoundException from forAddress / forIndex
    | InvalidSocket        // operation on a socket that holds no native descriptor
    | SocketError          // a failing getsockopt, reported by the descriptor primitive

  datatype Option<+T> = None | Some(value: T)

  datatype Result<+T> = Ok(value: T) | Err(error: Error) {

    predicate IsFailure() {
      Err?
    }

    function PropagateFailure<U>(): Result<U>
      requires Err?
    {
      Err(error)
    }

    function Extract(): T
      requires Ok?
    {
      value
    }
  }
}
