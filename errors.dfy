/** The application's exception classes, as one closed set of error kinds. */
module Errors {

  datatype ErrorKind =
    | CreateTask          // ErrorCreateTaskException
    | DeleteTask          // ErrorDeleteTaskException
    | EditTask            // ErrorEditTaskException
    | InputData           // ErrorInputDataException
    | RegisterUser        // ErrorRegisterUserException
    | Unauthorized        // UnauthorizedErrorException
    | MessageNotReadable  // the framework's HttpMessageNotReadableException
    | Permission          // ErrorPermissionException

  /** A thrown exception: its class and its message. */
  datatype Error = Error(kind: ErrorKind, message: string)
}
