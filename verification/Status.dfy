/** Error values shared by the components: `absl::Status` and `absl::StatusOr`. */
module Status {

  datatype Option<+T> = None | Some(value: T)

  datatype Code = InvalidArgument | NotFound | DeadlineExceeded | Internal | Unavailable

  /** The number of a code, as it is printed. */
  function CodeNumber(code: Code): nat {
    match code
    case InvalidArgument => 3
    case DeadlineExceeded => 4
    case NotFound => 5
    case Internal => 13
    case Unavailable => 14
  }

  datatype Error = Error(code: Code, message: string)

  datatype Result<+T> = Ok(value: T) | Err(error: Error)
}
