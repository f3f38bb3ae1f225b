/** Values shared by every module: optional values and the Python
    exceptions that the modelled code lets escape, as ordinary results. */
module Common {

  datatype Option<+T> = None | Some(value: T)

  /** The exceptions the modelled code raises (and does not catch). */
  datatype Error =
    | KeyError        // `del cont[key]` on a missing key
    | ValueError      // `int(s)` on a string that is not an integer
    | IndexError      // `args[1]` on a too-short argument list
    | TypeError       // unpacking the result of a menu pick that picked nothing
    | AssertionError  // `assert False, ...`

  datatype Result<+T> = Ok(value: T) | Err(error: Error)

  /** The outcome of an operation that returns nothing on success. */
  datatype Outcome = Pass | Fail(error: Error)

  /** An interactive yes: the source accepts exactly 'y' and 'Y'. */
  predicate IsYes(answer: string)
  {
    answer == "y" || answer == "Y"
  }
}
