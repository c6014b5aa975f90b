/** Tagged results that stand in for the process exits of the command-line layer. */
module Outcomes {

  datatype Option<+T> = None | Some(value: T)

  /** `Exit(code)` is a call that ends the process with that exit code (directly through
      os.Exit or through the usage printer); `Ok(value)` is a normal return of `value`. */
  datatype Outcome<+T> = Exit(code: int) | Ok(value: T)
}
