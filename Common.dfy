/** Shared result types and the error values the service reports. */
module Common {

  datatype Option<+T> = None | Some(value: T)

  /** Go's `(value, error)` return pair: exactly one of the two is meaningful. */
  datatype Result<+T> = Success(value: T) | Failure(error: Error)

  /**
   * The errors the core raises itself, by their message, plus `Os` for an
   * error that comes back from the operating system, the network or a child
   * process, which the model receives as an input and passes on unchanged.
   */
  datatype Error =
    | NoAnalyticsParsed          // "no analytics parsed"
    | NoTestResultsFound         // "no test results found"
    | TestResultsFileNotFound    // "test results file not found"
    | NoCurrentRelease           // "no current release"
    | NoBundledReleases          // "no bundled releases"
    | TagEmpty                   // "tag empty"
    | DeadlineExceeded           // context.DeadlineExceeded
    | Canceled                   // context.Canceled
    | Os(detail: string)
}
