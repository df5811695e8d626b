/** Failure-carrying values used in place of the exceptions and `None` returns of the
    downloader: `Option` for soft failures, `Result` for errors that abort a phase. */
module Results {

  datatype Option<+T> = None | Some(value: T)

  datatype Result<+R, +E> = Success(value: R) | Failure(error: E)
}
