/** The crate's result vocabulary: the error kinds the core surfaces, an
    Option, a Result specialised to those errors, and a result paired with
    the trace of I/O requests that produced it. */
module Results {
  import opened Paths

  datatype Option<+T> = None | Some(value: T)

  /** The error kinds the home-directory core can report. Other variants of
      the crate's error type belong to code outside this model. */
  datatype AftmanError =
    | HomeNotFound
    | FileNotFound(path: Path)
    | Io(path: Path, cause: string)
    | Parse(path: Path, cause: string)

  datatype Result<+T> = Ok(value: T) | Err(error: AftmanError)

  /** A result together with the I/O requests issued, in order. */
  datatype Traced<+T, +Op> = Traced(result: Result<T>, ops: seq<Op>)
}
