/** Optional and fallible values.
    `Option` stands for the TypeScript `T | null | undefined` values the
    extractor reads from the page; `Result` stands for an extraction that
    either returns a record or propagates a hard failure. */
module Wrappers {

  datatype Option<+T> = None | Some(value: T)

  datatype Result<+R, +E> = Success(value: R) | Failure(error: E)
}
