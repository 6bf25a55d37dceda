/** Optional values and the error taxonomy of the tokenizer and parser.
    The source signals every failure with an exception that aborts the
    whole run; here each failure is a tagged value returned to the caller. */
module Failures {

  datatype Option<T> = None | Some(value: T)

  /** Why a parse was abandoned. */
  datatype Error =
    | LexError(code: int)  // a character no token can start with (code -1 is end of input)
    | ExcessText           // a token other than END after the whole expression
    | ExpectedClose        // a parenthesised expression not followed by ')'
    | ExpectedFactor       // a token that cannot start a factor
    | ConversionError      // an integer literal that does not fit in a 32-bit int

  /** Result of an operation that only succeeds or fails. */
  datatype Outcome = Pass | Fail(error: Error)

  /** Result of an operation that yields a value on success. */
  datatype Result<T> = Ok(value: T) | Err(error: Error)
}
