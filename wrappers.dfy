/** Failure-carrying values shared by the whole model.

    The program signals failure with Python exceptions. The model returns
    `Result<T>` instead, whose `Err` case names the exception class that
    would have been raised. `ParsingError` is a subclass of `ValueError` in
    the program, so an `except ValueError` handler catches both of them.
 */
module Wrappers {

  datatype Option<+T> = None | Some(value: T)

  /** The exception classes that the modelled code can raise. */
  datatype Error =
    | ParsingError     // pilka.utils.ParsingError (a ValueError)
    | ValueError       // a plain ValueError (date(), int(), float(), ...)
    | TypeError        // an operation applied to a value of the wrong type
    | KeyError         // a dictionary lookup of a missing key
    | IndexError       // a sequence index out of range
    | AttributeError   // a method called on a value that lacks it
    | UnboundLocalError // a local variable read before any assignment
    | ScrapingError    // pilka.utils.scrape.ScrapingError

  /** Whether `except ValueError` catches the error. */
  predicate IsValueError(e: Error) {
    e.ParsingError? || e.ValueError?
  }

  datatype Result<+T> = Ok(value: T) | Err(error: Error)
}
