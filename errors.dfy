/** Failures a Carlae evaluation can end with, named by cause.
    `NameError` is the interpreter's own CarlaeNameError. `SyntaxError` is
    raised only by the strict reader; the reader as written never throws it.
    `EmptyReduce`, `Malformed` and `StackOverflow` stand for exceptions of the
    host runtime. `NotANumber` and `DivisionByZero` stand for builtin results
    that JavaScript returns without throwing (a string, NaN or an infinity). */
module Errors {

  datatype Error =
    | SyntaxError               // CarlaeSyntaxError: tokens that are not one well-formed form
    | NameError(name: string)   // CarlaeNameError: lookup found nothing (or a falsy value)
    | EmptyReduce               // a builtin's `reduce` over zero arguments
    | NotANumber                // a builtin applied to a value that is not a number
    | DivisionByZero            // `/` with a zero divisor
    | Malformed                 // a special form or call reads a missing operand
    | StackOverflow             // unbounded recursion exhausts the host stack

  datatype Result<+T> = Ok(value: T) | Err(error: Error)

  datatype Option<+T> = None | Some(value: T)
}
