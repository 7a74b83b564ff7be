/** Shared vocabulary of the model: optional values, results carrying the
    exceptions the interpreter raises, and the two pieces of Python semantics
    every component relies on (negative indexing and floor division). */
module Base {

  datatype Option<+T> = None | Some(value: T)

  /** The exceptions raised anywhere in the pipeline.  Each names the Python
      exception (or the interpreter's own exception class) that the source raises. */
  datatype Error =
    | StackError                      // whitespace.Constants_errors.StackError
    | CannotFindJumpTarget            // a CallSub whose target was never resolved
    | ZeroDivisionError               // `//` or `%` by zero
    | ValueError                      // chr() outside the code-point range, str.index without a match
    | IndexError                      // a Python index out of range
    | KeyError(key: int)              // a dictionary lookup of a missing key
    | DuplicateLabels(labelId: int, at: nat, first: nat)
    | ParseError(pos: nat)            // "Cannot parse command", at a token position
    | NoProgress                      // a recursion that never advances and so never returns

  /** A value, or the exception that aborted the computation. */
  datatype Result<+T> = Ok(value: T) | Err(error: Error)

  /** Success or an exception, for operations that return nothing. */
  datatype Outcome = Pass | Fail(error: Error)

  /** Python's `xs[i]` on a sequence of length `len`: negative indices count
      from the end, anything else out of range raises IndexError (None here). */
  function PyIndex(len: nat, i: int): (r: Option<nat>)
    ensures r.Some? <==> -(len as int) <= i < len
    ensures r.Some? ==> r.value < len
    ensures r.Some? && 0 <= i ==> r.value == i
    ensures r.Some? && i < 0 ==> r.value + (-i) == len
  {
    if 0 <= i < len then Some(i)
    else if -(len as int) <= i < 0 then Some(len + i)
    else None
  }

  /** Python's `a // b`: the quotient rounded toward negative infinity. */
  function FloorDiv(a: int, b: int): (q: int)
    requires b != 0
    ensures 0 < b ==> b * q <= a < b * q + b
    ensures b < 0 ==> b * q + b < a <= b * q
  {
    if 0 < b then a / b else (-a) / (-b)
  }

  /** Python's `a % b`: the remainder that goes with FloorDiv, carrying the sign of b. */
  function FloorMod(a: int, b: int): (r: int)
    requires b != 0
    ensures a == b * FloorDiv(a, b) + r
    ensures 0 < b ==> 0 <= r < b
    ensures b < 0 ==> b < r <= 0
  {
    a - b * FloorDiv(a, b)
  }
}
