/** The exceptions the helpers raise, by kind. */
module Errors {
  /** Why a batch call was refused: a list or tuple shorter than two, a dict without
      `method` or `params`, or a call of any other type. */
  datatype Malformed = NotAPair | MissingKeys | WrongShape

  /** `TypeError` (parameters that are not a dict, or a method that is not a string) or
      `ValueError` naming the offending call. */
  datatype Error = TypeError | ValueError(call: string, why: Malformed)
}
