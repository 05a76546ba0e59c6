/** What a call of the extractor can raise. */
module Errors {
  import opened Calendar

  datatype Failure =
    /** `ParsingFailed`, the library's own exception: nothing could be extracted. */
    | ParsingFailed(message: string)
    /** `KeyError` from reading a field of the completion dictionary that no
        fragment filled ('year' without a date piece, 'hour' without a time piece). */
    | MissingKey(key: Key)
    /** `TypeError` from `datetime(...)`: the hour is pyparsing's empty-string
        placeholder, which happens when the time was given only as four digits. */
    | HourNotInteger
    /** `ValueError` from `datetime(...)`: a field outside the calendar's ranges. */
    | OutOfRange
    /** `ValueError` from `datetime.strptime` when an explicit format does not fit. */
    | FormatMismatch
    /** `ValueError` raised by a schema rule, with its message. */
    | RuleViolation(message: string)
}
