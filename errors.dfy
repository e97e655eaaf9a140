/** The codec's error codes (`ToxErrorCode`) and their texts. */
module Errors {
  datatype ErrorCode =
    | DecodeError
    | EncodeError
    | UnsupportedType
    | IncompatibleVersion
    | StrictModeViolation
    | SchemaInvalid
    | LimitExceeded

  /** The string each code stands for. */
  function CodeText(c: ErrorCode): string
  {
    match c
    case DecodeError => "TOX_DECODE_ERROR"
    case EncodeError => "TOX_ENCODE_ERROR"
    case UnsupportedType => "TOX_UNSUPPORTED_TYPE"
    case IncompatibleVersion => "TOX_INCOMPATIBLE_VERSION"
    case StrictModeViolation => "TOX_STRICT_MODE_VIOLATION"
    case SchemaInvalid => "TOX_SCHEMA_INVALID"
    case LimitExceeded => "TOX_LIMIT_EXCEEDED"
  }

  /** An error as the codec reports it: code, message and an optional hint. */
  datatype ToxError = ToxError(code: ErrorCode, message: string, hint: string)
}
