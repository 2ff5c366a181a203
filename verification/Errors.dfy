/** The parser's error codes. */
module Errors {
  datatype ParserError =
    | NoData
    | InitContextEmpty
    | UnexpectedError
    | UnexpectedUnparsedBytes
    | UnexpectedBufferEnd
    | UnexpectedValue
    | UnexpectedCharacters
    | DuplicatedField
    | ValueOutOfRange
    | BlindsignModeRequired
    | JsonZeroTokens
    | JsonTooManyTokens
    | JsonIncompleteJson
    | InvalidMetaField
    | SignerNotFound
    | SignerRepeated

  /** The text the device answers before the status word. */
  function Description(e: ParserError): string {
    match e
    case NoData => "No more data"
    case InitContextEmpty => "Initialized empty context"
    case UnexpectedUnparsedBytes => "Unexpected unparsed bytes"
    case UnexpectedBufferEnd => "Unexpected buffer end"
    case UnexpectedValue => "Unexpected value"
    case UnexpectedCharacters => "Unexpected characters"
    case DuplicatedField => "Unexpected duplicated field"
    case ValueOutOfRange => "Value out of range"
    case BlindsignModeRequired => "Blind signing mode required"
    case JsonTooManyTokens => "NOMEM: JSON string contains too many tokens"
    case InvalidMetaField => "Invalid meta field"
    case SignerNotFound => "Device key is not a signer"
    case SignerRepeated => "Device key signs more than once"
    case UnexpectedError => "Unrecognized error code"
    case JsonZeroTokens => "Unrecognized error code"
    case JsonIncompleteJson => "Unrecognized error code"
  }
}
