/** The error values the modelled code throws or inspects. */
module Errors {
  import opened Json

  /** `ParsingError`, without its localized descriptions. */
  datatype ParsingError =
    | InvalidJSONStructure
    | MissingRequiredField(field: string)
    | InvalidAmountFormat(value: string)
    | InvalidDateFormat(value: string)
    | InvalidDataFormat(message: string)
    | InvalidCSVFormat

  /** The codes of `URLError` that matter here. */
  datatype URLErrorCode = Cancelled | TimedOut | NotConnectedToInternet | OtherURLCode(code: int)

  /** `NetworkError`, whose wrapping cases carry an arbitrary `Error`. */
  datatype NetworkError =
    | InvalidURL
    | InvalidResponse
    | ServerError(statusCode: int)
    | DecodingFailed(cause: Error)
    | EncodingFailed(cause: Error)
    | NetworkFailure(cause: Error)
    | Unauthorized
    | Unknown

  /** Any Swift `Error` the view models can receive. */
  datatype Error =
    | URLError(code: URLErrorCode)
    | Network(network: NetworkError)
    | Decoding(decoding: DecodingError)
    | Parsing(parsing: ParsingError)
    | NSError(domain: string, nsCode: int)
    | OtherError(description: string)
}
