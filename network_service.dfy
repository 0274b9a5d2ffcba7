/** NetworkService.swift: the error type, the classification of HTTP status
    codes in `request`, and how `mapError` turns whatever failed into a
    `NetworkError`. Building the request and running it are left to the
    caller: what came back is a parameter. */
module NetworkService {
  import opened Wrappers
  import opened Text

  datatype NetworkError =
    | InvalidURL
    | InvalidResponse
    | DecodingError
    | ServerError(reason: string)
    | Unauthorized
    | NoInternet

  /** `NetworkError.message`: the reason a server error carries, a fixed
      text for every other case. */
  function Message(e: NetworkError): (m: string)
    ensures e.ServerError? ==> m == e.reason
    ensures !e.ServerError? ==> m != ""
  {
    match e
    case InvalidURL => "Invalid URL"
    case InvalidResponse => "Invalid response from server"
    case DecodingError => "Failed to decode data"
    case ServerError(msg) => msg
    case Unauthorized => "Unauthorized access"
    case NoInternet => "No internet connection"
  }

  /** The fixed messages tell their cases apart. */
  lemma FixedMessagesDistinct(e: NetworkError, f: NetworkError)
    requires !e.ServerError? && !f.ServerError?
    requires Message(e) == Message(f)
    ensures e == f
  {
  }

  /** The outcome of the `switch httpResponse.statusCode` in `request`. */
  datatype StatusCheck = Accepted | Rejected(error: NetworkError)

  /** Only 2xx codes are accepted. 401 is unauthorized, never a client
      error, because it is matched first; the other 4xx and all 5xx become
      server errors naming the code; everything else (1xx, 3xx, codes of 600
      and above, negative codes) is an invalid response. */
  function CheckStatus(code: int): (r: StatusCheck)
    ensures r.Accepted? <==> 200 <= code <= 299
    ensures r == Rejected(Unauthorized) <==> code == 401
    ensures (r.Rejected? && r.error.ServerError?) <==> (400 <= code <= 599 && code != 401)
    ensures 400 <= code <= 499 && code != 401 ==> r == Rejected(ServerError("Client error: " + DecimalString(code)))
    ensures 500 <= code <= 599 ==> r == Rejected(ServerError("Server error: " + DecimalString(code)))
    ensures r == Rejected(InvalidResponse) <==> (code < 200 || 300 <= code <= 399 || code >= 600)
  {
    if 200 <= code <= 299 then Accepted
    else if code == 401 then Rejected(Unauthorized)
    else if 400 <= code <= 499 then Rejected(ServerError("Client error: " + DecimalString(code)))
    else if 500 <= code <= 599 then Rejected(ServerError("Server error: " + DecimalString(code)))
    else Rejected(InvalidResponse)
  }

  /** The failures that reach `mapError`: a `DecodingError` from the JSON
      decoder, a `NetworkError` thrown by the status check, or any other
      error (such as a transport error) with its localized description. */
  datatype CaughtError = DecoderFailure(description: string) | Thrown(error: NetworkError) | OtherFailure(description: string)

  /** `mapError`: decoder failures become `.decodingError`, network errors
      pass through unchanged, anything else becomes a server error carrying
      its description. */
  function MapError(f: CaughtError): (e: NetworkError)
    ensures f.Thrown? ==> e == f.error
    ensures f.DecoderFailure? ==> e == DecodingError
    ensures f.OtherFailure? ==> e == ServerError(f.description) && Message(e) == f.description
  {
    match f
    case DecoderFailure(_) => DecodingError
    case Thrown(err) => err
    case OtherFailure(description) => ServerError(description)
  }

  /** What decoding the body gives. */
  datatype Decoded<T> = Decodes(value: T) | FailsToDecode(description: string)

  /** What the data task delivers. */
  datatype Exchange<T> =
    | TransportFailed(description: string)
    | NotHttp
    | HttpResponse(statusCode: int, body: Decoded<T>)

  /** The value or error `request` publishes, given whether `baseURL +
      endpoint` parses as a URL and what came back. A value comes only from
      a 2xx response whose body decodes; the body is not decoded at all when
      the status is rejected; and no request ever fails with
      `.noInternet`, since transport errors become server errors. */
  function RequestResult<T>(urlIsValid: bool, x: Exchange<T>): (r: Result<T, NetworkError>)
    ensures r.Success? <==> urlIsValid && x.HttpResponse? && 200 <= x.statusCode <= 299 && x.body.Decodes?
    ensures r.Success? ==> r.value == x.body.value
    ensures !urlIsValid ==> r == Failure(InvalidURL)
    ensures urlIsValid && x.HttpResponse? && CheckStatus(x.statusCode).Rejected? ==>
      r == Failure(CheckStatus(x.statusCode).error)
    ensures urlIsValid && x.HttpResponse? && 200 <= x.statusCode <= 299 && x.body.FailsToDecode? ==>
      r == Failure(DecodingError)
    ensures urlIsValid && x.TransportFailed? ==> r == Failure(ServerError(x.description))
    ensures urlIsValid && x.NotHttp? ==> r == Failure(InvalidResponse)
    ensures r.Failure? ==> !r.error.NoInternet?
  {
    if !urlIsValid then Failure(InvalidURL)
    else match x
      case TransportFailed(description) => Failure(MapError(OtherFailure(description)))
      case NotHttp => Failure(MapError(Thrown(InvalidResponse)))
      case HttpResponse(code, body) =>
        match CheckStatus(code)
        case Rejected(err) => Failure(MapError(Thrown(err)))
        case Accepted =>
          match body
          case Decodes(v) => Success(v)
          case FailsToDecode(description) => Failure(MapError(DecoderFailure(description)))
  }
}
