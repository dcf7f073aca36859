/** The validated original URL. The URL parser itself (the WHATWG basic URL
    parser of the `url` crate) is not modelled: it is an input to the model,
    a total function from the raw text to either the parsed URL's
    serialization or a parse diagnostic. */
module OriginalUrls {
  import opened Wrappers

  /** A parsed URL, identified by its serialization (the form `Display` prints). */
  datatype OriginalUrl = OriginalUrl(serialization: string)

  /** `UrlError::ParseError`, carrying the parser's diagnostic. */
  datatype UrlError = ParseError(diagnostic: string)

  /** The parser: the serialization of the parsed URL, or a diagnostic. */
  type UrlParser = string -> Result<string, string>

  /** `OriginalUrl::new`: succeeds exactly when the parser accepts the input. */
  function New(parse: UrlParser, input: string): (r: Result<OriginalUrl, UrlError>)
    ensures r.Success? <==> parse(input).Success?
    ensures r.Success? ==> Display(r.value) == parse(input).value
    ensures r.Failure? ==> r.error == ParseError(parse(input).error)
  {
    match parse(input)
    case Success(v) => Success(OriginalUrl(v))
    case Failure(e) => Failure(ParseError(e))
  }

  /** `Display` for `OriginalUrl`: the parser's serialization. */
  function Display(u: OriginalUrl): string
  {
    u.serialization
  }
}
