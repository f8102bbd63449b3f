/** Values shared by the collector's components: optional values, the
    errors the collector returns, parsed URLs and the public configuration
    fields of a Collector. */
module Types {

  datatype Option<+T> = None | Some(value: T)

  /** The errors a collector call can return. The named ones are the
      package's exported error values; the others stand for errors made
      elsewhere and carry their text. */
  datatype Error =
    | ForbiddenDomain
    | MissingURL
    | MaxDepth
    | ForbiddenURL
    | NoURLFiltersMatch
    | AlreadyVisited
    | RobotsTxtBlocked
    | NoCookieJar
    | NoPattern
      /** `url.Parse` refused the URL text. */
    | BadURL(reason: string)
      /** The HTTP backend failed (network, body size, cache). */
    | Transport(reason: string)
      /** `errors.New(http.StatusText(code))` for a status the collector
          treats as an error; the text is determined by the code. */
    | HttpStatus(code: int)
      /** The charset conversion of the body failed. */
    | Charset(reason: string)
      /** The HTML or XML parser refused the body. */
    | Unparsable(reason: string)
      /** `ctx.Err()` of a cancelled call context (whether it was cancelled
          or ran past its deadline is not distinguished). */
    | ContextDone
      /** Fetching or parsing robots.txt failed. */
    | RobotsFetch(reason: string)
      /** A redirect to a host outside the allowed domains. */
    | RedirectRefused(host: string)
      /** `http.ErrUseLastResponse`: stop following redirects. */
    | UseLastResponse
      /** An error returned by a user-supplied redirect handler. */
    | HandlerError(reason: string)

  /** The parts of a parsed URL the collector looks at. */
  datatype Url = Url(scheme: string, host: string, path: string)

  /** What `url.Parse` made of a URL text. */
  datatype ParsedUrl = Parsed(url: Url) | ParseFailure(reason: string)

  /** A compiled regular expression, seen only through its `Match` on the
      bytes of a URL. */
  type Regexp = string -> bool

  /** A request of a redirect chain as a redirect check sees it: its
      method, URL and headers (an `http.Header`). */
  datatype Hop = Hop(httpMethod: string, url: Url, header: map<string, seq<string>>)

  /** A user redirect handler: its decision for the new request, given the
      requests made so far in the chain, oldest first. */
  type RedirectHandler = (Hop, seq<Hop>) -> Option<Error>

  /** The exported configuration fields of a Collector (everything but ID). */
  datatype Config = Config(
    userAgent: string,
    maxDepth: int,
    allowedDomains: seq<string>,
    disallowedDomains: seq<string>,
    disallowedURLFilters: seq<Regexp>,
    urlFilters: seq<Regexp>,
    allowURLRevisit: bool,
    maxBodySize: int,
    cacheDir: string,
    ignoreRobotsTxt: bool,
    async: bool,
    parseHTTPErrorResponse: bool,
    detectCharset: bool,
    redirectHandler: Option<RedirectHandler>)

  const DefaultUserAgent: string := "colly - https://github.com/gocolly/colly"
  const DefaultMaxBodySize: int := 10 * 1024 * 1024

  /** The configuration `Init` sets up. */
  function DefaultConfig(): (c: Config)
    ensures c.maxDepth == 0 && c.ignoreRobotsTxt && !c.async
    ensures c.maxBodySize == 10 * 1024 * 1024
    ensures c.allowedDomains == [] && c.disallowedDomains == []
    ensures c.urlFilters == [] && c.disallowedURLFilters == []
    ensures c.redirectHandler.None?
  {
    Config(DefaultUserAgent, 0, [], [], [], [], false, DefaultMaxBodySize, "", true, false, false, false, None)
  }

  /** Go's `uint32`, for the counters that `atomic.AddUint32` increments. */
  newtype u32 = x: int | 0 <= x < 0x1_0000_0000

  /** `atomic.AddUint32(&x, 1)`: add one, wrapping around at 2^32. */
  function Inc(x: u32): (r: u32)
    ensures r as int == (x as int + 1) % 0x1_0000_0000
  {
    if x == 0xFFFF_FFFF then 0 else x + 1
  }
}
