/**
 * Host extraction shared by every JavaScript copy: `new URL(url).hostname`,
 * falling back to the raw input when the URL parser throws.
 */
module Urls {
  import opened Wrappers

  /**
   * The WHATWG URL parser's hostname, or None where `new URL(url)` throws.
   * The parser is not modelled; the engines receive it as a function value.
   */
  type HostParser = string -> Option<string>

  /** `extractDomain(url)`: total, the hostname when the URL parses and the input unchanged otherwise. */
  function ExtractDomain(hostOf: HostParser, url: string): (r: string)
    ensures hostOf(url).Some? ==> r == hostOf(url).value
    ensures hostOf(url).None? ==> r == url
  {
    hostOf(url).GetOr(url)
  }
}
