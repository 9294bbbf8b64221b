/** URL parsing as the dashboard uses it (Go's net/url): given as an oracle. */
module Net {
  import opened Wrappers

  /** The parts of a parsed URL the dashboard reads: its scheme and its host name. */
  datatype URL = URL(scheme: string, hostname: string)

  /** url.URL.IsAbs: a URL is absolute exactly when it has a scheme. */
  predicate IsAbs(u: URL) {
    u.scheme != ""
  }

  /** url.Parse: the parsed URL, or None when the text does not parse. */
  type ParseURL = string -> Option<URL>
}
