/**
 * The server configuration: the port, the public base URL and the builder of absolute
 * URLs for stored uploads. Environment variables are inputs; an unset variable and an
 * empty one read alike, as both are falsy.
 */
module ServerConfig {
  import opened Strings

  const DefaultPort: string := "5000"

  /** `process.env.PORT || 5000`. */
  function Port(envPort: string): string {
    if envPort != [] then envPort else DefaultPort
  }

  /** `process.env.BASE_URL || http://localhost:<port>`. */
  function BaseUrl(envBaseUrl: string, envPort: string): string {
    if envBaseUrl != [] then envBaseUrl else "http://localhost:" + Port(envPort)
  }

  /** `getFullUrl(path)`: the base URL, one slash, and the path without one leading slash. */
  function GetFullUrl(baseUrl: string, path: string): string {
    var clean := if StartsWith(path, "/") then path[1..] else path;
    baseUrl + "/" + clean
  }

  /** Every URL built starts with the base URL and a slash, and what follows is the path less at most one slash. */
  lemma FullUrlShape(baseUrl: string, path: string)
    ensures var u := GetFullUrl(baseUrl, path);
      StartsWith(u, baseUrl + "/") &&
      (StartsWith(path, "/") ==> u == baseUrl + "/" + path[1..]) &&
      (!StartsWith(path, "/") ==> u == baseUrl + "/" + path)
  {
    var u := GetFullUrl(baseUrl, path);
    assert u[..|baseUrl + "/"|] == baseUrl + "/";
  }

  /** A leading slash makes no difference, as long as the rest does not start with another one. */
  lemma LeadingSlashIgnored(baseUrl: string, q: string)
    requires !StartsWith(q, "/")
    ensures GetFullUrl(baseUrl, "/" + q) == GetFullUrl(baseUrl, q)
  {
    assert StartsWith("/" + q, "/") && ("/" + q)[1..] == q;
  }

  /** Only one slash is stripped: a doubled one survives as an empty segment. */
  lemma OnlyOneSlashStripped(baseUrl: string, q: string)
    ensures GetFullUrl(baseUrl, "//" + q) == baseUrl + "//" + q
  {
    assert StartsWith("//" + q, "/") && ("//" + q)[1..] == "/" + q;
  }

  /** With nothing set, uploads are served from `http://localhost:5000`. */
  lemma Defaults()
    ensures Port([]) == "5000"
    ensures BaseUrl([], []) == "http://localhost:5000"
    ensures GetFullUrl(BaseUrl([], []), "uploads/a.pdf") == "http://localhost:5000/uploads/a.pdf"
  {
    assert "uploads/a.pdf"[..1] == "u";
  }
}
