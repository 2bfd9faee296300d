/**
 * The input checks of the shorten request (server.js): the `originalUrl` body
 * field must be truthy, then it must start with one of the two web schemes.
 * The checks are pure; the handler answers 400 with the error's message.
 */
module Validation {
  import opened Wrappers

  datatype ValidationError = UrlRequired | SchemeNotAllowed {
    /** The `error` string of the 400 response. */
    function Message(): string {
      match this
      case UrlRequired => "Original URL is required"
      case SchemeNotAllowed => "URL must start with http:// or https://"
    }
  }

  /** JavaScript's String.prototype.startsWith without a position argument. */
  predicate StartsWith(s: string, prefix: string) {
    |prefix| <= |s| && s[..|prefix|] == prefix
  }

  predicate HasWebScheme(url: string) {
    StartsWith(url, "http://") || StartsWith(url, "https://")
  }

  /**
   * `!originalUrl` is false: the field is present and not the empty string
   * (a body field is absent, `None`, or a string).
   */
  predicate IsTruthy(originalUrl: Option<string>) {
    originalUrl.Some? && originalUrl.value != ""
  }

  /**
   * The two checks in order: absent or empty first, then the scheme. The
   * accepted URL is handed on unchanged.
   */
  function ValidateOriginalUrl(originalUrl: Option<string>): (r: Result<string, ValidationError>)
    ensures r == Failure(UrlRequired) <==> originalUrl == None || originalUrl == Some("")
    ensures r == Failure(SchemeNotAllowed) <==>
              originalUrl.Some? && originalUrl.value != "" && !HasWebScheme(originalUrl.value)
    ensures r.Success? <==> originalUrl.Some? && HasWebScheme(originalUrl.value)
    ensures r.Success? ==> originalUrl == Some(r.value) && |r.value| >= 7
  {
    if !IsTruthy(originalUrl) then Failure(UrlRequired)
    else if !HasWebScheme(originalUrl.value) then Failure(SchemeNotAllowed)
    else Success(originalUrl.value)
  }

  /** The scheme check, restated as "the URL is a scheme followed by anything". */
  lemma HasWebSchemeIffSchemePrefixed(url: string)
    ensures HasWebScheme(url) <==> exists rest :: url == "http://" + rest || url == "https://" + rest
  {
    if StartsWith(url, "http://") {
      assert url == "http://" + url[7..];
    } else if StartsWith(url, "https://") {
      assert url == "https://" + url[8..];
    }
    if exists rest :: url == "http://" + rest || url == "https://" + rest {
      var rest :| url == "http://" + rest || url == "https://" + rest;
      if url == "http://" + rest {
        assert url[..7] == "http://";
      } else {
        assert url[..8] == "https://";
      }
    }
  }
}
