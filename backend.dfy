/**
 * The backend address: `normalizeBaseUrl`, the environment fallback chain for the base URL and
 * the URL `backendApiFetch` requests. The environment variables are parameters; `fetch` is not
 * part of this model.
 */
module Backend {
  import opened Wrappers

  predicate EndsWithSlash(s: string) {
    s != [] && s[|s| - 1] == '/'
  }

  predicate StartsWithSlash(s: string) {
    s != [] && s[0] == '/'
  }

  /** `normalizeBaseUrl`: unset or empty gives nothing; otherwise one trailing "/" is dropped. */
  function NormalizeBaseUrl(value: Option<string>): (r: Option<string>)
    ensures r.None? <==> value == None || value == Some([])
    ensures r.Some? && EndsWithSlash(value.value) ==> r.value + "/" == value.value
    ensures r.Some? && !EndsWithSlash(value.value) ==> r.value == value.value
  {
    if value.None? || value.value == [] then None
    else if EndsWithSlash(value.value) then Some(value.value[..|value.value| - 1])
    else Some(value.value)
  }

  /** With or without one trailing slash, an address normalizes alike. */
  lemma TrailingSlashIgnored(x: string)
    requires x != [] && !EndsWithSlash(x)
    ensures NormalizeBaseUrl(Some(x + "/")) == NormalizeBaseUrl(Some(x)) == Some(x)
  {
    assert (x + "/")[..|x|] == x;
  }

  /** Only one slash goes: "x//" becomes "x/". */
  lemma OnlyOneSlashRemoved(x: string)
    ensures NormalizeBaseUrl(Some(x + "//")) == Some(x + "/")
  {
    assert (x + "//")[..|x| + 1] == x + "/";
  }

  const DefaultBaseUrl: string := "http://localhost:5000/api"

  /** `backendApiBaseUrl` from `BACKEND_URL` and `NEXT_PUBLIC_BACKEND_URL`. */
  function BaseUrl(backendUrl: Option<string>, publicUrl: Option<string>): (r: string)
    ensures NormalizeBaseUrl(backendUrl).Some? ==> r == NormalizeBaseUrl(backendUrl).value
    ensures NormalizeBaseUrl(backendUrl).None? && NormalizeBaseUrl(publicUrl).Some? ==>
      r == NormalizeBaseUrl(publicUrl).value
    ensures r == DefaultBaseUrl <==>
      (backendUrl.Some? && backendUrl.value in {DefaultBaseUrl, DefaultBaseUrl + "/"}) ||
      (NormalizeBaseUrl(backendUrl).None? && (publicUrl == None || publicUrl == Some([]) ||
        publicUrl.value in {DefaultBaseUrl, DefaultBaseUrl + "/"}))
  {
    NormalizeBaseUrl(backendUrl).Or(NormalizeBaseUrl(publicUrl)).OrElse(DefaultBaseUrl)
  }

  /** An empty `BACKEND_URL` counts as unset. */
  lemma EmptyBackendUrlIsUnset(publicUrl: Option<string>)
    ensures BaseUrl(Some([]), publicUrl) == BaseUrl(None, publicUrl)
  {
  }

  /** The URL `backendApiFetch` requests: the base, one "/", then the path without its own leading "/". */
  function RequestUrl(base: string, path: string): (r: string)
    ensures |r| > |base| && r[..|base|] == base && r[|base|] == '/'
    ensures StartsWithSlash(path) ==> r[|base|..] == path
    ensures !StartsWithSlash(path) ==> r[|base| + 1..] == path
  {
    base + (if StartsWithSlash(path) then path else "/" + path)
  }

  /** A path may be given with or without its leading slash. */
  lemma LeadingSlashOptional(base: string, path: string)
    requires !StartsWithSlash(path)
    ensures RequestUrl(base, "/" + path) == RequestUrl(base, path)
  {
  }
}
