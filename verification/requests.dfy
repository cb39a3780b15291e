/**
 The two request builders: `requestBackend`, which stamps a caller's request
 with the stored bearer token, and `requestBackendLogin`, which builds the
 OAuth 2.0 password-grant token request. Each returns the request
 configuration it hands to the HTTP client; the transport is not modelled.
 */
module Requests {
  import opened Wrappers
  import opened Records
  import opened Storage
  import Base64
  import BasicAuth

  /** The defaults used when the build environment sets no value. */
  const BASE_URL := "http://localhost:8080"
  const CLIENT_ID := "myclientid"
  const CLIENT_SECRET := "myclientsecret"

  const TOKEN_PATH := "/oauth/token"
  const FORM_CONTENT_TYPE := "application/x-www-form-urlencoded"
  const AUTHORIZATION := "Authorization"
  const CONTENT_TYPE := "Content-Type"

  /**
   A request body: none, the field list that `qs.stringify` serialises as an
   `application/x-www-form-urlencoded` string, or a payload passed through
   untouched.
   */
  datatype Body = NoBody | UrlEncoded(fields: Record) | Payload(text: string)

  /** The subset of the HTTP client's request configuration this code reads or writes. */
  datatype RequestConfig = RequestConfig(
    httpMethod: Option<string>,
    baseURL: Option<string>,
    url: Option<string>,
    headers: Option<Record>,
    data: Body,
    withCredentials: bool)

  predicate HeadersWellFormed(c: RequestConfig) {
    c.headers.Some? ==> WellFormed(c.headers.value)
  }

  /** The bearer credential of section 2.1 of RFC 6750 for the stored token. */
  function BearerValue(s: Session): string {
    "Bearer " + AccessTokenText(s)
  }

  /**
   `requestBackend`: with `withCredentials` the caller's headers get an
   `Authorization` bearer header for the current session, replacing one the
   caller gave; without it the headers are passed on as they are. `baseURL`
   is always set to the backend's; every other field is kept.
   */
  function RequestBackend(c: RequestConfig, s: Session): (r: RequestConfig)
    requires HeadersWellFormed(c)
    ensures r.baseURL == Some(BASE_URL)
    ensures r.httpMethod == c.httpMethod && r.url == c.url && r.data == c.data
    ensures r.withCredentials == c.withCredentials
    ensures !c.withCredentials ==> r.headers == c.headers
    ensures c.withCredentials ==> r.headers.Some?
    ensures HeadersWellFormed(r)
    ensures c.withCredentials && s.Stored? ==>
      Lookup(r.headers.value, AUTHORIZATION) == Some("Bearer " + s.auth.accessToken)
    ensures c.withCredentials && s.NoSession? ==>
      Lookup(r.headers.value, AUTHORIZATION) == Some("Bearer undefined")
    ensures c.withCredentials ==> forall k :: k != AUTHORIZATION ==>
      Lookup(r.headers.value, k) == Lookup(c.headers.GetOr([]), k)
  {
    assert "Bearer " + "undefined" == "Bearer undefined";
    var headers :=
      if c.withCredentials then
        SetProperties(c.headers.GetOr([]), AUTHORIZATION, BearerValue(s));
        Some(Set(c.headers.GetOr([]), AUTHORIZATION, BearerValue(s)))
      else c.headers;
    c.(baseURL := Some(BASE_URL), headers := headers)
  }

  /**
   With `withCredentials`, the caller's own headers keep their order and
   values, except that an `Authorization` header takes the bearer value in
   place; a request that had none gets it appended last.
   */
  lemma BearerHeaderPlacement(c: RequestConfig, s: Session)
    requires HeadersWellFormed(c) && c.withCredentials
    ensures var h := c.headers.GetOr([]); var h' := RequestBackend(c, s).headers.value;
      (Lookup(h, AUTHORIZATION).None? ==> h' == h + [(AUTHORIZATION, BearerValue(s))]) &&
      (Lookup(h, AUTHORIZATION).Some? ==> |h'| == |h| && forall i :: 0 <= i < |h| ==>
         h'[i] == (if h[i].0 == AUTHORIZATION then (AUTHORIZATION, BearerValue(s)) else h[i]))
  {
  }

  /** The login form and the credentials of the token request. */
  type LoginData = Record

  /** The user-pass of the client credentials, which are Latin-1 and have no colon in the id. */
  lemma ClientCredentialsEncodable()
    ensures ':' !in CLIENT_ID
    ensures Base64.IsBinaryString(BasicAuth.UserPass(CLIENT_ID, CLIENT_SECRET))
  {
    var up := BasicAuth.UserPass(CLIENT_ID, CLIENT_SECRET);
    assert up == "myclientid:myclientsecret";
    assert forall i :: 0 <= i < |up| ==> up[i] as int < 256;
  }

  /** `"Basic " + btoa(CLIENT_ID + ":" + CLIENT_SECRET)`, client authentication of section 2.3.1 of RFC 6749. */
  function ClientAuthorization(): (v: string)
    ensures BasicAuth.ParseAuthorization(v) == Some((CLIENT_ID, CLIENT_SECRET))
  {
    ClientCredentialsEncodable();
    BasicAuth.BasicRoundTrip(CLIENT_ID, CLIENT_SECRET);
    BasicAuth.SCHEME_PREFIX + Base64.Btoa(BasicAuth.UserPass(CLIENT_ID, CLIENT_SECRET)).value
  }

  /**
   The login `Authorization` value is the only header value that a server
   reads as the client credentials: base 64 text has one canonical form.
   */
  lemma ClientAuthorizationUnique(v: string)
    requires BasicAuth.ParseAuthorization(v) == Some((CLIENT_ID, CLIENT_SECRET))
    ensures v == ClientAuthorization()
  {
    BasicAuth.ParseAuthorizationUnique(v, CLIENT_ID, CLIENT_SECRET);
  }

  /** The two headers of the token request: the form content type and the client's Basic credentials. */
  function LoginHeaders(): (h: Record)
    ensures WellFormed(h)
    ensures Lookup(h, CONTENT_TYPE) == Some(FORM_CONTENT_TYPE)
    ensures Lookup(h, AUTHORIZATION) == Some(ClientAuthorization())
    ensures BasicAuth.ParseAuthorization(Lookup(h, AUTHORIZATION).value) == Some((CLIENT_ID, CLIENT_SECRET))
  {
    var h := [(CONTENT_TYPE, FORM_CONTENT_TYPE), (AUTHORIZATION, ClientAuthorization())];
    assert h[0].0 != h[1].0;
    assert h[1..][0] == (AUTHORIZATION, ClientAuthorization());
    h
  }

  /**
   `requestBackendLogin`: the access token request of section 4.3.2 of
   RFC 6749, a form-encoded POST to the token endpoint carrying the login
   fields with `grant_type` forced to "password", authenticated as the client.
   */
  function RequestBackendLogin(login: LoginData): (r: RequestConfig)
    requires WellFormed(login)
    ensures r.httpMethod == Some("POST") && r.baseURL == Some(BASE_URL) && r.url == Some(TOKEN_PATH)
    ensures !r.withCredentials
    ensures r.headers.Some? && WellFormed(r.headers.value)
    ensures Lookup(r.headers.value, CONTENT_TYPE) == Some(FORM_CONTENT_TYPE)
    ensures Lookup(r.headers.value, AUTHORIZATION).Some?
    ensures BasicAuth.ParseAuthorization(Lookup(r.headers.value, AUTHORIZATION).value)
      == Some((CLIENT_ID, CLIENT_SECRET))
    ensures r.data.UrlEncoded? && WellFormed(r.data.fields)
    ensures Lookup(r.data.fields, "grant_type") == Some("password")
    ensures forall k :: k != "grant_type" ==> Lookup(r.data.fields, k) == Lookup(login, k)
  {
    SetProperties(login, "grant_type", "password");
    RequestConfig(
      Some("POST"), Some(BASE_URL), Some(TOKEN_PATH), Some(LoginHeaders()),
      UrlEncoded(Set(login, "grant_type", "password")), false)
  }

  /**
   For the login form `{username, password}` the body fields are exactly
   `username`, `password`, `grant_type=password`, in that order.
   */
  lemma LoginFormFields(username: string, password: string)
    ensures RequestBackendLogin([("username", username), ("password", password)]).data
      == UrlEncoded([("username", username), ("password", password), ("grant_type", "password")])
  {
  }

  /**
   A token stored after logging in is the bearer credential of every later
   request made with `withCredentials`.
   */
  lemma LoginThenAuthenticatedCall(token: string, c: RequestConfig)
    requires HeadersWellFormed(c) && c.withCredentials
    ensures Lookup(RequestBackend(c, Stored(AuthData(token))).headers.value, AUTHORIZATION)
      == Some("Bearer " + token)
  {
  }
}
