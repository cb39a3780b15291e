# Backend request helpers of the bootcamp frontend, in Dafny

This project models the deterministic core of `frontend/src/util/requests.ts`. That file is the single place through which the browser application talks to its backend. It does three things:

- **`requestBackend`** stamps a caller's request with `Authorization: Bearer <access_token>` for the stored login session when the caller sets `withCredentials`. It always sets the request's `baseURL` to the backend's.
- **`requestBackendLogin`** builds the OAuth 2.0 password-grant token request (section 4.3.2 of RFC 6749). This is a form-encoded POST to `/oauth/token` with `grant_type=password`. The client authenticates with HTTP Basic (section 2.3.1 of RFC 6749, RFC 7617).
- **`errorHandler`** is the failure handler that both HTTP-client interceptors call:
  - status 500 shows an error toast;
  - status 401 shows a different error toast;
  - a missing response clears the session, shows an info toast and navigates to `/`;
  - in every case it rejects with a shallow copy of the failure.

Everything here is a pure function over immutable values:

- The session store is an explicit `Storage.Session` value.
- Toasts, navigation and session removal are an ordered `ErrorHandling.Effect` log.
- The promise the handler returns is a `Settled` value.
- A JavaScript plain object with string values, such as headers or form fields, is a `Records.Record`. This is its properties in insertion order, with unique names.
- The object literal `{...r, [k]: v}` is `Records.Set`.

`window.btoa` is modelled concretely as the base 64 encoding of section 4 of RFC 4648 over Latin-1 "binary strings". It has a canonical decoder as its partner, and the two are proved inverse in both directions. The Basic header is thereby shown to decode back to the client id and secret, and to be the only header value that does. The test vectors of section 10 of RFC 4648 are proved as well.

Modules:

- `Wrappers`: `Option` and `Result`.
- `Records`: ordered string records.
- `Base64`: RFC 4648 plus `btoa`/`atob`.
- `BasicAuth`: the RFC 7617 user-pass and how a server reads it.
- `Storage`: the session.
- `Requests`: the two builders.
- `ErrorHandling`: handler and interceptors.

In the code, reading `error.response.status` throws for a `null` response as well as for a missing one, but the `catch` block tears down only when `error.response === undefined`. A `null` response therefore produces no effects at all. `ErrorHandling.ErrorHandler` and `ErrorHandling.Classify` keep that distinction.

## Model

| member | source | states |
|---|---|---|
| Records.Set | frontend/src/util/requests.ts:42-45 | the object spread followed by one property. An existing property of that name keeps its position and takes the new value, and every other entry stays as it was. A missing property is appended last. |
| Records.SetProperties | frontend/src/util/requests.ts:26-29 | after the spread, the record still has unique names, the property holds the new value, and every other property reads exactly as before |
| Base64.Encode | frontend/src/util/requests.ts:23 | the encoding behind `btoa` has length 4·⌈n/3⌉ and `=` only in its last two places |
| Base64.DecodeEncode | frontend/src/util/requests.ts:23 | decoding the base 64 text of any byte string gives back that byte string |
| Base64.Btoa | frontend/src/util/requests.ts:23 | `btoa` fails (InvalidCharacterError) exactly when some character is above U+00FF |
| Base64.EncodeDecode | frontend/src/util/requests.ts:23 | every text the decoder accepts is the encoding of the bytes it decodes to, so each byte string has exactly one accepted encoding (unused pad bits must be zero) |
| Base64.TestVectorsOneQuantum | frontend/src/util/requests.ts:23 | `btoa` gives the RFC 4648 section 10 results for "", "f", "fo" and "foo" |
| Base64.TestVectorFoob | frontend/src/util/requests.ts:23 | `btoa("foob")` is `Zm9vYg==` |
| Base64.TestVectorFooba | frontend/src/util/requests.ts:23 | `btoa("fooba")` is `Zm9vYmE=` |
| Base64.TestVectorFoobar | frontend/src/util/requests.ts:23 | `btoa("foobar")` is `Zm9vYmFy` |
| Base64.BtoaAtob | frontend/src/util/requests.ts:23 | `btoa` of what `atob` accepted gives back exactly the accepted text |
| Base64.AtobBtoa | frontend/src/util/requests.ts:23 | for a binary string, `btoa` succeeds and `atob` of its output is the original string |
| BasicAuth.SplitAtColon | frontend/src/util/requests.ts:23 | splitting at the first colon gives a colon-free left part that rejoins to the input; there is no result exactly when the input has no colon |
| BasicAuth.SplitUserPass | frontend/src/util/requests.ts:23 | `id + ":" + secret` splits back into id and secret whenever the id has no colon |
| BasicAuth.ParseAuthorizationUnique | frontend/src/util/requests.ts:23 | a header value a server reads as given credentials is exactly `"Basic " + btoa(id + ":" + secret)` |
| BasicAuth.BasicRoundTrip | frontend/src/util/requests.ts:23 | a server parsing `"Basic " + btoa(id + ":" + secret)` recovers exactly id and secret |
| Requests.RequestBackend | frontend/src/util/requests.ts:40-48 | `baseURL` is always set to the backend's. Method, url, body and flag are kept. Without `withCredentials` the headers are passed through verbatim, even when absent. With it, `Authorization` is `"Bearer "` plus the stored token, or `"Bearer undefined"` with no session, overriding any caller value; every other header reads as the caller gave it, and names stay unique. |
| Requests.BearerHeaderPlacement | frontend/src/util/requests.ts:41-46 | with `withCredentials`, a caller's `Authorization` is replaced in place and all other headers keep order and value. A request without one gets the bearer header appended last. |
| Requests.LoginThenAuthenticatedCall | frontend/src/util/requests.ts:40-47 | once a token is stored, every `withCredentials` request carries `Authorization: Bearer <that token>` |
| Requests.ClientCredentialsEncodable | frontend/src/util/requests.ts:11-12 | the default client id has no colon, and the user-pass of the client credentials is a Latin-1 string that `btoa` accepts |
| Requests.ClientAuthorization | frontend/src/util/requests.ts:23 | the login `Authorization` value parses, under the Basic scheme, back to exactly (CLIENT_ID, CLIENT_SECRET) |
| Requests.ClientAuthorizationUnique | frontend/src/util/requests.ts:23 | the login `Authorization` value is the only header value that parses to the client credentials |
| Requests.LoginHeaders | frontend/src/util/requests.ts:21-24 | the token request headers have unique names, the form content type, and `Authorization` equal to the client's Basic value, which parses back to the client credentials |
| Requests.RequestBackendLogin | frontend/src/util/requests.ts:20-38 | the request is a POST of the backend base URL to `/oauth/token` with a form content type. Its Basic authorization decodes to the client credentials. Its form fields are unique, `grant_type` is "password" whatever the input held, and every other login field is carried over unchanged. |
| Requests.LoginFormFields | frontend/src/util/requests.ts:26-29 | for `{username, password}` the form fields are exactly `username`, `password`, `grant_type=password`, in that order |
| ErrorHandling.Replay | frontend/src/util/requests.ts:63 | replaying an effect log empties the session if the log removes the auth data, and leaves it untouched otherwise |
| ErrorHandling.ErrorHandler | frontend/src/util/requests.ts:51-71 | every path rejects with a shallow copy of the failure with the same response and config (never resolves with `undefined`), and the session returned is the log replayed. Status 500 gives one error toast; 401 gives one error toast with the other message; neither touches the session or navigates. A missing response gives clear, info toast, navigate to "/", in that order, leaving no session. A `null` response or any other status gives no effect and keeps the session. |
| ErrorHandling.HandlerMatchesClassification | frontend/src/util/requests.ts:52-70 | the try/catch/finally handler equals the explicit classification. Each verdict gets its reaction, the session is cleared exactly for an unreachable backend, and the rejection is a shallow copy with the same response and config. |
| ErrorHandling.EffectsIgnoreSession | frontend/src/util/requests.ts:51-71 | the effects depend only on the failure, never on the session |
| ErrorHandling.SessionKeptOrCleared | frontend/src/util/requests.ts:60-66 | the handler either keeps the session or clears it, and never installs another |
| ErrorHandling.TeardownIdempotent | frontend/src/util/requests.ts:60-66 | a second unreachable-backend failure, on the already cleared session, performs the same three effects and leaves the session empty |
| ErrorHandling.NotificationsDistinct | frontend/src/util/requests.ts:53-57 | the 500 and the 401 notifications differ |
| ErrorHandling.Intercept | frontend/src/util/requests.ts:73-85 | either interceptor passes a success through with no effect and sends a failure to `errorHandler`. A success settles exactly as it came in. A failure is rejected again with a shallow copy of the same response and config, so it is never swallowed. |

## Left out

- The HTTP transport and promises: the builders return the configuration handed to the HTTP client, and the handler's promise is the `Settled` value it would settle with.
- `qs.stringify`: the form body is the ordered field list it would serialise (`Body.UrlEncoded`). Percent-encoding of the fields is not modelled.
- `atob` is modelled as decoding of canonical padded text only: padding is required and unused pad bits must be zero. The browser's more tolerant decoding is not needed as the partner of `btoa`.
- The storage module (`getAuthData`/`removeAuthData`) is not part of this model. With no session, `getAuthData()` is taken to return an object without `access_token`, so the header reads "Bearer undefined".
- Toast rendering and `history.push` are not modelled; they become entries in the effect log. They are taken not to throw. Inside the `try` block, a throwing toast would reach `catch` with a defined response and cause nothing further.
- The registration calls `axios.interceptors.request.use` / `response.use` are client-library hooks. Both hooks are modelled by the one `Intercept` function.
- The environment variables at lines 8-12 are constants with their default values. A client id with a character above U+00FF would make `btoa` throw, but this cannot happen with those constants.
- Concurrent requests racing on the shared session are not modelled: the session is passed through one call at a time.
- `status` is typed `any` in the source and modelled as an integer. A non-numeric status would fail both strict comparisons, as any other status does.
- Header names are compared exactly as JavaScript property names are. A caller's lower-case `authorization` would stay beside the added `Authorization`; HTTP's case-insensitive header handling in the client is not modelled.
- JavaScript lists integer-like property names before the others. Records keep plain insertion order, which is the same for the header and form names used here.
- Request configuration fields other than method, base URL, url, headers, body and `withCredentials` are not represented. `withCredentials` is a boolean, with `undefined` read as false.
- A failure is modelled by its response and config only, so in the model the `{ ...error }` copy equals the original. In JavaScript the copy is a new plain object holding only the error's own enumerable properties. It loses the error's prototype, its non-enumerable `message` and `stack`, and its identity.
- Requests.RequestBackend: the effective target of a request is not modelled. The HTTP client puts `baseURL` in front of relative urls only, so a call with an absolute `url` goes to that url's host, bearer token included.
