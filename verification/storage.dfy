/**
 The persisted login session that `getAuthData` reads and `removeAuthData`
 clears. The storage module itself is not part of this model: the session is
 an explicit value passed in and returned.
 */
module Storage {

  /** The token payload kept after a successful login. */
  datatype AuthData = AuthData(accessToken: string)

  datatype Session = NoSession | Stored(auth: AuthData)

  /**
   `getAuthData().access_token` as it appears inside a string concatenation:
   with no stored session the property is `undefined`, which JavaScript
   renders as the text "undefined".
   */
  function AccessTokenText(s: Session): string {
    match s
    case Stored(auth) => auth.accessToken
    case NoSession => "undefined"
  }
}
