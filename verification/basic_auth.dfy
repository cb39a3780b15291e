/**
 The "Basic" HTTP authentication scheme of RFC 7617 (section 2): the
 credentials are the user-id and password joined by a single colon, encoded
 with base 64; the user-id cannot contain a colon, so a receiver splits the
 decoded user-pass at its first colon.
 */
module BasicAuth {
  import opened Wrappers
  import Base64

  /** The user-pass of section 2 of RFC 7617. */
  function UserPass(userId: string, password: string): string {
    userId + ":" + password
  }

  /** Splits `s` at its first colon. */
  function SplitAtColon(s: string): (r: Option<(string, string)>)
    ensures r.Some? ==> s == r.value.0 + ":" + r.value.1 && ':' !in r.value.0
    ensures r.None? <==> ':' !in s
  {
    if |s| == 0 then None
    else if s[0] == ':' then Some(("", s[1..]))
    else
      match SplitAtColon(s[1..])
      case None => None
      case Some((u, p)) => Some(([s[0]] + u, p))
  }

  /** A colon-free user-id and any password come back apart from their user-pass. */
  lemma {:induction false} SplitUserPass(userId: string, password: string)
    requires ':' !in userId
    ensures SplitAtColon(UserPass(userId, password)) == Some((userId, password))
  {
    var s := UserPass(userId, password);
    if |userId| == 0 {
      assert s == ":" + password;
    } else {
      assert s[1..] == UserPass(userId[1..], password);
      SplitUserPass(userId[1..], password);
      assert [userId[0]] + userId[1..] == userId;
    }
  }

  const SCHEME_PREFIX := "Basic "

  /**
   How a server reads an `Authorization` header value of the Basic scheme:
   the scheme prefix, a base 64 token, and a user-pass inside it.
   */
  function ParseAuthorization(value: string): Option<(string, string)> {
    if |value| < |SCHEME_PREFIX| || value[..|SCHEME_PREFIX|] != SCHEME_PREFIX then None
    else
      match Base64.Atob(value[|SCHEME_PREFIX|..])
      case Failure(_) => None
      case Success(userPass) => SplitAtColon(userPass)
  }

  /**
   A header value built as `"Basic " + btoa(userId + ":" + password)` is read
   back as exactly that user-id and password.
   */
  lemma BasicRoundTrip(userId: string, password: string)
    requires ':' !in userId
    requires Base64.IsBinaryString(UserPass(userId, password))
    ensures Base64.Btoa(UserPass(userId, password)).Success?
    ensures ParseAuthorization(SCHEME_PREFIX + Base64.Btoa(UserPass(userId, password)).value)
      == Some((userId, password))
  {
    var token := Base64.Btoa(UserPass(userId, password)).value;
    Base64.AtobBtoa(UserPass(userId, password));
    var value := SCHEME_PREFIX + token;
    assert value[..|SCHEME_PREFIX|] == SCHEME_PREFIX;
    assert value[|SCHEME_PREFIX|..] == token;
    SplitUserPass(userId, password);
  }

  /**
   The header value a server reads as given credentials is unique: it is
   `"Basic " + btoa(userId + ":" + password)` and nothing else.
   */
  lemma ParseAuthorizationUnique(value: string, userId: string, password: string)
    requires ParseAuthorization(value) == Some((userId, password))
    ensures Base64.Btoa(UserPass(userId, password)).Success?
    ensures value == SCHEME_PREFIX + Base64.Btoa(UserPass(userId, password)).value
  {
    var token := value[|SCHEME_PREFIX|..];
    var userPass := Base64.Atob(token).value;
    assert userPass == UserPass(userId, password);
    Base64.BtoaAtob(token);
    assert value == value[..|SCHEME_PREFIX|] + token;
  }
}
