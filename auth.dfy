/** `auth()`: the request-level authentication check, and the guard the actions wrap around it. */
module Auth {
  import opened Base
  import opened ObjectIds
  import opened Seqs
  import opened SessionModel

  /** The value `auth()` resolves to; `success` is a status code, 0 meaning authenticated. */
  datatype AuthSession = AuthSession(success: int)

  datatype Cookie = Cookie(name: string, value: string)

  /** The name of the cookie `auth()` reads. */
  const SessionCookie: string := "session_token"

  /** The status codes. */
  const Authenticated: int := 0
  const NoToken: int := 1
  const InvalidSession: int := 2
  const UnknownUser: int := 3
  const Failure: int := 4

  /** `cookieStore.get(name)`: the cookie store keeps one entry per name, and a name repeated in the
      Cookie header keeps its last occurrence, so this is the last cookie of that name, if any. */
  function GetCookie(cookies: seq<Cookie>, name: string): (r: Option<Cookie>)
    ensures r.Some? ==> exists i :: && 0 <= i < |cookies| && cookies[i] == r.value && r.value.name == name
                                    && forall j :: i < j < |cookies| ==> cookies[j].name != name
    ensures r.None? <==> forall i :: 0 <= i < |cookies| ==> cookies[i].name != name
  {
    if cookies == [] then None
    else
      var n := |cookies| - 1;
      if cookies[n].name == name then Some(cookies[n])
      else
        var r := GetCookie(cookies[..n], name);
        assert forall i :: 0 <= i < n ==> cookies[..n][i] == cookies[i];
        r
  }

  /** A header that repeats the session cookie, as a browser does for cookies set on two paths,
      hands the later value to the session lookup. */
  lemma RepeatedCookieGivesLast(a: string, b: string)
    ensures GetCookie([Cookie(SessionCookie, a), Cookie(SessionCookie, b)], SessionCookie)
            == Some(Cookie(SessionCookie, b))
  {
  }

  /** `auth()`. `connect` is the outcome of connecting to the database; `cookies` is the outcome of
      reading the request's cookie store; `findSession` is the session
      lookup, which is handed the whole cookie object rather than its value, and so is left abstract;
      `findUser` says whether the user with the id exists. Any thrown step gives code 4. */
  function Authenticate(connect: Call<()>, cookies: Call<seq<Cookie>>,
                        findSession: Cookie -> Call<Option<Session>>,
                        findUser: ObjectId -> Call<bool>): (r: Option<AuthSession>)
    ensures r.Some?
    ensures Authenticated <= r.value.success <= Failure
    ensures connect.Throws? || cookies.Throws? ==> r.value.success == Failure
    ensures r.value.success == NoToken <==>
              connect.Returns? && cookies.Returns? && GetCookie(cookies.value, SessionCookie).None?
    ensures r.value.success == Authenticated <==>
              && connect.Returns? && cookies.Returns?
              && var c := GetCookie(cookies.value, SessionCookie);
              && c.Some?
              && var found := findSession(c.value);
              && found.Returns? && found.value.Some? && found.value.value.isValid
              && findUser(found.value.value.userId) == Returns(true)
    ensures r.value.success == InvalidSession <==>
              && connect.Returns? && cookies.Returns?
              && var c := GetCookie(cookies.value, SessionCookie);
              && c.Some?
              && var found := findSession(c.value);
              && found.Returns? && (found.value.None? || !found.value.value.isValid)
    ensures r.value.success == UnknownUser <==>
              && connect.Returns? && cookies.Returns?
              && var c := GetCookie(cookies.value, SessionCookie);
              && c.Some?
              && var found := findSession(c.value);
              && found.Returns? && found.value.Some? && found.value.value.isValid
              && findUser(found.value.value.userId) == Returns(false)
  {
    if connect.Throws? || cookies.Throws? then Some(AuthSession(Failure))
    else match GetCookie(cookies.value, SessionCookie)
      case None => Some(AuthSession(NoToken))
      case Some(token) =>
        match findSession(token)
        case Throws => Some(AuthSession(Failure))
        case Returns(session) =>
          if session.None? || !session.value.isValid then Some(AuthSession(InvalidSession))
          else match findUser(session.value.userId)
            case Throws => Some(AuthSession(Failure))
            case Returns(exists_) =>
              if !exists_ then Some(AuthSession(UnknownUser)) else Some(AuthSession(Authenticated))
  }

  /** `!isAuthenticated` in the actions: it rejects only a null result. */
  predicate GuardRejects(authResult: Option<AuthSession>) {
    authResult.None?
  }

  /** `auth()` never resolves to null, so the guard in the actions never rejects a caller, whatever
      the status code says. */
  lemma GuardNeverRejects(connect: Call<()>, cookies: Call<seq<Cookie>>,
                          findSession: Cookie -> Call<Option<Session>>, findUser: ObjectId -> Call<bool>)
    ensures var r := Authenticate(connect, cookies, findSession, findUser);
            !GuardRejects(r)
  {
  }

  /** `auth()` checks `isValid` but not `expiresAt`: a valid session past its expiry still yields
      code 0, although `findByToken` no longer finds it. */
  lemma AuthIgnoresExpiry(s: Session, now: Millis, cookies: seq<Cookie>,
                          findSession: Cookie -> Call<Option<Session>>, findUser: ObjectId -> Call<bool>)
    requires s.isValid && s.expiresAt <= now
    requires GetCookie(cookies, SessionCookie).Some?
    requires findSession(GetCookie(cookies, SessionCookie).value) == Returns(Some(s))
    requires findUser(s.userId) == Returns(true)
    ensures Authenticate(Returns(()), Returns(cookies), findSession, findUser) == Some(AuthSession(Authenticated))
    ensures FindByToken([s], s.token, now).None?
  {
  }
}
