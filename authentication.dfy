/**
 * `auth/authentication.py`: the claims of an access token, the password check
 * of a login, and the rejection chain that turns a bearer token into a user.
 * JWT signing and bcrypt are left abstract: a decoded token is its claims (None
 * when the signature or the expiry is rejected) and password checking is a
 * parameter.
 */
module Authentication {
  import opened Wrappers
  import opened Json
  import opened Models
  import opened Io
  import opened Storage

  /** `ACCESS_TOKEN_EXPIRE_MINUTES`. */
  const AccessTokenMinutes: int := 30

  /**
   * The claims `create_access_token` signs: `data` with `exp` set to `now`
   * plus the delta in seconds, or plus 30 minutes when the delta is absent or
   * zero (a zero `timedelta` is falsy).
   */
  function AccessClaims(data: map<string, Json>, delta: Option<int>, now: int): (claims: map<string, Json>)
    ensures claims.Keys == data.Keys + {"exp"}
    ensures forall k :: k in data && k != "exp" ==> claims[k] == data[k]
    ensures delta.Some? && delta.value != 0 ==> claims["exp"] == JInt(now + delta.value)
    ensures delta.None? || delta.value == 0 ==> claims["exp"] == JInt(now + AccessTokenMinutes * 60)
  {
    var lifetime := if delta.Some? && delta.value != 0 then delta.value else AccessTokenMinutes * 60;
    data["exp" := JInt(now + lifetime)]
  }

  /** A zero delta and no delta give the same token. */
  lemma ZeroDeltaIsDefault(data: map<string, Json>, now: int)
    ensures AccessClaims(data, Some(0), now) == AccessClaims(data, None, now)
  {
  }

  /**
   * `authenticate_user`: the user with that name, provided the password checks
   * against the stored hash; None (Python's `False`) otherwise.
   */
  function AuthenticateUser(users: seq<User>, username: string, password: string,
                            verify: (string, string) -> bool): (r: Option<User>)
    ensures r.Some? <==>
      ((exists k :: 0 <= k < |users| && users[k].username == username)
       && verify(password, users[FindUserByName(users, username).value].hashedPassword))
    ensures r.Some? ==> r.value in users && r.value.username == username
  {
    match FindUserByName(users, username)
    case None => None
    case Some(k) => if verify(password, users[k].hashedPassword) then Some(users[k]) else None
  }

  /** With unique names, a login succeeds exactly for that user's password. */
  lemma AuthenticateUnique(users: seq<User>, k: nat, password: string, verify: (string, string) -> bool)
    requires UserKeys(users) && k < |users|
    ensures AuthenticateUser(users, users[k].username, password, verify)
            == (if verify(password, users[k].hashedPassword) then Some(users[k]) else None)
  {
    var found := FindUserByName(users, users[k].username);
    assert found.Some?;
    assert found.value == k;
  }

  /** The `401` of `get_current_user`. */
  const CredentialsDetail: string := "Could not validate credentials"

  /**
   * `get_current_user` given the decoded claims: no claims or no `sub` is a
   * 401, a `sub` that is not a string fails `TokenData` (500), and an unknown
   * name is a 401.
   */
  function GetCurrentUser(users: seq<User>, decoded: Option<map<string, Json>>): (r: Reply<User>)
    ensures r.Done? <==>
      (decoded.Some? && Get(decoded.value, "sub", JNull).JStr?
       && FindUserByName(users, Get(decoded.value, "sub", JNull).s).Some?)
    ensures r.Done? ==> r.body in users && r.body.username == Get(decoded.value, "sub", JNull).s
    ensures r.Rejected? ==> r.status == 401 && r.detail == CredentialsDetail
  {
    if decoded.None? then Rejected(401, CredentialsDetail)
    else
      var sub := Get(decoded.value, "sub", JNull);
      if sub.JNull? then Rejected(401, CredentialsDetail)
      else if !sub.JStr? then InternalError
      else
        match FindUserByName(users, sub.s)
        case None => Rejected(401, CredentialsDetail)
        case Some(k) => Done(users[k])
  }

  /** A token issued to a stored user at login is accepted as that user while it decodes. */
  lemma LoginTokenAccepted(users: seq<User>, k: nat, now: int)
    requires UserKeys(users) && k < |users|
    ensures GetCurrentUser(users, Some(AccessClaims(map["sub" := JStr(users[k].username)],
                                                    Some(AccessTokenMinutes * 60), now)))
            == Done(users[k])
  {
    var claims := AccessClaims(map["sub" := JStr(users[k].username)], Some(AccessTokenMinutes * 60), now);
    assert Get(claims, "sub", JNull) == JStr(users[k].username);
    assert FindUserByName(users, users[k].username).value == k;
  }
}
