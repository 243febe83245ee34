/**
 * The account routes of `routers/auth.py` as transitions of the `users` table:
 * registration, login, the forgot-password and reset-password exchange with its
 * single-use reset token, and the `UserResponse` lookup. Hashing and token
 * signing are parameters; a decoded reset token is its claims.
 */
module AuthRouter {
  import opened Wrappers
  import opened Text
  import opened Json
  import opened Models
  import opened Schemas
  import opened Io
  import opened Storage
  import opened Authentication

  /** `RESET_TOKEN_EXPIRE_MINUTES`. */
  const ResetMinutes: int := 15

  /** `FRONTEND_URL`. */
  const FrontendUrl: string := "http://localhost:5173"

  /**
   * `register_user`: a taken username is refused before a taken email is
   * looked at; otherwise one row is appended, holding the hash of the password.
   */
  function Register(users: seq<User>, username: string, email: string, hashed: string)
    : (r: (Reply<User>, seq<User>))
    ensures r.0.Done? <==> FindUserByName(users, username).None? && FindUserByEmail(users, email).None?
    ensures FindUserByName(users, username).Some? ==> r.0 == Rejected(400, "Username already registered")
    ensures FindUserByName(users, username).None? && FindUserByEmail(users, email).Some? ==>
              r.0 == Rejected(400, "Email already registered")
    ensures !r.0.Done? ==> r.1 == users
    ensures r.0.Done? ==> r.1 == users + [r.0.body]
    ensures r.0.Done? ==> r.0.body.username == username && r.0.body.email == email
                          && r.0.body.hashedPassword == hashed && !r.0.body.disabled
                          && r.0.body.resetToken.None? && r.0.body.resetExpires.None?
  {
    if FindUserByName(users, username).Some? then (Rejected(400, "Username already registered"), users)
    else if FindUserByEmail(users, email).Some? then (Rejected(400, "Email already registered"), users)
    else
      var user := User(NextUserId(users), username, email, hashed, false, None, None);
      (Done(user), users + [user])
  }

  /** Registration keeps ids, names and emails unique and reset fields paired. */
  lemma RegisterKeepsInvariant(users: seq<User>, username: string, email: string, hashed: string)
    requires UserKeys(users) && ResetPaired(users)
    ensures UserKeys(Register(users, username, email, hashed).1)
    ensures ResetPaired(Register(users, username, email, hashed).1)
  {
  }

  method RegisterUser(db: Database, username: string, email: string, password: string,
                      hash: string -> string) returns (r: Reply<User>)
    requires db.Valid()
    modifies db
    ensures (r, db.users) == Register(old(db.users), username, email, hash(password))
    ensures db.jobs == old(db.jobs) && db.likes == old(db.likes) && db.seen == old(db.seen)
    ensures db.Valid()
  {
    RegisterKeepsInvariant(db.users, username, email, hash(password));
    if FindUserByName(db.users, username).Some? {
      return Rejected(400, "Username already registered");
    }
    if FindUserByEmail(db.users, email).Some? {
      return Rejected(400, "Email already registered");
    }
    var user := User(NextUserId(db.users), username, email, hash(password), false, None, None);
    db.users := db.users + [user];
    r := Done(user);
  }

  /**
   * `login_for_access_token`: the claims of the token issued, or 401 when the
   * name is unknown or the password does not check.
   */
  function Login(users: seq<User>, username: string, password: string,
                 verify: (string, string) -> bool, now: int): (r: Reply<map<string, Json>>)
    ensures r.Done? <==> AuthenticateUser(users, username, password, verify).Some?
    ensures r.Rejected? ==> r == Rejected(401, "Incorrect username or password")
    ensures r.Done? ==> r.body.Keys == {"sub", "exp"}
    ensures r.Done? ==> r.body["sub"] == JStr(username)
                        && r.body["exp"] == JInt(now + AccessTokenMinutes * 60)
  {
    match AuthenticateUser(users, username, password, verify)
    case None => Rejected(401, "Incorrect username or password")
    case Some(user) => Done(AccessClaims(map["sub" := JStr(user.username)], Some(AccessTokenMinutes * 60), now))
  }

  /** The claims of a reset token. */
  function ResetClaims(email: string, expires: int): map<string, Json> {
    map["sub" := JStr(email), "exp" := JInt(expires), "purpose" := JStr("password_reset")]
  }

  /** The reset mail handed to the mailer. */
  datatype Mail = Mail(to: string, link: string)

  /**
   * `forgot_password`: for a known email, a signed reset token valid 15 minutes
   * is stored on that user and mailed as a link; an unknown email changes nothing.
   */
  function Forgot(users: seq<User>, email: string, now: int, sign: map<string, Json> -> string)
    : (r: (Option<Mail>, seq<User>))
    ensures |r.1| == |users|
    ensures FindUserByEmail(users, email).None? ==> r == (None, users)
    ensures FindUserByEmail(users, email).Some? ==>
      var k := FindUserByEmail(users, email).value;
      var token := sign(ResetClaims(email, now + ResetMinutes * 60));
      r.0 == Some(Mail(email, FrontendUrl + "/auth/reset-password?token=" + token))
      && r.1[k] == users[k].(resetToken := Some(token), resetExpires := Some(now + ResetMinutes * 60))
      && forall j :: 0 <= j < |users| && j != k ==> r.1[j] == users[j]
  {
    match FindUserByEmail(users, email)
    case None => (None, users)
    case Some(k) =>
      var expires := now + ResetMinutes * 60;
      var token := sign(ResetClaims(users[k].email, expires));
      (Some(Mail(users[k].email, FrontendUrl + "/auth/reset-password?token=" + token)),
       users[k := users[k].(resetToken := Some(token), resetExpires := Some(expires))])
  }

  /** Asking for a reset keeps the keys unique and the reset fields paired. */
  lemma ForgotKeepsInvariant(users: seq<User>, email: string, now: int, sign: map<string, Json> -> string)
    requires UserKeys(users) && ResetPaired(users)
    ensures UserKeys(Forgot(users, email, now, sign).1)
    ensures ResetPaired(Forgot(users, email, now, sign).1)
  {
  }

  method ForgotPassword(db: Database, email: string, now: int, sign: map<string, Json> -> string)
    returns (mail: Option<Mail>)
    requires db.Valid()
    modifies db
    ensures (mail, db.users) == Forgot(old(db.users), email, now, sign)
    ensures db.jobs == old(db.jobs) && db.likes == old(db.likes) && db.seen == old(db.seen)
    ensures db.Valid()
  {
    ForgotKeepsInvariant(db.users, email, now, sign);
    var found := FindUserByEmail(db.users, email);
    if found.None? {
      return None;
    }
    var k := found.value;
    var expires := now + ResetMinutes * 60;
    var token := sign(ResetClaims(db.users[k].email, expires));
    db.users := db.users[k := db.users[k].(resetToken := Some(token), resetExpires := Some(expires))];
    mail := Some(Mail(db.users[k].email, FrontendUrl + "/auth/reset-password?token=" + token));
  }

  /** `datetime.fromtimestamp` on an `exp` claim: an integer (or bool), else `TypeError`. */
  function Timestamp(j: Json): Option<int> {
    match j
    case JInt(i) => Some(i)
    case JBool(b) => Some(if b then 1 else 0)
    case _ => None
  }

  /** The text SQLite compares an email column against for a `sub` claim. */
  function ClaimText(j: Json): Option<string> {
    match j
    case JStr(s) => Some(s)
    case _ => None
  }

  /** The reset-token detail messages. */
  const InvalidToken: string := "Jeton invalide"
  const ExpiredToken: string := "Jeton expir\U{e9}"
  const InvalidOrExpired: string := "Jeton invalide ou expir\U{e9}"

  /**
   * `reset_password` given the token, its decoded claims (None when jose
   * rejects it), the new hash and the clock.
   */
  function Reset(users: seq<User>, token: string, decoded: Option<map<string, Json>>,
                 newHash: string, now: int): (r: (Reply<()>, seq<User>))
    ensures |r.1| == |users|
    ensures !r.0.Done? ==> r.1 == users
    ensures r.0.Rejected? ==> r.0.status == 400
  {
    if decoded.None? then (Rejected(400, InvalidToken), users)
    else
      var claims := decoded.value;
      var sub := Get(claims, "sub", JNull);
      if sub.JNull? || Get(claims, "purpose", JNull) != JStr("password_reset") then
        (Rejected(400, InvalidToken), users)
      else if "exp" !in claims || Timestamp(claims["exp"]).None? then (InternalError, users)
      else if Timestamp(claims["exp"]).value < now then (Rejected(400, ExpiredToken), users)
      else
        var found := if ClaimText(sub).Some? then FindUserByEmail(users, ClaimText(sub).value) else None;
        if found.None? || users[found.value].resetToken != Some(token) then
          (Rejected(400, InvalidOrExpired), users)
        else if users[found.value].resetExpires.None? then (InternalError, users)
        else if users[found.value].resetExpires.value < now then (Rejected(400, InvalidOrExpired), users)
        else
          var k := found.value;
          (Done(()), users[k := users[k].(hashedPassword := newHash, resetToken := None, resetExpires := None)])
  }

  /** A token without `sub` or not meant for password reset is refused as invalid. */
  lemma ResetRejectsForeignToken(users: seq<User>, token: string, claims: map<string, Json>,
                                 newHash: string, now: int)
    requires Get(claims, "sub", JNull).JNull? || Get(claims, "purpose", JNull) != JStr("password_reset")
    ensures Reset(users, token, Some(claims), newHash, now) == (Rejected(400, InvalidToken), users)
  {
  }

  /**
   * A reset succeeds only for the user whose email is the token's subject,
   * whose stored token is this one and whose stored expiry has not passed;
   * it sets the new hash and clears both reset fields of that user only.
   */
  lemma ResetSuccess(users: seq<User>, token: string, decoded: Option<map<string, Json>>,
                     newHash: string, now: int)
    requires Reset(users, token, decoded, newHash, now).0.Done?
    ensures decoded.Some? && Get(decoded.value, "sub", JNull).JStr?
    ensures Get(decoded.value, "purpose", JNull) == JStr("password_reset")
    ensures "exp" in decoded.value && Timestamp(decoded.value["exp"]).Some?
            && Timestamp(decoded.value["exp"]).value >= now
    ensures var k := FindUserByEmail(users, Get(decoded.value, "sub", JNull).s);
      k.Some? && users[k.value].resetToken == Some(token)
      && users[k.value].resetExpires.Some? && users[k.value].resetExpires.value >= now
      && Reset(users, token, decoded, newHash, now).1
         == users[k.value := users[k.value].(hashedPassword := newHash, resetToken := None, resetExpires := None)]
  {
  }

  /**
   * The mailed token works: after a reset request for a known email, the
   * token it stored, decoded to the claims it signed, resets the password at
   * any time up to the end of its 15 minutes.
   */
  lemma ForgotThenReset(users: seq<User>, email: string, now: int, sign: map<string, Json> -> string,
                        newHash: string, later: int)
    requires FindUserByEmail(users, email).Some?
    requires now <= later <= now + ResetMinutes * 60
    ensures var after := Forgot(users, email, now, sign).1;
      var claims := ResetClaims(email, now + ResetMinutes * 60);
      Reset(after, sign(claims), Some(claims), newHash, later).0 == Done(())
  {
    var expires := now + ResetMinutes * 60;
    var claims := ResetClaims(email, expires);
    var k := FindUserByEmail(users, email).value;
    var after := users[k := users[k].(resetToken := Some(sign(claims)), resetExpires := Some(expires))];
    assert Forgot(users, email, now, sign).1 == after;
    assert forall j :: 0 <= j < |users| ==> after[j].email == users[j].email;
    FindUserByEmailSameEmails(users, after, email);
    assert Get(claims, "sub", JNull) == JStr(email) && ClaimText(JStr(email)) == Some(email);
    assert Get(claims, "purpose", JNull) == JStr("password_reset");
    assert "exp" in claims && Timestamp(claims["exp"]) == Some(expires);
  }

  /** A reset token works once: replaying it after a successful reset is refused. */
  lemma ResetSingleUse(users: seq<User>, token: string, decoded: Option<map<string, Json>>,
                       newHash: string, now: int, again: string, later: int)
    requires Reset(users, token, decoded, newHash, now).0.Done?
    ensures var after := Reset(users, token, decoded, newHash, now).1;
      Reset(after, token, decoded, again, later) == (Rejected(400, if Timestamp(decoded.value["exp"]).value < later then ExpiredToken else InvalidOrExpired), after)
  {
    ResetSuccess(users, token, decoded, newHash, now);
    var after := Reset(users, token, decoded, newHash, now).1;
    var email := Get(decoded.value, "sub", JNull).s;
    var k := FindUserByEmail(users, email).value;
    assert forall j :: 0 <= j < |users| ==> after[j].email == users[j].email;
    FindUserByEmailSameEmails(users, after, email);
  }

  /** Lookup by email only depends on the emails. */
  lemma {:induction false} FindUserByEmailSameEmails(a: seq<User>, b: seq<User>, email: string)
    requires |a| == |b| && forall j :: 0 <= j < |a| ==> a[j].email == b[j].email
    ensures FindUserByEmail(a, email) == FindUserByEmail(b, email)
  {
    if a != [] {
      FindUserByEmailSameEmails(a[1..], b[1..], email);
    }
  }

  /** A reset keeps the keys unique and the reset fields paired. */
  lemma ResetKeepsInvariant(users: seq<User>, token: string, decoded: Option<map<string, Json>>,
                            newHash: string, now: int)
    requires UserKeys(users) && ResetPaired(users)
    ensures UserKeys(Reset(users, token, decoded, newHash, now).1)
    ensures ResetPaired(Reset(users, token, decoded, newHash, now).1)
  {
  }

  /** Under the paired invariant, a reset never fails on a missing expiry. */
  lemma ResetNoMissingExpiry(users: seq<User>, token: string, decoded: Option<map<string, Json>>,
                             newHash: string, now: int)
    requires ResetPaired(users)
    requires decoded.Some? && "exp" in decoded.value && Timestamp(decoded.value["exp"]).Some?
    ensures Reset(users, token, decoded, newHash, now).0 != InternalError
  {
  }

  method ResetPassword(db: Database, token: string, decoded: Option<map<string, Json>>,
                       newPassword: string, hash: string -> string, now: int) returns (r: Reply<()>)
    requires db.Valid()
    modifies db
    ensures (r, db.users) == Reset(old(db.users), token, decoded, hash(newPassword), now)
    ensures db.jobs == old(db.jobs) && db.likes == old(db.likes) && db.seen == old(db.seen)
    ensures db.Valid()
  {
    ResetKeepsInvariant(db.users, token, decoded, hash(newPassword), now);
    if decoded.None? {
      return Rejected(400, InvalidToken);
    }
    var claims := decoded.value;
    var sub := Get(claims, "sub", JNull);
    if sub.JNull? || Get(claims, "purpose", JNull) != JStr("password_reset") {
      return Rejected(400, InvalidToken);
    }
    if "exp" !in claims || Timestamp(claims["exp"]).None? {
      return InternalError;
    }
    if Timestamp(claims["exp"]).value < now {
      return Rejected(400, ExpiredToken);
    }
    var found := if ClaimText(sub).Some? then FindUserByEmail(db.users, ClaimText(sub).value) else None;
    if found.None? || db.users[found.value].resetToken != Some(token) {
      return Rejected(400, InvalidOrExpired);
    }
    var user := db.users[found.value];
    if user.resetExpires.None? {
      return InternalError;
    }
    if user.resetExpires.value < now {
      return Rejected(400, InvalidOrExpired);
    }
    user := user.(hashedPassword := hash(newPassword), resetToken := None, resetExpires := None);
    db.users := db.users[found.value := user];
    r := Done(());
  }

  /** The ids of the jobs a user liked, in like order. */
  function LikedIds(likes: seq<Link>, userId: int): (r: seq<string>)
    ensures forall id :: id in r <==> Link(userId, id) in likes
  {
    if likes == [] then []
    else if likes[0].userId == userId then [likes[0].jobId] + LikedIds(likes[1..], userId)
    else LikedIds(likes[1..], userId)
  }

  /**
   * `JobResponse.model_validate` of `auth/schemas.py` on a stored row, as a
   * liked job of a `UserResponse`: the text key must read as an integer, the
   * nine text columns must be set, and the date must not be NULL (`parse_date`
   * turns any string into a datetime, falling back to the clock).
   */
  predicate ResponseValid(job: Job) {
    job.id.Some? && ParseInt(job.id.value).Some? && job.title.Some? && job.company.Some?
    && job.url.Some? && job.source.Some? && job.location.Some? && job.salary.Some?
    && job.description.Some? && job.typeContrat.Some? && !job.dateCreation.VNone?
  }

  /** A like whose job row exists (the joined `job` relationship) and validates. */
  predicate LinkValid(jobs: seq<Job>, link: Link) {
    FindJob(jobs, link.jobId).Some? && ResponseValid(FindJob(jobs, link.jobId).value)
  }

  /** What `get_user_by_id` ends in: None, a `ValidationError`, or the response. */
  datatype UserLookup = NoSuchUser | InvalidJob | Found(response: UserResponse)

  /**
   * `get_user_by_id`: None for an unknown id. Each like is validated as a
   * `LikedJobSchema`, so one whose job is missing or does not validate raises.
   * The seen and applied lists keep their empty defaults: the `users` row has
   * no such relationships.
   */
  function GetUserById(users: seq<User>, likes: seq<Link>, jobs: seq<Job>, id: int): (r: UserLookup)
    ensures r == NoSuchUser <==> forall k :: 0 <= k < |users| ==> users[k].id != id
    ensures r == InvalidJob <==>
      (exists k :: 0 <= k < |users| && users[k].id == id)
      && exists i :: 0 <= i < |likes| && likes[i].userId == id && !LinkValid(jobs, likes[i])
    ensures r.Found? ==> r.response.id == id && r.response.seenJobs == [] && r.response.appliedJobs == []
    ensures r.Found? ==>
      FindUserById(users, id).Some? &&
      var u := users[FindUserById(users, id).value];
      r.response.username == u.username && r.response.email == u.email && r.response.disabled == u.disabled
      && r.response.resetToken == u.resetToken && r.response.resetExpires == u.resetExpires
    ensures r.Found? ==> forall job :: job in r.response.likedJobs <==> Link(id, job) in likes
  {
    match FindUserById(users, id)
    case None => NoSuchUser
    case Some(k) =>
      if exists i :: 0 <= i < |likes| && likes[i].userId == id && !LinkValid(jobs, likes[i]) then InvalidJob
      else
        var u := users[k];
        Found(NewUserResponse(u.id, u.username, u.email).(disabled := u.disabled, resetToken := u.resetToken,
              resetExpires := u.resetExpires, likedJobs := LikedIds(likes, id)))
  }

  /** A liked row with a key that is not a decimal integer makes the lookup fail. */
  lemma TextKeyLikeFails(u: User, job: Job)
    requires job.id == Some("190XKPL")
    ensures GetUserById([u], [Link(u.id, "190XKPL")], [job], u.id) == InvalidJob
  {
    assert ParseInt("190XKPL").None?;
    assert !LinkValid([job], Link(u.id, "190XKPL"));
  }
}
