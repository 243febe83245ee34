/*
 * The front end's authentication store: who is logged in, the bearer token,
 * its copy in the browser's local storage and the `Authorization` header
 * every later request carries.
 *
 * Local storage and the HTTP client's default headers are shared by the
 * whole page; here they are two more fields of the store, the only writer
 * the model knows of.
 */
module AuthStore {
  import opened Wrappers

  /** The user record the back end sends; `username` is `None` for a JSON null. */
  datatype FrontUser = FrontUser(id: int, username: Option<string>, email: string, disabled: bool)

  /** Everything the store's actions read and write. */
  datatype Session = Session(
    currentUser: Option<FrontUser>,
    isLoggedIn: bool,
    token: Option<string>,
    storage: Option<string>,
    authHeader: Option<string>)

  function Bearer(token: string): (r: string)
    ensures |r| == |token| + 7 && r[..7] == "Bearer " && r[7..] == token
  {
    "Bearer " + token
  }

  /** What the actions keep true: the token is the stored one, a header is
    * present only for the current token, and a logged-in session has a token. */
  predicate Consistent(s: Session) {
    s.token == s.storage
    && (s.authHeader.Some? ==> s.token.Some? && s.authHeader.value == Bearer(s.token.value))
    && (s.isLoggedIn ==> s.token.Some?)
  }

  /** Getter `isAuthenticated`. `currentUser?.username !== null` is false only
    * for a present user whose name is null: with no user it reads `undefined`,
    * which is not `null`. */
  predicate IsAuthenticated(s: Session) {
    s.isLoggedIn
    && !(s.currentUser.Some? && s.currentUser.value.username.None?)
    && s.token.Some?
  }

  /** Getter `getUsername`. */
  function GetUsername(s: Session): (r: Option<string>)
    ensures r.Some? <==> s.currentUser.Some? && s.currentUser.value.username.Some?
    ensures r.Some? ==> r == s.currentUser.value.username
  {
    match s.currentUser
    case None => None
    case Some(u) => u.username
  }

  /** The session when the page loads: the token read back from local storage. */
  function Initial(stored: Option<string>): (s: Session)
    ensures Consistent(s) && !IsAuthenticated(s) && s.token == stored
  {
    Session(None, false, stored, stored, None)
  }

  function LoggedIn(s: Session, user: FrontUser, accessToken: string): (r: Session)
    ensures Consistent(r)
    ensures IsAuthenticated(r) <==> user.username.Some?
    ensures GetUsername(r) == user.username && r.token == Some(accessToken)
    ensures r.currentUser == Some(user) && r.isLoggedIn
    ensures r.storage == Some(accessToken) && r.authHeader == Some(Bearer(accessToken))
  {
    Session(Some(user), true, Some(accessToken), Some(accessToken), Some(Bearer(accessToken)))
  }

  function LoggedOut(s: Session): (r: Session)
    ensures Consistent(r) && !IsAuthenticated(r) && GetUsername(r).None?
    ensures r.currentUser.None? && !r.isLoggedIn && r.token.None?
    ensures r.storage.None? && r.authHeader.None?
  {
    Session(None, false, None, None, None)
  }

  /** `initializeAuth`: a stored, non-empty token is installed and checked with
    * the back end (`me` is its answer, `None` when the request threw); an
    * accepted token logs the user in, a refused one logs out. */
  function Initialized(s: Session, me: Option<FrontUser>): (r: Session)
    ensures Consistent(s) ==> Consistent(r)
    ensures s.storage.None? || s.storage == Some("") ==> r == s
    ensures s.storage.Some? && s.storage != Some("") && me.None? ==> r == LoggedOut(s)
    ensures s.storage.Some? && s.storage != Some("") && me.Some? ==>
      r.isLoggedIn && r.currentUser == me && r.token == s.storage && r.authHeader == Some(Bearer(s.storage.value))
  {
    match s.storage
    case None => s
    case Some(stored) =>
      if stored == "" then s
      else
        var withToken := s.(token := Some(stored), authHeader := Some(Bearer(stored)));
        match me
        case None => LoggedOut(withToken)
        case Some(user) => withToken.(currentUser := Some(user), isLoggedIn := true)
  }

  /** Being authenticated needs a login and a token; the user-name test lets a
    * missing user through, and in a consistent session the token test is
    * implied by the login. */
  lemma AuthenticatedRule(s: Session)
    ensures IsAuthenticated(s) ==> s.isLoggedIn && s.token.Some?
    ensures s.currentUser.None? ==> (IsAuthenticated(s) <==> s.isLoggedIn && s.token.Some?)
    ensures Consistent(s) ==>
      (IsAuthenticated(s) <==> s.isLoggedIn && (s.currentUser.None? || GetUsername(s).Some?))
  {
  }

  /** A token the back end accepts at start-up authenticates the user it names. */
  lemma StoredTokenAccepted(stored: string, me: FrontUser)
    requires stored != "" && me.username.Some?
    ensures var r := Initialized(Initial(Some(stored)), Some(me));
      IsAuthenticated(r) && GetUsername(r) == me.username && Consistent(r)
  {
  }

  /** A token the back end refuses at start-up is forgotten, storage included. */
  lemma StoredTokenRefused(s: Session)
    requires Consistent(s) && s.storage.Some? && s.storage != Some("")
    ensures var r := Initialized(s, None); !IsAuthenticated(r) && r.storage.None?
  {
  }

  class AuthStore {
    var users: seq<FrontUser>
    var currentUser: Option<FrontUser>
    var isLoggedIn: bool
    var token: Option<string>
    /** The `accessToken` entry of local storage. */
    var storage: Option<string>
    /** The HTTP client's default `Authorization` header. */
    var authHeader: Option<string>

    function State(): Session
      reads this
    {
      Session(currentUser, isLoggedIn, token, storage, authHeader)
    }

    constructor(stored: Option<string>)
      ensures State() == Initial(stored) && users == []
    {
      users := [];
      currentUser := None;
      isLoggedIn := false;
      token := stored;
      storage := stored;
      authHeader := None;
    }

    method Login(user: FrontUser, accessToken: string)
      modifies this
      ensures State() == LoggedIn(old(State()), user, accessToken) && users == old(users)
    {
      currentUser := Some(user);
      isLoggedIn := true;
      token := Some(accessToken);
      storage := Some(accessToken);
      authHeader := Some(Bearer(accessToken));
    }

    method Logout()
      modifies this
      ensures State() == LoggedOut(old(State())) && users == old(users)
    {
      currentUser := None;
      isLoggedIn := false;
      token := None;
      storage := None;
      authHeader := None;
    }

    method InitializeAuth(me: Option<FrontUser>)
      modifies this
      ensures State() == Initialized(old(State()), me) && users == old(users)
    {
      var storedToken := storage;
      if storedToken.Some? && storedToken.value != "" {
        token := storedToken;
        authHeader := Some(Bearer(storedToken.value));
        match me {
          case Some(data) =>
            currentUser := Some(data);
            isLoggedIn := true;
          case None =>
            Logout();
        }
      }
    }
  }
}
