/** The client's session: the signed-in user and token, kept in memory
    and mirrored in two browser-storage keys so that a reload can restore
    them. Storage is a map from key to text; `JSON.stringify` and
    `JSON.parse` of the stored user are parameters. */
module AuthContext {
  import opened Wrappers
  import opened UserRepository

  const TokenKey := "authToken"
  const UserKey := "user"

  /** What `JSON.parse` makes of the stored user: a user, the literal
      `null`, or an exception. */
  datatype Parsed = ParsedUser(user: UserSummary) | ParsedNull | Unparsable

  /** A JavaScript string is truthy when it is non-empty; a missing key
      reads as `null`, which is falsy. */
  predicate Stored(storage: map<string, string>, key: string) {
    key in storage && storage[key] != ""
  }

  /** `!!user && !!token`. */
  predicate Authenticated(user: Option<UserSummary>, token: Option<string>) {
    user.Some? && token.Some? && token.value != ""
  }

  /** The session state and the storage. */
  datatype Session = Session(user: Option<UserSummary>, token: Option<string>, storage: map<string, string>)

  /** The effect of the mount-time restore on a fresh provider. */
  function Restore(storage: map<string, string>, parse: string -> Parsed): (s: Session)
    ensures s.token.Some? <==> Stored(storage, TokenKey) && Stored(storage, UserKey)
    ensures s.token.Some? ==> s.token.value == storage[TokenKey]
    ensures s.user.Some? ==> s.token.Some? && parse(storage[UserKey]) == ParsedUser(s.user.value)
    ensures s.storage == storage || (s.token.Some? && parse(storage[UserKey]).Unparsable?)
    ensures s.storage != storage ==> s.storage == storage - {TokenKey, UserKey}
  {
    if Stored(storage, TokenKey) && Stored(storage, UserKey) then
      match parse(storage[UserKey])
      case ParsedUser(u) => Session(Some(u), Some(storage[TokenKey]), storage)
      case ParsedNull => Session(None, Some(storage[TokenKey]), storage)
      case Unparsable => Session(None, Some(storage[TokenKey]), storage - {TokenKey, UserKey})
    else Session(None, None, storage)
  }

  /** The storage after `login`. */
  function LoginStorage(storage: map<string, string>, user: UserSummary, token: string, stringify: UserSummary -> string): map<string, string> {
    storage[TokenKey := token][UserKey := stringify(user)]
  }

  /** The storage after `logout`. */
  function LogoutStorage(storage: map<string, string>): map<string, string> {
    storage - {TokenKey, UserKey}
  }

  /** A session written by `login` comes back after a reload, provided the
      token is non-empty and the stored user parses back to itself. */
  lemma LoginSurvivesReload(storage: map<string, string>, user: UserSummary, token: string,
                            stringify: UserSummary -> string, parse: string -> Parsed)
    requires token != "" && stringify(user) != ""
    requires parse(stringify(user)) == ParsedUser(user)
    ensures var s := Restore(LoginStorage(storage, user, token, stringify), parse);
            s.user == Some(user) && s.token == Some(token) && Authenticated(s.user, s.token)
  {
    var st := LoginStorage(storage, user, token, stringify);
    assert st[TokenKey] == token && st[UserKey] == stringify(user);
  }

  /** After `logout` a reload restores nothing. */
  lemma LogoutSurvivesReload(storage: map<string, string>, parse: string -> Parsed)
    ensures var s := Restore(LogoutStorage(storage), parse);
            s.user.None? && s.token.None? && !Authenticated(s.user, s.token)
  {
  }

  /** A stored user that does not parse leaves the token set but the user
      empty: the session is not authenticated, and both keys are gone. */
  lemma CorruptUserHalfRestores(storage: map<string, string>, parse: string -> Parsed)
    requires Stored(storage, TokenKey) && Stored(storage, UserKey)
    requires parse(storage[UserKey]).Unparsable?
    ensures var s := Restore(storage, parse);
            s.token == Some(storage[TokenKey]) && s.user.None? && !Authenticated(s.user, s.token) &&
            TokenKey !in s.storage && UserKey !in s.storage
  {
  }

  class AuthProvider {
    var user: Option<UserSummary>
    var token: Option<string>
    var loading: bool
    var storage: map<string, string>

    /** A fresh provider over the browser's storage, before the restore. */
    constructor (stored: map<string, string>)
      ensures user.None? && token.None? && loading && storage == stored
    {
      user, token, loading, storage := None, None, true, stored;
    }

    /** `isAuthenticated`. */
    predicate IsAuthenticated()
      reads this
      ensures IsAuthenticated() ==> user.Some? && token.Some? && token.value != ""
    {
      Authenticated(user, token)
    }

    /** The mount-time effect: restore from storage when both keys hold
        something, then stop loading, whatever happened. */
    method Init(parse: string -> Parsed)
      requires user.None? && token.None?
      modifies this
      ensures Session(user, token, storage) == Restore(old(storage), parse)
      ensures !loading
    {
      var storedToken := if TokenKey in storage then Some(storage[TokenKey]) else None;
      var storedUser := if UserKey in storage then Some(storage[UserKey]) else None;
      if storedToken.Some? && storedToken.value != "" && storedUser.Some? && storedUser.value != "" {
        token := storedToken;
        match parse(storedUser.value) {
          case ParsedUser(u) => user := Some(u);
          case ParsedNull => user := None;
          case Unparsable =>
            storage := storage - {TokenKey};
            storage := storage - {UserKey};
            assert storage == old(storage) - {TokenKey, UserKey};
        }
      }
      loading := false;
    }

    /** `login`: the user and token are set in memory and in storage. */
    method Login(userData: UserSummary, authToken: string, stringify: UserSummary -> string)
      modifies this
      ensures user == Some(userData) && token == Some(authToken)
      ensures storage == LoginStorage(old(storage), userData, authToken, stringify)
      ensures IsAuthenticated() <==> authToken != ""
      ensures loading == old(loading)
    {
      user := Some(userData);
      token := Some(authToken);
      storage := storage[TokenKey := authToken];
      storage := storage[UserKey := stringify(userData)];
    }

    /** `logout`: both values and both keys are cleared. */
    method Logout()
      modifies this
      ensures user.None? && token.None? && !IsAuthenticated()
      ensures storage == LogoutStorage(old(storage))
      ensures TokenKey !in storage && UserKey !in storage
      ensures loading == old(loading)
    {
      user := None;
      token := None;
      storage := storage - {TokenKey};
      storage := storage - {UserKey};
      assert storage == old(storage) - {TokenKey, UserKey};
    }
  }
}
