/**
 * The session store (`AuthProvider`): the signed-in user held in memory, a loading flag,
 * and the browser's durable key/value storage, where the token lives under the key "jwt".
 */
module AuthContext {
  import opened Wrappers
  import opened Http

  /** The signed-in user, identified only by its session token. */
  datatype User = User(jwt: string)

  /** The storage key of the session token. */
  const JwtKey: string := "jwt"

  /** The message `useAuth` raises outside a provider. */
  const OutsideProviderMessage: string := "useAuth must be used within an AuthProvider"

  /**
   * The user the mount effect finds in `storage`: the stored token, but only when it is
   * present and non-empty (an empty string is falsy and counts as no token).
   */
  function StoredUser(storage: map<string, string>): (u: Option<User>)
    ensures u.Some? ==> JwtKey in storage && u.value.jwt == storage[JwtKey] && u.value.jwt != ""
  {
    if JwtKey in storage && storage[JwtKey] != "" then Some(User(storage[JwtKey])) else None
  }

  /** The user that mirrors `storage` exactly: the "jwt" entry, whatever it holds, or none. */
  function Mirror(storage: map<string, string>): (u: Option<User>)
    ensures u.None? <==> JwtKey !in storage
  {
    if JwtKey in storage then Some(User(storage[JwtKey])) else None
  }

  class AuthProvider {
    var user: Option<User>
    var isLoading: bool
    /** The durable storage the provider reads and writes (the browser's local storage). */
    var storage: map<string, string>

    /** The token-sync invariant: the user in memory is exactly the token in storage. */
    predicate Synced()
      reads this
      ensures Synced() ==> (user.None? <==> JwtKey !in storage)
      ensures Synced() && user.Some? ==> JwtKey in storage && storage[JwtKey] == user.value.jwt
    {
      user == Mirror(storage)
    }

    /** Whether someone is signed in, as the consuming components test it (`!!user`). */
    function IsAuthenticated(): (signedIn: bool)
      reads this
      ensures Synced() ==> (signedIn <==> JwtKey in storage)
      ensures signedIn ==> user.Some?
    {
      user.Some?
    }

    /** A provider as first rendered: nobody signed in, still loading, over the given storage. */
    constructor (storage: map<string, string>)
      ensures user == None && isLoading
      ensures this.storage == storage
    {
      user := None;
      isLoading := true;
      this.storage := storage;
    }

    /**
     * The mount effect: restore a non-empty stored token, then stop loading. Storage is
     * only read.
     */
    method Mount()
      modifies this
      ensures !isLoading
      ensures storage == old(storage)
      ensures user == if StoredUser(storage).Some? then StoredUser(storage) else old(user)
    {
      if JwtKey in storage {
        var jwt := storage[JwtKey];
        if jwt != "" {
          user := Some(User(jwt));
        }
      }
      isLoading := false;
    }

    /** Stores the user's token under "jwt" and signs the user in. */
    method Login(userData: User)
      modifies this
      ensures storage == old(storage)[JwtKey := userData.jwt]
      ensures user == Some(userData)
      ensures isLoading == old(isLoading)
      ensures Synced()
      ensures forall k :: k != JwtKey ==> (k in storage <==> k in old(storage))
      ensures forall k :: k != JwtKey && k in storage ==> storage[k] == old(storage)[k]
    {
      storage := storage[JwtKey := userData.jwt];
      user := Some(userData);
    }

    /** Removes the token from storage and signs the user out; harmless when already signed out. */
    method Logout()
      modifies this
      ensures storage == old(storage) - {JwtKey}
      ensures user == None
      ensures isLoading == old(isLoading)
      ensures Synced()
      ensures forall k :: k != JwtKey ==> (k in storage <==> k in old(storage))
      ensures forall k :: k != JwtKey && k in storage ==> storage[k] == old(storage)[k]
    {
      storage := storage - {JwtKey};
      user := None;
    }
  }

  /** `useAuth`: the enclosing provider, or an error when there is none (never a default). */
  function UseAuth(context: Option<AuthProvider>): (r: Result<AuthProvider, Thrown>)
    ensures r.Ok? <==> context.Some?
    ensures r.Ok? ==> r.value == context.value
    ensures r.Err? ==> r.error == Error(OutsideProviderMessage)
  {
    match context
    case Some(p) => Ok(p)
    case None => Err(Error(OutsideProviderMessage))
  }

  /** A second logout leaves the store exactly as the first one did. */
  method LogoutTwice(p: AuthProvider)
    modifies p
    ensures p.storage == old(p.storage) - {JwtKey} && p.user == None
    ensures p.isLoading == old(p.isLoading)
  {
    p.Logout();
    ghost var once := p.storage;
    p.Logout();
    assert p.storage == once;
  }

  /** Signing in with "abc" and then out leaves nobody signed in and no "jwt" entry. */
  method LoginThenLogout(p: AuthProvider)
    modifies p
    ensures !p.IsAuthenticated() && JwtKey !in p.storage
  {
    p.Login(User("abc"));
    assert p.IsAuthenticated() && p.storage[JwtKey] == "abc";
    p.Logout();
  }

  /** Mounting over storage that already holds "xyz" signs the user in without a login. */
  method MountRestores(storage: map<string, string>) returns (p: AuthProvider)
    requires JwtKey in storage && storage[JwtKey] == "xyz"
    ensures p.IsAuthenticated() && p.user == Some(User("xyz")) && !p.isLoading
    ensures p.storage == storage
  {
    p := new AuthProvider(storage);
    p.Mount();
  }

  /** A fresh provider mounted over storage with a non-empty token, or none, is in sync. */
  method FreshMountSyncs(storage: map<string, string>) returns (p: AuthProvider)
    requires JwtKey in storage ==> storage[JwtKey] != ""
    ensures p.Synced() && !p.isLoading && p.storage == storage
  {
    p := new AuthProvider(storage);
    p.Mount();
    MountSyncs(storage);
  }

  /** A fresh provider mounted over a stored empty token is not in sync: the entry stays, the user does not. */
  method MountOverEmptyToken(storage: map<string, string>) returns (p: AuthProvider)
    requires JwtKey in storage && storage[JwtKey] == ""
    ensures !p.Synced() && p.user == None && !p.isLoading && p.storage == storage
  {
    p := new AuthProvider(storage);
    p.Mount();
  }

  /**
   * What a later mount restores from the storage that login and logout leave: the token
   * survives a reload exactly when it is non-empty, and nothing survives a logout.
   */
  lemma ReloadAfterLogin(storage: map<string, string>, token: string)
    ensures StoredUser(storage[JwtKey := token]) == if token != "" then Some(User(token)) else None
  {
  }

  lemma ReloadAfterLogout(storage: map<string, string>)
    ensures StoredUser(storage - {JwtKey}) == None
  {
  }

  /** When storage holds a non-empty token or nothing, mounting a fresh provider leaves it in sync. */
  lemma MountSyncs(storage: map<string, string>)
    requires JwtKey in storage ==> storage[JwtKey] != ""
    ensures StoredUser(storage) == Mirror(storage)
  {
  }
}
