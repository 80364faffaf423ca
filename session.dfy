/**
 * The session store (`AuthProvider`): the signed-in user, the `loading`
 * flag and the two durable keys `token` and `user` it keeps in the browser's
 * key-value storage.
 */
module Session {
  import opened Wrappers

  datatype User = User(id: string, email: string, firstName: string, lastName: string, avatar: Option<string>)

  /** The fields of the registration form that `register` reads. */
  datatype RegisterData = RegisterData(email: string, firstName: string, lastName: string)

  /** `JSON.parse` (None when it throws) and `JSON.stringify` for users. */
  datatype JsonCodec = JsonCodec(parse: string -> Option<User>, stringify: User -> string)

  /** Parsing what was stringified gives the user back. */
  ghost predicate RoundTrips(codec: JsonCodec) {
    forall u :: codec.parse(codec.stringify(u)) == Some(u)
  }

  datatype AuthError = AuthError(message: string)

  const TokenKey := "token"
  const UserKey := "user"
  const MockToken := "mock-jwt-token"
  const MockAvatar := "https://images.unsplash.com/photo-1472099645785-5658abf4ff4e?w=32&h=32&fit=crop&crop=face"

  /** `localStorage.getItem(key)` is truthy: present and not empty. */
  predicate Stored(storage: map<string, string>, key: string) {
    key in storage && storage[key] != ""
  }

  /** The store with both session keys removed. */
  function WithoutSession(storage: map<string, string>): (r: map<string, string>)
    ensures TokenKey !in r && UserKey !in r
    ensures forall k :: k != TokenKey && k != UserKey ==> (k in r <==> k in storage) && (k in r ==> r[k] == storage[k])
  {
    storage - {TokenKey, UserKey}
  }

  // ---------------------------------------------------------------------------
  // Hydration

  /** What the mount effect finds: the user it restores (None when it does not
      call `setUser`) and the storage it leaves behind. */
  datatype Hydration = Hydration(restored: Option<User>, storage: map<string, string>)

  function Hydrate(storage: map<string, string>, codec: JsonCodec): (h: Hydration)
    ensures h.restored.Some? ==> Stored(storage, TokenKey) && Stored(storage, UserKey)
                                 && codec.parse(storage[UserKey]) == h.restored
    ensures h.restored.Some? || h.storage != storage ==> Stored(storage, TokenKey) && Stored(storage, UserKey)
    ensures h.storage == storage || h.storage == WithoutSession(storage)
    ensures h.storage != storage ==> h.restored.None?
  {
    if Stored(storage, TokenKey) && Stored(storage, UserKey) then
      match codec.parse(storage[UserKey])
      case Some(u) => Hydration(Some(u), storage)
      case None => Hydration(None, WithoutSession(storage))
    else Hydration(None, storage)
  }

  /** Both keys present and the user parses: the user is restored and the
      storage is untouched. Both present but unparsable: both keys are
      removed. Either missing: nothing is removed, even if the other key is
      there. */
  lemma HydrateCases(storage: map<string, string>, codec: JsonCodec)
    ensures Stored(storage, TokenKey) && Stored(storage, UserKey) && codec.parse(storage[UserKey]).Some? ==>
      Hydrate(storage, codec) == Hydration(codec.parse(storage[UserKey]), storage)
    ensures Stored(storage, TokenKey) && Stored(storage, UserKey) && codec.parse(storage[UserKey]).None? ==>
      Hydrate(storage, codec) == Hydration(None, WithoutSession(storage))
    ensures !(Stored(storage, TokenKey) && Stored(storage, UserKey)) ==>
      Hydrate(storage, codec) == Hydration(None, storage)
  {
  }

  /** Hydrating again from what hydration left behind restores the same user
      and changes nothing more. */
  lemma HydrateIdempotent(storage: map<string, string>, codec: JsonCodec)
    ensures Hydrate(Hydrate(storage, codec).storage, codec) == Hydrate(storage, codec)
  {
    var h := Hydrate(storage, codec);
    if h.storage != storage {
      assert !Stored(h.storage, TokenKey);
    }
  }

  // ---------------------------------------------------------------------------
  // Login, register and logout as functions of the stored data

  /** The user the mock `login` signs in; the password plays no part. */
  function LoginUser(email: string): (u: User)
    ensures u.email == email && u.id == "1" && u.avatar.Some?
  {
    User("1", email, "Selin", "T\U{00FC}rkdo\U{011F}an", Some(MockAvatar))
  }

  /** The user the mock `register` signs in, built from the form. */
  function RegisterUser(data: RegisterData): (u: User)
    ensures u.email == data.email && u.firstName == data.firstName && u.lastName == data.lastName
    ensures u.id == "1" && u.avatar.None?
  {
    User("1", data.email, data.firstName, data.lastName, None)
  }

  /** The two `setItem` calls of `login`/`register`, of which the storage
      accepts only the first `writesAccepted` (a later one throws). */
  function PersistSession(storage: map<string, string>, u: User, codec: JsonCodec, writesAccepted: nat): (r: map<string, string>)
    ensures writesAccepted >= 1 ==> TokenKey in r && r[TokenKey] == MockToken
    ensures writesAccepted >= 2 ==> UserKey in r && r[UserKey] == codec.stringify(u)
    ensures writesAccepted == 0 ==> r == storage
    ensures writesAccepted <= 1 ==> (UserKey in r <==> UserKey in storage) && (UserKey in r ==> r[UserKey] == storage[UserKey])
    ensures forall k :: k != TokenKey && k != UserKey ==> (k in r <==> k in storage) && (k in r ==> r[k] == storage[k])
  {
    if writesAccepted == 0 then storage
    else if writesAccepted == 1 then storage[TokenKey := MockToken]
    else storage[TokenKey := MockToken][UserKey := codec.stringify(u)]
  }

  /** After a successful sign-in, reloading the page restores the same user,
      provided the stored user has a non-empty serialisation that parses back. */
  lemma SignInSurvivesReload(storage: map<string, string>, u: User, codec: JsonCodec)
    requires RoundTrips(codec)
    requires codec.stringify(u) != ""
    ensures Hydrate(PersistSession(storage, u, codec, 2), codec) == Hydration(Some(u), PersistSession(storage, u, codec, 2))
  {
    var s := PersistSession(storage, u, codec, 2);
    assert codec.parse(codec.stringify(u)) == Some(u);
    assert s[UserKey] == codec.stringify(u);
  }

  /** A sign-in whose second write throws leaves the new token beside the
      user stored earlier, so reloading the page restores that earlier user. */
  lemma HalfWrittenSignInRestoresEarlierUser(storage: map<string, string>, u: User, codec: JsonCodec)
    requires Stored(storage, UserKey) && codec.parse(storage[UserKey]).Some?
    ensures Hydrate(PersistSession(storage, u, codec, 1), codec).restored == codec.parse(storage[UserKey])
  {
    var s := PersistSession(storage, u, codec, 1);
    assert Stored(s, TokenKey) && Stored(s, UserKey);
  }

  /** After logout, reloading the page finds a guest and removes nothing. */
  lemma LogoutSurvivesReload(storage: map<string, string>, codec: JsonCodec)
    ensures Hydrate(WithoutSession(storage), codec) == Hydration(None, WithoutSession(storage))
    ensures WithoutSession(WithoutSession(storage)) == WithoutSession(storage)
  {
  }

  // ---------------------------------------------------------------------------
  // The provider's state

  class AuthProvider {
    var user: Option<User>
    var loading: bool
    var storage: map<string, string>
    const codec: JsonCodec

    /** Mounting: no user yet and `loading` until the storage was read. */
    constructor(initialStorage: map<string, string>, codec: JsonCodec)
      ensures user == None && loading
      ensures storage == initialStorage && this.codec == codec
    {
      user := None;
      loading := true;
      storage := initialStorage;
      this.codec := codec;
    }

    /** The mount effect: restore the session if both keys are set and the
        user parses, clear both keys if parsing fails; never throws and always
        ends with `loading` false. */
    method HydrateFromStorage()
      modifies this
      ensures var h := Hydrate(old(storage), codec);
        && storage == h.storage
        && user == (if h.restored.Some? then h.restored else old(user))
      ensures !loading
    {
      var signedIn := Stored(storage, TokenKey) && Stored(storage, UserKey);
      if signedIn {
        var parsed := codec.parse(storage[UserKey]);
        if parsed.Some? {
          user := parsed;
        } else {
          storage := storage - {TokenKey};
          storage := storage - {UserKey};
        }
      }
      loading := false;
    }

    /** Shared body of `login` and `register`: write the token, write the
        user, set the user; a write that throws is reported as `failure`, and
        `loading` is false afterwards on both paths. */
    method SignIn(u: User, failure: string, writesAccepted: nat) returns (err: Option<AuthError>)
      modifies this
      ensures err.None? <==> writesAccepted >= 2
      ensures err.Some? ==> err.value == AuthError(failure) && user == old(user)
      ensures err.None? ==> user == Some(u)
      ensures storage == PersistSession(old(storage), u, codec, writesAccepted)
      ensures !loading
    {
      loading := true;
      err := None;
      if writesAccepted == 0 {
        err := Some(AuthError(failure));
      } else {
        storage := storage[TokenKey := MockToken];
        if writesAccepted == 1 {
          err := Some(AuthError(failure));
        } else {
          storage := storage[UserKey := codec.stringify(u)];
          user := Some(u);
        }
      }
      loading := false;
    }

    /** `login(email, password)`: signs in the mock user with that email. */
    method Login(email: string, password: string, writesAccepted: nat) returns (err: Option<AuthError>)
      modifies this
      ensures err.None? <==> writesAccepted >= 2
      ensures err.Some? ==> err.value == AuthError("Login failed") && user == old(user)
      ensures err.None? ==> user == Some(LoginUser(email))
      ensures storage == PersistSession(old(storage), LoginUser(email), codec, writesAccepted)
      ensures !loading
    {
      err := SignIn(LoginUser(email), "Login failed", writesAccepted);
    }

    /** `register(data)`: signs in a user built from the form. */
    method Register(data: RegisterData, writesAccepted: nat) returns (err: Option<AuthError>)
      modifies this
      ensures err.None? <==> writesAccepted >= 2
      ensures err.Some? ==> err.value == AuthError("Registration failed") && user == old(user)
      ensures err.None? ==> user == Some(RegisterUser(data))
      ensures storage == PersistSession(old(storage), RegisterUser(data), codec, writesAccepted)
      ensures !loading
    {
      err := SignIn(RegisterUser(data), "Registration failed", writesAccepted);
    }

    /** `logout()`: both keys removed, back to guest; `loading` untouched. */
    method Logout()
      modifies this
      ensures storage == WithoutSession(old(storage))
      ensures user == None && loading == old(loading)
    {
      storage := storage - {TokenKey};
      storage := storage - {UserKey};
      user := None;
    }
  }
}
