/**
 * The account handlers (register, login, profile read and update) over an
 * account store. The store keeps accounts in creation order, the position of
 * an account being its id. Password hashing, token signing and the token
 * lifetime are process-wide configuration held as constants of the store.
 */
module UserController {
  import opened Wrappers
  import opened Text
  import opened AuthMiddleware

  /** A stored account. The password is held only as the hash computed for it. */
  datatype User = User(
    id: UserId,
    name: string,
    email: Option<string>,
    passwordHash: string,
    isActive: bool,
    lastLogin: Option<int>)

  /** What clients see of an account: everything but the password hash. */
  datatype PublicProfile = PublicProfile(
    id: UserId,
    name: string,
    email: Option<string>,
    isActive: bool,
    lastLogin: Option<int>)

  function PublicProfileOf(u: User): PublicProfile {
    PublicProfile(u.id, u.name, u.email, u.isActive, u.lastLogin)
  }

  /** The handlers' JSON replies. */
  datatype Reply =
    | Authenticated(status: nat, user: PublicProfile, token: string, message: string)
    | ProfileReply(user: PublicProfile, note: Option<string>)
    | Failure(status: nat, error: string)
    | InvalidFields(messages: seq<string>)

  /** The default token lifetime, "30d", in seconds. */
  const DefaultLifetime: nat := 30 * 24 * 60 * 60

  const EmailTakenError: string := "Email already registered"
  const RegisteredMessage: string := "User registered successfully"
  const MissingCredentialsError: string := "Please provide email and password"
  const InvalidCredentialsError: string := "Invalid credentials"
  const DeactivatedError: string := "Account is deactivated"
  const LoginMessage: string := "Login successful"
  const NotFoundError: string := "User not found"
  const NoValidFieldsError: string := "No valid fields to update"
  const EmailInUseError: string := "Email already in use"
  const UpdatedMessage: string := "Profile updated successfully"

  /**
   * The claims of a token made by `generateToken`: the signed payload is only
   * the id; signing adds the issue time and the expiry.
   */
  function IssuedClaims(id: UserId, now: int, lifetime: Option<nat>): (c: Claims)
    ensures c.id == Some(id) && c.email.None? && c.role.None?
    ensures c.expiresAt.Some? && c.issuedAt.Some? && c.expiresAt.value - c.issuedAt.value == lifetime.GetOr(DefaultLifetime)
  {
    Claims(Some(id), None, None, Some(now), Some(now + lifetime.GetOr(DefaultLifetime)))
  }

  /**
   * A token from this issuer, once verified, gives a request identity with an
   * id and no email or role.
   */
  lemma {:induction false} IssuedTokenIdentity(token: string, claims: Claims, verify: string -> Verification)
    requires token != "" && ' ' !in token
    requires claims.id.Some? && claims.email.None? && claims.role.None?
    requires verify(token) == Valid(claims)
    ensures Authenticate(Some(BearerPrefix + token), verify) == Continue(RequestUser(claims.id, None, None))
  {
    var header := BearerPrefix + token;
    assert header[|BearerPrefix|..] == token;
    TokenIsSecondSegment(header);
    assert TakeUntil(token, ' ') == token by {
      TakeUntilWhole(token, ' ');
    }
  }

  /** An account matches `findOne({ email })`; an absent email is dropped from the filter, which then matches every account. */
  predicate EmailMatches(u: User, email: Option<string>) {
    email.None? || u.email == email
  }

  /** `User.findOne({ email })`: the position of the first matching account. */
  function FindByEmail(users: seq<User>, email: Option<string>): (r: Option<nat>)
    ensures r.Some? ==> r.value < |users| && EmailMatches(users[r.value], email)
    ensures r.Some? ==> forall j :: 0 <= j < r.value ==> !EmailMatches(users[j], email)
    ensures r.None? ==> forall j :: 0 <= j < |users| ==> !EmailMatches(users[j], email)
    decreases |users|
  {
    if users == [] then None
    else if EmailMatches(users[0], email) then Some(0)
    else
      match FindByEmail(users[1..], email)
      case None => None
      case Some(i) => Some(i + 1)
  }

  predicate IdsAreIndexes(users: seq<User>) {
    forall i :: 0 <= i < |users| ==> users[i].id == i
  }

  /** The unique index on email. */
  predicate EmailsUnique(users: seq<User>) {
    forall i, j :: 0 <= i < j < |users| ==> users[i].email != users[j].email
  }

  /** `User.findById(id)`; `findById(undefined)` finds nothing. */
  function FindById(users: seq<User>, id: Option<UserId>): (r: Option<nat>)
    requires IdsAreIndexes(users)
    ensures r.Some? ==> id.Some? && r.value < |users| && users[r.value].id == id.value
    ensures r.None? ==> id.None? || forall j :: 0 <= j < |users| ==> users[j].id != id.value
  {
    if id.Some? && id.value < |users| then Some(id.value) else None
  }

  /** The steps of `login` before any change is made, in source order. */
  datatype LoginCheck =
    | MissingFields
    | UnknownAccount
    | Deactivated
    | WrongPassword
    | Granted(index: nat)

  /** Field check, then lookup, then the active flag, then the password. */
  function CheckLogin(users: seq<User>, email: Option<string>, password: Option<string>, hash: string -> string): (r: LoginCheck)
    ensures r == MissingFields <==> !Truthy(email) || !Truthy(password)
    ensures r == UnknownAccount <==>
      Truthy(email) && Truthy(password) && forall j :: 0 <= j < |users| ==> users[j].email != email
    ensures r == Deactivated ==>
      && Truthy(email) && Truthy(password)
      && exists i :: 0 <= i < |users| && users[i].email == email && !users[i].isActive
           && forall j :: 0 <= j < i ==> users[j].email != email
    ensures r == WrongPassword ==>
      && Truthy(email) && Truthy(password)
      && exists i :: 0 <= i < |users| && users[i].email == email && users[i].isActive
           && hash(password.value) != users[i].passwordHash
           && forall j :: 0 <= j < i ==> users[j].email != email
    ensures r.Granted? ==>
      && Truthy(email) && Truthy(password)
      && r.index < |users| && users[r.index].email == email && users[r.index].isActive
      && hash(password.value) == users[r.index].passwordHash
      && forall j :: 0 <= j < r.index ==> users[j].email != email
  {
    if !Truthy(email) || !Truthy(password) then MissingFields
    else
      match FindByEmail(users, email)
      case None => UnknownAccount
      case Some(i) =>
        if !users[i].isActive then Deactivated
        else if hash(password.value) != users[i].passwordHash then WrongPassword
        else Granted(i)
  }

  /** The failure reply of each refused login. */
  function LoginFailure(c: LoginCheck): (r: Reply)
    requires !c.Granted?
    ensures r.Failure? && (r.status == 400 <==> c == MissingFields) && (r.status == 401 <==> c != MissingFields)
  {
    match c
    case MissingFields => Failure(400, MissingCredentialsError)
    case UnknownAccount => Failure(401, InvalidCredentialsError)
    case Deactivated => Failure(401, DeactivatedError)
    case WrongPassword => Failure(401, InvalidCredentialsError)
  }

  /** An unknown email and a wrong password are indistinguishable to the client. */
  lemma UnknownAndWrongPasswordAlike()
    ensures LoginFailure(UnknownAccount) == LoginFailure(WrongPassword)
    ensures LoginFailure(WrongPassword) == Failure(401, "Invalid credentials")
    ensures LoginFailure(Deactivated) == Failure(401, "Account is deactivated")
    ensures LoginFailure(Deactivated) != LoginFailure(WrongPassword)
  {
  }

  /** A found but deactivated account is refused as such whatever the password, right or wrong. */
  lemma DeactivatedWhateverPassword(users: seq<User>, email: string, p1: string, p2: string, hash: string -> string)
    requires email != "" && p1 != "" && p2 != ""
    requires FindByEmail(users, Some(email)).Some? && !users[FindByEmail(users, Some(email)).value].isActive
    ensures CheckLogin(users, Some(email), Some(p1), hash) == Deactivated
    ensures CheckLogin(users, Some(email), Some(p1), hash) == CheckLogin(users, Some(email), Some(p2), hash)
  {
  }

  /**
   * With unique emails, a login is granted exactly when some active account
   * has that email and the password hashes to its stored hash.
   */
  lemma GrantedIff(users: seq<User>, email: string, password: string, hash: string -> string)
    requires EmailsUnique(users)
    requires email != "" && password != ""
    ensures CheckLogin(users, Some(email), Some(password), hash).Granted? <==>
      exists i :: 0 <= i < |users| && users[i].email == Some(email) && users[i].isActive && hash(password) == users[i].passwordHash
  {
    var r := FindByEmail(users, Some(email));
    if exists i :: 0 <= i < |users| && users[i].email == Some(email) && users[i].isActive && hash(password) == users[i].passwordHash {
      var i :| 0 <= i < |users| && users[i].email == Some(email) && users[i].isActive && hash(password) == users[i].passwordHash;
      assert EmailMatches(users[i], Some(email));
      var k := r.value;
      assert k == i;
    }
  }

  /** `updateProfile`'s allow-list, kept to the keys present in the body. */
  function AllowedFields(updates: map<string, string>): (fields: seq<string>)
    ensures forall f :: f in fields <==> f in updates && (f == "name" || f == "email")
  {
    (if "name" in updates then ["name"] else []) + (if "email" in updates then ["email"] else [])
  }

  /** The account after the allowed keys of `updates` are assigned to it. */
  function Patched(u: User, updates: map<string, string>): User {
    u.(name := if "name" in updates then updates["name"] else u.name,
       email := if "email" in updates then Some(updates["email"]) else u.email)
  }

  /** Only `name` and `email` can change, and keys outside the allow-list have no effect. */
  lemma PatchTouchesOnlyAllowed(u: User, updates: map<string, string>, other: string, junk: string)
    requires other != "name" && other != "email"
    ensures var v := Patched(u, updates);
      v.id == u.id && v.passwordHash == u.passwordHash && v.isActive == u.isActive && v.lastLogin == u.lastLogin
    ensures Patched(u, updates[other := junk]) == Patched(u, updates)
    ensures AllowedFields(updates) == [] ==> Patched(u, updates) == u
  {
  }

  /** The `forEach` that assigns each allowed field of the body to the account. */
  method ApplyUpdates(u: User, updates: map<string, string>) returns (v: User)
    ensures v == Patched(u, updates)
  {
    var fields := AllowedFields(updates);
    v := u;
    var k := 0;
    while k < |fields|
      invariant 0 <= k <= |fields|
      invariant v.id == u.id && v.passwordHash == u.passwordHash && v.isActive == u.isActive && v.lastLogin == u.lastLogin
      invariant v.name == if "name" in fields[..k] then updates["name"] else u.name
      invariant v.email == if "email" in fields[..k] then Some(updates["email"]) else u.email
    {
      var f := fields[k];
      assert fields[..k + 1] == fields[..k] + [f];
      if f == "name" {
        v := v.(name := updates[f]);
      } else {
        v := v.(email := Some(updates[f]));
      }
      k := k + 1;
    }
    assert fields[..k] == fields;
  }

  /** Another account already holds this email: the unique index refuses the save. */
  predicate EmailTakenByOther(users: seq<User>, i: nat, email: Option<string>) {
    exists j :: 0 <= j < |users| && j != i && users[j].email == email
  }

  class UserStore {
    var users: seq<User>
    const hash: string -> string
    const sign: Claims -> string
    const lifetime: Option<nat>

    ghost predicate Valid()
      reads this
    {
      IdsAreIndexes(users) && EmailsUnique(users)
    }

    constructor (hash: string -> string, sign: Claims -> string, lifetime: Option<nat>)
      ensures Valid() && users == []
      ensures this.hash == hash && this.sign == sign && this.lifetime == lifetime
    {
      users := [];
      this.hash := hash;
      this.sign := sign;
      this.lifetime := lifetime;
    }

    /**
     * `register`. `validation` holds the messages the account model's
     * validators report for the new account (none when it is valid). New
     * accounts are active and have never logged in.
     */
    method Register(name: string, email: Option<string>, password: string, validation: seq<string>, now: int)
        returns (reply: Reply)
      requires Valid()
      modifies this
      ensures Valid()
      ensures FindByEmail(old(users), email).Some? ==>
        reply == Failure(400, EmailTakenError) && users == old(users)
      ensures FindByEmail(old(users), email).None? && validation != [] ==>
        reply == InvalidFields(validation) && users == old(users)
      ensures FindByEmail(old(users), email).None? && validation == [] ==>
        var u := User(|old(users)|, name, email, hash(password), true, None);
        && users == old(users) + [u]
        && reply == Authenticated(201, PublicProfileOf(u), sign(IssuedClaims(u.id, now, lifetime)), RegisteredMessage)
    {
      var existing := FindByEmail(users, email);
      if existing.Some? {
        return Failure(400, EmailTakenError);
      }
      if validation != [] {
        return InvalidFields(validation);
      }
      var u := User(|users|, name, email, hash(password), true, None);
      users := users + [u];
      reply := Authenticated(201, PublicProfileOf(u), sign(IssuedClaims(u.id, now, lifetime)), RegisteredMessage);
    }

    /** `login`: only a granted login changes the store, and then only that account's `lastLogin`. */
    method Login(email: Option<string>, password: Option<string>, now: int) returns (reply: Reply)
      requires Valid()
      modifies this
      ensures Valid()
      ensures var c := CheckLogin(old(users), email, password, hash);
        && (!c.Granted? ==> reply == LoginFailure(c) && users == old(users))
        && (c.Granted? ==>
              && users == old(users)[c.index := old(users)[c.index].(lastLogin := Some(now))]
              && reply == Authenticated(200, PublicProfileOf(users[c.index]), sign(IssuedClaims(c.index, now, lifetime)), LoginMessage))
    {
      var c := CheckLogin(users, email, password, hash);
      if !c.Granted? {
        return LoginFailure(c);
      }
      var i := c.index;
      users := users[i := users[i].(lastLogin := Some(now))];
      reply := Authenticated(200, PublicProfileOf(users[i]), sign(IssuedClaims(i, now, lifetime)), LoginMessage);
    }

    /** `getProfile` for the request identity's id. */
    method GetProfile(id: Option<UserId>) returns (reply: Reply)
      requires Valid()
      ensures id.Some? && id.value < |users| ==> reply == ProfileReply(PublicProfileOf(users[id.value]), None)
      ensures !(id.Some? && id.value < |users|) ==> reply == Failure(404, NotFoundError)
    {
      var found := FindById(users, id);
      if found.None? {
        return Failure(404, NotFoundError);
      }
      reply := ProfileReply(PublicProfileOf(users[found.value]), None);
    }

    /**
     * `updateProfile`: the allow-list check comes before the lookup; a save
     * refused by validation (`validation` non-empty) or by the email index
     * leaves the store as it was.
     */
    method UpdateProfile(id: Option<UserId>, updates: map<string, string>, validation: seq<string>)
        returns (reply: Reply)
      requires Valid()
      modifies this
      ensures Valid()
      ensures AllowedFields(updates) == [] ==> reply == Failure(400, NoValidFieldsError) && users == old(users)
      ensures AllowedFields(updates) != [] && !(id.Some? && id.value < |old(users)|) ==>
        reply == Failure(404, NotFoundError) && users == old(users)
      ensures AllowedFields(updates) != [] && id.Some? && id.value < |old(users)| ==>
        var v := Patched(old(users)[id.value], updates);
        && (validation != [] ==> reply == InvalidFields(validation) && users == old(users))
        && (validation == [] && EmailTakenByOther(old(users), id.value, v.email) ==>
              reply == Failure(400, EmailInUseError) && users == old(users))
        && (validation == [] && !EmailTakenByOther(old(users), id.value, v.email) ==>
              users == old(users)[id.value := v] && reply == ProfileReply(PublicProfileOf(v), Some(UpdatedMessage)))
    {
      if AllowedFields(updates) == [] {
        return Failure(400, NoValidFieldsError);
      }
      var found := FindById(users, id);
      if found.None? {
        return Failure(404, NotFoundError);
      }
      var i := found.value;
      var v := ApplyUpdates(users[i], updates);
      if validation != [] {
        return InvalidFields(validation);
      }
      if EmailTakenByOther(users, i, v.email) {
        return Failure(400, EmailInUseError);
      }
      users := users[i := v];
      reply := ProfileReply(PublicProfileOf(v), Some(UpdatedMessage));
    }
  }

  /** Registering an email twice: the second attempt is refused and stores nothing. */
  method RegisterTwice(store: UserStore, email: string, now: int) returns (first: Reply, second: Reply)
    requires store.Valid() && store.users == []
    modifies store
    ensures first.Authenticated? && first.status == 201
    ensures second == Failure(400, EmailTakenError)
    ensures |store.users| == 1
  {
    first := store.Register("a", Some(email), "p", [], now);
    second := store.Register("b", Some(email), "q", [], now);
  }
}
