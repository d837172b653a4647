/** Authentication decisions: looking users up, checking a password, issuing an
    access token and accepting or rejecting the token a request carries.
    bcrypt and JWT are libraries this model does not look inside; they are passed
    in as functions, and the facts the proofs rely on about them are predicates
    that the lemmas needing them require. */
module Security {
  import opened Wrappers
  import opened Models
  import opened Collection

  // ---------------------------------------------------------------- password hashing

  /** `pwd_context.hash` and `pwd_context.verify`. */
  datatype PasswordHasher = PasswordHasher(hash: string -> string, verify: (string, string) -> bool)

  /** A password verifies against its own hash. */
  ghost predicate VerifiesOwnHash(h: PasswordHasher) {
    forall p :: h.verify(p, h.hash(p))
  }

  /** A hash never equals the password it was computed from. */
  ghost predicate HashDiffersFromPlaintext(h: PasswordHasher) {
    forall p :: h.hash(p) != p
  }

  // ---------------------------------------------------------------- user lookups

  /** The filter of a `db.users.find_one` call; both filters also demand `deleted_at: None`. */
  datatype UserQuery = ByEmail(email: string) | ByPublicId(id: Uuid)

  predicate Matches(u: UserInDB, q: UserQuery) {
    u.deletedAt.None? &&
    match q
    case ByEmail(e) => u.email == e
    case ByPublicId(id) => u.publicId == id
  }

  /** `db.users.find_one(q)`: the position of the first matching user in storage order. */
  function FindUser(users: seq<UserInDB>, q: UserQuery): Option<nat> {
    FirstMatch(users, (u: UserInDB) => Matches(u, q))
  }

  /** The store's invariant: public ids are unique, and no two live users share an email. */
  ghost predicate UsersValid(users: seq<UserInDB>) {
    && (forall i, j :: 0 <= i < j < |users| ==> users[i].publicId != users[j].publicId)
    && (forall i, j :: 0 <= i < j < |users| && users[i].deletedAt.None? && users[j].deletedAt.None? ==>
          users[i].email != users[j].email)
  }

  /** In a valid store at most one user matches a query, so the one found is any match. */
  lemma FindUserUnique(users: seq<UserInDB>, q: UserQuery, i: nat)
    requires UsersValid(users)
    requires i < |users| && Matches(users[i], q)
    ensures FindUser(users, q) == Some(i)
  {
    FirstMatchIsTheMatch(users, (u: UserInDB) => Matches(u, q), i);
  }

  /** A user appended to a store in which nothing matches the query is the one found. */
  lemma FindUserAppended(users: seq<UserInDB>, u: UserInDB, q: UserQuery)
    requires FindUser(users, q).None?
    requires Matches(u, q)
    ensures FindUser(users + [u], q) == Some(|users|)
  {
    FirstMatchAppended(users, u, (v: UserInDB) => Matches(v, q));
  }

  // ---------------------------------------------------------------- authenticate_user

  /** `authenticate_user`: the first live user with this email, if the password
      verifies against that user's stored hash. `is_active` is not consulted. */
  function AuthenticateUser(users: seq<UserInDB>, email: string, password: string, hasher: PasswordHasher): (r: Option<UserInDB>)
    ensures r.Some? ==> r.value in users && r.value.email == email && r.value.deletedAt.None?
    ensures r.Some? ==> hasher.verify(password, r.value.hashedPassword)
    ensures FindUser(users, ByEmail(email)).None? ==> r.None?
    ensures FindUser(users, ByEmail(email)).Some? ==>
      (r.None? <==> !hasher.verify(password, users[FindUser(users, ByEmail(email)).value].hashedPassword))
  {
    match FindUser(users, ByEmail(email))
    case None => None
    case Some(i) =>
      if hasher.verify(password, users[i].hashedPassword) then Some(users[i]) else None
  }

  /** In a valid store, authentication succeeds exactly when some live user has the
      email and the password verifies against that user's hash. */
  lemma AuthenticateUserIff(users: seq<UserInDB>, email: string, password: string, hasher: PasswordHasher)
    requires UsersValid(users)
    ensures AuthenticateUser(users, email, password, hasher).Some? <==>
      exists i :: 0 <= i < |users| && Matches(users[i], ByEmail(email)) &&
        hasher.verify(password, users[i].hashedPassword)
  {
    if i :| 0 <= i < |users| && Matches(users[i], ByEmail(email)) && hasher.verify(password, users[i].hashedPassword) {
      FindUserUnique(users, ByEmail(email), i);
    }
  }

  // ---------------------------------------------------------------- access tokens

  /** A JSON value in a token's payload. */
  datatype Claim = Text(text: string) | Number(number: int) | Null

  type Claims = map<string, Claim>

  /** `jwt.encode` with the configured secret and algorithm, and `jwt.decode`, which
      fails (`None`) on a bad signature or an expired token. */
  datatype TokenCodec = TokenCodec(encode: Claims -> string, decode: (string, Timestamp) -> Option<Claims>)

  predicate Unexpired(claims: Claims, t: Timestamp) {
    "exp" in claims && claims["exp"].Number? && t <= claims["exp"].number
  }

  /** A token this codec issued decodes to its claims until it expires. */
  ghost predicate DecodesOwnTokens(c: TokenCodec) {
    forall claims, t :: Unexpired(claims, t) ==> c.decode(c.encode(claims), t) == Some(claims)
  }

  /** `settings.access_token_expire_minutes`. */
  const AccessTokenExpireMinutes := 30

  /** The `exp` of a new token: `now + expires_delta` when a delta is given and is
      nonzero (a zero `timedelta` is false in Python), otherwise the configured lifetime. */
  function Expiry(expiresDelta: Option<int>, now: Timestamp): Timestamp {
    if expiresDelta.Some? && expiresDelta.value != 0 then now + expiresDelta.value
    else now + AccessTokenExpireMinutes * 60
  }

  /** The claims `create_access_token` encodes: the caller's, with `exp` set. */
  function AccessTokenClaims(data: Claims, expiresDelta: Option<int>, now: Timestamp): (r: Claims)
    ensures r.Keys == data.Keys + {"exp"}
    ensures forall k :: k in data && k != "exp" ==> r[k] == data[k]
    ensures expiresDelta.Some? && expiresDelta.value != 0 ==> r["exp"] == Number(now + expiresDelta.value)
    ensures expiresDelta.None? || expiresDelta.value == 0 ==> r["exp"] == Number(now + AccessTokenExpireMinutes * 60)
  {
    data["exp" := Number(Expiry(expiresDelta, now))]
  }

  /** A Python dict of claims: a mutable object shared by reference. */
  class ClaimDict {
    var entries: Claims

    constructor (entries: Claims)
      ensures this.entries == entries
    {
      this.entries := entries;
    }

    /** `dict.copy()`. */
    method Copy() returns (c: ClaimDict)
      ensures fresh(c) && c.entries == entries
    {
      c := new ClaimDict(entries);
    }

    /** `dict.update({key: value})`. */
    method Update(key: string, value: Claim)
      modifies this
      ensures entries == old(entries)[key := value]
    {
      entries := entries[key := value];
    }
  }

  /** `create_access_token`: encodes a copy of the caller's claims with `exp` added.
      It may change no object that existed before the call, so the caller's dict
      is left as it was. */
  method CreateAccessToken(data: ClaimDict, expiresDelta: Option<int>, now: Timestamp, codec: TokenCodec)
    returns (token: string)
    ensures token == codec.encode(AccessTokenClaims(data.entries, expiresDelta, now))
  {
    var toEncode := data.Copy();
    var expire;
    if expiresDelta.Some? && expiresDelta.value != 0 {
      expire := now + expiresDelta.value;
    } else {
      expire := now + AccessTokenExpireMinutes * 60;
    }
    toEncode.Update("exp", Number(expire));
    token := codec.encode(toEncode.entries);
  }

  // ---------------------------------------------------------------- get_current_user

  const CredentialsError := HttpError(401, "Could not validate credentials")
  const InactiveUserError := HttpError(403, "Inactive user account")

  /** `payload.get(key)`: a missing key and a JSON null both read as `None`. */
  function Get(payload: Claims, key: string): Claim {
    if key in payload then payload[key] else Null
  }

  /** `jwt.decode` with its default claim checks: besides the signature and `exp`
      (the codec's part), a `sub` that is present must be text, or decoding fails
      with a `JWTError`. */
  function DecodeChecked(codec: TokenCodec, token: string, now: Timestamp): (r: Option<Claims>)
    ensures r.Some? ==> codec.decode(token, now) == r && ("sub" in r.value ==> r.value["sub"].Text?)
    ensures codec.decode(token, now).Some? && Get(codec.decode(token, now).value, "sub").Text? ==>
      r == codec.decode(token, now)
    ensures codec.decode(token, now).Some? && "sub" !in codec.decode(token, now).value ==>
      r == codec.decode(token, now)
  {
    match codec.decode(token, now)
    case None => None
    case Some(payload) =>
      if "sub" in payload && !payload["sub"].Text? then None else Some(payload)
  }

  /** `get_current_user` for the bearer token `token` at time `now`. A token that fails
      to decode, lacks `sub` or `email`, or names no live user is refused as
      unauthenticated; an `email` that is present but not text fails `TokenData`'s
      validation, which the handler does not catch; a live user found by `sub` is
      returned when active and refused as inactive otherwise. */
  function GetCurrentUser(users: seq<UserInDB>, token: string, codec: TokenCodec, now: Timestamp): (r: Result<UserInDB, ApiError>)
    ensures r.Err? ==> r.error in {CredentialsError, InactiveUserError, InternalError}
    ensures DecodeChecked(codec, token, now).None? ==> r == Err(CredentialsError)
    ensures codec.decode(token, now).Some? ==>
      var payload := codec.decode(token, now).value;
      (Get(payload, "sub") == Null || Get(payload, "email") == Null) ==> r == Err(CredentialsError)
    ensures r == Err(InternalError) <==>
      codec.decode(token, now).Some? &&
      Get(codec.decode(token, now).value, "sub").Text? && Get(codec.decode(token, now).value, "email").Number?
    ensures codec.decode(token, now).Some? ==>
      var payload := codec.decode(token, now).value;
      (Get(payload, "sub").Text? && Get(payload, "email").Text? &&
       FindUser(users, ByPublicId(Get(payload, "sub").text)).None?) ==> r == Err(CredentialsError)
    ensures codec.decode(token, now).Some? ==>
      var payload := codec.decode(token, now).value;
      (Get(payload, "sub").Text? && Get(payload, "email").Text? &&
       FindUser(users, ByPublicId(Get(payload, "sub").text)).Some?) ==>
        var u := users[FindUser(users, ByPublicId(Get(payload, "sub").text)).value];
        r == if u.isActive then Ok(u) else Err(InactiveUserError)
    ensures r == Err(InactiveUserError) ==>
      exists i :: 0 <= i < |users| && users[i].deletedAt.None? && !users[i].isActive &&
        codec.decode(token, now).Some? &&
        Get(codec.decode(token, now).value, "sub") == Text(users[i].publicId)
    ensures r.Ok? ==>
      r.value in users && r.value.deletedAt.None? && r.value.isActive &&
      codec.decode(token, now).Some? &&
      Get(codec.decode(token, now).value, "sub") == Text(r.value.publicId) &&
      Get(codec.decode(token, now).value, "email").Text?
  {
    match DecodeChecked(codec, token, now)
    case None => Err(CredentialsError)
    case Some(payload) =>
      var sub, email := Get(payload, "sub"), Get(payload, "email");
      if sub == Null || email == Null then Err(CredentialsError)
      else if !email.Text? then Err(InternalError)
      else
        match FindUser(users, ByPublicId(sub.text))
        case None => Err(CredentialsError)
        case Some(i) =>
          if !users[i].isActive then Err(InactiveUserError) else Ok(users[i])
  }

  /** A non-text `sub` is refused by `jwt.decode` itself, so it gets the 401, not an
      uncaught error. */
  lemma NonTextSubjectIsUnauthenticated(users: seq<UserInDB>, token: string, codec: TokenCodec, now: Timestamp)
    requires codec.decode(token, now).Some?
    requires Get(codec.decode(token, now).value, "sub").Number?
    ensures GetCurrentUser(users, token, codec, now) == Err(CredentialsError)
  {
  }
}
