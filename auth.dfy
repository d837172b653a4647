/** The authentication routes: `register` adds a user to the user store, `login`
    exchanges an email and a password for a bearer token. */
module Auth {
  import opened Wrappers
  import opened Models
  import opened Security

  const EmailTakenError := HttpError(400, "Email already registered")
  const BadCredentialsError := HttpError(401, "Incorrect email or password")

  /** Whether a live user already has this email; the comparison is exact. */
  predicate EmailTaken(users: seq<UserInDB>, email: string) {
    FindUser(users, ByEmail(email)).Some?
  }

  /** The users collection. */
  class UserStore {
    var users: seq<UserInDB>

    ghost predicate Valid()
      reads this
    {
      UsersValid(users)
    }

    constructor ()
      ensures Valid() && users == []
    {
      users := [];
    }

    /** `register`: the body is validated first; then a live user with the same email
        is an error; otherwise exactly one user is added, holding the password's hash,
        and the response carries the public fields only. `newId` stands for the
        `uuid4()` default and `now` for the clock. */
    method Register(email: string, fullName: string, password: string, hasher: PasswordHasher, newId: Uuid, now: Timestamp)
      returns (r: Result<UserResponse, ApiError>)
      requires Valid()
      requires forall u :: u in users ==> u.publicId != newId
      modifies this
      ensures Valid()
      ensures ValidateUserCreate(email, fullName, password).Err? ==>
        r == Err(Unprocessable(ValidateUserCreate(email, fullName, password).error)) && users == old(users)
      ensures ValidateUserCreate(email, fullName, password).Ok? && EmailTaken(old(users), email) ==>
        r == Err(EmailTakenError) && users == old(users)
      ensures ValidateUserCreate(email, fullName, password).Ok? && !EmailTaken(old(users), email) ==>
        users == old(users) + [NewUser(email, fullName, hasher.hash(password), newId, now)] &&
        r == Ok(UserResponse(newId, email, fullName, now))
    {
      var body := ValidateUserCreate(email, fullName, password);
      if body.Err? {
        return Err(Unprocessable(body.error));
      }
      var existing := FindUser(users, ByEmail(body.value.email));
      if existing.Some? {
        return Err(EmailTakenError);
      }
      var hashed := hasher.hash(body.value.password);
      var user := NewUser(body.value.email, body.value.fullName, hashed, newId, now);
      users := users + [user];
      r := Ok(ToUserResponse(user));
    }
  }

  /** The claims `login` asks `create_access_token` to sign. */
  function LoginClaims(u: UserInDB): Claims {
    map["sub" := Text(u.publicId), "email" := Text(u.email)]
  }

  /** `login`: one error for every failure, and on success a bearer token for the
      user's public id and email that expires after the configured lifetime. */
  function Login(users: seq<UserInDB>, email: string, password: string, hasher: PasswordHasher, codec: TokenCodec, now: Timestamp)
    : (r: Result<Token, ApiError>)
    ensures r.Err? <==> AuthenticateUser(users, email, password, hasher).None?
    ensures r.Err? ==> r.error == BadCredentialsError
    ensures r.Ok? ==> r.value.tokenType == "bearer"
    ensures r.Ok? ==>
      var u := AuthenticateUser(users, email, password, hasher).value;
      exists claims :: r.value.accessToken == codec.encode(claims) &&
        claims.Keys == {"sub", "email", "exp"} &&
        claims["sub"] == Text(u.publicId) && claims["email"] == Text(u.email) &&
        claims["exp"] == Number(now + AccessTokenExpireMinutes * 60)
  {
    match AuthenticateUser(users, email, password, hasher)
    case None => Err(BadCredentialsError)
    case Some(u) =>
      var claims := AccessTokenClaims(LoginClaims(u), Some(AccessTokenExpireMinutes * 60), now);
      Ok(Token(codec.encode(claims), "bearer"))
  }

  /** An unknown email and a wrong password for a known one give the same response. */
  lemma UnknownEmailAndWrongPasswordLookAlike(
    users: seq<UserInDB>, unknownEmail: string, anyPassword: string,
    knownEmail: string, wrongPassword: string,
    hasher: PasswordHasher, codec: TokenCodec, now: Timestamp)
    requires forall u :: u in users ==> !Matches(u, ByEmail(unknownEmail))
    requires forall u :: u in users && Matches(u, ByEmail(knownEmail)) ==> !hasher.verify(wrongPassword, u.hashedPassword)
    ensures Login(users, unknownEmail, anyPassword, hasher, codec, now) == Err(BadCredentialsError)
    ensures Login(users, knownEmail, wrongPassword, hasher, codec, now) == Err(BadCredentialsError)
  {
    var found := FindUser(users, ByEmail(knownEmail));
    if found.Some? {
      assert users[found.value] in users;
    }
  }

  /** A soft-deleted user's email can be registered again. */
  lemma DeletedUsersEmailIsFree(users: seq<UserInDB>, email: string)
    requires forall u :: u in users && u.email == email ==> u.deletedAt.Some?
    ensures !EmailTaken(users, email)
  {
    forall j | 0 <= j < |users| ensures !Matches(users[j], ByEmail(email)) {
      assert users[j] in users;
    }
  }

  /** The hash assumption applied to a new user: the credential `register` stores
      (`hash(password)`, by `Register`'s contract) is not the password itself. */
  lemma StoredCredentialIsNotPlaintext(email: string, fullName: string, password: string, hasher: PasswordHasher, id: Uuid, now: Timestamp)
    requires HashDiffersFromPlaintext(hasher)
    ensures NewUser(email, fullName, hasher.hash(password), id, now).hashedPassword != password
  {
  }

  /** After a successful registration the same email and password log in, and the
      token names the new user. */
  lemma {:induction false} RegisteredUserCanLogIn(
    users: seq<UserInDB>, email: string, fullName: string, password: string,
    hasher: PasswordHasher, codec: TokenCodec, id: Uuid, now: Timestamp, later: Timestamp)
    requires !EmailTaken(users, email)
    requires VerifiesOwnHash(hasher)
    ensures var u := NewUser(email, fullName, hasher.hash(password), id, now);
      AuthenticateUser(users + [u], email, password, hasher) == Some(u) &&
      Login(users + [u], email, password, hasher, codec, later).Ok?
  {
    var u := NewUser(email, fullName, hasher.hash(password), id, now);
    FindUserAppended(users, u, ByEmail(email));
    assert (users + [u])[|users|] == u;
  }

  /** A token from `login` is accepted by `get_current_user` until it expires: the
      request runs as the user who logged in, or is refused as inactive when that
      user's account is inactive (`login` itself does not look at `is_active`). */
  lemma {:induction false} LoginThenAuthorize(
    users: seq<UserInDB>, email: string, password: string,
    hasher: PasswordHasher, codec: TokenCodec, now: Timestamp, later: Timestamp)
    requires UsersValid(users)
    requires DecodesOwnTokens(codec)
    requires Login(users, email, password, hasher, codec, now).Ok?
    requires later <= now + AccessTokenExpireMinutes * 60
    ensures var u := AuthenticateUser(users, email, password, hasher).value;
      GetCurrentUser(users, Login(users, email, password, hasher, codec, now).value.accessToken, codec, later) ==
        if u.isActive then Ok(u) else Err(InactiveUserError)
  {
    var u := AuthenticateUser(users, email, password, hasher).value;
    var i := FindUser(users, ByEmail(email)).value;
    var claims := AccessTokenClaims(LoginClaims(u), Some(AccessTokenExpireMinutes * 60), now);
    assert Unexpired(claims, later);
    assert codec.decode(codec.encode(claims), later) == Some(claims);
    assert Get(claims, "sub") == Text(u.publicId);
    assert Get(claims, "email") == Text(u.email);
    FindUserUnique(users, ByPublicId(u.publicId), i);
  }

  /** Once an email has been registered, registering it again is refused. */
  lemma {:induction false} RegisteredEmailIsTaken(
    users: seq<UserInDB>, email: string, fullName: string, hashedPassword: string, id: Uuid, now: Timestamp)
    requires !EmailTaken(users, email)
    ensures EmailTaken(users + [NewUser(email, fullName, hashedPassword, id, now)], email)
  {
    FindUserAppended(users, NewUser(email, fullName, hashedPassword, id, now), ByEmail(email));
  }
}
