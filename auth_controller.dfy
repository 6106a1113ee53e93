/** The account handlers (controllers/authController.js): registration with
    its duplicate check, hashing and validation, login with its single
    answer for every credential failure, and the profile lookup. Hashing,
    comparison and token signing belong to bcrypt and jsonwebtoken and are
    parameters here. */
module AuthController {
  import opened Common
  import opened JsText
  import opened UserSchema

  /** What is handed to `jwt.sign`: the payload `{ user: { id } }` and the lifetime. */
  datatype TokenRequest = TokenRequest(userId: Id, expiresIn: string)

  /** The success bodies: a message, the token and the user; or the profile alone. */
  datatype AuthBody = Authenticated(message: string, token: string, user: PublicUser) | Profile(user: PublicUser)

  const TokenLifetime: string := "4d"
  const DuplicateEmailMessage: string := "User with this email already exists"
  const RegisterServerError: string := "Server Error during registration"
  const RegisterTokenError: string := "Server Error: Failed to generate token during registration"
  const RegisteredMessage: string := "User registered successfully"
  const InvalidCredentialsMessage: string := "Invalid credentials"
  const LoginServerError: string := "Server error during login"
  const LoginTokenError: string := "Server Error: Failed to generate token during login"
  const LoggedInMessage: string := "Logged in successfully"
  const UserNotFoundMessage: string := "User not found"

  /** The length of a bcrypt hash. */
  const HashLength: nat := 60

  /** `User.findOne({ email })` over the users in insertion order. */
  function IndexOfEmail(users: seq<User>, email: string): (r: Option<Id>)
    ensures r.Some? ==> r.value < |users| && users[r.value].email == email
    ensures r.None? <==> forall i :: 0 <= i < |users| ==> users[i].email != email
  {
    if users == [] then None
    else if users[0].email == email then Some(0)
    else
      match IndexOfEmail(users[1..], email)
      case None => None
      case Some(i) => Some(i + 1)
  }

  /** The schema validators as they run in `registerUser`: the document
      holds the hash, so the password's minimum length is checked on the
      hash rather than on what the user typed. */
  function RegistrationErrorsAsWritten(name: Option<string>, email: Option<string>, hashed: string,
                                       phone: Option<string>): (errors: seq<string>)
    ensures errors == [] <==> Conforms(UserDraft(name, email, Some(hashed), phone))
  {
    ErrorsEmptyIffConforms(UserDraft(name, email, Some(hashed), phone));
    Errors(UserDraft(name, email, Some(hashed), phone))
  }

  /** The validation registration evidently intends: the schema's rules
      applied to the password as typed, so one shorter than six characters
      is refused. */
  function RegistrationErrors(name: Option<string>, email: Option<string>, password: string,
                              phone: Option<string>): (errors: seq<string>)
    ensures errors == [] <==> Conforms(UserDraft(name, email, Some(password), phone))
    ensures Utf16Length(password) < PasswordMinLength ==> errors != []
  {
    ErrorsEmptyIffConforms(UserDraft(name, email, Some(password), phone));
    Errors(UserDraft(name, email, Some(password), phone))
  }

  /** As written, the length rule can never fail: every bcrypt hash is 60
      characters long, so any password, "a" included, is accepted when the
      name and email are. */
  lemma {:induction false} ShortPasswordAcceptedAsWritten(name: Option<string>, email: Option<string>,
                                                          hashed: string, phone: Option<string>)
    requires RequiredPresent(name) && email.Some? && MatchesEmailPattern(email.value)
    requires |hashed| == HashLength
    ensures RegistrationErrorsAsWritten(name, email, hashed, phone) == []
    ensures RegistrationErrors(name, email, "a", phone) != []
  {
    assert Utf16Length(hashed) >= |hashed|;
    assert Utf16Length("a") == 1;
  }

  /** The counterexample in full: Ann registers with password "a". */
  lemma ShortPasswordExample(hashed: string)
    requires |hashed| == HashLength
    ensures RegistrationErrorsAsWritten(Some("Ann"), Some("ann@farm.co"), hashed, None) == []
    ensures RegistrationErrors(Some("Ann"), Some("ann@farm.co"), "a", None) != []
  {
    EmailPatternExamples();
    ShortPasswordAcceptedAsWritten(Some("Ann"), Some("ann@farm.co"), hashed, None);
  }

  /** The user collection, indexed by insertion order. */
  class UserStore {
    var users: seq<User>

    /** The unique index on email. */
    ghost predicate Valid()
      reads this
    {
      forall i, j :: 0 <= i < j < |users| ==> users[i].email != users[j].email
    }

    constructor ()
      ensures Valid() && users == []
    {
      users := [];
    }

    /** `findOne({ email })`; an undefined email matches nobody. */
    function FindByEmail(email: Option<string>): (r: Option<Id>)
      reads this
      ensures r.Some? ==> email.Some? && r.value < |users| && users[r.value].email == email.value
      ensures r.None? <==> email.None? || forall i :: 0 <= i < |users| ==> users[i].email != email.value
    {
      if email.None? then None else IndexOfEmail(users, email.value)
    }

    /** `registerUser` as written. A taken email is refused first; a
      missing password makes hashing throw (500); then the document, which
      holds the hash, is validated, and a failure is a 400 listing the
      messages; otherwise the user is stored with the hash. When signing
      the token then fails the answer is 500, but the user stays
      registered. */
    method Register(name: Option<string>, email: Option<string>, password: Option<string>,
                    phone: Option<string>, salt: string,
                    hash: (string, string) -> string, sign: TokenRequest -> Option<string>)
      returns (r: Response<AuthBody>)
      requires Valid()
      modifies this
      ensures Valid()
      ensures old(FindByEmail(email)).Some? ==>
                r == Err(400, DuplicateEmailMessage) && users == old(users)
      ensures old(FindByEmail(email)).None? && password.None? ==>
                r == Err(500, RegisterServerError) && users == old(users)
      ensures old(FindByEmail(email)).None? && password.Some? ==>
                var hashed := hash(password.value, salt);
                Registered(old(users), name, email, hashed, phone,
                           RegistrationErrorsAsWritten(name, email, hashed, phone), sign, r)
    {
      if FindByEmail(email).Some? {
        r := Err(400, DuplicateEmailMessage);
        return;
      }
      if password.None? {
        r := Err(500, RegisterServerError);
        return;
      }
      var hashed := hash(password.value, salt);
      r := Save(name, email, hashed, phone, RegistrationErrorsAsWritten(name, email, hashed, phone), sign);
    }

    /** `registerUser` as evidently intended: the same steps, with the
      password's rules applied to the password as typed. */
    method RegisterIntended(name: Option<string>, email: Option<string>, password: Option<string>,
                            phone: Option<string>, salt: string,
                            hash: (string, string) -> string, sign: TokenRequest -> Option<string>)
      returns (r: Response<AuthBody>)
      requires Valid()
      modifies this
      ensures Valid()
      ensures old(FindByEmail(email)).Some? ==>
                r == Err(400, DuplicateEmailMessage) && users == old(users)
      ensures old(FindByEmail(email)).None? && password.None? ==>
                r == Err(500, RegisterServerError) && users == old(users)
      ensures old(FindByEmail(email)).None? && password.Some? ==>
                Registered(old(users), name, email, hash(password.value, salt), phone,
                           RegistrationErrors(name, email, password.value, phone), sign, r)
    {
      if FindByEmail(email).Some? {
        r := Err(400, DuplicateEmailMessage);
        return;
      }
      if password.None? {
        r := Err(500, RegisterServerError);
        return;
      }
      var hashed := hash(password.value, salt);
      r := Save(name, email, hashed, phone, RegistrationErrors(name, email, password.value, phone), sign);
    }

    /** The outcome of the save and the signing, for an email nobody has:
      with validation errors, a 400 listing them and nothing stored;
      otherwise the user appended with the hash, found by email from then
      on, and a 201 with the token, or a 500 when signing fails. */
    ghost predicate Registered(before: seq<User>, name: Option<string>, email: Option<string>, hashed: string,
                               phone: Option<string>, errors: seq<string>,
                               sign: TokenRequest -> Option<string>, r: Response<AuthBody>)
      reads this
    {
      && (errors != [] ==>
            r == Err(400, "Validation Error: " + Join(errors, ", ")) && users == before)
      && (errors == [] ==>
            && name.Some? && email.Some?
            && var user := User(name.value, email.value, hashed, phone);
               var id := |before|;
               && users == before + [user]
               && FindByEmail(email) == Some(id)
               && (sign(TokenRequest(id, TokenLifetime)).None? ==> r == Err(500, RegisterTokenError))
               && (sign(TokenRequest(id, TokenLifetime)).Some? ==>
                     r == Ok(201, Authenticated(RegisteredMessage, sign(TokenRequest(id, TokenLifetime)).value,
                                                Public(id, user)))))
    }

    /** `user.save()` and `jwt.sign`, given the validation's verdict. */
    method Save(name: Option<string>, email: Option<string>, hashed: string, phone: Option<string>,
                errors: seq<string>, sign: TokenRequest -> Option<string>) returns (r: Response<AuthBody>)
      requires Valid() && FindByEmail(email).None?
      requires errors == [] ==> RequiredPresent(name) && email.Some?
      modifies this
      ensures Valid()
      ensures Registered(old(users), name, email, hashed, phone, errors, sign, r)
    {
      if errors != [] {
        r := Err(400, "Validation Error: " + Join(errors, ", "));
        return;
      }
      var user := User(name.value, email.value, hashed, phone);
      var id := |users|;
      RegisteredEmailFound(users, user);
      users := users + [user];
      var token := sign(TokenRequest(id, TokenLifetime));
      if token.None? {
        r := Err(500, RegisterTokenError);
      } else {
        r := Ok(201, Authenticated(RegisteredMessage, token.value, Public(id, user)));
      }
    }

    /** `loginUser`. An unknown email and a wrong password get the same
      answer; a missing password makes the comparison throw (500). */
    function Login(email: Option<string>, password: Option<string>,
                   compare: (string, string) -> bool, sign: TokenRequest -> Option<string>): (r: Response<AuthBody>)
      reads this
      ensures FindByEmail(email).None? ==> r == Err(400, InvalidCredentialsMessage)
      ensures FindByEmail(email).Some? && password.None? ==> r == Err(500, LoginServerError)
      ensures FindByEmail(email).Some? && password.Some?
              && !compare(password.value, users[FindByEmail(email).value].password) ==>
                r == Err(400, InvalidCredentialsMessage)
      ensures FindByEmail(email).Some? && password.Some?
              && compare(password.value, users[FindByEmail(email).value].password)
              && sign(TokenRequest(FindByEmail(email).value, TokenLifetime)).Some? ==>
                r == Ok(200, Authenticated(LoggedInMessage,
                                           sign(TokenRequest(FindByEmail(email).value, TokenLifetime)).value,
                                           Public(FindByEmail(email).value, users[FindByEmail(email).value])))
      ensures r.Ok? ==>
                && FindByEmail(email).Some? && password.Some?
                && compare(password.value, users[FindByEmail(email).value].password)
                && r.status == 200
                && sign(TokenRequest(FindByEmail(email).value, TokenLifetime)).Some?
                && r.body == Authenticated(LoggedInMessage,
                                           sign(TokenRequest(FindByEmail(email).value, TokenLifetime)).value,
                                           Public(FindByEmail(email).value, users[FindByEmail(email).value]))
      ensures r.Err? && r.status == 500 && password.Some? ==>
                sign(TokenRequest(FindByEmail(email).value, TokenLifetime)).None? && r.message == LoginTokenError
    {
      match FindByEmail(email)
      case None => Err(400, InvalidCredentialsMessage)
      case Some(id) =>
        if password.None? then Err(500, LoginServerError)
        else if !compare(password.value, users[id].password) then Err(400, InvalidCredentialsMessage)
        else
          match sign(TokenRequest(id, TokenLifetime))
          case None => Err(500, LoginTokenError)
          case Some(token) => Ok(200, Authenticated(LoggedInMessage, token, Public(id, users[id])))
    }

    /** `getMe` for the authenticated `id`: the profile without the password, or 404. */
    function GetMe(id: Id): (r: Response<AuthBody>)
      reads this
      ensures r.Ok? <==> id < |users|
      ensures r.Ok? ==> r == Ok(200, Profile(Public(id, users[id])))
      ensures !r.Ok? ==> r == Err(404, UserNotFoundMessage)
    {
      if id < |users| then Ok(200, Profile(Public(id, users[id]))) else Err(404, UserNotFoundMessage)
    }
  }

  /** A caller cannot tell an unknown email from a wrong password: for a
      password that does not match, the answer is the one an unregistered
      email gets. */
  lemma LoginFailuresIndistinguishable(store: UserStore, known: string, unknown: string, password: string,
                                       compare: (string, string) -> bool, sign: TokenRequest -> Option<string>)
    requires store.FindByEmail(Some(known)).Some? && store.FindByEmail(Some(unknown)).None?
    requires !compare(password, store.users[store.FindByEmail(Some(known)).value].password)
    ensures store.Login(Some(known), Some(password), compare, sign)
            == store.Login(Some(unknown), Some(password), compare, sign)
            == Err(400, InvalidCredentialsMessage)
  {
  }

  /** Once a user is registered under an email, that email is found and
      leads to the new user; registering it again is refused. */
  lemma {:induction false} RegisteredEmailFound(users: seq<User>, user: User)
    requires forall i :: 0 <= i < |users| ==> users[i].email != user.email
    ensures IndexOfEmail(users + [user], user.email) == Some(|users|)
  {
    if users != [] {
      assert (users + [user])[1..] == users[1..] + [user];
      RegisteredEmailFound(users[1..], user);
    } else {
      assert users + [user] == [user];
    }
  }
}
