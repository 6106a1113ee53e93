/** `protect` (middleware/authMiddleware.js): reads a bearer token from the
    Authorization header, verifies it, loads the user it names and either
    lets the request through with that user or refuses it with 401 and a
    message that names the failure. Verification belongs to jsonwebtoken and
    is a parameter here. */
module AuthMiddleware {
  import opened Common
  import opened JsText
  import opened UserSchema

  /** The named errors `jwt.verify` raises, and any other error. */
  datatype VerifyError = TokenExpiredError | JsonWebTokenError | OtherError(name: string)

  /** The decoded payload: one with `user.id` naming a user id, or one without. */
  datatype Payload = UserClaim(id: Id) | NoUserClaim

  /** What `jwt.verify(token, secret)` does with a token. */
  datatype Verified = Decoded(payload: Payload) | Failed(error: VerifyError)

  /** `next()` with `req.user` set, or a 401 handed to the error handler. */
  datatype Guarded = Next(user: PublicUser) | Refused(status: nat, message: string)

  const NoTokenMessage: string := "Not authorized, no token"
  const ExpiredMessage: string := "Not authorized, token expired"
  const InvalidMessage: string := "Not authorized, invalid token"
  const FailedMessage: string := "Not authorized, token failed"
  const Unauthorized: nat := 401

  /** `authorization.split(' ')[1]`: the second space-separated word, if any. */
  function TokenOf(header: string): (t: Option<string>)
    ensures t.Some? ==> |Split(header, ' ')| > 1 && t.value == Split(header, ' ')[1] && ' ' !in t.value
    ensures t.None? <==> |Split(header, ' ')| == 1
  {
    var words := Split(header, ' ');
    if |words| > 1 then Some(words[1]) else None
  }

  /** The header carries a bearer token in the sense of the first check. */
  predicate HasBearer(authorization: Option<string>) {
    authorization.Some? && StartsWith(authorization.value, "Bearer")
  }

  /** The message for each way verification or lookup can fail. The user
      lookup's own "user not found" error is caught by the same handler and,
      being neither of the two named errors, becomes "token failed". */
  function FailureMessage(e: VerifyError): string {
    match e
    case TokenExpiredError => ExpiredMessage
    case JsonWebTokenError => InvalidMessage
    case OtherError(_) => FailedMessage
  }

  /** `jwt.verify` on the token the header yields. jsonwebtoken refuses a
      falsy token (undefined when the header has no second word, or "")
      with a JsonWebTokenError before looking at it; any other token goes
      to `verify`, the signature and expiry check, which is a parameter. */
  function VerifyToken(token: Option<string>, verify: string -> Verified): (v: Verified)
    ensures token.None? || token == Some("") ==> v == Failed(JsonWebTokenError)
    ensures token.Some? && token.value != "" ==> v == verify(token.value)
  {
    if token.None? || token.value == "" then Failed(JsonWebTokenError) else verify(token.value)
  }

  /** `protect`. `users` is the user collection, indexed by id. */
  function Protect(authorization: Option<string>, verify: string -> Verified, users: seq<User>): (r: Guarded)
    ensures r.Refused? ==> r.status == Unauthorized
    ensures !HasBearer(authorization) ==> r == Refused(Unauthorized, NoTokenMessage)
    ensures HasBearer(authorization) && (TokenOf(authorization.value).None? || TokenOf(authorization.value) == Some("")) ==>
              r == Refused(Unauthorized, InvalidMessage)
    ensures r.Next? <==>
              && HasBearer(authorization)
              && TokenOf(authorization.value).Some? && TokenOf(authorization.value).value != ""
              && verify(TokenOf(authorization.value).value).Decoded?
              && verify(TokenOf(authorization.value).value).payload.UserClaim?
              && verify(TokenOf(authorization.value).value).payload.id < |users|
    ensures r.Next? ==>
              var id := verify(TokenOf(authorization.value).value).payload.id;
              r.user == Public(id, users[id])
    ensures HasBearer(authorization) && VerifyToken(TokenOf(authorization.value), verify).Failed? ==>
              r == Refused(Unauthorized, FailureMessage(VerifyToken(TokenOf(authorization.value), verify).error))
    ensures HasBearer(authorization) && VerifyToken(TokenOf(authorization.value), verify).Decoded? && r.Refused? ==>
              r.message == FailedMessage
  {
    if !HasBearer(authorization) then Refused(Unauthorized, NoTokenMessage)
    else
      var token := TokenOf(authorization.value);
      match VerifyToken(token, verify)
      case Failed(e) => Refused(Unauthorized, FailureMessage(e))
      case Decoded(NoUserClaim) => Refused(Unauthorized, FailedMessage)
      case Decoded(UserClaim(id)) =>
        if id < |users| then Next(Public(id, users[id])) else Refused(Unauthorized, FailedMessage)
  }

  /** The three failure messages are distinct, so an expired token can be
      told from a forged one and from every other failure. */
  lemma FailureMessagesDistinct()
    ensures FailureMessage(TokenExpiredError) != FailureMessage(JsonWebTokenError)
    ensures forall n :: FailureMessage(OtherError(n)) != FailureMessage(TokenExpiredError)
    ensures forall n :: FailureMessage(OtherError(n)) != FailureMessage(JsonWebTokenError)
  {
    assert ExpiredMessage[16] != InvalidMessage[16];
    assert FailedMessage[22] != ExpiredMessage[22];
    assert FailedMessage[16] != InvalidMessage[16];
  }

  /** A text without the separator is a single field. */
  lemma {:induction false} SplitWithoutSeparator(s: string, c: char)
    requires c !in s
    ensures Split(s, c) == [s]
  {
    if s != [] {
      assert c !in s[1..] by {
        forall i | 0 <= i < |s[1..]| ensures s[1..][i] != c { assert s[1..][i] == s[i + 1]; }
      }
      SplitWithoutSeparator(s[1..], c);
      assert s[0] != c by { assert s[0] in s; }
      assert [s[0]] + s[1..] == s;
    }
  }

  /** A separator-free word followed by the separator splits off as the first field. */
  lemma {:induction false} SplitAfterWord(w: string, c: char, t: string)
    requires c !in w
    ensures Split(w + [c] + t, c) == [w] + Split(t, c)
  {
    if w == [] {
      assert w + [c] + t == [c] + t;
      assert ([c] + t)[1..] == t;
    } else {
      var s := w + [c] + t;
      assert s[0] == w[0] && s[1..] == w[1..] + [c] + t;
      assert c !in w[1..] by {
        forall i | 0 <= i < |w[1..]| ensures w[1..][i] != c { assert w[1..][i] == w[i + 1]; }
      }
      SplitAfterWord(w[1..], c, t);
      assert [w[0]] + w[1..] == w;
    }
  }

  /** The token is the word between the first space and the next one:
      after a space-free first word `w` and a space, the space-free word `t`
      is the token, whether the header ends there or goes on after another
      space. */
  lemma TokenIsSecondWord(w: string, t: string, rest: string)
    requires ' ' !in w && ' ' !in t
    ensures TokenOf(w + " " + t) == Some(t)
    ensures TokenOf(w + " " + t + " " + rest) == Some(t)
  {
    assert w + " " + t == w + [' '] + t;
    SplitAfterWord(w, ' ', t);
    SplitWithoutSeparator(t, ' ');
    assert w + " " + t + " " + rest == w + [' '] + (t + [' '] + rest);
    SplitAfterWord(w, ' ', t + [' '] + rest);
    SplitAfterWord(t, ' ', rest);
  }

  /** The header the client sends, "Bearer " and the token, yields that token. */
  lemma BearerHeaderYieldsToken(t: string)
    requires ' ' !in t
    ensures HasBearer(Some("Bearer " + t))
    ensures TokenOf("Bearer " + t) == Some(t)
  {
    TokenIsSecondWord("Bearer", t, "");
    assert "Bearer" + " " + t == "Bearer " + t;
    assert ("Bearer " + t)[..6] == "Bearer";
  }

  /** A request whose token names a user who exists passes with that user. */
  lemma ValidTokenPasses(t: string, verify: string -> Verified, users: seq<User>, id: Id)
    requires t != "" && ' ' !in t && verify(t) == Decoded(UserClaim(id)) && id < |users|
    ensures Protect(Some("Bearer " + t), verify, users) == Next(Public(id, users[id]))
  {
    BearerHeaderYieldsToken(t);
  }

  /** A "Bearer" header without a token, or with an empty one, is refused
      as an invalid token whatever `verify` would say. */
  lemma MissingTokenInvalid(verify: string -> Verified, users: seq<User>)
    ensures Protect(Some("Bearer"), verify, users) == Refused(Unauthorized, InvalidMessage)
    ensures Protect(Some("Bearer "), verify, users) == Refused(Unauthorized, InvalidMessage)
  {
    SplitWithoutSeparator("Bearer", ' ');
    assert "Bearer"[..6] == "Bearer";
    BearerHeaderYieldsToken("");
    assert "Bearer " + "" == "Bearer ";
  }
}
