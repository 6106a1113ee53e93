/** The user schema (models/User.js): name, email, password and an optional
    phone, with the validators that run when a user is saved. Uniqueness of
    the email is an index, not a validator; it is kept by the user store. */
module UserSchema {
  import opened Common
  import opened JsText

  const PasswordMinLength: nat := 6
  const InvalidEmailMessage: string := "Please enter a valid email address"

  /** A stored user; `password` holds whatever the handler put there. */
  datatype User = User(name: string, email: string, password: string, phone: Option<string>)

  /** A user without the password: what the handlers send back and what
      the auth middleware attaches to the request. */
  datatype PublicUser = PublicUser(id: Id, name: string, email: string, phone: Option<string>)

  function Public(id: Id, u: User): (p: PublicUser)
    ensures p.id == id && p.name == u.name && p.email == u.email && p.phone == u.phone
  {
    PublicUser(id, u.name, u.email, u.phone)
  }

  /** The fields of `new User({...})` before validation; None is undefined. */
  datatype UserDraft = UserDraft(
    name: Option<string>, email: Option<string>, password: Option<string>, phone: Option<string>)

  /** `.+@.+\..+` matches with its '@' at `at` and its '.' at `dot`:
      one character before the '@', at least one between the two, one after
      the dot, none of them a line terminator. */
  predicate EmailMatchAt(s: string, at: nat, dot: nat) {
    && 1 <= at && at + 2 <= dot && dot + 1 < |s|
    && s[at] == '@' && s[dot] == '.'
    && !IsLineTerminator(s[at - 1])
    && (forall i :: at < i < dot ==> !IsLineTerminator(s[i]))
    && !IsLineTerminator(s[dot + 1])
  }

  /** The unanchored regular expression `/.+@.+\..+/` finds a match in `s`. */
  predicate MatchesEmailPattern(s: string) {
    exists at: nat, dot: nat :: at < |s| && dot < |s| && EmailMatchAt(s, at, dot)
  }

  predicate RequiredPresent(v: Option<string>) {
    v.Some? && v.value != ""
  }

  /** The failing validators' messages, in schema order (Mongoose's default
      messages, and the schema's own for the email pattern). */
  function Errors(d: UserDraft): seq<string> {
    (if !RequiredPresent(d.name) then ["Path `name` is required."] else [])
    + (if !RequiredPresent(d.email) then ["Path `email` is required."]
       else if !MatchesEmailPattern(d.email.value) then [InvalidEmailMessage]
       else [])
    + (if !RequiredPresent(d.password) then ["Path `password` is required."]
       else if Utf16Length(d.password.value) < PasswordMinLength then
         ["Path `password` (`" + d.password.value + "`) is shorter than the minimum allowed length (6)."]
       else [])
  }

  /** What the schema demands, stated directly. The phone is optional and
      has no format. */
  predicate Conforms(d: UserDraft) {
    && RequiredPresent(d.name)
    && d.email.Some? && MatchesEmailPattern(d.email.value)
    && d.password.Some? && Utf16Length(d.password.value) >= PasswordMinLength
  }

  lemma ErrorsEmptyIffConforms(d: UserDraft)
    ensures Errors(d) == [] <==> Conforms(d)
  {
    if d.email.Some? && MatchesEmailPattern(d.email.value) {
      var at: nat, dot: nat :| at < |d.email.value| && dot < |d.email.value| && EmailMatchAt(d.email.value, at, dot);
      assert d.email.value != "";
    }
    if d.password.Some? && Utf16Length(d.password.value) >= PasswordMinLength {
      assert d.password.value != "";
    }
  }

  lemma EmailPatternExamples()
    ensures MatchesEmailPattern("ann@farm.co")
    ensures !MatchesEmailPattern("ann@farm")
    ensures !MatchesEmailPattern("@farm.co")
  {
    assert EmailMatchAt("ann@farm.co", 3, 8);
    assert forall i :: 0 <= i < 8 ==> "ann@farm"[i] != '.';
    assert forall i :: 1 <= i < 8 ==> "@farm.co"[i] != '@';
  }
}
