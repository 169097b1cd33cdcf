/** The sign-in page: the password rule of its form, and what a submitted form does,
    in sign-in mode or in registration mode. The outcome is a value: either a refusal,
    or the call to `login` the page makes. */
module AuthPage {
  import opened Common
  import Auth

  const MinPasswordLength: nat := 8

  predicate IsAsciiLetter(c: char)
  {
    'A' <= c <= 'Z' || 'a' <= c <= 'z'
  }

  predicate IsAsciiDigit(c: char)
  {
    '0' <= c <= '9'
  }

  /** The password rule in words: at least eight characters, only ASCII letters and
      digits, at least one letter and at least one digit. */
  ghost predicate PasswordRule(p: string)
  {
    |p| >= MinPasswordLength &&
    (forall i :: 0 <= i < |p| ==> IsAsciiLetter(p[i]) || IsAsciiDigit(p[i])) &&
    (exists i :: 0 <= i < |p| && IsAsciiLetter(p[i])) &&
    (exists i :: 0 <= i < |p| && IsAsciiDigit(p[i]))
  }

  /** `/^(?=.*[A-Za-z])(?=.*\d)[A-Za-z\d]{8,}$/` as one left-to-right scan: the body
      `[A-Za-z\d]{8,}` must consume the whole string (`length` counts what it has taken),
      and the two lookaheads must each have seen what they look for. */
  function ScanPattern(p: string, sawLetter: bool, sawDigit: bool, length: nat): bool
  {
    if p == [] then sawLetter && sawDigit && length >= 8
    else if IsAsciiLetter(p[0]) then ScanPattern(p[1..], true, sawDigit, length + 1)
    else if IsAsciiDigit(p[0]) then ScanPattern(p[1..], sawLetter, true, length + 1)
    else false
  }

  /** The zod schema's password check: `.min(8)`, then the pattern. It accepts exactly
      the passwords the rule in words allows. */
  function PasswordAccepted(p: string): (b: bool)
    ensures b <==> PasswordRule(p)
  {
    ScanPatternMeaning(p, false, false, 0);
    |p| >= MinPasswordLength && ScanPattern(p, false, false, 0)
  }

  /** What a scan from any point still accepts, stated without the scan. */
  lemma {:induction false} ScanPatternMeaning(p: string, sawLetter: bool, sawDigit: bool, length: nat)
    ensures ScanPattern(p, sawLetter, sawDigit, length) <==>
              (forall i :: 0 <= i < |p| ==> IsAsciiLetter(p[i]) || IsAsciiDigit(p[i])) &&
              (sawLetter || exists i :: 0 <= i < |p| && IsAsciiLetter(p[i])) &&
              (sawDigit || exists i :: 0 <= i < |p| && IsAsciiDigit(p[i])) &&
              length + |p| >= 8
  {
    if p != [] {
      var rest := p[1..];
      assert forall i :: 0 < i < |p| ==> p[i] == rest[i - 1];
      if IsAsciiLetter(p[0]) {
        ScanPatternMeaning(rest, true, sawDigit, length + 1);
        if !sawDigit && (exists i :: 0 <= i < |p| && IsAsciiDigit(p[i])) {
          var i :| 0 <= i < |p| && IsAsciiDigit(p[i]);
          assert IsAsciiDigit(rest[i - 1]);
        }
      } else if IsAsciiDigit(p[0]) {
        ScanPatternMeaning(rest, sawLetter, true, length + 1);
        if !sawLetter && (exists i :: 0 <= i < |p| && IsAsciiLetter(p[i])) {
          var i :| 0 <= i < |p| && IsAsciiLetter(p[i]);
          assert IsAsciiLetter(rest[i - 1]);
        }
      }
    }
  }

  datatype Mode = SignIn | Register

  /** The form: the name field is optional and only shown when registering. */
  datatype AuthForm = AuthForm(email: string, password: string, name: Option<string>)

  /** What the schema checks before `onSubmit` runs (the email format is not modelled). */
  function FormAccepted(f: AuthForm): (b: bool)
    ensures b <==> PasswordRule(f.password) && (f.name.Some? ==> f.name.value != "")
  {
    PasswordAccepted(f.password) && (f.name.Some? ==> |f.name.value| >= 1)
  }

  datatype Rejection = InvalidForm | WrongEmailOrPassword | EmailAlreadyRegistered

  datatype SubmitOutcome =
    | Rejected(reason: Rejection)
    | CallLogin(user: Auth.User, password: string)

  /** `email.split('@')[0]`: everything before the first '@', or all of it. */
  function LocalPart(email: string): (r: string)
    ensures |r| <= |email| && r == email[..|r|]
    ensures forall i :: 0 <= i < |r| ==> r[i] != '@'
    ensures |r| < |email| ==> email[|r|] == '@'
  {
    if email == [] || email[0] == '@' then []
    else [email[0]] + LocalPart(email[1..])
  }

  /** `handleSubmit(onSubmit)`: the schema first, then the mode's own check against the
      stored credentials; on success, the user handed to `login` with a freshly minted
      identifier. */
  function Submit(mode: Mode, form: AuthForm, credentials: map<string, Auth.Credential>,
                  freshId: string): (r: SubmitOutcome)
    ensures !FormAccepted(form) ==> r == Rejected(InvalidForm)
    ensures r.CallLogin? ==> r.user.id == freshId && r.user.email == form.email &&
                             r.password == form.password
    ensures mode == SignIn && FormAccepted(form) ==>
              (r.CallLogin? <==> form.email in credentials &&
                                 credentials[form.email].password == form.password)
    ensures mode == SignIn && FormAccepted(form) && !r.CallLogin? ==>
              r == Rejected(WrongEmailOrPassword)
    ensures mode == SignIn && r.CallLogin? ==>
              r.user.name == LocalPart(credentials[form.email].email)
    ensures mode == Register && FormAccepted(form) ==>
              (r.CallLogin? <==> form.email !in credentials)
    ensures mode == Register && FormAccepted(form) && !r.CallLogin? ==>
              r == Rejected(EmailAlreadyRegistered)
    ensures mode == Register && r.CallLogin? ==>
              r.user.name == (if form.name.Some? && form.name.value != "" then form.name.value
                              else LocalPart(form.email))
  {
    if !FormAccepted(form) then Rejected(InvalidForm)
    else match mode
      case SignIn =>
        if form.email !in credentials || credentials[form.email].password != form.password then
          Rejected(WrongEmailOrPassword)
        else
          CallLogin(Auth.User(freshId, LocalPart(credentials[form.email].email), form.email),
                    form.password)
      case Register =>
        if form.email in credentials then Rejected(EmailAlreadyRegistered)
        else
          var name := match form.name case Some(n) => if n != "" then n else LocalPart(form.email)
                                      case None => LocalPart(form.email);
          CallLogin(Auth.User(freshId, name, form.email), form.password)
  }

  /** A successful sign-in rewrites the stored password with the one just checked
      against it, so the credentials do not change. */
  lemma SignInKeepsCredentials(form: AuthForm, credentials: map<string, Auth.Credential>,
                               freshId: string)
    requires Auth.KeysMatch(credentials)
    requires Submit(SignIn, form, credentials, freshId).CallLogin?
    ensures var r := Submit(SignIn, form, credentials, freshId);
            Auth.Upsert(credentials, r.user.email, r.password) == credentials
  {
    Auth.UpsertSamePassword(credentials, form.email, form.password);
  }

  /** After registering, signing in with the same email and password succeeds; the
      name it restores is the part of the email before '@', not the registered name. */
  lemma RegisterThenSignIn(form: AuthForm, credentials: map<string, Auth.Credential>,
                           id1: string, id2: string)
    requires Submit(Register, form, credentials, id1).CallLogin?
    ensures var reg := Submit(Register, form, credentials, id1);
            var after := Auth.Upsert(credentials, reg.user.email, reg.password);
            var signIn := Submit(SignIn, form, after, id2);
            signIn.CallLogin? && signIn.user.name == LocalPart(form.email) &&
            signIn.user.id == id2
  {
  }
}
