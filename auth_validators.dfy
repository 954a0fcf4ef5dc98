/** The request schemas of backend/src/validators/authValidators.ts. */
module AuthValidators {
  import opened Wrappers
  import opened Zod

  const UsernameMinLength: nat := 3
  const UsernameMaxLength: nat := 20
  const PasswordMinLength: nat := 6
  const PasswordMaxLength: nat := 100

  const UsernameTooShort: string := "Username must be at least 3 characters"
  const UsernameTooLong: string := "Username must be at most 20 characters"
  const UsernameBadChars: string := "Username can only contain letters, numbers, underscores, and hyphens"
  const PasswordTooShort: string := "Password must be at least 6 characters"
  const PasswordTooLong: string := "Password must be at most 100 characters"
  const UsernameRequired: string := "Username is required"
  const PasswordRequired: string := "Password is required"

  /** The character class `[a-zA-Z0-9_-]`. */
  predicate IsUsernameChar(c: char) {
    ('a' <= c <= 'z') || ('A' <= c <= 'Z') || ('0' <= c <= '9') || c == '_' || c == '-'
  }

  /** `/^[a-zA-Z0-9_-]+$/`: one class character, then the rest of the
      string matched the same way. */
  function MatchesUsernamePattern(s: string): (m: bool)
    ensures m <==> |s| >= 1 && forall i :: 0 <= i < |s| ==> IsUsernameChar(s[i])
  {
    if |s| == 0 then false
    else if |s| == 1 then IsUsernameChar(s[0])
    else IsUsernameChar(s[0]) && MatchesUsernamePattern(s[1..])
  }

  datatype Credentials = Credentials(username: string, password: string)

  /** The issues of the username field of `signupSchema`: a type error alone,
      or exactly one issue for each of the three string checks that fails. */
  function SignupUsernameIssues(v: Value): (r: seq<Issue>)
    ensures !v.Str? ==> r == [Issue("username", InvalidType, None)]
    ensures v.Str? ==> (r == [] <==> && UsernameMinLength <= |v.s| <= UsernameMaxLength
                                     && MatchesUsernamePattern(v.s))
    ensures v.Str? && |v.s| < UsernameMinLength ==> Issue("username", TooSmall, Some(UsernameTooShort)) in r
    ensures v.Str? && |v.s| > UsernameMaxLength ==> Issue("username", TooBig, Some(UsernameTooLong)) in r
    ensures v.Str? && !MatchesUsernamePattern(v.s) ==> Issue("username", InvalidString, Some(UsernameBadChars)) in r
    ensures v.Str? ==> forall x :: x in r ==>
              || (x == Issue("username", TooSmall, Some(UsernameTooShort)) && |v.s| < UsernameMinLength)
              || (x == Issue("username", TooBig, Some(UsernameTooLong)) && |v.s| > UsernameMaxLength)
              || (x == Issue("username", InvalidString, Some(UsernameBadChars)) && !MatchesUsernamePattern(v.s))
    ensures v.Str? ==> |r| == (if |v.s| < UsernameMinLength then 1 else 0)
                            + (if |v.s| > UsernameMaxLength then 1 else 0)
                            + (if !MatchesUsernamePattern(v.s) then 1 else 0)
  {
    match v
    case Str(u) =>
      Check(|u| >= UsernameMinLength, "username", TooSmall, Some(UsernameTooShort))
      + Check(|u| <= UsernameMaxLength, "username", TooBig, Some(UsernameTooLong))
      + Check(MatchesUsernamePattern(u), "username", InvalidString, Some(UsernameBadChars))
    case _ => [Issue("username", InvalidType, None)]
  }

  /** The issues of the password field of `signupSchema`: a type error alone,
      or exactly one issue for each length check that fails; a string cannot
      fail both. */
  function SignupPasswordIssues(v: Value): (r: seq<Issue>)
    ensures !v.Str? ==> r == [Issue("password", InvalidType, None)]
    ensures v.Str? ==> (r == [] <==> PasswordMinLength <= |v.s| <= PasswordMaxLength)
    ensures v.Str? && |v.s| < PasswordMinLength ==> Issue("password", TooSmall, Some(PasswordTooShort)) in r
    ensures v.Str? && |v.s| > PasswordMaxLength ==> Issue("password", TooBig, Some(PasswordTooLong)) in r
    ensures v.Str? ==> forall x :: x in r ==>
              || (x == Issue("password", TooSmall, Some(PasswordTooShort)) && |v.s| < PasswordMinLength)
              || (x == Issue("password", TooBig, Some(PasswordTooLong)) && |v.s| > PasswordMaxLength)
    ensures v.Str? ==> |r| <= 1
  {
    match v
    case Str(p) =>
      Check(|p| >= PasswordMinLength, "password", TooSmall, Some(PasswordTooShort))
      + Check(|p| <= PasswordMaxLength, "password", TooBig, Some(PasswordTooLong))
    case _ => [Issue("password", InvalidType, None)]
  }

  /** `signupSchema.parse`: a username of 3 to 20 letters, digits, `_` or
      `-`, and a password of 6 to 100 characters. */
  function SignupSchema(username: Value, password: Value): (r: Result<Credentials, seq<Issue>>)
    ensures r.Ok? <==> && username.Str? && UsernameMinLength <= |username.s| <= UsernameMaxLength
                       && (forall i :: 0 <= i < |username.s| ==> IsUsernameChar(username.s[i]))
                       && password.Str? && PasswordMinLength <= |password.s| <= PasswordMaxLength
    ensures r.Ok? ==> r.value == Credentials(username.s, password.s)
    ensures username.Str? && |username.s| < UsernameMinLength ==>
      r.Err? && Issue("username", TooSmall, Some(UsernameTooShort)) in r.error
    ensures password.Str? && |password.s| < PasswordMinLength ==>
      r.Err? && Issue("password", TooSmall, Some(PasswordTooShort)) in r.error
  {
    var issues := SignupUsernameIssues(username) + SignupPasswordIssues(password);
    if issues == [] then Ok(Credentials(username.s, password.s)) else Err(issues)
  }

  /** `loginSchema.parse`: any non-empty username and password. */
  function LoginSchema(username: Value, password: Value): (r: Result<Credentials, seq<Issue>>)
    ensures r.Ok? <==> username.Str? && |username.s| >= 1 && password.Str? && |password.s| >= 1
    ensures r.Ok? ==> r.value == Credentials(username.s, password.s)
  {
    var userIssues := match username
      case Str(u) => Check(|u| >= 1, "username", TooSmall, Some(UsernameRequired))
      case _ => [Issue("username", InvalidType, None)];
    var passIssues := match password
      case Str(p) => Check(|p| >= 1, "password", TooSmall, Some(PasswordRequired))
      case _ => [Issue("password", InvalidType, None)];
    var issues := userIssues + passIssues;
    if issues == [] then Ok(Credentials(username.s, password.s)) else Err(issues)
  }

  /** Every credential signup accepts, login accepts too. */
  lemma SignupImpliesLoginShape(username: Value, password: Value)
    requires SignupSchema(username, password).Ok?
    ensures LoginSchema(username, password) == SignupSchema(username, password)
  {
  }

  /** The signup bodies backend/tests_integration/auth.test.ts rejects. */
  lemma SignupRejections()
    ensures SignupSchema(Str("ab"), Str("password123")).Err?
    ensures SignupSchema(Str("newuser"), Str("12345")).Err?
    ensures SignupSchema(Str("newuser"), Str("password123")).Ok?
  {
    assert MatchesUsernamePattern("newuser");
  }
}
