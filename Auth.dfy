/**
 * The sign-in / sign-up form: input validation, the mapping of provider errors to
 * messages, and the form's mode and loading flag across a submit.
 */
module Auth {
  import opened Text
  import opened EmailPattern
  import opened Effects

  /** The result of validating the form; a failure names the first check that failed. */
  datatype Validation = Valid | EmptyField | MalformedEmail | ShortPassword {

    /** The error toast of a failed check. */
    function Message(): string
      requires !Valid?
    {
      if EmptyField? then "Please fill in all fields"
      else if MalformedEmail? then "Please enter a valid email address"
      else "Password must be at least 6 characters long"
    }
  }

  /** The shortest password the form lets through. */
  const MinPasswordLength := 6

  /**
   * The three checks, in order, the first failure winning: both fields non-empty once
   * trimmed; the untrimmed e-mail matching the pattern; the untrimmed password at least
   * six characters long.
   */
  function Validate(email: string, password: string): (v: Validation)
    ensures v == EmptyField <==> AllSpace(email) || AllSpace(password)
    ensures v == MalformedEmail <==>
              !AllSpace(email) && !AllSpace(password) && !EmailShape(email)
    ensures v == ShortPassword <==>
              !AllSpace(email) && !AllSpace(password) && EmailShape(email)
              && |password| < MinPasswordLength
    ensures v == Valid <==>
              !AllSpace(email) && !AllSpace(password) && EmailShape(email)
              && |password| >= MinPasswordLength
  {
    MatchesIffShape(email);
    if Trim(email) == [] || Trim(password) == [] then EmptyField
    else if !MatchesEmailPattern(email) then MalformedEmail
    else if |password| < MinPasswordLength then ShortPassword
    else Valid
  }

  /** An e-mail that passes validation has no white space, so trimming would not change it. */
  lemma ValidEmailIsTrimmed(email: string, password: string)
    requires Validate(email, password) == Valid
    ensures NoSpace(email) && Trim(email) == email
  {
    var at :| 0 < at < |email| && email[at] == '@'
              && AtomChars(email[..at]) && DomainShape(email[at + 1..]);
    ShapeAroundAt(email, at);
    TrimOfNoSpace(email);
  }

  /** Surrounding spaces count toward the password's length: "  ab  " is long enough. */
  lemma PaddedPasswordPasses()
    ensures Validate("user@test.com", "  ab  ") == Valid
    ensures |Trim("  ab  ")| < MinPasswordLength
  {
    ExampleEmailHasShape();
    var padded := "  ab  ";
    assert !IsSpace(padded[2]) && IsSpace(padded[0]);
  }

  /** A four-character password with a well-formed e-mail fails the length check only. */
  lemma FourCharacterPasswordIsShort()
    ensures Validate("user@test.com", "abcd") == ShortPassword
  {
    ExampleEmailHasShape();
    assert !IsSpace("abcd"[0]);
  }

  /** `user@test.com` has the e-mail shape: the example behind the two password facts above. */
  lemma ExampleEmailHasShape()
    ensures EmailShape("user@test.com")
  {
    var s := "user@test.com";
    assert s[..4] == "user";
    assert s[5..] == "test.com";
    assert "test.com"[4] == '.';
    assert AtomChars("test.com");
    assert AtomChars("user");
  }

  /** What `handleAuth` catches: an `Error` with its message, or any other thrown value. */
  datatype Thrown = ErrorObject(message: string) | OtherValue

  /** The provider messages that are recognised, in the order they are tried, each with its text. */
  const ErrorRules: seq<(string, string)> := [
    ("Email not confirmed", "Please check your email to confirm your account"),
    ("Invalid login credentials", "Invalid email or password"),
    ("User already registered", "An account with this email already exists")
  ]

  /** Rule `i` is the first rule whose phrase occurs in `m`. */
  ghost predicate FirstRule(m: string, i: int) {
    && 0 <= i < |ErrorRules|
    && Occurs(m, ErrorRules[i].0)
    && forall j :: 0 <= j < i ==> !Occurs(m, ErrorRules[j].0)
  }

  /**
   * The toast for a failed submit: the text of the first recognised phrase in the
   * message, the raw message when no phrase occurs, a generic text for non-`Error` values.
   */
  function ErrorMessage(e: Thrown): (text: string)
    ensures e.OtherValue? ==> text == "An unexpected error occurred"
    ensures e.ErrorObject? ==> forall i :: FirstRule(e.message, i) ==> text == ErrorRules[i].1
    ensures e.ErrorObject? && (forall i :: 0 <= i < |ErrorRules| ==> !Occurs(e.message, ErrorRules[i].0))
            ==> text == e.message
  {
    match e
    case OtherValue => "An unexpected error occurred"
    case ErrorObject(m) =>
      IncludesIff(m, ErrorRules[0].0);
      IncludesIff(m, ErrorRules[1].0);
      IncludesIff(m, ErrorRules[2].0);
      if Includes(m, "Email not confirmed") then "Please check your email to confirm your account"
      else if Includes(m, "Invalid login credentials") then "Invalid email or password"
      else if Includes(m, "User already registered") then "An account with this email already exists"
      else m
  }

  /** The first phrase wins even when a later one also occurs. */
  lemma UnconfirmedBeatsBadCredentials(m: string)
    requires Occurs(m, "Email not confirmed") && Occurs(m, "Invalid login credentials")
    ensures ErrorMessage(ErrorObject(m)) == "Please check your email to confirm your account"
  {
    assert FirstRule(m, 0);
  }

  datatype Mode = SignIn | SignUp {

    /** The other mode. */
    function Toggled(): (m: Mode)
      ensures m != this
    {
      if SignIn? then SignUp else SignIn
    }
  }

  /** The provider call a submit makes; the sign-up carries the redirect target for confirmation links. */
  datatype AuthRequest =
    | NoAuthRequest
    | SignUpRequest(email: string, password: string, redirectTo: string)
    | SignInRequest(email: string, password: string)

  /** The provider's answer: no error, or something thrown. */
  datatype AuthOutcome = Accepted | Threw(error: Thrown)

  /** The form's state. */
  class AuthForm {
    var email: string
    var password: string
    var loading: bool
    var mode: Mode

    constructor ()
      ensures email == "" && password == "" && !loading && mode == SignIn
    {
      email, password, loading, mode := "", "", false, SignIn;
    }

    /** Typing into the e-mail field. */
    method EditEmail(s: string)
      modifies this
      ensures email == s && password == old(password)
      ensures loading == old(loading) && mode == old(mode)
    {
      email := s;
    }

    /** Typing into the password field. */
    method EditPassword(s: string)
      modifies this
      ensures password == s && email == old(email)
      ensures loading == old(loading) && mode == old(mode)
    {
      password := s;
    }

    /**
     * Submitting the form. `origin` is the page's origin, `outcome` the provider's answer.
     * A failed validation sends nothing and shows the failed check's message. Otherwise
     * the raw e-mail and password go to sign-up or sign-in according to the mode; a
     * successful sign-up switches the form to sign-in; loading ends false.
     */
    method Submit(origin: string, outcome: AuthOutcome) returns (req: AuthRequest, notice: Notice)
      modifies this
      ensures email == old(email) && password == old(password)
      ensures Validate(old(email), old(password)) != Valid ==>
                && req == NoAuthRequest
                && notice == Failure(Validate(old(email), old(password)).Message())
                && mode == old(mode) && loading == old(loading)
      ensures Validate(old(email), old(password)) == Valid ==>
                && req == (if old(mode) == SignUp then SignUpRequest(old(email), old(password), origin)
                           else SignInRequest(old(email), old(password)))
                && !loading
                && mode == (if old(mode) == SignUp && outcome.Accepted? then SignIn else old(mode))
                && notice == match outcome
                             case Accepted =>
                               Success(if old(mode) == SignUp
                                       then "Account created successfully! You can now sign in."
                                       else "Welcome back!")
                             case Threw(e) => Failure(ErrorMessage(e))
    {
      var v := Validate(email, password);
      if v != Valid {
        return NoAuthRequest, Failure(v.Message());
      }
      req, notice := Authenticate(origin, outcome);
    }

    /**
     * The provider call of a validated submit: sign-up or sign-in according to the mode,
     * loading raised for its duration, the mode switched to sign-in after a sign-up.
     */
    method Authenticate(origin: string, outcome: AuthOutcome) returns (req: AuthRequest, notice: Notice)
      modifies this
      ensures email == old(email) && password == old(password)
      ensures req == (if old(mode) == SignUp then SignUpRequest(email, password, origin)
                      else SignInRequest(email, password))
      ensures !loading
      ensures mode == (if old(mode) == SignUp && outcome.Accepted? then SignIn else old(mode))
      ensures notice == match outcome
                        case Accepted =>
                          Success(if old(mode) == SignUp
                                  then "Account created successfully! You can now sign in."
                                  else "Welcome back!")
                        case Threw(e) => Failure(ErrorMessage(e))
    {
      loading := true;
      if mode == SignUp {
        req := SignUpRequest(email, password, origin);
        if outcome.Accepted? {
          notice := Success("Account created successfully! You can now sign in.");
          mode := SignIn;
        } else {
          notice := Failure(ErrorMessage(outcome.error));
        }
      } else {
        req := SignInRequest(email, password);
        if outcome.Accepted? {
          notice := Success("Welcome back!");
        } else {
          notice := Failure(ErrorMessage(outcome.error));
        }
      }
      loading := false;
    }

    /** Switching between sign-in and sign-up clears both fields. */
    method SwitchMode()
      modifies this
      ensures mode == old(mode).Toggled()
      ensures email == "" && password == "" && loading == old(loading)
    {
      mode := mode.Toggled();
      email := "";
      password := "";
    }
  }

  /** Switching twice returns to the original mode, with both fields empty. */
  method SwitchTwice(form: AuthForm)
    modifies form
    ensures form.mode == old(form.mode)
    ensures form.email == "" && form.password == "" && form.loading == old(form.loading)
  {
    form.SwitchMode();
    form.SwitchMode();
  }
}
