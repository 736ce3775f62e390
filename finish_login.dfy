/**
 * The login form reached from a purchase: the email comes from the
 * checkout and cannot be edited; once logged in, a greeting replaces the
 * form.
 */
module FinishLogin {
  import opened Wrappers
  import opened JsValues
  import opened StrapiConfig
  import opened AxiosErrors
  import opened UserContext
  import opened FormRules

  datatype FinishLoginData = FinishLoginData(logEmail: string, logPassword: string)

  /** The rules together: a well-formed email and some password. */
  ghost predicate FinishLoginValid(d: FinishLoginData) {
    d.logEmail != "" && MatchesEmailPattern(d.logEmail) && d.logPassword != ""
  }

  /** The error map `validateForm` records for `d`. */
  ghost predicate FinishLoginErrors(d: FinishLoginData, errors: map<string, string>) {
    && errors.Keys <= {"log_email", "log_password"}
    && FieldError(errors, "log_email") == EmailError(d.logEmail)
    && FieldError(errors, "log_password") == RequiredError(d.logPassword, PASSWORD_REQUIRED)
  }

  /** The map is empty exactly when every rule holds. */
  lemma FinishLoginErrorsEmptyIffValid(d: FinishLoginData, errors: map<string, string>)
    requires FinishLoginErrors(d, errors)
    ensures errors == map[] <==> FinishLoginValid(d)
  {
    if errors != map[] {
      var k :| k in errors;
      assert FieldError(errors, k).Some?;
    }
  }

  /** The card shown instead of the form once the user is logged in. */
  function WelcomeBack(isLoggedIn: bool, username: string): (r: Option<string>)
    ensures r.Some? <==> isLoggedIn
    ensures r.Some? ==> var p := "Welcome back, ";
      |r.value| == |p| + |username| + 1 && r.value[..|p|] == p
      && r.value[|p|..|p| + |username|] == username && r.value[|r.value| - 1] == '!'
  {
    if isLoggedIn then Some("Welcome back, " + username + "!") else None
  }

  /** Different users are greeted differently. */
  lemma WelcomeBackInjective(u1: string, u2: string)
    requires WelcomeBack(true, u1) == WelcomeBack(true, u2)
    ensures u1 == u2
  {
    var p := "Welcome back, ";
    assert |u1| == |u2|;
    assert u1 == WelcomeBack(true, u1).value[|p|..|p| + |u1|];
  }

  class Form {
    var formData: FinishLoginData
    var errors: map<string, string>
    var isLoading: bool
    var serverState: string

    constructor(strapiSet: bool, email: string)
      ensures formData == FinishLoginData(email, "") && errors == map[]
      ensures !isLoading && serverState == InitialServerState(strapiSet)
    {
      formData := FinishLoginData(email, "");
      errors := map[];
      isLoading := false;
      serverState := InitialServerState(strapiSet);
    }

    /** The password input's change handler; the email input is read-only. */
    method EditPassword(value: string)
      modifies this
      ensures formData == old(formData).(logPassword := value)
      ensures formData.logEmail == old(formData.logEmail)
      ensures errors == old(errors) && isLoading == old(isLoading) && serverState == old(serverState)
    {
      formData := formData.(logPassword := value);
    }

    /** `validateForm`: records the errors of the current data; true iff there are none. */
    method Validate() returns (valid: bool)
      modifies this
      ensures FinishLoginErrors(formData, errors)
      ensures valid <==> FinishLoginValid(formData)
      ensures valid <==> errors == map[]
      ensures formData == old(formData) && isLoading == old(isLoading) && serverState == old(serverState)
    {
      var newErrors: map<string, string> := map[];
      if formData.logEmail == "" {
        newErrors := newErrors["log_email" := EMAIL_REQUIRED];
      } else if !IsValidEmail(formData.logEmail) {
        newErrors := newErrors["log_email" := INVALID_EMAIL];
      }
      if formData.logPassword == "" {
        newErrors := newErrors["log_password" := PASSWORD_REQUIRED];
      }
      errors := newErrors;
      IsValidEmailMatchesPattern(formData.logEmail);
      FinishLoginErrorsEmptyIffValid(formData, errors);
      valid := errors == map[];
    }

    /**
     * `onSubmit`: nothing is sent unless the form is valid and the server is
     * set; a success logs in (the page then shows the greeting), a failure
     * shows the error's message or "An error occurred".
     */
    method OnSubmit(strapiSet: bool, outcome: AuthOutcome)
      returns (request: Option<LoginRequest>, login: Option<LoginData>)
      modifies this
      ensures formData == old(formData) && FinishLoginErrors(formData, errors)
      ensures request.Some? <==> FinishLoginValid(formData) && strapiSet
      ensures request.Some? ==> request.value == LoginRequest(formData.logPassword, formData.logEmail) && !isLoading
      ensures request.None? ==> login == None && isLoading == old(isLoading) && serverState == old(serverState)
      ensures request.Some? && outcome.AuthSucceeded? ==>
        login == Some(LoginData(outcome.username, outcome.email, outcome.jwt)) && serverState == ""
      ensures request.Some? && outcome.AuthFailed? ==>
        login == None && serverState == ErrorMessageOr(outcome.error, SUBMIT_FALLBACK)
    {
      login := None;
      var valid := Validate();
      if !valid || !strapiSet {
        return None, None;
      }
      isLoading := true;
      serverState := "";
      request := Some(LoginRequest(formData.logPassword, formData.logEmail));
      match outcome {
        case AuthSucceeded(jwt, username, email) =>
          login := Some(LoginData(username, email, jwt));
        case AuthFailed(e) =>
          var errorMsg := SUBMIT_FALLBACK;
          var strapiErrorMsg := GetStrapiError(e);
          if strapiErrorMsg != "" {
            errorMsg := strapiErrorMsg;
          }
          serverState := errorMsg;
      }
      isLoading := false;
    }
  }
}
