/** The login form: its initial data, its validation rules and its submission. */
module LoginForm {
  import opened Wrappers
  import opened JsValues
  import opened StrapiConfig
  import opened AxiosErrors
  import opened Routes
  import opened UserContext
  import opened FormRules

  datatype LoginFormData = LoginFormData(email: string, password: string)

  datatype LoginField = Email | Password

  /** The rules together: a well-formed email and some password; no length rule. */
  ghost predicate LoginValid(d: LoginFormData) {
    d.email != "" && MatchesEmailPattern(d.email) && d.password != ""
  }

  /** The error map `validateForm` records for `d`. */
  ghost predicate LoginErrors(d: LoginFormData, errors: map<string, string>) {
    && errors.Keys <= {"email", "password"}
    && FieldError(errors, "email") == EmailError(d.email)
    && FieldError(errors, "password") == RequiredError(d.password, PASSWORD_REQUIRED)
  }

  /** The map is empty exactly when every rule holds. */
  lemma LoginErrorsEmptyIffValid(d: LoginFormData, errors: map<string, string>)
    requires LoginErrors(d, errors)
    ensures errors == map[] <==> LoginValid(d)
  {
    if errors != map[] {
      var k :| k in errors;
      assert FieldError(errors, k).Some?;
    }
  }

  /** A one-character password passes here although registration refuses it. */
  lemma ShortPasswordAccepted(d: LoginFormData, errors: map<string, string>)
    requires LoginErrors(d, errors) && |d.password| == 1
    ensures "password" !in errors
    ensures PasswordError(d.password) == Some(PASSWORD_TOO_SHORT)
  {
    assert FieldError(errors, "password") == None;
  }

  /** `presetEmail || ""`: the preset email, or "" when there is none. */
  function InitialLoginData(presetEmail: string): (r: LoginFormData)
    ensures r.email == presetEmail && r.password == ""
  {
    LoginFormData(if presetEmail != "" then presetEmail else "", "")
  }

  class Form {
    var formData: LoginFormData
    var errors: map<string, string>
    var isLoading: bool
    var serverState: string

    constructor(strapiSet: bool, presetEmail: string)
      ensures formData == InitialLoginData(presetEmail) && errors == map[]
      ensures !isLoading && serverState == InitialServerState(strapiSet)
    {
      formData := InitialLoginData(presetEmail);
      errors := map[];
      isLoading := false;
      serverState := InitialServerState(strapiSet);
    }

    /** An input's change handler: one field takes the typed value. */
    method Edit(field: LoginField, value: string)
      modifies this
      ensures formData == match field
        case Email => old(formData).(email := value)
        case Password => old(formData).(password := value)
      ensures errors == old(errors) && isLoading == old(isLoading) && serverState == old(serverState)
    {
      match field {
        case Email => formData := formData.(email := value);
        case Password => formData := formData.(password := value);
      }
    }

    /** `validateForm`: records the errors of the current data; true iff there are none. */
    method Validate() returns (valid: bool)
      modifies this
      ensures LoginErrors(formData, errors)
      ensures valid <==> LoginValid(formData)
      ensures valid <==> errors == map[]
      ensures formData == old(formData) && isLoading == old(isLoading) && serverState == old(serverState)
    {
      var newErrors: map<string, string> := map[];
      if formData.email == "" {
        newErrors := newErrors["email" := EMAIL_REQUIRED];
      } else if !IsValidEmail(formData.email) {
        newErrors := newErrors["email" := INVALID_EMAIL];
      }
      if formData.password == "" {
        newErrors := newErrors["password" := PASSWORD_REQUIRED];
      }
      errors := newErrors;
      IsValidEmailMatchesPattern(formData.email);
      LoginErrorsEmptyIffValid(formData, errors);
      valid := errors == map[];
    }

    /**
     * `onSubmit`: nothing is sent unless the form is valid and the server is
     * set; a success logs in and goes to the profile page, a failure shows
     * the error's message or "An error occurred".
     */
    method OnSubmit(strapiSet: bool, outcome: AuthOutcome)
      returns (request: Option<LoginRequest>, login: Option<LoginData>, navigate: Option<string>)
      modifies this
      ensures formData == old(formData) && LoginErrors(formData, errors)
      ensures request.Some? <==> LoginValid(formData) && strapiSet
      ensures request.Some? ==> request.value == LoginRequest(formData.password, formData.email) && !isLoading
      ensures request.None? ==>
        login == None && navigate == None && isLoading == old(isLoading) && serverState == old(serverState)
      ensures request.Some? && outcome.AuthSucceeded? ==>
        login == Some(LoginData(outcome.username, outcome.email, outcome.jwt)) && navigate == Some(PROFILE)
        && serverState == ""
      ensures request.Some? && outcome.AuthFailed? ==>
        login == None && navigate == None && serverState == ErrorMessageOr(outcome.error, SUBMIT_FALLBACK)
    {
      login, navigate := None, None;
      var valid := Validate();
      if !valid || !strapiSet {
        return None, None, None;
      }
      isLoading := true;
      serverState := "";
      request := Some(LoginRequest(formData.password, formData.email));
      match outcome {
        case AuthSucceeded(jwt, username, email) =>
          login := Some(LoginData(username, email, jwt));
          navigate := Some(PROFILE);
        case AuthFailed(e) =>
          var errorMsg := SUBMIT_FALLBACK;
          var strapiErrorMsg := GetStrapiError(e);
          if strapiErrorMsg != "" {
            errorMsg := strapiErrorMsg;
          }
          serverState := errorMsg;
      }
      isLoading := false;
    }
  }
}
