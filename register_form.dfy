/** The registration form: its validation rules and its submission. */
module RegisterForm {
  import opened Wrappers
  import opened JsValues
  import opened Text
  import opened StrapiConfig
  import opened AxiosErrors
  import opened Routes
  import opened UserContext
  import opened FormRules

  const CONFIRM_MISMATCH := "The passwords do not match"

  datatype RegisterData = RegisterData(regEmail: string, regUsername: string, regPassword: string,
                                       confirmPassword: string)

  datatype RegisterField = RegEmail | RegUsername | RegPassword | ConfirmPassword

  /** The body of `POST /api/auth/local/register`. */
  datatype RegisterRequest = RegisterRequest(password: string, email: string, username: string)

  /** The rules together: what a submittable form satisfies. */
  ghost predicate RegisterValid(d: RegisterData) {
    d.regEmail != "" && MatchesEmailPattern(d.regEmail)
    && d.regUsername != ""
    && Utf16Length(d.regPassword) >= MIN_PASSWORD_LENGTH
    && d.confirmPassword == d.regPassword
  }

  /**
   * The error map `validateForm` records for `d`: at most the four fields,
   * each with the message of its first failing check.
   */
  ghost predicate RegisterErrors(d: RegisterData, errors: map<string, string>) {
    && errors.Keys <= {"reg_email", "reg_username", "reg_password", "confirmPassword"}
    && FieldError(errors, "reg_email") == EmailError(d.regEmail)
    && FieldError(errors, "reg_username") == RequiredError(d.regUsername, FULL_NAME_REQUIRED)
    && FieldError(errors, "reg_password") == PasswordError(d.regPassword)
    && FieldError(errors, "confirmPassword") ==
         (if d.confirmPassword == "" then Some(CONFIRM_REQUIRED)
          else if d.regPassword != d.confirmPassword then Some(CONFIRM_MISMATCH)
          else None)
  }

  /** The map is empty exactly when every rule holds. */
  lemma RegisterErrorsEmptyIffValid(d: RegisterData, errors: map<string, string>)
    requires RegisterErrors(d, errors)
    ensures errors == map[] <==> RegisterValid(d)
  {
    if errors != map[] {
      var k :| k in errors;
      assert FieldError(errors, k).Some?;
    }
  }

  /** Two empty passwords draw "required" on both fields, never a mismatch. */
  lemma EmptyPasswordsBothRequired(d: RegisterData, errors: map<string, string>)
    requires RegisterErrors(d, errors)
    requires d.regPassword == "" && d.confirmPassword == ""
    ensures errors["reg_password"] == PASSWORD_REQUIRED && errors["confirmPassword"] == CONFIRM_REQUIRED
  {
    assert FieldError(errors, "reg_password") == Some(PASSWORD_REQUIRED);
    assert FieldError(errors, "confirmPassword") == Some(CONFIRM_REQUIRED);
  }

  class Form {
    var formData: RegisterData
    var errors: map<string, string>
    var isLoading: bool
    var serverState: string

    constructor(strapiSet: bool)
      ensures formData == RegisterData("", "", "", "") && errors == map[]
      ensures !isLoading && serverState == InitialServerState(strapiSet)
    {
      formData := RegisterData("", "", "", "");
      errors := map[];
      isLoading := false;
      serverState := InitialServerState(strapiSet);
    }

    /** An input's change handler: one field takes the typed value. */
    method Edit(field: RegisterField, value: string)
      modifies this
      ensures formData == match field
        case RegEmail => old(formData).(regEmail := value)
        case RegUsername => old(formData).(regUsername := value)
        case RegPassword => old(formData).(regPassword := value)
        case ConfirmPassword => old(formData).(confirmPassword := value)
      ensures errors == old(errors) && isLoading == old(isLoading) && serverState == old(serverState)
    {
      match field {
        case RegEmail => formData := formData.(regEmail := value);
        case RegUsername => formData := formData.(regUsername := value);
        case RegPassword => formData := formData.(regPassword := value);
        case ConfirmPassword => formData := formData.(confirmPassword := value);
      }
    }

    /** `validateForm`: records the errors of the current data; true iff there are none. */
    method Validate() returns (valid: bool)
      modifies this
      ensures RegisterErrors(formData, errors)
      ensures valid <==> RegisterValid(formData)
      ensures valid <==> errors == map[]
      ensures formData == old(formData) && isLoading == old(isLoading) && serverState == old(serverState)
    {
      var newErrors: map<string, string> := map[];
      if formData.regEmail == "" {
        newErrors := newErrors["reg_email" := EMAIL_REQUIRED];
      } else if !IsValidEmail(formData.regEmail) {
        newErrors := newErrors["reg_email" := INVALID_EMAIL];
      }
      if formData.regUsername == "" {
        newErrors := newErrors["reg_username" := FULL_NAME_REQUIRED];
      }
      if formData.regPassword == "" {
        newErrors := newErrors["reg_password" := PASSWORD_REQUIRED];
      } else if Utf16Length(formData.regPassword) < MIN_PASSWORD_LENGTH {
        newErrors := newErrors["reg_password" := PASSWORD_TOO_SHORT];
      }
      if formData.confirmPassword == "" {
        newErrors := newErrors["confirmPassword" := CONFIRM_REQUIRED];
      } else if formData.regPassword != formData.confirmPassword {
        newErrors := newErrors["confirmPassword" := CONFIRM_MISMATCH];
      }
      errors := newErrors;
      IsValidEmailMatchesPattern(formData.regEmail);
      RegisterErrorsEmptyIffValid(formData, errors);
      valid := errors == map[];
    }

    /**
     * `onSubmit`: nothing is sent unless the form is valid and the server is
     * set; a success logs the new account in and goes to the profile page, a
     * failure shows the error's message or "An error occurred".
     */
    method OnSubmit(strapiSet: bool, outcome: AuthOutcome)
      returns (request: Option<RegisterRequest>, login: Option<LoginData>, navigate: Option<string>)
      modifies this
      ensures formData == old(formData) && RegisterErrors(formData, errors)
      ensures request.Some? <==> RegisterValid(formData) && strapiSet
      ensures request.Some? ==>
        request.value == RegisterRequest(formData.regPassword, formData.regEmail, formData.regUsername) && !isLoading
      ensures request.None? ==>
        login == None && navigate == None && isLoading == old(isLoading) && serverState == old(serverState)
      ensures request.Some? && outcome.AuthSucceeded? ==>
        login == Some(LoginData(outcome.username, outcome.email, outcome.jwt)) && navigate == Some(PROFILE)
        && serverState == ""
      ensures request.Some? && outcome.AuthFailed? ==>
        login == None && navigate == None && serverState == ErrorMessageOr(outcome.error, SUBMIT_FALLBACK)
    {
      login, navigate := None, None;
      var valid := Validate();
      if !valid || !strapiSet {
        return None, None, None;
      }
      isLoading := true;
      serverState := "";
      request := Some(RegisterRequest(formData.regPassword, formData.regEmail, formData.regUsername));
      match outcome {
        case AuthSucceeded(jwt, username, email) =>
          login := Some(LoginData(username, email, jwt));
          navigate := Some(PROFILE);
        case AuthFailed(e) =>
          var errorMsg := SUBMIT_FALLBACK;
          var strapiErrorMsg := GetStrapiError(e);
          if strapiErrorMsg != "" {
            errorMsg := strapiErrorMsg;
          }
          serverState := errorMsg;
      }
      isLoading := false;
    }
  }
}
