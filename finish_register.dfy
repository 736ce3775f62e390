/**
 * The form that finishes an account opened by a purchase: the email comes
 * from the checkout and cannot be edited; the account is completed, then
 * logged in.
 */
module FinishRegister {
  import opened Wrappers
  import opened JsValues
  import opened Text
  import opened StrapiConfig
  import opened AxiosErrors
  import opened UserContext
  import opened FormRules

  const CONFIRM_MISMATCH := "Passwords do not match"

  datatype FinishRegisterData = FinishRegisterData(regEmail: string, regFullname: string, regPassword: string,
                                                   confirmPassword: string)

  /** The editable fields; the email field is read-only. */
  datatype FinishRegisterField = RegFullname | RegPassword | ConfirmPassword

  /** The body of `PUT /api/maestro/orders/finish-register`. */
  datatype FinishRegisterRequest =
    FinishRegisterRequest(checkoutSession: string, password: string, email: string, username: string)

  /** The rules together. */
  ghost predicate FinishRegisterValid(d: FinishRegisterData) {
    d.regEmail != "" && MatchesEmailPattern(d.regEmail)
    && d.regFullname != ""
    && Utf16Length(d.regPassword) >= MIN_PASSWORD_LENGTH
    && d.confirmPassword == d.regPassword
  }

  /** The error map `validateForm` records; the confirmation is only compared, never required. */
  ghost predicate FinishRegisterErrors(d: FinishRegisterData, errors: map<string, string>) {
    && errors.Keys <= {"reg_email", "reg_fullname", "reg_password", "confirmPassword"}
    && FieldError(errors, "reg_email") == EmailError(d.regEmail)
    && FieldError(errors, "reg_fullname") == RequiredError(d.regFullname, FULL_NAME_REQUIRED)
    && FieldError(errors, "reg_password") == PasswordError(d.regPassword)
    && FieldError(errors, "confirmPassword") ==
         (if d.regPassword != d.confirmPassword then Some(CONFIRM_MISMATCH) else None)
  }

  /** The map is empty exactly when every rule holds. */
  lemma FinishRegisterErrorsEmptyIffValid(d: FinishRegisterData, errors: map<string, string>)
    requires FinishRegisterErrors(d, errors)
    ensures errors == map[] <==> FinishRegisterValid(d)
  {
    if errors != map[] {
      var k :| k in errors;
      assert FieldError(errors, k).Some?;
    }
  }

  /** Two empty passwords draw only "Password is required": no confirmation error. */
  lemma EmptyPasswordsNoConfirmError(d: FinishRegisterData, errors: map<string, string>)
    requires FinishRegisterErrors(d, errors)
    requires d.regPassword == "" && d.confirmPassword == ""
    ensures "confirmPassword" !in errors
    ensures errors["reg_password"] == PASSWORD_REQUIRED
  {
    assert FieldError(errors, "confirmPassword") == None;
    assert FieldError(errors, "reg_password") == Some(PASSWORD_REQUIRED);
  }

  /** The card shown instead of the form once the user is logged in. */
  function Welcome(isLoggedIn: bool, username: string): (r: Option<string>)
    ensures r.Some? <==> isLoggedIn
    ensures r.Some? ==> var p := "Welcome to the platform, ";
      |r.value| == |p| + |username| + 1 && r.value[..|p|] == p
      && r.value[|p|..|p| + |username|] == username && r.value[|r.value| - 1] == '!'
  {
    if isLoggedIn then Some("Welcome to the platform, " + username + "!") else None
  }

  /** Different users are greeted differently. */
  lemma WelcomeInjective(u1: string, u2: string)
    requires Welcome(true, u1) == Welcome(true, u2)
    ensures u1 == u2
  {
    var p := "Welcome to the platform, ";
    assert |u1| == |u2|;
    assert u1 == Welcome(true, u1).value[|p|..|p| + |u1|];
  }

  class Form {
    var formData: FinishRegisterData
    const checkoutSession: string
    var errors: map<string, string>
    var isLoading: bool
    var serverState: string

    constructor(strapiSet: bool, email: string, checkoutSession: string)
      ensures formData == FinishRegisterData(email, "", "", "") && this.checkoutSession == checkoutSession
      ensures errors == map[] && !isLoading && serverState == InitialServerState(strapiSet)
    {
      formData := FinishRegisterData(email, "", "", "");
      this.checkoutSession := checkoutSession;
      errors := map[];
      isLoading := false;
      serverState := InitialServerState(strapiSet);
    }

    /** An input's change handler; the email keeps the value it was given. */
    method Edit(field: FinishRegisterField, value: string)
      modifies this
      ensures formData.regEmail == old(formData.regEmail)
      ensures formData == match field
        case RegFullname => old(formData).(regFullname := value)
        case RegPassword => old(formData).(regPassword := value)
        case ConfirmPassword => old(formData).(confirmPassword := value)
      ensures errors == old(errors) && isLoading == old(isLoading) && serverState == old(serverState)
    {
      match field {
        case RegFullname => formData := formData.(regFullname := value);
        case RegPassword => formData := formData.(regPassword := value);
        case ConfirmPassword => formData := formData.(confirmPassword := value);
      }
    }

    /** `validateForm`: records the errors of the current data; true iff there are none. */
    method Validate() returns (valid: bool)
      modifies this
      ensures FinishRegisterErrors(formData, errors)
      ensures valid <==> FinishRegisterValid(formData)
      ensures valid <==> errors == map[]
      ensures formData == old(formData) && isLoading == old(isLoading) && serverState == old(serverState)
    {
      var newErrors: map<string, string> := map[];
      if formData.regEmail == "" {
        newErrors := newErrors["reg_email" := EMAIL_REQUIRED];
      } else if !IsValidEmail(formData.regEmail) {
        newErrors := newErrors["reg_email" := INVALID_EMAIL];
      }
      if formData.regFullname == "" {
        newErrors := newErrors["reg_fullname" := FULL_NAME_REQUIRED];
      }
      if formData.regPassword == "" {
        newErrors := newErrors["reg_password" := PASSWORD_REQUIRED];
      } else if Utf16Length(formData.regPassword) < MIN_PASSWORD_LENGTH {
        newErrors := newErrors["reg_password" := PASSWORD_TOO_SHORT];
      }
      if formData.regPassword != formData.confirmPassword {
        newErrors := newErrors["confirmPassword" := CONFIRM_MISMATCH];
      }
      errors := newErrors;
      IsValidEmailMatchesPattern(formData.regEmail);
      FinishRegisterErrorsEmptyIffValid(formData, errors);
      valid := errors == map[];
    }

    /**
     * `onSubmit`: when valid with a server, the account is completed, and
     * only if that succeeds is the login sent; the first failure shows its
     * message or "An error occurred".
     */
    method OnSubmit(strapiSet: bool, finishOutcome: RequestOutcome, loginOutcome: AuthOutcome)
      returns (finishRequest: Option<FinishRegisterRequest>, loginRequest: Option<LoginRequest>,
               login: Option<LoginData>)
      modifies this
      ensures formData == old(formData) && FinishRegisterErrors(formData, errors)
      ensures finishRequest.Some? <==> FinishRegisterValid(formData) && strapiSet
      ensures finishRequest.Some? ==> !isLoading
      ensures finishRequest.Some? ==>
        finishRequest.value ==
        FinishRegisterRequest(checkoutSession, formData.regPassword, formData.regEmail, formData.regFullname)
      ensures loginRequest.Some? <==> finishRequest.Some? && finishOutcome.Succeeded?
      ensures loginRequest.Some? ==> loginRequest.value == LoginRequest(formData.regPassword, formData.regEmail)
      ensures login.Some? <==> loginRequest.Some? && loginOutcome.AuthSucceeded?
      ensures login.Some? ==>
        login.value == LoginData(loginOutcome.username, loginOutcome.email, loginOutcome.jwt) && serverState == ""
      ensures finishRequest.None? ==> isLoading == old(isLoading) && serverState == old(serverState)
      ensures finishRequest.Some? && finishOutcome.Failed? ==>
        serverState == ErrorMessageOr(finishOutcome.error, SUBMIT_FALLBACK)
      ensures loginRequest.Some? && loginOutcome.AuthFailed? ==>
        serverState == ErrorMessageOr(loginOutcome.error, SUBMIT_FALLBACK)
    {
      loginRequest, login := None, None;
      var valid := Validate();
      if !valid || !strapiSet {
        return None, None, None;
      }
      isLoading := true;
      serverState := "";
      finishRequest :=
        Some(FinishRegisterRequest(checkoutSession, formData.regPassword, formData.regEmail, formData.regFullname));
      var failure: Option<Thrown> := None;
      match finishOutcome {
        case Failed(e) =>
          failure := Some(e);
        case Succeeded =>
          loginRequest := Some(LoginRequest(formData.regPassword, formData.regEmail));
          match loginOutcome {
            case AuthSucceeded(jwt, username, email) =>
              login := Some(LoginData(username, email, jwt));
            case AuthFailed(e) =>
              failure := Some(e);
          }
      }
      if failure.Some? {
        var errorMsg := SUBMIT_FALLBACK;
        var strapiErrorMsg := GetStrapiError(failure.value);
        if strapiErrorMsg != "" {
          errorMsg := strapiErrorMsg;
        }
        serverState := errorMsg;
      }
      isLoading := false;
    }
  }
}
