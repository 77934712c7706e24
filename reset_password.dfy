/** The password-reset page: the reset link check, the password rule, the
    checks run on submit, the submit button's state and which screen shows. */
module ResetPassword {
  import opened Strings
  import opened Records
  import opened AuthClient
  import Signup

  const InvalidLinkMessage := "Invalid or expired reset link. Please request a new one."
  const WeakPasswordMessage := "Password does not meet requirements"
  const MismatchMessage := "Passwords do not match"
  const UpdateFallback := "An error occurred while updating your password"

  /** This page's `validatePassword`, which has no special-character flag. */
  datatype ResetCheck = ResetCheck(minLength: bool, hasUpperCase: bool, hasLowerCase: bool, hasNumbers: bool, isValid: bool)

  function ValidatePassword(password: string): (r: ResetCheck)
    ensures r.minLength <==> |password| >= 8
    ensures r.hasUpperCase <==> exists i :: 0 <= i < |password| && IsUpperAscii(password[i])
    ensures r.hasLowerCase <==> exists i :: 0 <= i < |password| && IsLowerAscii(password[i])
    ensures r.hasNumbers <==> exists i :: 0 <= i < |password| && IsDigit(password[i])
    ensures r.isValid <==> r.minLength && r.hasUpperCase && r.hasLowerCase && r.hasNumbers
  {
    AnyCharIffExists(password, IsUpperAscii);
    AnyCharIffExists(password, IsLowerAscii);
    AnyCharIffExists(password, IsDigit);
    var minLength := |password| >= 8;
    var hasUpperCase := AnyChar(password, IsUpperAscii);
    var hasLowerCase := AnyChar(password, IsLowerAscii);
    var hasNumbers := AnyChar(password, IsDigit);
    ResetCheck(minLength, hasUpperCase, hasLowerCase, hasNumbers, minLength && hasUpperCase && hasLowerCase && hasNumbers)
  }

  /** The reset page accepts exactly the passwords the sign-up page accepts,
      flag by flag. */
  lemma SameRuleAsSignup(password: string)
    ensures ValidatePassword(password).isValid == Signup.ValidatePassword(password).isValid
    ensures ValidatePassword(password).minLength == Signup.ValidatePassword(password).minLength
    ensures ValidatePassword(password).hasUpperCase == Signup.ValidatePassword(password).hasUpperCase
    ensures ValidatePassword(password).hasLowerCase == Signup.ValidatePassword(password).hasLowerCase
    ensures ValidatePassword(password).hasNumbers == Signup.ValidatePassword(password).hasNumbers
  {
  }

  /** The link test: both tokens present and non-empty. */
  predicate LinkValid(accessToken: Option<string>, refreshToken: Option<string>)
  {
    Truthy(accessToken) && Truthy(refreshToken)
  }

  /** The submit checks in order: the password rule, then confirmation. */
  function FirstResetError(password: string, confirmPassword: string): (r: Option<string>)
    ensures r.None? <==> ValidatePassword(password).isValid && password == confirmPassword
    ensures !ValidatePassword(password).isValid ==> r == Some(WeakPasswordMessage)
    ensures ValidatePassword(password).isValid && password != confirmPassword ==> r == Some(MismatchMessage)
  {
    if !ValidatePassword(password).isValid then Some(WeakPasswordMessage)
    else if password != confirmPassword then Some(MismatchMessage)
    else None
  }

  /** The page's screens. */
  datatype Screen = InvalidLinkScreen | SuccessScreen | FormScreen

  function ScreenOf(isValidToken: bool, success: bool): (r: Screen)
    ensures r == InvalidLinkScreen <==> !isValidToken && !success
    ensures r == SuccessScreen <==> success
  {
    if !isValidToken && !success then InvalidLinkScreen
    else if success then SuccessScreen
    else FormScreen
  }

  class ResetForm {
    var password: string
    var confirmPassword: string
    var isLoading: bool
    var error: string
    var success: bool
    var isValidToken: bool

    constructor ()
      ensures password == "" && confirmPassword == "" && !isLoading && error == "" && !success && !isValidToken
    {
      password, confirmPassword := "", "";
      isLoading, error, success, isValidToken := false, "", false, false;
    }

    /** The effect that reads `access_token` and `refresh_token` from the
        URL; a missing link leaves `isValidToken` as it was. */
    method CheckTokens(accessToken: Option<string>, refreshToken: Option<string>)
      modifies this`isValidToken, this`error
      ensures LinkValid(accessToken, refreshToken) ==> isValidToken && error == old(error)
      ensures !LinkValid(accessToken, refreshToken) ==> isValidToken == old(isValidToken) && error == InvalidLinkMessage
    {
      if Truthy(accessToken) && Truthy(refreshToken) {
        isValidToken := true;
      } else {
        error := InvalidLinkMessage;
      }
    }

    /** The submit button's `disabled`: on while loading, and otherwise
        exactly when a submit check would fail. */
    function SubmitDisabled(): (r: bool)
      reads this
      ensures r <==> isLoading || FirstResetError(password, confirmPassword).Some?
    {
      isLoading || !ValidatePassword(password).isValid || password != confirmPassword
    }

    method Edit(password: string, confirmPassword: string)
      modifies this`password, this`confirmPassword
      ensures this.password == password && this.confirmPassword == confirmPassword
    {
      this.password, this.confirmPassword := password, confirmPassword;
    }

    function CurrentScreen(): (r: Screen)
      reads this
      ensures r == InvalidLinkScreen <==> !isValidToken && !success
      ensures r == SuccessScreen <==> success
      ensures r == FormScreen <==> isValidToken && !success
    {
      ScreenOf(isValidToken, success)
    }

    /** `handleResetPassword`; `reply` is what the service answers. The
        redirect to the login page two seconds after success is not
        modelled. */
    method HandleResetPassword(auth: Auth, reply: Option<string>)
      modifies this`isLoading, this`error, this`success, auth`calls
      ensures !isLoading
      ensures FirstResetError(password, confirmPassword).Some? ==>
        error == FirstResetError(password, confirmPassword).value &&
        success == old(success) && auth.calls == old(auth.calls)
      ensures FirstResetError(password, confirmPassword).None? ==>
        auth.calls == old(auth.calls) + [UpdatePassword(password)] &&
        (reply.None? ==> success && error == "") &&
        (reply.Some? ==> success == old(success) && error == MessageOr(reply.value, UpdateFallback))
    {
      isLoading := true;
      error := "";
      var failed := FirstResetError(password, confirmPassword);
      if failed.Some? {
        error := failed.value;
        isLoading := false;
        return;
      }
      var err := auth.UpdateUserPassword(password, reply);
      if err.Some? {
        error := MessageOr(err.value, UpdateFallback);
      } else {
        success := true;
      }
      isLoading := false;
    }
  }
}
