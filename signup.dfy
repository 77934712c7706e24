/** The sign-up page: the password rule, the checks run on submit and their
    messages, the submit button's state, and the Google sign-up button. */
module Signup {
  import opened Strings
  import opened Records
  import Utils
  import opened AuthClient

  const InvalidEmailMessage := "Please enter a valid email address"
  const WeakPasswordMessage := "Password does not meet requirements"
  const MismatchMessage := "Passwords do not match"
  const NotConfiguredMessage := "Authentication is not configured. Please contact support."
  const SignupFallback := "An error occurred during signup"
  const GoogleFallback := "An error occurred during Google signup"

  /** The class `[!@#$%^&*(),.?":{}|<>]`. */
  predicate IsSpecial(c: char)
  {
    c in "!@#$%^&*(),.?\":{}|<>"
  }

  /** What `validatePassword` reports. */
  datatype PasswordCheck = PasswordCheck(
    minLength: bool,
    hasUpperCase: bool,
    hasLowerCase: bool,
    hasNumbers: bool,
    hasSpecialChar: bool,
    isValid: bool)

  /** `validatePassword`: at least 8 characters with an upper-case letter, a
      lower-case letter and a digit. A special character is reported but not
      required. */
  function ValidatePassword(password: string): (r: PasswordCheck)
    ensures r.minLength <==> |password| >= 8
    ensures r.hasUpperCase <==> exists i :: 0 <= i < |password| && IsUpperAscii(password[i])
    ensures r.hasLowerCase <==> exists i :: 0 <= i < |password| && IsLowerAscii(password[i])
    ensures r.hasNumbers <==> exists i :: 0 <= i < |password| && IsDigit(password[i])
    ensures r.hasSpecialChar <==> exists i :: 0 <= i < |password| && IsSpecial(password[i])
    ensures r.isValid <==> r.minLength && r.hasUpperCase && r.hasLowerCase && r.hasNumbers
  {
    AnyCharIffExists(password, IsUpperAscii);
    AnyCharIffExists(password, IsLowerAscii);
    AnyCharIffExists(password, IsDigit);
    AnyCharIffExists(password, IsSpecial);
    var minLength := |password| >= 8;
    var hasUpperCase := AnyChar(password, IsUpperAscii);
    var hasLowerCase := AnyChar(password, IsLowerAscii);
    var hasNumbers := AnyChar(password, IsDigit);
    PasswordCheck(minLength, hasUpperCase, hasLowerCase, hasNumbers, AnyChar(password, IsSpecial),
                  minLength && hasUpperCase && hasLowerCase && hasNumbers)
  }

  /** A password without any special character can be valid. */
  lemma SpecialCharNotRequired()
    ensures ValidatePassword("Abcdefg1").isValid && !ValidatePassword("Abcdefg1").hasSpecialChar
  {
    var p := "Abcdefg1";
    assert IsUpperAscii(p[0]) && IsLowerAscii(p[1]) && IsDigit(p[7]);
    forall i | 0 <= i < |p| ensures !IsSpecial(p[i]) {
      assert p[i] in "Abcdefg1";
    }
  }

  /** Seven characters are too few, whatever they are. */
  lemma ShortPasswordsInvalid(password: string)
    requires |password| < 8
    ensures !ValidatePassword(password).isValid
  {
  }

  /** The submit checks in order: email, then password rule, then
      confirmation; the message of the first that fails. */
  function FirstSignupError(email: string, password: string, confirmPassword: string): (r: Option<string>)
    ensures r.None? <==> Utils.IsValidEmail(email) && ValidatePassword(password).isValid && password == confirmPassword
    ensures !Utils.IsValidEmail(email) ==> r == Some(InvalidEmailMessage)
    ensures Utils.IsValidEmail(email) && !ValidatePassword(password).isValid ==> r == Some(WeakPasswordMessage)
    ensures Utils.IsValidEmail(email) && ValidatePassword(password).isValid && password != confirmPassword ==>
      r == Some(MismatchMessage)
  {
    if !Utils.IsValidEmail(email) then Some(InvalidEmailMessage)
    else if !ValidatePassword(password).isValid then Some(WeakPasswordMessage)
    else if password != confirmPassword then Some(MismatchMessage)
    else None
  }

  /** An invalid email is reported first even when the passwords are weak
      and differ. */
  lemma EmailCheckedFirst(password: string, confirmPassword: string)
    ensures FirstSignupError("", password, confirmPassword) == Some(InvalidEmailMessage)
  {
  }

  /** The "Passwords do not match" hint under the confirmation field. */
  predicate MismatchHint(password: string, confirmPassword: string)
  {
    confirmPassword != "" && password != confirmPassword
  }

  /** Once the email and the password pass, the hint under a filled-in
      confirmation shows exactly when submitting would report the mismatch. */
  lemma MismatchHintPredictsError(email: string, password: string, confirmPassword: string)
    requires Utils.IsValidEmail(email) && ValidatePassword(password).isValid && confirmPassword != ""
    ensures MismatchHint(password, confirmPassword) <==>
      FirstSignupError(email, password, confirmPassword) == Some(MismatchMessage)
  {
  }

  class SignupForm {
    var fullName: string
    var email: string
    var password: string
    var confirmPassword: string
    var isLoading: bool
    var error: string
    var success: bool

    constructor ()
      ensures fullName == "" && email == "" && password == "" && confirmPassword == ""
      ensures !isLoading && error == "" && !success
    {
      fullName, email, password, confirmPassword := "", "", "", "";
      isLoading, error, success := false, "", false;
    }

    /** The submit button's `disabled`: only loading or a password that breaks
        the rule disable it, so a mismatch alone does not. */
    function SubmitDisabled(): (r: bool)
      reads this
      ensures r <==>
        isLoading || |password| < 8 ||
        (forall i :: 0 <= i < |password| ==> !IsUpperAscii(password[i])) ||
        (forall i :: 0 <= i < |password| ==> !IsLowerAscii(password[i])) ||
        (forall i :: 0 <= i < |password| ==> !IsDigit(password[i]))
    {
      isLoading || !ValidatePassword(password).isValid
    }

    /** `handleInputChange` for the four fields. */
    method Edit(fullName: string, email: string, password: string, confirmPassword: string)
      modifies this`fullName, this`email, this`password, this`confirmPassword
      ensures this.fullName == fullName && this.email == email
      ensures this.password == password && this.confirmPassword == confirmPassword
    {
      this.fullName, this.email, this.password, this.confirmPassword := fullName, email, password, confirmPassword;
    }

    /** `handleEmailSignup`; `reply` is what the service answers. */
    method HandleEmailSignup(auth: Auth, reply: Option<string>)
      modifies this`isLoading, this`error, this`success, auth`calls
      ensures !isLoading
      ensures FirstSignupError(email, password, confirmPassword).Some? ==>
        error == FirstSignupError(email, password, confirmPassword).value &&
        success == old(success) && auth.calls == old(auth.calls)
      ensures FirstSignupError(email, password, confirmPassword).None? && !auth.configured ==>
        error == NotConfiguredMessage && success == old(success) && auth.calls == old(auth.calls)
      ensures FirstSignupError(email, password, confirmPassword).None? && auth.configured ==>
        auth.calls == old(auth.calls) + [AuthCall.SignUp(email, password, fullName)] &&
        (reply.None? ==> success && error == "") &&
        (reply.Some? ==> success == old(success) && error == MessageOr(reply.value, SignupFallback))
    {
      isLoading := true;
      error := "";
      var failed := FirstSignupError(email, password, confirmPassword);
      if failed.Some? {
        error := failed.value;
        isLoading := false;
        return;
      }
      if !auth.configured {
        error := MessageOr(NotConfiguredMessage, SignupFallback);
      } else {
        var err := auth.SignUpUser(email, password, fullName, reply);
        if err.Some? {
          error := MessageOr(err.value, SignupFallback);
        } else {
          success := true;
        }
      }
      isLoading := false;
    }

    /** `handleGoogleSignup`: on success the page is left for the provider,
        so loading stays on. */
    method HandleGoogleSignup(auth: Auth, reply: Option<string>)
      modifies this`isLoading, this`error, auth`calls
      ensures !auth.configured ==>
        error == NotConfiguredMessage && !isLoading && auth.calls == old(auth.calls)
      ensures auth.configured ==> auth.calls == old(auth.calls) + [SignInWithProvider("google")]
      ensures auth.configured && reply.None? ==> error == "" && isLoading
      ensures auth.configured && reply.Some? ==> error == MessageOr(reply.value, GoogleFallback) && !isLoading
    {
      isLoading := true;
      error := "";
      if !auth.configured {
        error := MessageOr(NotConfiguredMessage, GoogleFallback);
        isLoading := false;
        return;
      }
      var err := auth.SignInWith("google", reply);
      if err.Some? {
        error := MessageOr(err.value, GoogleFallback);
        isLoading := false;
      }
    }
  }
}
