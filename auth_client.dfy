/** The authentication calls the sign-up and password-reset pages make. What
    the service answers is a parameter: `None` for success, or the message of
    the error it returns. */
module AuthClient {
  import opened Records

  datatype AuthCall =
    | SignUp(email: string, password: string, fullName: string)
    | SignInWithProvider(provider: string)
    | UpdatePassword(password: string)

  class Auth {
    /** `isSupabaseConfigured()`. */
    const configured: bool
    /** The calls made so far, oldest first. */
    var calls: seq<AuthCall>

    constructor (configured: bool)
      ensures this.configured == configured && calls == []
    {
      this.configured := configured;
      calls := [];
    }

    /** `auth.signUp(email, password, { full_name })`. */
    method SignUpUser(email: string, password: string, fullName: string, reply: Option<string>)
      returns (err: Option<string>)
      modifies this`calls
      ensures calls == old(calls) + [SignUp(email, password, fullName)] && err == reply
    {
      calls := calls + [SignUp(email, password, fullName)];
      err := reply;
    }

    /** `auth.signInWithProvider(provider)`. */
    method SignInWith(provider: string, reply: Option<string>) returns (err: Option<string>)
      modifies this`calls
      ensures calls == old(calls) + [SignInWithProvider(provider)] && err == reply
    {
      calls := calls + [SignInWithProvider(provider)];
      err := reply;
    }

    /** `auth.updatePassword(password)`. */
    method UpdateUserPassword(password: string, reply: Option<string>) returns (err: Option<string>)
      modifies this`calls
      ensures calls == old(calls) + [UpdatePassword(password)] && err == reply
    {
      calls := calls + [UpdatePassword(password)];
      err := reply;
    }
  }

  /** `error.message || fallback`. */
  function MessageOr(message: string, fallback: string): (r: string)
    ensures message != "" ==> r == message
    ensures message == "" ==> r == fallback
  {
    if message != "" then message else fallback
  }
}
