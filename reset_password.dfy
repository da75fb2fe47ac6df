/**
 * The reset-password page
 * (src/app/components/reset-password/reset-password.component.ts). The
 * token in the route, the server's answer and the three-second timers are
 * parameters or separate events.
 */
module ResetPassword {
  import opened TaskModel
  import opened Passwords

  /** A `resetPassword` call: the token and the new password. */
  datatype ResetCall = ResetCall(token: string, password: Value)

  /** Every field of the page, as one value. */
  datatype PageState = PageState(
    password: Value,
    confirmPassword: Value,
    isButtonDisabled: bool,
    submitted: bool,
    resetSucceeded: bool,
    resetFailed: bool)

  /** The route's `token` query parameter is truthy: present and not empty. */
  predicate HasToken(token: Option<string>)
  {
    token.Some? && token.value != ""
  }

  class ResetPasswordPage {
    var password: Value
    var confirmPassword: Value
    var isButtonDisabled: bool
    var submitted: bool
    var resetSucceeded: bool
    var resetFailed: bool

    constructor ()
      ensures State() == PageState(Some(""), Some(""), false, false, false, false)
    {
      password, confirmPassword := Some(""), Some("");
      isButtonDisabled, submitted, resetSucceeded, resetFailed := false, false, false, false;
    }

    function Form(): PasswordGroup
      reads this
    {
      PasswordGroup(password, confirmPassword)
    }

    /** The whole page state. */
    function State(): PageState
      reads this
    {
      PageState(password, confirmPassword, isButtonDisabled, submitted, resetSucceeded, resetFailed)
    }

    /** `toggleButton`: sets the button state; enabling it also resets the form to `null` values. */
    method ToggleButton(isDisabled: bool)
      modifies this
      ensures isButtonDisabled == isDisabled
      ensures isDisabled ==> Form() == old(Form())
      ensures !isDisabled ==> Form() == PasswordGroup(None, None)
      ensures State() == old(State()).(password := password, confirmPassword := confirmPassword,
                                       isButtonDisabled := isDisabled)
    {
      isButtonDisabled := isDisabled;
      if !isDisabled {
        password, confirmPassword := None, None;
      }
    }

    /** `handleError` and `handleMissingToken`, up to their timers: the failure message shows. */
    method HandleError()
      modifies this
      ensures State() == old(State()).(resetFailed := true)
    {
      resetFailed := true;
    }

    /** The timer of `handleError`/`handleMissingToken` firing: the button comes back, the form is reset, the message goes. */
    method ErrorTimerFires()
      modifies this
      ensures State() == old(State()).(password := None, confirmPassword := None,
                                       isButtonDisabled := false, resetFailed := false)
    {
      ToggleButton(false);
      resetFailed := false;
    }

    /** `handleSuccess`, up to its navigation timer: success shows and the button stays disabled. */
    method HandleSuccess()
      modifies this
      ensures State() == old(State()).(resetSucceeded := true, isButtonDisabled := true)
    {
      resetSucceeded := true;
      isButtonDisabled := true;
    }

    /**
     * `performResetPassword`: disables the button, then without a token
     * reports the failure and calls nothing; with one it sends the token
     * and the password and reports the server's answer.
     */
    method PerformResetPassword(token: Option<string>, serverAccepts: bool) returns (call: Option<ResetCall>)
      modifies this
      ensures call.Some? <==> HasToken(token)
      ensures call.Some? ==> call.value == ResetCall(token.value, old(password))
      ensures !HasToken(token) ==> State() == old(State()).(isButtonDisabled := true, resetFailed := true)
      ensures HasToken(token) && serverAccepts ==>
                State() == old(State()).(isButtonDisabled := true, resetSucceeded := true)
      ensures HasToken(token) && !serverAccepts ==>
                State() == old(State()).(isButtonDisabled := true, resetFailed := true)
    {
      ToggleButton(true);
      if !HasToken(token) {
        HandleError();
        return None;
      }
      call := Some(ResetCall(token.value, password));
      if serverAccepts {
        HandleSuccess();
      } else {
        HandleError();
      }
    }

    /**
     * `onSubmit`: marks the form submitted; an invalid form reports the
     * failure and sends nothing, a valid one goes on to the reset.
     */
    method OnSubmit(token: Option<string>, serverAccepts: bool) returns (call: Option<ResetCall>)
      modifies this
      ensures call.Some? <==> ResetFormValid(old(Form())) && HasToken(token)
      ensures call.Some? ==> call.value == ResetCall(token.value, old(password)) && |call.value.password.value| >= 6
      ensures !ResetFormValid(old(Form())) ==> State() == old(State()).(submitted := true, resetFailed := true)
      ensures ResetFormValid(old(Form())) && !HasToken(token) ==>
                State() == old(State()).(submitted := true, isButtonDisabled := true, resetFailed := true)
      ensures ResetFormValid(old(Form())) && HasToken(token) && serverAccepts ==>
                State() == old(State()).(submitted := true, isButtonDisabled := true, resetSucceeded := true)
      ensures ResetFormValid(old(Form())) && HasToken(token) && !serverAccepts ==>
                State() == old(State()).(submitted := true, isButtonDisabled := true, resetFailed := true)
    {
      submitted := true;
      if !ResetFormValid(Form()) {
        HandleError();
        return None;
      }
      call := PerformResetPassword(token, serverAccepts);
    }
  }
}
