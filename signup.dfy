/**
 * The signup page (src/app/components/signup/signup.component.ts): the form
 * guard in front of the signup call and the flag set when it fails.
 */
module Signup {
  import opened TaskModel
  import opened Passwords

  /** A `signup` call: username, first name, last name, e-mail and password. */
  datatype SignupCall = SignupCall(username: Value, firstname: Value, lastname: Value, email: Value, password: Value)

  class SignupPage {
    var form: SignupForm
    var userAlreadyExists: bool

    constructor ()
      ensures form == SignupForm(Some(""), Some(""), Some(""), Some(""), Some(""), Some(""))
      ensures !userAlreadyExists
    {
      form := SignupForm(Some(""), Some(""), Some(""), Some(""), Some(""), Some(""));
      userAlreadyExists := false;
    }

    /**
     * `onSubmit`, with the e-mail pattern's verdict and the server's answer
     * as parameters: an invalid form returns before any call; a valid one
     * sends its fields, and a refused signup sets `userAlreadyExists`.
     */
    method OnSubmit(emailWellFormed: bool, serverAccepts: bool) returns (call: Option<SignupCall>)
      modifies this
      ensures call.Some? <==> SignupFormValid(old(form), emailWellFormed)
      ensures call.Some? ==> call.value == SignupCall(form.username, form.firstname, form.lastname, form.email, form.password)
      ensures call.Some? ==> call.value.password.Some? && |call.value.password.value| >= 6 && form.confirmPassword == form.password
      ensures userAlreadyExists == (if call.Some? && !serverAccepts then true else old(userAlreadyExists))
      ensures form == old(form)
    {
      if !SignupFormValid(form, emailWellFormed) {
        return None;
      }
      call := Some(SignupCall(form.username, form.firstname, form.lastname, form.email, form.password));
      if !serverAccepts {
        userAlreadyExists := true;
      }
    }
  }
}
