/**
 * The password forms of the reset-password and signup pages: the group
 * validator `checkPasswords` (written identically in both components) and
 * the Angular validators their controls carry.
 */
module Passwords {
  import opened TaskModel

  /**
   * A control's value: a string, or `None` for the `null` a control holds
   * after `reset()`.
   */
  type Value = Option<string>

  /** The password pair of a form group. */
  datatype PasswordGroup = PasswordGroup(password: Value, confirmPassword: Value)

  /** The only error `checkPasswords` reports: `{ notSame: true }`. */
  datatype PasswordError = NotSame

  /**
   * `checkPasswords`: no error for a missing group or for two equal
   * values, `notSame` otherwise.
   */
  function CheckPasswords(group: Option<PasswordGroup>): (r: Option<PasswordError>)
    ensures r.None? <==> group.None? || group.value.password == group.value.confirmPassword
    ensures r.Some? ==> r.value == NotSame
  {
    if group.None? then None
    else if group.value.password == group.value.confirmPassword then None
    else Some(NotSame)
  }

  /** `Validators.required`: a value that is neither `null` nor the empty string. */
  predicate Required(v: Value) {
    v.Some? && v.value != ""
  }

  /** `Validators.minLength(n)`: an empty or `null` value passes; any other needs `n` characters. */
  predicate MinLength(v: Value, n: nat) {
    v.None? || v.value == "" || |v.value| >= n
  }

  /** The password control's two validators together: at least six characters. */
  function PasswordValid(v: Value): (ok: bool)
    ensures ok <==> v.Some? && |v.value| >= 6
  {
    Required(v) && MinLength(v, 6)
  }

  /**
   * The reset-password form is valid exactly when the password has six
   * characters or more and the confirmation repeats it.
   */
  function ResetFormValid(group: PasswordGroup): (ok: bool)
    ensures ok <==> group.password.Some? && |group.password.value| >= 6 && group.confirmPassword == group.password
  {
    PasswordValid(group.password) && CheckPasswords(Some(group)).None?
  }

  /** The signup form's controls. */
  datatype SignupForm = SignupForm(
    username: Value, firstname: Value, lastname: Value, email: Value, password: Value, confirmPassword: Value)

  /**
   * The signup form's validity. `Validators.email`'s pattern is taken as
   * `emailWellFormed`; it lets an empty value through, which `required`
   * then refuses.
   */
  function SignupFormValid(form: SignupForm, emailWellFormed: bool): (ok: bool)
    ensures ok <==>
              && form.username.Some? && form.username.value != ""
              && form.firstname.Some? && form.firstname.value != ""
              && form.lastname.Some? && form.lastname.value != ""
              && form.email.Some? && form.email.value != "" && emailWellFormed
              && form.password.Some? && |form.password.value| >= 6
              && form.confirmPassword == form.password
  {
    && Required(form.username) && Required(form.firstname) && Required(form.lastname)
    && Required(form.email) && emailWellFormed
    && PasswordValid(form.password)
    && CheckPasswords(Some(PasswordGroup(form.password, form.confirmPassword))).None?
  }

  /** A form reset leaves both passwords `null`: they match, yet the form is invalid. */
  lemma ResetFormIsInvalid()
    ensures CheckPasswords(Some(PasswordGroup(None, None))).None?
    ensures !ResetFormValid(PasswordGroup(None, None))
  {
  }
}
