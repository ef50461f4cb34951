/**
 * The registration form's four field validators and what the page does once
 * the registration request has settled.
 */
module Register {
  import opened JsText
  import opened FormRules

  datatype RegisterValues = RegisterValues(
    username: string,
    email: string,
    password: string,
    confirmPassword: string)

  const UsernameMessage: string := "Username must be at least 2 characters"
  const MismatchMessage: string := "Passwords do not match"
  /** The registration-failed message when the server sends none. */
  const FailureFallback: string := "Email already exists or registration failed."

  /** `value.trim().length >= 2`: two UTF-16 code units are needed once the
      surrounding whitespace is cut away. */
  function UsernameError(value: string): (r: Option<string>)
    ensures r.None? <==> JsLength(Trim(value)) >= 2
    ensures r.Some? ==> r.value == UsernameMessage
  {
    if JsLength(Trim(value)) >= 2 then None else Some(UsernameMessage)
  }

  /** A username passes exactly when it holds two non-whitespace characters,
      anywhere (inner whitespace is kept by the trim and counts), or one
      character above U+FFFF, which is two code units on its own. */
  lemma UsernameNeedsTwoVisibleCharacters(value: string)
    ensures UsernameError(value).None? <==>
      (exists i, j :: 0 <= i < j < |value| && !IsJsWhitespace(value[i]) && !IsJsWhitespace(value[j])) ||
      (exists i :: 0 <= i < |value| && CodeUnits(value[i]) == 2)
  {
    TrimmedAtLeastTwo(value);
  }

  /** `value === values.password`. */
  function ConfirmPasswordError(value: string, password: string): (r: Option<string>)
    ensures r.None? <==> value == password
    ensures r.Some? ==> r.value == MismatchMessage
  {
    if value == password then None else Some(MismatchMessage)
  }

  datatype RegisterErrors = RegisterErrors(
    username: Option<string>,
    email: Option<string>,
    password: Option<string>,
    confirmPassword: Option<string>)
  {
    predicate Any() {
      username.Some? || email.Some? || password.Some? || confirmPassword.Some?
    }
  }

  /** The form's `validate` object. The form submits exactly when the
      username has two visible characters (or one above U+FFFF), the e-mail
      has the `^\S+@\S+$` shape, the password is six UTF-16 code units of any
      kind and the confirmation repeats it. */
  function Validate(values: RegisterValues): (r: RegisterErrors)
    ensures !r.Any() <==>
      ((exists i, j :: 0 <= i < j < |values.username| &&
         !IsJsWhitespace(values.username[i]) && !IsJsWhitespace(values.username[j])) ||
       (exists i :: 0 <= i < |values.username| && CodeUnits(values.username[i]) == 2)) &&
      MatchesEmailPattern(values.email) &&
      JsLength(values.password) >= 6 &&
      values.confirmPassword == values.password
  {
    UsernameNeedsTwoVisibleCharacters(values.username);
    RegisterErrors(
      UsernameError(values.username),
      EmailFormatError(values.email),
      PasswordLengthError(values.password),
      ConfirmPasswordError(values.confirmPassword, values.password))
  }

  /** What the page leaves behind once the registration request has settled. */
  datatype Settled = Settled(notice: Notice, navigateTo: Option<string>)

  /** `handleSubmit` after `registerUser` settles. On success the page goes
      to "/login" (once the three-second timer has fired); on failure it
      stays, and the red notice carries the server's message or the
      fallback. */
  function SubmitSettled(ok: bool, serverMessage: Option<string>): (r: Settled)
    ensures ok ==> r.notice.color == "green" && r.navigateTo == Some("/login")
    ensures !ok ==> r.notice.title == "Registration Failed" && r.notice.color == "red" && r.navigateTo == None
    ensures !ok && serverMessage.Some? && serverMessage.value != "" ==> r.notice.message == serverMessage.value
    ensures !ok && (serverMessage.None? || serverMessage.value == "") ==> r.notice.message == FailureFallback
  {
    if ok then
      Settled(Notice("Success", "Registered successfully. Redirecting to login...", "green"), Some("/login"))
    else
      Settled(Notice("Registration Failed", OrElse(serverMessage, FailureFallback), "red"), None)
  }
}
