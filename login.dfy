/**
 * The login form's two validators, the session value written to storage
 * after a successful login, and what the page does once the login request
 * has settled.
 */
module Login {
  import opened JsText
  import opened FormRules

  datatype LoginValues = LoginValues(email: string, password: string)

  /** The login-failed message when the server sends none. */
  const FailureFallback: string := "Invalid email or password."
  const SessionKey: string := "user"

  datatype LoginErrors = LoginErrors(email: Option<string>, password: Option<string>)
  {
    predicate Any() {
      email.Some? || password.Some?
    }
  }

  /** The form's `validate` object. The form submits exactly when the e-mail
      has the `^\S+@\S+$` shape and the password is six UTF-16 code units or
      longer; a blank in the address, a missing '@' or an '@' at either end
      each block it. */
  function Validate(values: LoginValues): (r: LoginErrors)
    ensures !r.Any() <==> MatchesEmailPattern(values.email) && JsLength(values.password) >= 6
    ensures '@' !in values.email ==> r.Any()
    ensures (exists k :: 0 <= k < |values.email| && IsJsWhitespace(values.email[k])) ==> r.Any()
  {
    EmailRejections(values.email);
    LoginErrors(EmailFormatError(values.email), PasswordLengthError(values.password))
  }

  /** `localStorage.setItem("user", JSON.stringify(response))`, with the
      serialised response given as a string. */
  function StoreSession(storage: map<string, string>, serializedResponse: string): (r: map<string, string>)
    ensures SessionKey in r && r[SessionKey] == serializedResponse
    ensures r.Keys == storage.Keys + {SessionKey}
    ensures forall k :: k in storage && k != SessionKey ==> r[k] == storage[k]
  {
    storage[SessionKey := serializedResponse]
  }

  /** What the page leaves behind once the login request has settled. */
  datatype Settled = Settled(notice: Notice, storage: map<string, string>, navigateTo: Option<string>)

  /** `handleSubmit` after `loginUser` settles. `ok` says whether it
      resolved, `serializedResponse` is `JSON.stringify(response)` and
      `serverMessage` is the rejection's `response.data.message`. On success
      the session is stored and the page goes to "/" (once the three-second
      timer has fired); on failure the storage is untouched, the page stays,
      and the red notice carries the server's message or the fallback. */
  function SubmitSettled(storage: map<string, string>, ok: bool, serializedResponse: string,
                         serverMessage: Option<string>): (r: Settled)
    ensures ok ==>
              r.notice.color == "green" && r.navigateTo == Some("/") &&
              r.storage == StoreSession(storage, serializedResponse)
    ensures !ok ==>
              r.notice.title == "Login Failed" && r.notice.color == "red" &&
              r.storage == storage && r.navigateTo == None
    ensures !ok && serverMessage.Some? && serverMessage.value != "" ==> r.notice.message == serverMessage.value
    ensures !ok && (serverMessage.None? || serverMessage.value == "") ==> r.notice.message == FailureFallback
  {
    if ok then
      Settled(Notice("Success", "Logged in successfully. Redirecting...", "green"),
              StoreSession(storage, serializedResponse), Some("/"))
    else
      Settled(Notice("Login Failed", OrElse(serverMessage, FailureFallback), "red"), storage, None)
  }
}
