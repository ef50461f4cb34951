/**
 * The two field rules that the login and the registration forms state in
 * identical words: the e-mail pattern `^\S+@\S+$` and the six-character
 * password minimum.
 */
module FormRules {
  import opened JsText

  const EmailMessage: string := "Invalid email format"
  const PasswordMessage: string := "Password must be at least 6 characters"

  /** `/^\S+@\S+$/.test(value) ? null : "Invalid email format"`. */
  function EmailFormatError(value: string): (r: Option<string>)
    ensures r.None? <==> MatchesEmailPattern(value)
    ensures r.Some? ==> r.value == EmailMessage
  {
    EmailCheckMatchesPattern(value);
    if IsEmailShaped(value) then None else Some(EmailMessage)
  }

  /** An address is rejected when it holds whitespace anywhere, has no '@',
      or has its only '@'s at either end. */
  lemma EmailRejections(value: string)
    ensures (exists k :: 0 <= k < |value| && IsJsWhitespace(value[k])) ==> EmailFormatError(value).Some?
    ensures '@' !in value ==> EmailFormatError(value).Some?
    ensures (forall k :: 0 < k < |value| - 1 ==> value[k] != '@') ==> EmailFormatError(value).Some?
  {
    if MatchesEmailPattern(value) {
      var i :| 0 < i < |value| - 1 && value[i] == '@' && NoWhitespace(value[..i]) && NoWhitespace(value[i + 1..]);
      forall k | 0 <= k < |value| ensures !IsJsWhitespace(value[k]) {
        if k < i {
          assert value[..i][k] == value[k];
        } else if k > i {
          assert value[i + 1..][k - i - 1] == value[k];
        }
      }
    }
  }

  /** `value.length >= 6 ? null : "Password must be at least 6 characters"`:
      length only, in UTF-16 code units, whatever the characters. Six
      characters always suffice, and three above U+FFFF already do. */
  function PasswordLengthError(value: string): (r: Option<string>)
    ensures r.None? <==> JsLength(value) >= 6
    ensures |value| >= 6 ==> r.None?
    ensures |value| < 3 ==> r.Some?
    ensures r.Some? ==> r.value == PasswordMessage
  {
    if JsLength(value) >= 6 then None else Some(PasswordMessage)
  }
}
