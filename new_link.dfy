/**
 * The "create link" form: its field validators, the random-key generator,
 * and the submit handler that derives the final URL and the expiry and calls
 * the link service's `createLink` with its positional arguments. The URL
 * parser and the cipher are foreign and arrive as parameters.
 */
module NewLink {
  import opened JsText
  import opened AuthContext
  import opened LinkStore

  /** The form's values. `expiryDays` is the day count picked from the
      "Expires After" select. */
  datatype FormValues = FormValues(
    originalUrl: string,
    customCode: string,
    useExpiry: bool,
    expiryDays: int,
    useEncryption: bool,
    encryptionKey: string)

  const UrlMessage: string := "Please enter a valid URL"
  const CustomCodeMessage: string := "Custom code must be 3-16 alphanumeric characters"
  const KeyMessage: string := "Encryption key must be at least 6 characters"

  /** A member of the class `[a-zA-Z0-9-_]` (the '-' after the range `0-9` is a
      literal). */
  predicate IsCodeChar(c: char) {
    ('a' <= c <= 'z') || ('A' <= c <= 'Z') || ('0' <= c <= '9') || c == '-' || c == '_'
  }

  function AllCodeChars(s: string): (b: bool)
    ensures b <==> forall k :: 0 <= k < |s| ==> IsCodeChar(s[k])
  {
    if s == [] then true else IsCodeChar(s[0]) && AllCodeChars(s[1..])
  }

  /** `/^[a-zA-Z0-9-_]{3,16}$/.test(value)`. The quantifier counts UTF-16
      code units; every character of the class is a single unit, so on a
      matching value that count is the number of characters. */
  function MatchesCodePattern(value: string): (b: bool)
    ensures b <==> 3 <= JsLength(value) <= 16 && forall k :: 0 <= k < |value| ==> IsCodeChar(value[k])
  {
    LengthIsSizeIffBmp(value);
    assert AllCodeChars(value) ==> forall k :: 0 <= k < |value| ==> CodeUnits(value[k]) == 1;
    3 <= |value| <= 16 && AllCodeChars(value)
  }

  /** The `originalUrl` validator; `parsesAsUrl` stands for `new URL(value)`
      not throwing. */
  function UrlError(value: string, parsesAsUrl: string -> bool): (r: Option<string>)
    ensures r.None? <==> parsesAsUrl(value)
    ensures r.Some? ==> r.value == UrlMessage
  {
    if parsesAsUrl(value) then None else Some(UrlMessage)
  }

  /** The `customCode` validator: an empty code is fine (one is generated);
      otherwise 3 to 16 characters, each a letter, a digit, '-' or '_'. */
  function CustomCodeError(value: string): (r: Option<string>)
    ensures r.None? <==> value == "" || (3 <= |value| <= 16 && forall k :: 0 <= k < |value| ==> IsCodeChar(value[k]))
    ensures r.Some? ==> r.value == CustomCodeMessage
  {
    if value != "" && !MatchesCodePattern(value) then Some(CustomCodeMessage) else None
  }

  /** The `encryptionKey` validator: no constraint without encryption, at
      least six UTF-16 code units with it. */
  function EncryptionKeyError(value: string, useEncryption: bool): (r: Option<string>)
    ensures r.None? <==> !useEncryption || JsLength(value) >= 6
    ensures r.Some? ==> r.value == KeyMessage
  {
    if useEncryption && (value == "" || JsLength(value) < 6) then Some(KeyMessage) else None
  }

  datatype FieldErrors = FieldErrors(
    originalUrl: Option<string>,
    customCode: Option<string>,
    encryptionKey: Option<string>)
  {
    predicate Any() {
      originalUrl.Some? || customCode.Some? || encryptionKey.Some?
    }
  }

  /** All validators, as the form runs them before calling the submit
      handler. The form goes through exactly when the URL parses, the custom
      code is empty or 3 to 16 characters of the code class, and, with
      encryption on, the key is at least six UTF-16 code units long. */
  function Validate(values: FormValues, parsesAsUrl: string -> bool): (r: FieldErrors)
    ensures !r.Any() <==>
      parsesAsUrl(values.originalUrl) &&
      (values.customCode == "" || MatchesCodePattern(values.customCode)) &&
      (!values.useEncryption || JsLength(values.encryptionKey) >= 6)
  {
    FieldErrors(
      UrlError(values.originalUrl, parsesAsUrl),
      CustomCodeError(values.customCode),
      EncryptionKeyError(values.encryptionKey, values.useEncryption))
  }

  /** Codes of exactly 3 and exactly 16 allowed characters pass; 2 and 17 do not. */
  lemma CodeLengthBoundaries(value: string)
    requires forall k :: 0 <= k < |value| ==> IsCodeChar(value[k])
    ensures |value| == 3 || |value| == 16 ==> CustomCodeError(value).None?
    ensures |value| == 2 || |value| == 17 ==> CustomCodeError(value).Some?
  {
  }

  /** `WordArray.random(16).toString().slice(0, 12)`: the first twelve of the
      thirty-two hex digits of sixteen random bytes. */
  function GenerateRandomKey(randomHex: string): (key: string)
    requires |randomHex| == 32
    ensures |key| == 12 && key == randomHex[..12]
    ensures EncryptionKeyError(key, true).None?
  {
    randomHex[..12]
  }

  /** The arguments `handleSubmit` passes to `createLink`, in order. */
  datatype CreateCall = CreateCall(
    userId: string,
    url: string,
    customCode: Option<string>,
    expiresAt: Option<int>,
    useEncryption: bool,
    encryptionKey: Option<string>)

  datatype SubmitOutcome =
    | NotValid(errors: FieldErrors)
    | NoUser
    | Created(call: CreateCall, link: Link, navigateTo: string)
    | Failed(message: string)

  class NewLinkPage {
    var loading: bool

    constructor ()
      ensures !loading
    {
      loading := false;
    }

    /** `handleSubmit`. Without a user nothing happens. Otherwise the URL is
        encrypted with the form's key if encryption is on, the expiry is `now`
        plus the chosen number of days if expiry is on, and `createLink` is
        called once. `newId`, `newCode` and `createdAt` are what the service's
        random id, code generator and clock produce; `rejected` says the
        awaited call threw, in which case the table is left as it was. */
    method HandleSubmit(values: FormValues, user: Option<User>, now: int, service: LinkService,
                        encrypt: Cipher, newId: string, newCode: string, createdAt: int,
                        rejected: bool)
      returns (outcome: SubmitOutcome)
      modifies this, service
      ensures user.None? ==> outcome == NoUser && loading == old(loading) && service.links == old(service.links)
      ensures user.Some? ==> !loading
      ensures user.Some? && rejected ==>
        outcome == Failed("Failed to create link. Please try again.") && service.links == old(service.links)
      ensures user.Some? && !rejected ==>
        outcome.Created? && outcome.navigateTo == "/" && service.links == old(service.links) + [outcome.link]
      ensures outcome.Created? ==>
        var call := outcome.call;
        && call.userId == user.value.id
        && call.url == (if values.useEncryption then encrypt(values.originalUrl, values.encryptionKey)
                        else values.originalUrl)
        && call.customCode == (if values.customCode == "" then None else Some(values.customCode))
        && call.expiresAt == (if values.useExpiry then Some(now + values.expiryDays * DayMs) else None)
        && call.useEncryption == values.useEncryption
        && call.encryptionKey == (if values.useEncryption then Some(values.encryptionKey) else None)
        && outcome.link.userId == call.userId && outcome.link.originalUrl == call.url
        && outcome.link.expiresAt == call.expiresAt && outcome.link.shortCode == newCode
        && outcome.link.encryptedUrl == encrypt(call.url, DefaultKey)
        && outcome.link.clicks == 0 && outcome.link.isActive
    {
      if user.None? {
        return NoUser;
      }
      loading := true;

      var finalUrl := values.originalUrl;
      var expiresAt: Option<int> := None;
      if values.useExpiry {
        expiresAt := Some(now + values.expiryDays * DayMs);
      }
      if values.useEncryption {
        finalUrl := encrypt(values.originalUrl, values.encryptionKey);
      }

      if rejected {
        outcome := Failed("Failed to create link. Please try again.");
      } else {
        var call := CreateCall(
          user.value.id, finalUrl,
          if values.customCode == "" then None else Some(values.customCode),
          expiresAt, values.useEncryption,
          if values.useEncryption then Some(values.encryptionKey) else None);
        var link := service.CreateLink(call.userId, call.url, call.customCode, call.expiresAt,
                                       call.useEncryption, call.encryptionKey, None,
                                       newId, newCode, createdAt, encrypt);
        outcome := Created(call, link, "/");
      }
      loading := false;
    }

    /** `form.onSubmit(handleSubmit)`: the validators run first, and any error
        stops the submission before the handler (and so before any create call). */
    method Submit(values: FormValues, parsesAsUrl: string -> bool, user: Option<User>, now: int,
                  service: LinkService, encrypt: Cipher, newId: string, newCode: string,
                  createdAt: int, rejected: bool)
      returns (outcome: SubmitOutcome)
      modifies this, service
      ensures Validate(values, parsesAsUrl).Any() ==>
        outcome == NotValid(Validate(values, parsesAsUrl)) &&
        service.links == old(service.links) && loading == old(loading)
      ensures !Validate(values, parsesAsUrl).Any() && user.Some? && !rejected ==>
        outcome.Created? && service.links == old(service.links) + [outcome.link]
    {
      var errors := Validate(values, parsesAsUrl);
      if errors.Any() {
        return NotValid(errors);
      }
      outcome := HandleSubmit(values, user, now, service, encrypt, newId, newCode, createdAt, rejected);
    }
  }
}
