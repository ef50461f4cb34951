# ShortLink front end: a Dafny model of its rules

ShortLink is a React front end for a URL shortener. The backend stores links,
redirects visitors and authenticates users. The front end holds a set of small
rules of its own, and this project models them and proves properties about them:

- the in-memory link service, a table of link records that can be created,
  deleted, clicked and listed (`LinkStore`, a class over a sequence);
- the dashboard's presentation logic (`Dashboard`):
  - screen-size breakpoints and cards per page;
  - the active/inactive split;
  - page windows and page counts;
  - the in-place newest-first sort of a loaded list;
  - the local removal after a delete;
  - the "time ago" label;
  - the short URL;
- the field validators of the create-link, registration, login,
  password-reset and master-key forms (`NewLink`, `Register`, `Login`,
  `FormRules`, `ResetPassword`, `MasterKey`);
- the state machines:
  - the one-time-password reset flow and its 60-second resend countdown
    (`ResetPassword.ResetPasswordModal`);
  - the session provider (`AuthContext.AuthProvider`);
  - the master-key modal (`MasterKey.MasterKeyModal`);
  - the create-link page's submit handler (`NewLink.NewLinkPage`);
  - the dashboard's page state (`Dashboard.DashboardPage`);
- the route table with its two guards (`AppRoutes`);
- the link-error page's reason-to-message mapping (`InvalidPage`).

JavaScript behaviour the rules rely on is spelt out in two helper modules:

- `JsText`:
  - the ECMAScript whitespace set behind `\s` and `trim()`;
  - `trim` itself;
  - `length`, which counts UTF-16 code units, so a character above U+FFFF
    counts twice (strings are sequences of Unicode characters);
  - the `^\S+@\S+$` pattern;
  - the `a || b` fallback, under which an empty string also falls back.
- `JsArray`: `filter` and `slice`, the latter with its negative and
  out-of-range indices.

Timestamps are integer milliseconds. The cipher, the URL parser and the random
generators are parameters: `encrypt: (string, string) -> string`,
`parsesAsUrl: string -> bool`, and the generated id, code and hex digits
passed in as values. A remote call is represented by how it settles; for
example, `SendOtpSettled(ok)` and `HandleDeleteLink(id, deleted, errorMessage)`.

Some source files disagree with each other. The model resolves each case as
follows:

- `src/pages/NewLink.jsx:19` imports a `linkService` object from
  `src/services/linkService.js`, which exports no such object. As written,
  every submit therefore fails. The model instead follows the evident
  intent: the only object with the `createLink` signature used at lines 85-92
  is the one in `src/services/linkServiceOld.js`, so the submit handler
  calls `LinkStore.LinkService.CreateLink` (see "Left out").
- The dashboard reads `link.active` and `link.customCode`, the shape the
  backend's list endpoint returns. The in-memory service writes `isActive` and
  `shortCode`. The two are kept as separate datatypes (`Dashboard.ListedLink`
  and `LinkStore.Link`).
- The login page stores the server's response under `"user"` and does not
  call `AuthContext`'s `login`. The guards in `src/App.jsx` read the
  `AuthContext` user, which starts out null. The model keeps the two separate
  and does not connect the login page to the session.

## Model

| member | source | states |
|---|---|---|
| LinkStore.SeedLinks | src/data/mockData.js:10-22 | the seed table is one record with code "abc123", 42 clicks and expiry seven days after load |
| LinkStore.LinkService.constructor | src/services/linkServiceOld.js:2 | the service starts with the seed table |
| LinkStore.LinkService.CreateLink | src/services/linkServiceOld.js:20-46 | appends exactly one record and changes nothing else. The record carries the given user and plaintext URL and the passed `expiresAt`, has 0 clicks and is active. Its `encryptedUrl` is the URL under the default key, and its code comes from the generator, whatever custom code, encryption flag or key was passed |
| LinkStore.LinkService.GetUserLinks | src/services/linkServiceOld.js:48-51 | returns the whole table whatever the user id |
| LinkStore.IndexOfId | src/services/linkServiceOld.js:54 | -1 exactly when no record has the id; otherwise the first position holding it |
| LinkStore.LinkService.FindIndexById | src/services/linkServiceOld.js:54 | the scan's result is the first position of the id, or -1 |
| LinkStore.IndexOfCode | src/services/linkServiceOld.js:61 | -1 exactly when no record has the code; otherwise the first position holding it |
| LinkStore.LinkService.FindIndexByCode | src/services/linkServiceOld.js:61 | the scan's result is the first position of the code, or -1 |
| LinkStore.LinkService.DeleteLink | src/services/linkServiceOld.js:53-58 | the new table is the old one with its first record of that id spliced out (`DeleteFirst`) |
| LinkStore.DeleteRemovesFirstMatchOnly | src/services/linkServiceOld.js:53-58 | without a match the table is unchanged. With one, it is one shorter, the records before and after the first match keep their order, and exactly that record goes |
| LinkStore.DeleteDropsOneOccurrence | src/services/linkServiceOld.js:54-56 | a delete lowers the count of records with that id by exactly one, so a duplicate id survives |
| LinkStore.DeleteIsFilterWhenIdsUnique | src/services/linkServiceOld.js:53-58 | when ids are unique, deleting the first match equals filtering out every record with the id |
| LinkStore.LinkService.IncrementClicks | src/services/linkServiceOld.js:60-65 | the new table is the old one with one more click on the first record with the code (`ClickFirst`) |
| LinkStore.ClickAddsOne | src/services/linkServiceOld.js:60-65 | a click raises the table's total by exactly one when the code is present, and by nothing otherwise |
| Dashboard.ScreenSizeFor | src/pages/Dashboard.jsx:44-48 | small iff width < 768, medium iff 768 <= width < 1024, large iff width >= 1024 |
| Dashboard.ItemsPerPage | src/pages/Dashboard.jsx:120-121 | 3, 4 and 6 cards for small, medium and large |
| Dashboard.DashboardPage.constructor | src/pages/Dashboard.jsx:36-41 | no links, both tabs on page 1, large screen; both pages are counted from 1 |
| Dashboard.DashboardPage.HandleResize | src/pages/Dashboard.jsx:44-48 | the screen size follows the breakpoints; nothing else changes |
| Dashboard.ActiveLinks | src/pages/Dashboard.jsx:123 | the active tab holds only active links of the list, and every active link of the list |
| Dashboard.InactiveLinks | src/pages/Dashboard.jsx:124 | the inactive tab holds only inactive links of the list, and every inactive link of the list |
| Dashboard.PartitionIsExact | src/pages/Dashboard.jsx:123-124 | the two tabs together hold every link exactly as often as the list does, and their sizes add up to the list's |
| Dashboard.PartitionKeepsOrder | src/pages/Dashboard.jsx:123-124 | splitting the list splits each tab, so both keep the list's order |
| JsArray.Filter | src/pages/Dashboard.jsx:123-124 | `filter` keeps only accepted elements of the array, keeps every accepted element, and is never longer than the array |
| Dashboard.PageOf | src/pages/Dashboard.jsx:126-133 | a page is always one contiguous run of the tab's list, and a page counted from 1 holds at most `size` cards |
| Dashboard.PageIsWindow | src/pages/Dashboard.jsx:126-133 | page p is the slice [(p-1)*n, p*n) cut at the list's end: at most n items, empty past the end |
| JsArray.Slice | src/pages/Dashboard.jsx:126-133 | `slice` always returns one contiguous run of the array |
| JsArray.SliceWithinBounds | src/pages/Dashboard.jsx:126-133 | with bounds that are not negative, `slice` is the window between them cut at the end, never longer than end - start |
| Dashboard.PageCount | src/pages/Dashboard.jsx:259 | `Math.ceil(len / n)`: n pages of size `size` hold the list, and n - 1 pages do not, so n is the least such count |
| Dashboard.PagesReassemble | src/pages/Dashboard.jsx:259 | pages 1 to the page count, laid end to end, give back the list exactly |
| Dashboard.PagesUpToIsPrefix | src/pages/Dashboard.jsx:126-129 | the first k pages are the list's prefix of length min(k*n, len) |
| Dashboard.OfferedPagesAreNonEmpty | src/pages/Dashboard.jsx:272 | every page the pager offers holds a card; the page after the last is empty |
| Dashboard.DashboardPage.ShownActive | src/pages/Dashboard.jsx:126-129 | the active tab shows active links of the list only and, while both pagers sit on a page from 1, at most a page of them |
| Dashboard.DashboardPage.ShownInactive | src/pages/Dashboard.jsx:130-133 | the inactive tab shows inactive links of the list only and, while both pagers sit on a page from 1, at most a page of them |
| Dashboard.DashboardPage.ActivePageTotal | src/pages/Dashboard.jsx:259 | the active pager's total: its pages laid end to end give back every active link, its last page holds a card, and the page after it is empty |
| Dashboard.DashboardPage.InactivePageTotal | src/pages/Dashboard.jsx:272 | the inactive pager's total: its pages laid end to end give back every inactive link, its last page holds a card, and the page after it is empty |
| Dashboard.SortNewestFirst | src/pages/Dashboard.jsx:59-61 | after the in-place sort the array is ordered by `createdAt` descending and is a permutation of what it held |
| Dashboard.SinkNewest | src/pages/Dashboard.jsx:59-61 | one sorting step extends the newest-first prefix by one element, keeping the array's contents |
| Dashboard.SwapWithPrevious | src/pages/Dashboard.jsx:59-61 | exchanges two neighbours and moves nothing else |
| Dashboard.DashboardPage.OnLinksLoaded | src/pages/Dashboard.jsx:58-62 | the stored list is the response array itself, sorted newest first, with the same links |
| Dashboard.RemoveById | src/pages/Dashboard.jsx:71 | after the filter no link has the id, every remaining link comes from the list, and every link with another id remains |
| Dashboard.RemoveByIdSpec | src/pages/Dashboard.jsx:71 | every link with another id appears exactly as often as before, and a link with the id not at all |
| Dashboard.RemoveByIdKeepsOrder | src/pages/Dashboard.jsx:71 | the filter keeps the survivors' order |
| Dashboard.DashboardPage.HandleDeleteLink | src/pages/Dashboard.jsx:68-83 | on success the list is filtered by id and the green notice is shown. On failure the list is unchanged and the red notice carries the error's message, or "Could not delete the link" when it is empty |
| Dashboard.ElapsedSeconds | src/pages/Dashboard.jsx:100-102 | the whole seconds elapsed, rounded down like `Math.floor`, also for a date in the future |
| Dashboard.AgeFrom | src/pages/Dashboard.jsx:111-114 | the result is "just now" iff no remaining unit's floor quotient is positive. Otherwise it is the first such unit, with the quotient as its count |
| Dashboard.AgeIsLargestFittingUnit | src/pages/Dashboard.jsx:99-116 | "Just now" exactly below 60 seconds, negative ages included; otherwise the largest unit that fits at least once, counted by floor division |
| Dashboard.Render | src/pages/Dashboard.jsx:113-115 | "Just now" iff there is no age to report; otherwise the label starts with the count in decimal and ends with " ago" |
| Dashboard.PluralExactlyAboveOne | src/pages/Dashboard.jsx:113 | the unit takes an "s" exactly when the count is above one |
| Dashboard.DecimalString | src/pages/Dashboard.jsx:113 | the count is written in decimal digits without a leading zero |
| Dashboard.DecimalRoundTrip | src/pages/Dashboard.jsx:113 | the digits written denote the count |
| Dashboard.TimeAgo | src/pages/Dashboard.jsx:99-116 | the loop's label is the rendering of the age computed by floor-dividing the elapsed milliseconds by 1000 |
| Dashboard.FullShortUrl | src/pages/Dashboard.jsx:118 | the short URL is the origin, a slash and the code, with nothing lost, so for a fixed origin it determines the code |
| Dashboard.DashboardPage.SetActivePage | src/pages/Dashboard.jsx:261 | the active pager's page (from 1, as the pager sends) changes and nothing else; both pages stay counted from 1 |
| Dashboard.DashboardPage.SetInactivePage | src/pages/Dashboard.jsx:274 | the inactive pager's page (from 1, as the pager sends) changes and nothing else; both pages stay counted from 1 |
| AppRoutes.ShortUrlMissesRedirectRoute | src/pages/Dashboard.jsx:118 | the dashboard's short URL for a code that names no page resolves to the fallback and goes home, never to the redirect page |
| Dashboard.RedirectShortUrl | src/App.jsx:71 | the short URL built under `/r/` |
| AppRoutes.RedirectUrlReachesRedirectPage | src/App.jsx:71 | a URL under `/r/` shows the redirect page for its code in every session state |
| AppRoutes.SegmentLength | src/App.jsx:63-84 | the first segment runs up to the first '/' |
| AppRoutes.CodeSegments | src/App.jsx:71 | a slash-free code is one path segment, and `r/` followed by the code is two |
| NewLink.AllCodeChars | src/pages/NewLink.jsx:48 | true iff every character is a letter, a digit, '-' or '_' |
| NewLink.MatchesCodePattern | src/pages/NewLink.jsx:48 | the pattern matches iff the value is 3 to 16 UTF-16 code units long, all letters, digits, '-' or '_' |
| NewLink.UrlError | src/pages/NewLink.jsx:39-46 | no error iff the URL parser accepts the value |
| NewLink.CustomCodeError | src/pages/NewLink.jsx:47-52 | no error iff the code is empty, or is 3 to 16 characters that are letters, digits, '-' or '_' |
| NewLink.CodeLengthBoundaries | src/pages/NewLink.jsx:48 | allowed codes of length 3 and 16 pass; lengths 2 and 17 fail |
| NewLink.EncryptionKeyError | src/pages/NewLink.jsx:53-58 | no error iff encryption is off or the key is at least six UTF-16 code units long |
| NewLink.Validate | src/pages/NewLink.jsx:38-59 | the form goes through iff the URL parses, the custom code is empty or matches the code pattern, and with encryption on the key is at least six UTF-16 code units long |
| NewLink.GenerateRandomKey | src/pages/NewLink.jsx:113-116 | the key is the first 12 of the 32 hex digits, so it always passes the key rule |
| NewLink.NewLinkPage.constructor | src/pages/NewLink.jsx:27 | the page starts not loading |
| NewLink.NewLinkPage.HandleSubmit | src/pages/NewLink.jsx:62-111 | without a user nothing happens. Otherwise one create call is made and loading ends false on both paths. The URL is encrypted with the form's key iff encryption is on; the expiry is now plus the chosen days iff expiry is on. An empty code is sent as absent, and the key only with encryption. On success the table gains the one new link and the page goes to "/"; on failure the table is unchanged |
| NewLink.NewLinkPage.Submit | src/pages/NewLink.jsx:29-60 | any validation error stops the submission before a create call |
| ResetPassword.ValidatePassword | src/pages/ResetPassword.jsx:51-60 | the checker returns the message of the first broken rule in the fixed order |
| ResetPassword.NothingBrokenIffAllHold | src/pages/ResetPassword.jsx:51-60 | no rule is reported broken iff every rule holds |
| ResetPassword.AcceptedIffAllRulesHold | src/pages/ResetPassword.jsx:51-60 | accepted iff non-empty, at least six UTF-16 code units long, and holding an upper-case letter, a lower-case letter, a digit and one of `!@#$%^&*` |
| ResetPassword.EarlierRulesWin | src/pages/ResetPassword.jsx:52-53 | "" gives "Password is required"; a non-empty value under six UTF-16 code units gives the length message whatever else it lacks |
| ResetPassword.Tick | src/pages/ResetPassword.jsx:29-37 | a tick re-enables resending and stops the interval exactly at zero, and keeps the count within 0..60 |
| ResetPassword.TicksFrom | src/pages/ResetPassword.jsx:29-37 | from s seconds, n <= s ticks count down to s-n, and tick s+1 re-enables resending, resets to 60 and stops |
| ResetPassword.ResendBlockedForSixtyTicks | src/pages/ResetPassword.jsx:29-37 | after a send, resending stays blocked for 60 ticks and is allowed again at the 61st |
| ResetPassword.ResetPasswordModal.constructor | src/pages/ResetPassword.jsx:20-27 | every field starts at its initial value and the countdown invariant holds |
| ResetPassword.ResetPasswordModal.OnTick | src/pages/ResetPassword.jsx:29-37 | a tick decrements a positive count; at 0 it re-enables resending, resets to 60 and stops the interval. The flow flags are untouched |
| ResetPassword.ResetPasswordModal.ResetState | src/pages/ResetPassword.jsx:39-49 | every field goes back to its initial value and the interval stops |
| ResetPassword.ResetPasswordModal.SetEmail | src/pages/ResetPassword.jsx:168 | only the e-mail changes |
| ResetPassword.ResetPasswordModal.CanSendOtp | src/pages/ResetPassword.jsx:173-176 | the send button can be pressed iff an e-mail is typed, no OTP has gone out, and no send is in flight (the `loading` state) |
| ResetPassword.ResetPasswordModal.HandleSendOtp | src/pages/ResetPassword.jsx:62-64 | the sending flag goes up; nothing else changes |
| ResetPassword.ResetPasswordModal.SendOtpSettled | src/pages/ResetPassword.jsx:65-83 | success marks the OTP sent, stops the spinner, blocks resending and starts the countdown; failure stops the spinner and leaves `otpSent` and the countdown as they were |
| ResetPassword.ResetPasswordModal.ResendOtp | src/pages/ResetPassword.jsx:132-136 | a send starts exactly when resending is not blocked |
| ResetPassword.ResetPasswordModal.VerifyOtpSettled | src/pages/ResetPassword.jsx:86-102 | success marks the OTP verified; failure changes nothing |
| ResetPassword.ResetPasswordModal.OnPasswordChange | src/pages/ResetPassword.jsx:229-232 | the error always matches the checker's verdict on the new value |
| ResetPassword.ResetPasswordModal.HandleResetPassword | src/pages/ResetPassword.jsx:105-112 | the change request is made iff the password passes the checker; otherwise the error is set and nothing is requested |
| ResetPassword.ResetPasswordModal.ChangePassSettled | src/pages/ResetPassword.jsx:113-129 | success closes the modal and resets every field; failure changes nothing |
| ResetPassword.ResetPasswordModal.ChangeEmail | src/pages/ResetPassword.jsx:138-144 | clears `otpSent`, `verified` and the countdown back to 60, and keeps the e-mail and password |
| JsText.Trim | src/pages/Register.jsx:32 | the trimmed value is a slice of the input with only whitespace cut from the two ends, and neither starts nor ends with whitespace |
| JsText.JsLength | src/pages/Register.jsx:38 | `length` counts UTF-16 code units: between the number of characters and twice it, two for one character above U+FFFF |
| JsText.LengthIsSizeIffBmp | src/pages/Login.jsx:32 | `length` equals the number of characters iff no character lies above U+FFFF |
| JsText.TrimmedAtLeastTwo | src/pages/Register.jsx:32 | the trimmed value is at least two code units long iff the value holds two non-whitespace characters or one character above U+FFFF |
| Register.UsernameError | src/pages/Register.jsx:31-34 | no error iff the trimmed value is at least two UTF-16 code units long; otherwise the username message |
| Register.UsernameNeedsTwoVisibleCharacters | src/pages/Register.jsx:31-34 | a username passes iff it holds two non-whitespace characters or one character above U+FFFF |
| Register.ConfirmPasswordError | src/pages/Register.jsx:39-40 | no error iff the confirmation equals the password |
| Register.Validate | src/pages/Register.jsx:30-41 | the form submits iff all four rules hold, with the password needing six UTF-16 code units of any kind |
| Register.SubmitSettled | src/pages/Register.jsx:44-73 | success gives the green notice and goes to "/login"; failure stays and gives the red notice with the server's message, or "Email already exists or registration failed." when it is missing or empty |
| JsText.EmailCheckMatchesPattern | src/pages/Login.jsx:30 | the executable e-mail check agrees with `^\S+@\S+$` |
| FormRules.EmailFormatError | src/pages/Login.jsx:29-30 | no error iff the value matches `^\S+@\S+$` |
| FormRules.EmailRejections | src/pages/Register.jsx:35-36 | whitespace anywhere, no '@', or '@' only at either end is rejected |
| FormRules.PasswordLengthError | src/pages/Register.jsx:37-38 | no error iff the password is at least six UTF-16 code units long, of any kind: six characters always pass, fewer than three never |
| Login.Validate | src/pages/Login.jsx:28-33 | the form submits iff the e-mail has the pattern's shape and the password is six UTF-16 code units long; whitespace or a missing '@' in the e-mail blocks it |
| JsText.OrElse | src/pages/Login.jsx:55-57 | the server's message when it is present and non-empty, else the fallback ("Invalid email or password." here, "Email already exists or registration failed." at src/pages/Register.jsx:63-65) |
| Login.StoreSession | src/pages/Login.jsx:51 | the serialised response is stored under "user" and every other key is kept |
| Login.SubmitSettled | src/pages/Login.jsx:36-68 | success gives the green notice, stores the session under "user" and goes to "/"; failure leaves the storage and the page as they were and gives the red notice with the server's message, or "Invalid email or password." when it is missing or empty |
| InvalidPage.GetMessage | src/pages/Invalid.jsx:81-96 | each of the five known reasons gets its own message; the fallback appears iff the reason is missing or unknown |
| InvalidPage.MessagesTellReasonsApart | src/pages/Invalid.jsx:81-96 | a known reason's message is shown for that reason only |
| AuthContext.FindUser | src/context/AuthContext.jsx:10-12 | finds nothing iff no user has both credentials; otherwise the first such user |
| AuthContext.SeedAcceptsOnlyDemoCredentials | src/data/mockData.js:1-8 | against the seed users only the demo credentials sign in |
| AuthContext.AuthProvider.constructor | src/context/AuthContext.jsx:7 | nobody is signed in at first |
| AuthContext.AuthProvider.Login | src/context/AuthContext.jsx:9-18 | signs in the first matching user, or rejects with "Invalid credentials" and keeps the session |
| AuthContext.AuthProvider.Logout | src/context/AuthContext.jsx:20-22 | nobody is signed in afterwards |
| AuthContext.AuthProvider.IsAuthenticated | src/context/AuthContext.jsx:26 | true iff a user is signed in |
| AppRoutes.PrivateRoute | src/App.jsx:30-37 | redirects to "/login" iff nobody is signed in, else renders its outlet |
| AppRoutes.PublicRoute | src/App.jsx:40-47 | redirects to "/" iff someone is signed in, else renders its outlet |
| AppRoutes.GuardsAreComplementary | src/App.jsx:30-47 | in every session exactly one guard lets its outlet through |
| AppRoutes.Resolve | src/App.jsx:63-84 | each page is shown at its own path only: the dashboard at "/" and the create form at "/new" iff signed in, login and register iff a visitor, the error page and the redirect page (with the path's code) to anyone; a visitor at "/" or "/new" is sent to "/login" |
| AppRoutes.OpenRoutesReachable | src/App.jsx:71-72 | the redirect and error pages show in every session state |
| AppRoutes.UnknownPathsGoHome | src/App.jsx:83 | a path goes home iff it is outside the table, or is login or register with someone signed in |
| AppRoutes.SettlesWithinTwoRedirects | src/App.jsx:63-84 | every path settles on a page within two redirects, and a visitor never lands on a private page nor a user on login or register |
| MasterKey.MasterKeyModal.constructor | src/pages/MasterKey.jsx:12-24 | the modal opens iff no non-empty key is stored; otherwise the callback, if any, receives the stored key |
| MasterKey.MasterKeyModal.SetAcknowledged | src/pages/MasterKey.jsx:90-94 | only the acknowledgement changes |
| MasterKey.MasterKeyModal.EditKey | src/pages/MasterKey.jsx:102-105 | editing the key clears the error |
| MasterKey.MasterKeyModal.Submit | src/pages/MasterKey.jsx:26-39 | a key under six UTF-16 code units sets the error, writes nothing and keeps the modal open. A longer one is stored under "masterEncryptionKey", given to the callback, and closes the modal |
| MasterKey.MasterKeyModal.RequestDismiss | src/pages/MasterKey.jsx:44-56 | outside click and Escape change nothing, so the modal stays open |
| MasterKey.MasterKeyModal.FormShown | src/pages/MasterKey.jsx:89-97 | the key form shows iff the modal is open and the warning is acknowledged |
| MasterKey.MasterKeyModal.SubmitEnabled | src/pages/MasterKey.jsx:113 | saving is enabled iff the form is shown and the key is non-empty |

## Findings

| source | as written | input that shows it | evidently intended | confidence | as-written member | corrected member |
|---|---|---|---|---|---|---|
| src/pages/Dashboard.jsx:118 | the short URL shown, copied, opened and encoded as a QR code is `origin/code` | code "abc123": the path `/abc123` matches only the `*` route of src/App.jsx:83, which navigates to "/" | `origin/r/code`, the path of the redirect route at src/App.jsx:71 | medium (not executed; a server-side rewrite in front of the app would hide it) | AppRoutes.ShortUrlMissesRedirectRoute | AppRoutes.RedirectUrlReachesRedirectPage |

## Left out

- The cipher: AES from a foreign library is a parameter of type `(string, string) -> string`, and no round trip is claimed. `decryptUrl` is not modelled.
- `new URL(value)` is a parameter `parsesAsUrl`, standing for the URL parser.
- The random id and the random short code are parameters, and so are the random bytes behind the generated key.
- Dates are integer milliseconds:
  - `toISOString`, `toLocaleString`, `formatDate` and `Date` parsing are left out;
  - a `createdAt` that does not parse (NaN) is not modelled;
  - `setDate` is modelled as adding whole days of 86 400 000 ms, ignoring daylight-saving shifts.
- NewLink.NewLinkPage.HandleSubmit: models the intended binding of the import at `src/pages/NewLink.jsx:19` to the `linkServiceOld` object. As written, the module names an export that `src/services/linkService.js` does not have, so the page fails to load or every submit ends in the catch branch at lines 101-107. The model does not force that outcome; its `rejected` case is that branch.
- LinkStore.LinkService.GetUserLinks: returns a copy of the table. The source returns the live module-level array, so a caller would see later changes; no caller in the model depends on that aliasing.
- NewLink.FormValues: `expiryDays` is the parsed number of days, so `parseInt` on the select's string is not modelled.
- Dashboard.SortNewestFirst: stability is left unproved. `Array.prototype.sort` is stable, and so is the insertion sort of the model, but the contract states only the order by `createdAt` and the permutation, not the order of links with equal `createdAt`.
- AppRoutes.Resolve: the router's case-insensitive matching, trailing-slash and query/fragment handling, and path decoding are left out. Paths are lists of segments.
- AppRoutes.Segments drops empty segments, standing for the router's path normalisation.
- MasterKey.MasterKeyModal.constructor: the mount effect's re-run when the callback changes is not modelled.
- Notifications, `setTimeout` delays, resize listeners, spinners on buttons, the QR modal, and all rendering are left out.
- The HTTP services `src/services/LinkService.jsx`, `src/services/linkService.js` and `src/services/UserService.js` are not part of this model. Their calls become the settled outcomes passed to the handlers.
- `src/pages/Redirect.jsx`, `src/pages/Layout.jsx`, `src/pages/ForgotPassword.jsx` and `src/pages/PublicRoute.jsx` are not part of this model.
- ResetPassword.ResetPasswordModal: `passErr` is `None` for both the initial "" and the checker's `null`, since both show no error.
- ResetPassword.ResetPasswordModal.ChangePassSettled: the `close()` callback is represented by the returned flag.
- The countdown interval is the `ticking` field. `interval.start()` on an already running interval does not restart it.
- AuthContext.AuthProvider: the React context plumbing and `useAuth`'s error when used outside the provider are left out.
