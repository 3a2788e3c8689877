# JSONPlaceholder user browser: a Dafny model of its component logic

The application lists users from the JSONPlaceholder API. It shows each user on a
card (`UserItem`) and gives each user a detail page (`UserIdPage`). A separate
login / registration form (`LoginPage`) validates its fields and simulates a
two-second request. This project models the logic of those three components and
proves properties about it:

- `jstext.dfy` (module `JsText`): the JavaScript string primitives the components use.
  That means the `\d` and `\s` classes, `replace(/\D/g, "")`, `split(" ")`,
  `join`, ASCII `toUpperCase` and `slice(0, n)`, and the truthiness of a
  `string | null`. It also holds two character searches that the address parser in
  `UserIdPage` uses to read an address line back.
- `timers.dfy` (module `Timers`): `setTimeout(…, 2000)` on a discrete millisecond clock.
  The components never cancel a timer, so pending resets form a queue ordered by deadline.
- `useritem.dfy` (module `UserItem`): the Brazilian phone format `(XX) XXXXX-XXXX`,
  `getInitials`, and the card's two "copied" flags with their reset timers and feedback text.
- `useridpage.dfy` (module `UserIdPage`): the address line, and `fetchUser` as a state
  transition over `user` / `loading` / `error`. The network reply is a parameter.
  It also covers the choice between the loading, error and profile views, and the
  single `copiedField` slot with its resets.
- `loginpage.dfy` (module `LoginPage`): the email pattern `\S+@\S+\.\S+`, `validateForm`,
  `handleInputChange`, `handleSubmit` and the three ways the form reaches it (the main
  button, which is disabled while loading; "Esqueci minha senha"; Enter), the simulated
  requests' timers, and the login / register toggle.

Where the components keep state, they are classes. Their methods change only the
fields the component's handlers change. A method that lets the clock run fires the
due resets in a `while` loop.

Three behaviours of the code shape the model:

- Copying again does not restart the two-second window. Every copy schedules its own
  reset and none is cancelled, so the first reset still clears the flag or slot on
  time (`UserItem.RecopyDoesNotExtend`, `UserIdPage.EarlierResetClearsLaterCopy`).
- The error view is chosen by `error || !user` with JavaScript truthiness. An empty
  error string therefore counts as no error.
- `handleSubmit` does not check `isLoading`, and only the main button is
  `disabled={isLoading}`. In login mode the form also holds "Esqueci minha senha", a
  button with no `type` and so a submit button that is never disabled; it is the
  form's default button, so pressing Enter submits through it too. Several simulated
  requests can therefore be in flight, and the first timer to fire ends loading while
  later requests are still pending (`LoginPage.EarlyTimerEndsLaterRequest`). Each of
  these submissions first passes the browser's constraint validation: the email field
  has `type="email"` and the form has no `noValidate`. A non-empty email that the
  browser does not accept as an e-mail address stops the submission before
  `handleSubmit` runs (`LoginPage.BrowserAccepts`).

## Model

| member | source | states |
|---|---|---|
| JsText.IsDigit | src/components/UserItem.tsx:34-35 | `\d` is exactly the ten ASCII digits, so `\D` is every other character |
| JsText.IsSpace | src/pages/LoginPage.tsx:52 | `\s` is the ECMAScript WhiteSpace and LineTerminator set: tab, line feed, vertical tab, form feed, carriage return, space, U+00A0, U+1680, U+2000–U+200A, U+2028, U+2029, U+202F, U+205F, U+3000 and U+FEFF; `\S` is its complement |
| JsText.Digits | src/components/UserItem.tsx:34 | the digits kept are no more than the input's characters, and all of them are digits |
| JsText.DigitsAppend | src/components/UserItem.tsx:34 | stripping non-digits distributes over concatenation |
| JsText.DigitsOfAllDigits | src/components/UserItem.tsx:34 | a string of digits is unchanged by the strip |
| JsText.DigitsOfNoDigits | src/components/UserItem.tsx:34 | a string without digits strips to "" |
| JsText.Split | src/components/UserItem.tsx:44 | `split` yields at least one piece, and no piece contains the separator |
| JsText.JoinSplit | src/components/UserItem.tsx:44 | joining the pieces with the separator gives back the original string |
| JsText.ToUpper | src/components/UserItem.tsx:47 | lower-case ASCII letters map to their capitals; every other character is unchanged |
| JsText.Upper | src/components/UserItem.tsx:47 | upper-casing keeps the length and maps each character by `ToUpper` |
| JsText.Prefix | src/components/UserItem.tsx:48 | `slice(0, n)` is a prefix of length min(n, length) |
| JsText.Truthy | src/pages/UserIdPage.tsx:109 | `null` and "" are falsy and every other string is truthy; `ViewOf`, `CopyFeedback` and `FetchUser` use it for `!id`, `error \|\| !user`, `error \|\| "…"` and `copiedField &&` (lines 38, 109, 125, 336) |
| Timers.DueCount | src/components/UserItem.tsx:16 | the timers counted are all due, and the next one (if any) is not |
| Timers.DueCountExact | src/components/UserItem.tsx:16 | in an ordered queue, a timer is counted exactly when its deadline has passed |
| Timers.DueCountStop | src/components/UserItem.tsx:16 | a loop that fires due timers and stops at a future one has fired exactly `DueCount` of them |
| Timers.Schedule | src/components/UserItem.tsx:16 | a new timer `Delay` ahead keeps the queue ordered and within the window |
| Timers.Advance | src/components/UserItem.tsx:16 | after the due timers fire, the rest stay ordered and within the new window |
| Timers.AllDueAfterDelay | src/components/UserItem.tsx:16 | `Delay` after `now` every pending timer is due |
| Timers.TaggedSplit | src/components/UserItem.tsx:16 | a tag in the queue is in the fired part or in the remaining part |
| Timers.TaggedSnoc | src/components/UserItem.tsx:16 | firing one more timer adds exactly its tag to the fired part |
| Timers.DueIsFired | src/components/UserItem.tsx:16 | a timer whose deadline has passed is among the fired ones |
| Timers.FiredPrefix | src/components/UserItem.tsx:16 | a loop that stops after firing the due head of an ordered queue has fired exactly `DueCount` timers, every due one among them, and leaves an ordered queue within the new window; `Delay` after the start nothing is left |
| UserItem.PhonePattern | src/components/UserItem.tsx:35 | on a digits-only string, `/^(\d{2})(\d{5})(\d{4})$/` matches exactly when there are eleven digits |
| UserItem.LayoutDigits | src/components/UserItem.tsx:37 | a string in the layout `(XX) XXXXX-XXXX` is its digits with punctuation inserted |
| UserItem.PhoneLayoutUnique | src/components/UserItem.tsx:37 | two strings in the layout with the same digits are equal |
| UserItem.FormatPhone | src/components/UserItem.tsx:32-40 | `formatPhone`; its contract is carried by `FormatPhoneSpec`, `FormatPhoneKeepsDigits` and `FormatPhoneIdempotent` below |
| UserItem.FormatPhoneSpec | src/components/UserItem.tsx:32-40 | exactly eleven digits give the layout holding those digits; otherwise the phone comes back unchanged |
| UserItem.FormatPhoneKeepsDigits | src/components/UserItem.tsx:32-40 | formatting never changes the digits of a phone |
| UserItem.FormatPhoneIdempotent | src/components/UserItem.tsx:32-40 | formatting a formatted phone changes nothing |
| UserItem.Initials | src/components/UserItem.tsx:42-49 | the initials are at most two characters |
| UserItem.FirstChars | src/components/UserItem.tsx:45-46 | `.map((n) => n[0]).join("")`, where an empty token contributes nothing; `FirstCharsSplit` proves it picks exactly the word starts |
| UserItem.FirstCharsSplit | src/components/UserItem.tsx:43-46 | the first characters of the space-separated tokens are exactly the characters that begin a word |
| UserItem.InitialsAreWordStarts | src/components/UserItem.tsx:42-49 | the initials are the first two word starts, upper-cased |
| UserItem.InitialSource | src/components/UserItem.tsx:42-49 | each initial is the capital of a non-space character at the start of the name or right after a space |
| UserItem.WordStartPosition | src/components/UserItem.tsx:43-46 | each word start sits at a non-space position preceded by a space or the start |
| UserItem.WordStartsAppend | src/components/UserItem.tsx:43-46 | word starts of a concatenation are those of each part, joined |
| UserItem.WordStartsOfWord | src/components/UserItem.tsx:43-46 | a single word has one word start, its first character |
| UserItem.InitialsOfTwoWords | src/components/UserItem.tsx:42-49 | "First Last" gives the capitals of the two first letters |
| UserItem.InitialsExamples | src/components/UserItem.tsx:42-49 | "Leanne Graham" gives "LG", "Madam" gives "M", and "" gives "" |
| UserItem.CardFeedback | src/components/UserItem.tsx:159-163 | feedback is shown exactly when either flag is set, and the email text takes precedence |
| UserItem.CardCopyState.constructor | src/components/UserItem.tsx:9-10 | both flags start lowered, with no pending resets |
| UserItem.CardCopyState.Copy | src/components/UserItem.tsx:12-30 | a successful copy raises its flag and queues a reset `Delay` ahead; a failed one changes nothing |
| UserItem.CardCopyState.AdvanceTo | src/components/UserItem.tsx:16 | the due resets fire, each lowering its own flag; `Delay` after the start every flag is down and nothing is pending |
| UserItem.FireResets | src/components/UserItem.tsx:16 | the resets due at `t` fire in order: the undue rest stays pending, and each flag is lowered exactly when one of the fired resets is its own |
| UserItem.RecopyDoesNotExtend | src/components/UserItem.tsx:12-20 | a second email copy within the window does not postpone the first reset: the flag is down `Delay` after the first copy |
| UserIdPage.SplitAtCommaOf | src/pages/UserIdPage.tsx:89 | splitting `a + ", " + b` at the first comma gives back `a` and `b` when `a` has no comma |
| UserIdPage.SplitAtDashOf | src/pages/UserIdPage.tsx:89 | splitting `a + " - " + b` at its last space, which follows " -", gives back `a` and `b` when `b` has no space |
| UserIdPage.FormatAddress | src/pages/UserIdPage.tsx:88-90 | `formatAddress`; `FormatAddressRoundTrip` proves the line can be read back into its four parts |
| UserIdPage.FormatAddressRoundTrip | src/pages/UserIdPage.tsx:88-90 | the address line can be parsed back into street, suite, city and zipcode when street and suite have no comma and the zipcode has no space |
| UserIdPage.Ok | src/pages/UserIdPage.tsx:49 | `response.ok`: the status is in 200–299 |
| UserIdPage.FetchUser | src/pages/UserIdPage.tsx:36-67 | a run ends loading, never clears an error, changes either the error or the user (never both); the user changes only through a successful JSON reply, and such a reply always stores its value and keeps the earlier error |
| UserIdPage.CaughtMessage | src/pages/UserIdPage.tsx:60 | the `catch` message: an Error's own message, or "Erro desconhecido" for any other thrown value; `ThrownMessage` states it for a rejected fetch |
| UserIdPage.ViewOf | src/pages/UserIdPage.tsx:92-131 | loading view exactly while loading; profile view exactly when not loading, the error is falsy and a user exists; otherwise the error text, falling back to "Usuário não encontrado" |
| UserIdPage.MissingIdIgnoresReply | src/pages/UserIdPage.tsx:38-42 | a missing or empty id never touches the network reply or the user, and shows "ID do usuário não fornecido" |
| UserIdPage.FailedStatusMessage | src/pages/UserIdPage.tsx:49-55 | a non-2xx status keeps the user and shows "Usuário não encontrado" for 404 and "Erro ao carregar usuário" otherwise |
| UserIdPage.ThrownMessage | src/pages/UserIdPage.tsx:59-60 | a rejected fetch records the Error's message, or "Erro desconhecido" for a non-Error value |
| UserIdPage.UnparsableMessage | src/pages/UserIdPage.tsx:56-60 | a 2xx reply whose `json()` throws records the caught message and keeps the user already held |
| UserIdPage.FirstLoadShowsProfile | src/pages/UserIdPage.tsx:57-58 | from the initial state a successful JSON user shows that user's profile |
| UserIdPage.NullUserFallsBack | src/pages/UserIdPage.tsx:109-125 | a successful `null` body records no error yet shows "Usuário não encontrado" |
| UserIdPage.ErrorOutlivesLaterSuccess | src/pages/UserIdPage.tsx:57-63 | once an error is set, a later successful load stores the user but the error view remains |
| UserIdPage.FetchAllInvariants | src/pages/UserIdPage.tsx:36-67 | over any sequence of runs, loading ends after the first, stays ended, and an error is never cleared |
| UserIdPage.SuccessesKeepErrorView | src/pages/UserIdPage.tsx:36-131 | after an error, any number of further successful runs keep showing that error |
| UserIdPage.CopyFeedback | src/pages/UserIdPage.tsx:336-341 | the toast is shown exactly when the slot is truthy; it says "Email copiado!" exactly for "email" and "Telefone copiado!" for any other field |
| UserIdPage.AvatarText | src/pages/UserIdPage.tsx:79-86 | the avatar shows at most two characters, the card's initials of the user's name |
| UserIdPage.DetailPage.constructor | src/pages/UserIdPage.tsx:31-34 | the page starts loading, with no user, no error and an empty copy slot |
| UserIdPage.DetailPage.RunFetch | src/pages/UserIdPage.tsx:37-64 | the imperative fetch with early return, try, catch and finally leaves exactly the state `FetchUser` describes |
| UserIdPage.DetailPage.Copy | src/pages/UserIdPage.tsx:69-77 | a successful copy fills the slot with the field and queues a reset `Delay` ahead; a failed one changes nothing |
| UserIdPage.DetailPage.AdvanceTo | src/pages/UserIdPage.tsx:73 | any reset that comes due empties the slot, whichever field is in it; `Delay` after the start the slot is empty |
| UserIdPage.EarlierResetClearsLaterCopy | src/pages/UserIdPage.tsx:69-77 | after an email copy and a later phone copy, the email's un-cancelled reset empties the slot `Delay` after the email copy, whatever the phone copy `d` ms later put there |
| LoginPage.NonSpaceRun | src/pages/LoginPage.tsx:52 | `\S+`: a non-empty run with no whitespace character |
| LoginPage.WholeMatch | src/pages/LoginPage.tsx:52 | a string matched in full by `\S+@\S+\.\S+`: a run, '@', a run, '.', a run |
| LoginPage.PatternTest | src/pages/LoginPage.tsx:52 | `.test` on an unanchored pattern: some substring is matched in full; `EmailTestExact` proves `LooksLikeEmail` equal to it |
| LoginPage.MatchIsEmailAt | src/pages/LoginPage.tsx:52 | a stretch the pattern matches in full yields an '@' and a '.' that pass the position test |
| LoginPage.EmailAtIsMatch | src/pages/LoginPage.tsx:52 | an '@' and a '.' that pass the position test lie inside a stretch the pattern matches in full |
| LoginPage.LooksLikeEmail | src/pages/LoginPage.tsx:52 | the executable form of `/\S+@\S+\.\S+/.test`; `EmailTestExact` proves it equal to the pattern's meaning |
| LoginPage.EmailAt | src/pages/LoginPage.tsx:52 | an '@' and a '.' around which the pattern matches; `MatchIsEmailAt` and `EmailAtIsMatch` tie it to a full match |
| LoginPage.EmailTestExact | src/pages/LoginPage.tsx:52 | the executable position test accepts exactly the strings in which `\S+@\S+\.\S+` finds a match |
| LoginPage.ExpectedErrors | src/pages/LoginPage.tsx:47-73 | only the four field names can hold errors, every message is non-empty, and a field has an error exactly when its rule fails |
| LoginPage.EmailError | src/pages/LoginPage.tsx:50-54 | the email rule; `ExpectedErrors`, `ValidIff` and `EmailAndPasswordMessages` state its messages |
| LoginPage.PasswordError | src/pages/LoginPage.tsx:56-60 | the password rule; `ValidIff` and `EmailAndPasswordMessages` state when and with which message it fails |
| LoginPage.NameError | src/pages/LoginPage.tsx:62-65 | the name rule, checked only when registering; `ValidIff` and `SignInChecksEmailAndPasswordOnly` state it |
| LoginPage.ConfirmError | src/pages/LoginPage.tsx:66-68 | the confirmation rule, checked only when registering; `ConfirmIndependent` states it |
| LoginPage.ErrorsByField | src/pages/LoginPage.tsx:47-73 | a dictionary that agrees with every field's rule is the expected one |
| LoginPage.ExpectedByInserts | src/pages/LoginPage.tsx:48-69 | the rules applied one conditional insert at a time build the expected dictionary |
| LoginPage.CollectErrors | src/pages/LoginPage.tsx:48-69 | the rules checked one after the other, each inserting its message into a fresh dictionary, build exactly the expected dictionary |
| LoginPage.ValidIff | src/pages/LoginPage.tsx:47-73 | the form passes exactly when the email is present and well formed, the password has at least six characters and, when registering, the name is present and the confirmation matches |
| LoginPage.SignInChecksEmailAndPasswordOnly | src/pages/LoginPage.tsx:62-69 | signing in never reports the name or the confirmation |
| LoginPage.ConfirmIndependent | src/pages/LoginPage.tsx:66-68 | when registering, the confirmation error appears exactly when the passwords differ, whatever the password rules say |
| LoginPage.EmailAndPasswordMessages | src/pages/LoginPage.tsx:50-60 | a missing email or password gets the "obrigatório/a" message, a malformed email "Email inválido", a short password the six-character message |
| LoginPage.BrowserAccepts | src/pages/LoginPage.tsx:165-167 | constraint validation of the `type="email"` field without `required`: an empty email always passes, and a non-empty one passes on the browser's own verdict |
| LoginPage.LoginForm.constructor | src/pages/LoginPage.tsx:29-38 | the form starts in login mode with four empty fields, no errors, not loading |
| LoginPage.LoginForm.InputChange | src/pages/LoginPage.tsx:40-45 | sets the one field; its error, if showing, becomes "" with the key kept; no other error changes |
| LoginPage.LoginForm.ValidateForm | src/pages/LoginPage.tsx:47-73 | the errors become exactly the expected dictionary, and the result says whether it is empty |
| LoginPage.LoginForm.HandleSubmit | src/pages/LoginPage.tsx:75-88 | with no `isLoading` check, the errors become the expected dictionary; a valid form sets loading and appends a timer `Delay` ahead to the pending ones, and an invalid one leaves loading and timers alone |
| LoginPage.LoginForm.Submit | src/pages/LoginPage.tsx:288-290 | the main button is disabled while loading, and the browser blocks a submission whose email it rejects; in either case nothing changes; otherwise the click runs `HandleSubmit`, with its errors, loading flag and new timer |
| LoginPage.LoginForm.ForgotPassword | src/pages/LoginPage.tsx:260-283 | "Esqueci minha senha" exists only in login mode and is never disabled: there, if the browser accepts the email, it runs `HandleSubmit` even while loading; otherwise nothing changes |
| LoginPage.LoginForm.PressEnter | src/pages/LoginPage.tsx:122 | implicit submission through the default button: when the browser accepts the email it runs `HandleSubmit` in login mode always, and in register mode only while the main button is enabled; otherwise nothing changes |
| LoginPage.LoginForm.ToggleMode | src/pages/LoginPage.tsx:351-359 | flips the mode, clears every error and empties the four fields |
| LoginPage.LoginForm.AdvanceTo | src/pages/LoginPage.tsx:83-87 | every due timer fires and sets loading to false even when later requests are still pending; the queue keeps the timers not yet due; by `Delay` after the clock's time at the call, nothing is pending and the form is not loading |
| LoginPage.FireLoadingResets | src/pages/LoginPage.tsx:83-85 | the firing loop leaves the not-yet-due suffix of the queue and loading true only when no timer fired |
| LoginPage.DoubleSubmit | src/pages/LoginPage.tsx:288-290 | on an idle form whose email the browser accepts, a second click on the main button while the first request is in flight changes nothing, and the form is idle again `Delay` after the first |
| LoginPage.EnterWhileLoading | src/pages/LoginPage.tsx:75-88 | in login mode, with an email the browser accepts, Enter 500 ms after a click starts a second request while the first is in flight: loading stays on and two timers are pending |
| LoginPage.EarlyTimerEndsLaterRequest | src/pages/LoginPage.tsx:83-87 | continuing that scenario, a third request started at `t0 + 2100` is still pending when the second request's timer ends loading at `t0 + 2500` |

## Left out

- `src/App.tsx` and `src/main.tsx` (routing, the user list and its fetch, mounting) are not part of this model.
- The network and JSON decoding: `fetch` is replaced by a `Reply` parameter, and a body is either a user, `null`, or a value that makes `json()` throw. The URL built from the id is not modelled.
- The clipboard is replaced by a boolean saying whether `writeText` succeeded. `console.error`, `console.log`, `navigate(-1)`, `window.open`, `mailto:`/`tel:` links and social login are left out because they have no effect on component state.
- Time is a discrete millisecond clock advanced explicitly. Asynchronous interleaving, the order of React state batching, unmounting while a timer is pending, and StrictMode's double effect run are not modelled.
- UserIdPage.DetailPage.RunFetch: models one complete run of `fetchUser`. Two runs whose awaits interleave (a fast id change) are not modelled.
- JsText.ToUpper, JsText.Upper: upper-cases ASCII letters only. JavaScript's full Unicode case mapping (for example `ß` becoming `SS`, which also breaks `Upper`'s length-preserving contract) is not modelled.
- UserItem.Initials: takes `n[0]` and lengths as whole characters, not UTF-16 code units, so a name starting with an astral character is not split the way JavaScript splits it.
- LoginPage.PasswordError: `password.length` counts UTF-16 code units, but the model counts characters. A character outside the Basic Multilingual Plane is a surrogate pair, so JavaScript counts it twice and the model once. For example, three emoji pass the six-character rule in JavaScript but fail it in the model.
- LoginPage.LoginForm.InputChange: keys are plain strings. JavaScript objects' inherited prototype keys (`errors["constructor"]` is truthy) are not modelled.
- `rememberMe`, the password-visibility toggle and every piece of JSX layout and styling are left out; they hold no logic beyond a boolean flip.
- `src/components/ui/button` is not part of this model. `Submit`, `ForgotPassword` and `PressEnter` assume that `Button` renders a plain `<button>` and passes `type` and `disabled` through to it.
- LoginPage.LoginForm.Submit, LoginPage.LoginForm.ForgotPassword, LoginPage.LoginForm.PressEnter, LoginPage.EnterWhileLoading, LoginPage.EarlyTimerEndsLaterRequest: the browser's verdict on the `type="email"` field is a parameter. The HTML grammar of a valid e-mail address, and the browser's trimming of the value, are not modelled. "abc" and "a@b.c." are two emails the browser rejects, so it reports the field itself and neither `errors` nor `isLoading` changes.
- LoginPage.LoginForm.PressEnter: Enter is modelled only as the form's implicit submission. Which field has focus, and keys other than Enter, are not modelled.
