# AI fitness trainer: account, session and posture core in Dafny

This project models the core of an AI fitness-trainer web application:

- **Accounts and tokens** (`routes/auth.js`). Each handler is a pure
  transition from a state to a new state and an outcome: register, login,
  logout, refresh and `/me`. The state is the account registry, where each
  account has one refresh-token slot, plus a freshness counter that tells
  minted tokens apart.
- **Practice sessions** (`App.js`, `models/session.js`):
  - the session schema, with its defaults, validators and pre-save hook;
  - who the views and the `/api/...` handlers think is signed in;
  - the save rule of `/api/save-session`, which also writes a legacy
    progress row;
  - the newest-first queries and the aggregates of `/api/session-history`
    and `/api/accuracy-stats`;
  - the start-up normalisation of the database connection string.
- **Posture scoring** (`python-backend/pose_analyzer.py`): which named
  landmarks are kept from a detection, and the general-posture rule that
  turns them into a score, a feedback line and per-check details.
- **The pose page and the header dialogs**
  (`public/js/pose-session-manager.js`, `public/js/header-auth.js`):
  - the client session state machine (start, analyse, handle a result,
    save, stop);
  - the rating, colour and timer display rules, and the statistics panel;
  - the login and sign-up form handlers and where the page goes next;
  - which dialog opens by itself.

Modules follow the program's structure:

| module | file | models |
|---|---|---|
| `Wrappers` | `wrappers.dfy` | `Option` and `Result` |
| `Text` | `text.dfy` | JavaScript string helpers: `trim`, ASCII `toLowerCase`, `includes`, `startsWith`, number-to-text, `padStart(2, '0')`, `join` |
| `Crypto` | `crypto.dfy` | the signing and password-hashing boundary |
| `Auth` | `auth.dfy` | the handlers of `routes/auth.js` |
| `AuthProperties` | `auth_properties.dfy` | the properties of those handlers |
| `SessionModel` | `session_model.dfy` | `models/session.js` |
| `Analytics` | `analytics.dfy` | the session endpoints of `App.js` |
| `MongoUri` | `mongo_uri.dfy` | `App.js` lines 15-31 |
| `PoseAnalyzer` | `pose_analyzer.dfy` | the Python scorer |
| `SessionManager` | `session_manager.dfy` | the pose page |
| `HeaderAuth` | `header_auth.dfy` | the header dialogs |

`Crypto` is the boundary to the signing and hashing libraries:
- `jsonwebtoken`'s decode, expiry and sign, and the user model's password
  comparison, are uninterpreted function fields of an `Env` value;
- `Env` also carries the two "is this secret set" flags;
- freshness is stated as an explicit assumption, `FreshSerials`: tokens
  minted at distinct counter values are distinct strings.

Behaviour of the handlers worth knowing before reading the contracts:

- `requireAuth` and logout take the `accessToken` cookie first and the
  `Authorization: Bearer` header only when the cookie is absent or empty
  (routes/auth.js:44-46 and 235-237).
- A caller with no identity gets the history and statistics of all stored
  sessions, not an empty list.
- A redirect always answers 302, even where the handler first sets
  `status(400)`, `status(409)` or `status(500)`, because Express's
  `redirect` overrides it. HTML replies are therefore modelled as
  `Redirect(location)`.
- The `/refresh` checks before minting answer JSON 401 even to an HTML
  caller.

## Model

| member | source | states |
|---|---|---|
| Crypto.Verify | routes/auth.js:50-55 | token verification succeeds exactly when the domain's secret is set, the signature checks and the token is live; it then yields the decoded claims |
| Auth.Negotiate | routes/auth.js:9-24 | a caller wants HTML iff its Accept header contains `text/html`, it posts a url-encoded or multipart form, or the query has `redirect=1` or `html=1` |
| Auth.ToSafeUser | routes/auth.js:28-39 | the returned user carries id, username, email, full name, avatar, cover image and both timestamps of the account |
| Auth.SafeUserForgetsSecrets | routes/auth.js:28-39 | two accounts give the same safe user iff they differ at most in password and refresh slot |
| Auth.PresentedAccessToken | routes/auth.js:43-46 | the access credential is the cookie when it is non-empty; otherwise it is present iff the header starts with `Bearer `, and it is the rest of the header |
| Auth.FindAccount | routes/auth.js:163-168 | the lookup returns the first account in insertion order that matches the username or the email, and nothing iff no account matches |
| Auth.RequireAuth | routes/auth.js:41-65 | 401 without a credential, 401 when it does not verify, 401 when its id names no account; otherwise the named account without its secrets |
| Auth.CookieBeatsBearer | routes/auth.js:43-46 | with a non-empty access cookie, changing the Authorization header never changes the authentication result |
| Auth.Me | routes/auth.js:326-328 | `/me` answers 200 with the user exactly when authentication succeeds, and that user is the one authentication found; otherwise 401 with no user |
| Auth.AvatarOf | routes/auth.js:103 | the avatar is the trimmed given value when that is non-empty, else exactly `/images/logo.svg`; it is never empty |
| Auth.Issue | routes/auth.js:198-202 | minting stores the new refresh token in the account's slot, leaves every other modelled field and account as it was, and advances the counter |
| Auth.Admit | routes/auth.js:98-132 | a new account is appended and earlier accounts are unchanged; tokens are issued and stored in its slot iff both secrets are set; a JSON caller gets 201 with the new account's safe user, an HTML caller is redirected to `/` with both secrets set and to `/?login=1&auto=1&registered=1` otherwise |
| Auth.Register | routes/auth.js:74-138 | a missing field gives 400, and a taken username or email gives 409, each leaving the state unchanged; otherwise the normalised account is admitted |
| Auth.Login | routes/auth.js:152-226 | missing fields give 400, an unknown account 404, a wrong password 401 and unset secrets 500; for an HTML caller each refusal is a redirect to the login page instead, and none of them changes the state. On success the slot holds the newly minted refresh token, a JSON caller gets 200 with the safe user, and an HTML caller is redirected to `next` or `/dashboard` |
| Auth.Logout | routes/auth.js:229-283 | logout always succeeds and clears both cookies; only the slot of the account a valid access token names is emptied, and everything else is unchanged |
| Auth.CheckRefresh | routes/auth.js:286-300 | each refusal holds exactly in its own case: no token iff none is presented, invalid iff it does not verify, no owner iff the payload names no account. Success holds iff the token verifies, names an existing account and equals that account's stored token; a mismatch is the remaining case |
| Auth.Refresh | routes/auth.js:286-323 | a failed check gives 401 and no change; a passed check with the access secret set always rotates the slot to a new token and answers 200 or a redirect to `/dashboard`; with the access secret unset nothing changes and the reply is 401 or a redirect to `/auth/login` |
| AuthProperties.NormalizeIdempotent | routes/auth.js:99-100 | a stored (lower-cased, trimmed) username or email is its own lookup key |
| AuthProperties.CaseVariantsNormalizeAlike | routes/auth.js:85-90 | spellings that differ only in letter case are looked up under the same key |
| AuthProperties.RegisterPreservesValid | routes/auth.js:85-105 | registration keeps ids at their positions and usernames and emails unique |
| AuthProperties.HandlePreservesValid | routes/auth.js:74-323 | every POST handler keeps ids at their positions and usernames and emails unique |
| AuthProperties.SlotTransitions | routes/auth.js:74-323 | an existing account's slot only stays, is emptied by logout, or receives the token minted at the current counter value, after which the counter advances |
| AuthProperties.OnlyLogoutEmptiesSlots | routes/auth.js:247-248 | an occupied slot becomes empty only through logout by the account the access token names |
| AuthProperties.RegisteredSlot | routes/auth.js:107-120 | a fresh account's slot is empty, or holds the refresh token minted for it at the current counter value |
| AuthProperties.HandlePreservesSlotsPredate | routes/auth.js:74-323 | under the freshness assumption, no stored refresh token equals a token that a future counter value will mint |
| AuthProperties.RefreshIsSingleUse | routes/auth.js:298-305 | after a successful refresh, the same refresh token is refused (as a mismatch while it is live) and changes nothing |
| AuthProperties.LogoutRevokesRefresh | routes/auth.js:247-248 | after logout, no refresh request passes the checks for the logged-out account |
| AuthProperties.RegisteredAccountCanLogIn | routes/auth.js:163-202 | a registered account can log in with its username in any letter case; the login finds exactly the new account and fills its slot |
| AuthProperties.RegisterAppends | routes/auth.js:98-105 | registration appends the normalised account and leaves the earlier accounts unchanged |
| AuthProperties.FindFirstByUsername | routes/auth.js:163-168 | the lookup finds the first account with the username |
| AuthProperties.RegisteredIsFoundByUsername | routes/auth.js:163-168 | after registration, a lookup by the new username in any letter case finds the new account |
| AuthProperties.StoredUsernameIsItsOwnKey | routes/auth.js:163-168 | a stored normalised username finds its own account |
| AuthProperties.RegisteredUsernameIsNormalized | routes/auth.js:99-100 | a registered account stores its username and email normalised |
| AuthProperties.SameEmailAnyCaseConflicts | routes/auth.js:85-96 | a second registration with the same email in another letter case gives 409 and changes nothing |
| SessionModel.Errors | models/session.js:6-7 | the validators report a missing accuracy, accuracy below 0, accuracy above 100 and an empty pose name, each exactly when it happens |
| SessionModel.PreSave | models/session.js:22-25 | the pre-save hook sets `updatedAt` to the save time and changes no other field |
| SessionModel.Create | models/session.js:4-25 | a document is rejected iff a validator fails; otherwise the stored record is well formed, keeps the given fields and fills the schema defaults |
| SessionModel.CreateAcceptsExactlyWellFormed | models/session.js:6-7 | creation succeeds iff the accuracy is present and within [0, 100] and the pose name is not empty |
| SessionModel.CreateRoundTrip | models/session.js:4-14 | storing a well-formed record's own fields gives the record back, with only the two timestamps replaced |
| SessionModel.GuestIffNoOwner | models/session.js:5 | a stored session is a guest session iff it was created without a user |
| SessionModel.PreSaveLastWins | models/session.js:22-25 | saving twice equals saving once at the later time, and saving keeps validity |
| Analytics.ViewIdentity | App.js:79-98 | views see a user iff the access cookie is non-empty, the access secret is set and the token verifies; they see only id, username, email and full name |
| Analytics.ApiIdentity | App.js:190-201 | the API handlers identify a user only through a verified access cookie. With the secret set, a verifying cookie always identifies the user named by the token's id |
| Analytics.ViewAndApiAgree | App.js:190-201 | whoever the API serves is the user the views show, with the same id |
| Analytics.OrZero | App.js:207 | JavaScript's `or 0` on a number: the value when it is present and non-zero, otherwise 0 |
| Analytics.OrText | App.js:206-208 | JavaScript's `or fallback` on a text: the text when it is non-empty, otherwise the fallback |
| Analytics.SaveDoc | App.js:204-211 | the save handler hands the schema the caller's identity, the body's values with their fallbacks, no duration and the current date |
| Analytics.SaveSession | App.js:186-234 | a save fails iff the accuracy (absent read as 0) is outside [0, 100], and then both logs are unchanged; otherwise each log gains one record with that accuracy and owner, and earlier records stay |
| Analytics.SavedRecordDefaults | App.js:204-213 | a saved record is well formed and carries the save fallbacks, duration 0 and the current date; it is a guest record iff no one is identified |
| Analytics.SavePreservesStore | App.js:213-220 | saving keeps every session well formed and the dates in order, and the two logs stay in step record for record |
| Analytics.Newest | App.js:251-256 | the query returns min(limit, in-scope count) records, all in scope and all from the log |
| Analytics.NewestWithinLog | App.js:251-256 | as a multiset the query result is contained in the log: no record is returned more often than it is stored |
| Analytics.NewestDescending | App.js:253-254 | on a date-ordered log, the query result is newest first |
| Analytics.NewestTopN | App.js:253-255 | an in-scope record is left out only when the limit is reached, and no returned record is older than it |
| Analytics.NewestPrefix | App.js:303-306 | a query with a smaller limit returns a prefix of one with a larger limit |
| Analytics.NewestAll | App.js:251-256 | when the limit is no smaller than the in-scope count, every in-scope record is returned |
| Analytics.CountExtremes | App.js:252-253 | the number of records the scoped query matches is zero iff no record is in scope, and the log's length iff every record is |
| Analytics.RoundedMean | App.js:260-262 | `Math.round(sum / n)` is the integer m with 2nm ≤ 2·sum + n < 2n(m + 1): the nearest integer, with halves rounded up |
| Analytics.MaxAccuracy | App.js:263-265 | the best accuracy is one of the records' accuracies and no record exceeds it |
| Analytics.Stats | App.js:258-275 | history stats over no records are all zero; otherwise the count, the rounded mean, the maximum and the newest record's accuracy |
| Analytics.SessionHistory | App.js:237-284 | history returns exactly the scoped query limited to ten, newest first on a date-ordered log; its stats are computed over exactly those records |
| Analytics.Today | App.js:308-313 | today's list holds only in-scope records dated at or after local midnight, and every such record of the log |
| Analytics.TodayCounts | App.js:308-313 | each in-scope record dated at or after local midnight appears in today's list as many times as in the log, and no other record appears |
| Analytics.AccuracyStatsOf | App.js:287-333 | today's count and rounded mean (0 when there are none), min(3, in-scope count) recent records, and the newest record's accuracy (0 when there is none) |
| Analytics.AccuracyStatsEndpoint | App.js:301-325 | the statistics endpoint reads the caller's scope, and its recent records are newest first on a date-ordered log |
| Analytics.RecentAreTheThreeNewest | App.js:323 | the recent sessions are the three newest in scope, whatever their scores |
| Analytics.RoundedMeanBounds | App.js:315-317 | the rounded mean of values in [lo, hi] stays in [lo, hi] |
| Analytics.StatsBounded | App.js:258-275 | over well-formed records, average ≤ best ≤ 100, and every statistic is at least 0 |
| Analytics.HistoryExample | App.js:258-275 | scores 50, 70 and 90 saved in that order give count 3, mean 70, best 90 and most recent 90 |
| Analytics.RoundHalfUpExample | App.js:260-262 | the mean of 1 and 2 shows as 2: halves round up |
| MongoUri.ScanDbInPath | App.js:19 | the one-pass scan answers true iff the database-in-path pattern (a slash, a segment without `/` or `?`, then `?` or the end) matches somewhere in the text |
| MongoUri.StripTrailingSlashes | App.js:21 | removes exactly the trailing run of slashes, leaving a prefix that does not end in `/` |
| MongoUri.StripLeadingSlashes | App.js:24 | removes exactly the leading run of slashes, leaving a suffix that does not start with `/` |
| MongoUri.ResolveMongoUri | App.js:15-31 | without a URI the local default is used; with one, `/DB_NAME` is appended iff `DB_NAME` is set and the path names no database; otherwise only leading slashes are removed |
| MongoUri.AppendedNamesDatabase | App.js:19-21 | the appended form itself names a database, so resolving it again appends nothing more |
| MongoUri.DefaultNamesDatabase | App.js:28 | the local default names the `fitness-trainer` database |
| MongoUri.HostOnlyLooksLikeDatabase | App.js:19-20 | for `mongodb://h:1` the pattern matches the host, so `DB_NAME` is not appended |
| MongoUri.SlashEndHasNoDatabase | App.js:19 | a text ending in `/` with no `?` never matches |
| MongoUri.TrailingSlashHasNoDatabase | App.js:19-21 | `mongodb://h:1/` has no database in its path, so `DB_NAME` is appended to it |
| MongoUri.QueryAfterDatabase | App.js:19 | a database segment followed by a query string still counts as a database |
| PoseAnalyzer.NamesOneToOne | python-backend/pose_analyzer.py:97-102 | the 13-entry naming table is one-to-one between indices and names |
| PoseAnalyzer.Extract | python-backend/pose_analyzer.py:92-113 | no detected points give no landmarks; its content is stated by `ExtractKeepsExactlyNamed` |
| PoseAnalyzer.ExtractKeepsExactlyNamed | python-backend/pose_analyzer.py:104-111 | the extracted map has a name iff that name's index was detected, and holds that point under it |
| PoseAnalyzer.ExtractKeepsNamed | python-backend/pose_analyzer.py:97-106 | a full detection keeps exactly the 13 named landmarks |
| PoseAnalyzer.RunChecks | python-backend/pose_analyzer.py:161-206 | running the checks deducts exactly the failed checks' costs and appends each check's message in order |
| PoseAnalyzer.GeneralPosture | python-backend/pose_analyzer.py:145-215 | a missing or poorly seen shoulder or hip gives 20 with the full-body message; otherwise the score is in [45, 100], it is 100 iff all four checks pass, the details report both differences against their thresholds, and the feedback is never the fallback |
| PoseAnalyzer.PenaltyOfChecks | python-backend/pose_analyzer.py:161-206 | the deduction is 15, 10, 20 and 10 for the failed shoulder, hip, upright and stability checks, at most 55 in all |
| PoseAnalyzer.FeedbackIsNotFallback | python-backend/pose_analyzer.py:211-212 | a feedback list that starts with a shoulder message never joins to "Great posture!" |
| PoseAnalyzer.ScoreIsFullLessDeductions | python-backend/pose_analyzer.py:161-209 | a visible body's score is 100 less each failed check's cost; the floor at 0 never applies |
| PoseAnalyzer.FeedbackInCheckOrder | python-backend/pose_analyzer.py:161-212 | the feedback joins one message per check in check order, joined by a bar separator; the upright message appears iff that check fails |
| PoseAnalyzer.AnalyzePose | python-backend/pose_analyzer.py:53-90 | a frame succeeds iff a pose is detected; otherwise accuracy is 0 with no landmarks, and the no-pose or `Analysis error: ` message is given; success gives the extracted landmarks and an accuracy in [20, 100] |
| PoseAnalyzer.AccuracyIsPercentage | python-backend/pose_analyzer.py:53-90 | every reply's accuracy is in [0, 100] |
| SessionManager.StatusMonotone | public/js/pose-session-manager.js:330-335 | a higher score never gets a worse rating |
| SessionManager.StatusBoundaries | public/js/pose-session-manager.js:330-335 | the rating changes exactly at 50, 70 and 85 |
| SessionManager.ColoursAgree | public/js/pose-session-manager.js:245-255 | history rows and the live score use the same colour for the same score |
| SessionManager.SessionDuration | public/js/pose-session-manager.js:359-364 | the duration is 0 before any start, otherwise the whole seconds elapsed, rounded down |
| SessionManager.TimerReadsBack | public/js/pose-session-manager.js:340-344 | parsing the timer label back (minutes, a colon, two-digit seconds below 60) gives exactly the elapsed seconds; the label is five characters iff under 100 minutes |
| SessionManager.StartSession | public/js/pose-session-manager.js:66-86 | starting sets the session active and the clock at now and shows 0; the current accuracy and last analysis are kept |
| SessionManager.AnalyzePose | public/js/pose-session-manager.js:88-127 | a frame is sent iff a session is active; otherwise only the feedback line changes |
| SessionManager.HandleAnalysisResult | public/js/pose-session-manager.js:129-148 | an accepted result sets accuracy (absent read as 0), last analysis, rating and colour; a refused one changes only what is shown |
| SessionManager.SaveSession | public/js/pose-session-manager.js:150-163 | a payload is sent iff a session is active and an analysis was accepted; it carries the current accuracy, the last feedback and landmarks, the fixed pose name and the duration |
| SessionManager.StopSession | public/js/pose-session-manager.js:191-204 | stopping deactivates the session and resets the timer label, keeping the score and last analysis |
| SessionManager.StoppedSessionSavesNothing | public/js/pose-session-manager.js:151-154 | after a stop, nothing is saved or sent for analysis |
| SessionManager.RestartSavesPreviousAnalysis | public/js/pose-session-manager.js:150-163 | after stop and start, a save is sent at once with the previous session's accuracy |
| SessionManager.StatsDisplay | public/js/pose-session-manager.js:285-300 | the panel shows today's count, `--` for a zero or missing average, the best recent score (else the last accuracy) and the number of recent sessions |
| SessionManager.BestOfThreeNewest | public/js/pose-session-manager.js:290-298 | against the statistics endpoint, "best" is at least every one of the three newest scores and equal to one of them; "total" is min(3, count) |
| SessionManager.HandlingKeepsScoreInRange | public/js/pose-session-manager.js:129-137 | handling any pose-service reply keeps the current accuracy within [0, 100] |
| SessionManager.PageSavesAreStored | public/js/pose-session-manager.js:157-163 | a save the page sends with an in-range score is accepted by the server with that accuracy |
| HeaderAuth.SubmitLogin | public/js/header-auth.js:121-137 | an empty trimmed identifier is reported first, then an empty password; an identifier with `@` is sent as email, otherwise as username; the password is not trimmed |
| HeaderAuth.AfterLogin | public/js/header-auth.js:145-156 | after login the page reloads on `/pose` or `/index`, else follows `next` when given, else reloads |
| HeaderAuth.SubmitRegister | public/js/header-auth.js:165-185 | a payload is sent iff the three trimmed fields and the password are non-empty, otherwise "All fields are required" |
| HeaderAuth.AfterRegister | public/js/header-auth.js:193-210 | the page prompts for login iff the reply has no token; otherwise it reloads a protected page, else goes home |
| HeaderAuth.AutoOpen | public/js/header-auth.js:219-227 | a dialog opens by itself iff its flag and `auto` are `1` and the dialog is on the page |
| HeaderAuth.LoginFormSatisfiesServer | public/js/header-auth.js:125-141 | every login the form sends passes the server's required-field check |
| HeaderAuth.RegisterFormSatisfiesServer | public/js/header-auth.js:169-189 | every sign-up the form sends passes the server's required-field check |
| HeaderAuth.PageSignUpNavigation | public/js/header-auth.js:189-210 | a new sign-up from the page gets 201; with a token secret unset the page asks the user to log in |
| HeaderAuth.RegisteredRedirectOpensLogin | public/js/header-auth.js:219-227 | a form sign-up that succeeds without both secrets is redirected by the server to `/?login=1&auto=1&registered=1`, and that address opens the sign-in dialog, not the sign-up one |

## Left out

- Token signing, verification and expiry, and password hashing (`jsonwebtoken`, `bcrypt` in the user model). They are uninterpreted functions of `Env`; `models/user.js` is not part of this model.
- Account timestamps: `createdAt` and `updatedAt` are both the registration time and never change. `models/user.js` is not part of this model, so whether a later `user.save()` (storing or clearing a refresh token) moves `updatedAt` is not modelled, and the `updatedAt` in a login or `/me` reply is the registration time.
- Database I/O: the stores are sequences, and lookups and writes are total. The 500 paths a failing query or write would take (register, login and save catch blocks) are not modelled, except where schema validation causes them.
- Non-string request values: body, query and cookie fields are strings or absent. A number or object where a string is expected, which makes `toLowerCase` throw, is not modelled.
- Letter case: lower-casing is ASCII only. Unicode case mapping is not modelled.
- Flash messages, cookie options and the human-readable `message` texts of JSON replies: only status, redirect target, tokens, user and cookie clearing are modelled.
- The GET pages of `routes/auth.js` and `App.js` (render and redirect only), socket.io, the port retry, the `/api/pose` proxy and `/save-accuracy`. The progress log is modelled only as written by the save handler.
- The Python service's image decoding and MediaPipe/OpenCV detection (a detection is an input), `calculate_angle`, and the stub analysers for other poses.
- PoseAnalyzer.Extract: its own contract states only the empty case; what it keeps is stated by `ExtractKeepsExactlyNamed`.
- Floating point: landmark coordinates are exact reals, so IEEE rounding at the 0.05 and 0.03 thresholds and in the shoulder and hip means is not modelled.
- Accuracy is an integer: a fractional accuracy posted to `/api/save-session`, which the `Number` schema field would store as it is, is not modelled. For integer accuracies, `Math.round(sum / n)` is computed exactly by `RoundedMean`.
- Analytics.Newest: `sort({date: -1})` is modelled by reading the log from its end, so its newest-first property (`NewestDescending`) is stated for a log in date order. The save handler keeps that order (`SavePreservesStore`). Ties and records inserted out of date order are not modelled.
- Analytics.SessionHistory and Analytics.AccuracyStatsEndpoint: newest-first order is promised only for a log in date order, as for `Newest`.
- The record id returned by a save is the record's position in the log, not a database id.
- Serialised landmarks: the server's `JSON.stringify` and the page's copy of the landmark object are treated as one opaque text; `FromService` takes the serialiser as a parameter.
- Clocks: the current time and the local midnight are parameters.
- SessionManager.TimerReadsBack: stated for a non-negative elapsed time; a clock that moves backwards is not modelled.
- The client's asynchronous wiring: DOM updates, button visibility, `fetch` failures and their error messages, the 500 ms refresh after a save, and query-string parsing (parameters are a map).
- The rest of the client scripts (`pose.js`, `pose-auth-protection.js`), the Python HTTP service and the camera detectors: they are not part of this model.
