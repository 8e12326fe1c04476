# personal-budget: the account lifecycle and request handlers in Dafny

This project models the server side of the personal-budget application.
It has a Next.js API backed by Prisma over MongoDB, and this project covers:

- the email one-time-code (OTP) account lifecycle: send a code, verify it, register, forgot password, reset password with a code;
- the credential and account handlers (login, profile, validate reset token, delete account);
- the in-memory rate limiter and TTL cache;
- the access-control decision of `middleware.ts`;
- the settings, categories and transactions routes;
- the environment classification of `lib/env-validation.ts` and the `/api/health/env` report.

Each Prisma model a handler writes is a Dafny class holding its rows in insertion order (`seq`) and the next id to hand out:

- `EmailOtps` holds the `emailOTP` rows;
- `Users` holds the users;
- `Categories`, `SettingsRows`, `Transactions` and `Assets` hold their tables;
- `OwnedRows` holds receivables, payables and liabilities.

Each class except `OwnedRows` keeps a `Valid()` invariant: unique ids, plus unique emails for users and one settings row per user. `OwnedRows` has none, because the model only ever removes rows from it (in delete-account).

Each handler is a method whose `modifies` clause names exactly the tables the route writes. Its `ensures` clauses give the response and the whole new state on every path, as functions of the old state: `Issue`, `AfterVerify`, `WithoutPair`, `SetPassword`, `SetProfile`, `WithoutAccount`, `AfterPut`, `Moved`. Lemmas then prove what the routes promise about those functions.

The `OnePerPair` invariant says no two OTP rows share an (email, purpose) pair. It is preserved through every OTP write. A code that matches today therefore matches exactly one row.

Handlers that only read (login, validate-reset-token, the `GET`s of settings, categories and transactions, the middleware, the environment status) are functions.

Parameters stand for what the code reads from outside:

- time is `now` in milliseconds;
- `Math.random` is a `draw` in `[0, 900000)`;
- the mail transport is a three-way outcome (`Working`, `NoTransporter`, `Broken`);
- password hashing and JWT signing and verification are a `Crypto` record of uninterpreted functions;
- `bcrypt.hash` is a function parameter;
- the authenticated identity is an `Option<Claims>`;
- the process environment is a `map<string, string>`;
- the ISO timestamp of the health report is a string.

Ids are natural numbers standing for MongoDB object ids.

The transfer in `POST /api/transactions` adjusts whichever asset ids the body names. It does not check that the assets belong to the caller, and the model reproduces that.

## Model

| member | source | states |
|---|---|---|
| RateLimiter.Step | lib/rate-limiter.ts:3-21 | A call succeeds iff the key is new, its window has passed (strictly: `now > resetTime`) or its count is below the maximum. It never touches another key. A new or expired key gets the entry `{1, now + windowMs}`. A key inside its window and below the maximum keeps its reset time, and its count goes up by one. A denial leaves the map unchanged, reports 0 remaining and carries the stored reset time. A success reports `maxAttempts` minus the new count. Counts stay positive and, with a maximum of at least one, bounded. |
| RateLimiter.ReplayInWindow | lib/rate-limiter.ts:7-21 | Within an open window, the k-th further call succeeds exactly when the stored count plus k is below the maximum. |
| RateLimiter.WindowAdmitsMaxAttempts | lib/rate-limiter.ts:3-21 | Calls inside one fresh window succeed for the first `maxAttempts` and fail after that. |
| RateLimiter.SixthAttemptDenied | lib/rate-limiter.ts:3 | With the defaults (5 attempts per 15 minutes), six calls in one window give five successes and then a denial. |
| RateLimiter.Limiter.RateLimit | lib/rate-limiter.ts:3-21 | The in-place update of the `attempts` map: a new window `{1, now + windowMs}` with `remaining = max - 1`; a denial that leaves the map unchanged with remaining 0 and the stored reset time; or the count increased by one. |
| Cache.Put | lib/cache.ts:4-9 | `set` stores `{data, now + ttl}` under the key and keeps every other entry. |
| Cache.Fetch | lib/cache.ts:11-18 | `get` returns the data iff the key is present and `now <= expiry`. Otherwise it returns nothing and removes the key. Other keys are untouched. |
| Cache.GetAfterSet | lib/cache.ts:4-17 | Reading a key no later than the expiry its `set` gave it returns the stored data and leaves the map as it was. |
| Cache.GetAfterExpiry | lib/cache.ts:13-15 | Reading a key after its expiry returns nothing and removes the key. |
| Cache.SetOverwrites | lib/cache.ts:4-8 | A second `set` of a key replaces the first entirely, expiry included. |
| Cache.SimpleCache.Set | lib/cache.ts:4-9 | The `cache` field becomes the map `Put` describes. |
| Cache.SimpleCache.Get | lib/cache.ts:11-18 | The new map and the result are what `Fetch` describes. |
| Cache.SimpleCache.Clear | lib/cache.ts:20-22 | The map is empty afterwards. |
| Email.GenerateOtp | lib/email.ts:4-6 | The code has six decimal digits, does not start with '0', and has the value `100000 + draw`, so it lies in 100000..999999. |
| Email.GenerateOtpInjective | lib/email.ts:5 | Different draws give different codes. |
| Email.Subject | lib/email.ts:435-436 | The subject is "Verify Your Email - Budgeting App" exactly for EMAIL_VERIFICATION and "Password Reset OTP - Budgeting App" exactly for PASSWORD_RESET. |
| Email.Title | lib/email.ts:437 | The heading is "Verify Your Email" exactly for EMAIL_VERIFICATION and "Reset Your Password" exactly for PASSWORD_RESET. |
| Email.Lead | lib/email.ts:438-440 | The lead line asks to verify the email address exactly for EMAIL_VERIFICATION and to reset the password exactly for PASSWORD_RESET. |
| Email.SendOtpEmail | lib/email.ts:417-570 | The send fails iff the transport throws, and then with the single error "Failed to send OTP email". A delivered or logged mail goes to the given address with the given code, under the subject of the purpose, which defaults to EMAIL_VERIFICATION. A delivered mail also carries that purpose's title and lead line. |
| OtpPurpose.Parse | app/api/auth/send-otp/route.ts:8 | Only the two enum names parse, and each parses to the purpose of that name. |
| OtpPurpose.FromField | app/api/auth/send-otp/route.ts:8 | A missing purpose defaults to EMAIL_VERIFICATION. A present one is accepted iff it is one of the two enum names. |
| OtpTable.RowsFor | app/api/auth/send-otp/route.ts:35-40 | The rows of one (email, purpose) pair, exactly. |
| OtpTable.WithoutPair | app/api/auth/send-otp/route.ts:35-40 | `deleteMany({email, purpose})` keeps exactly the rows of other pairs. |
| OtpTable.WithoutPairSelects | app/api/auth/register/route.ts:70-75 | After deleting a pair, that pair has no rows and every other pair keeps its rows. |
| OtpTable.Issue | app/api/auth/send-otp/route.ts:34-50 | Delete-then-create leaves the new unverified code as the last row, and the table grows by at most one row. |
| OtpTable.IssueKeepsOtherPairs | app/api/auth/send-otp/route.ts:34-50 | Before the new code, the issued table holds exactly the old rows of the other (email, purpose) pairs. |
| OtpTable.IssueSelects | app/api/auth/send-otp/route.ts:34-50 | After delete-then-create, the issued pair holds exactly the new row, and every other pair's rows are unchanged. |
| OtpTable.IssuedRedeemable | app/api/auth/verify-otp/route.ts:17-27 | A freshly issued code matches at time `now` iff `now` is strictly before its expiry. |
| OtpTable.IssueKeepsUnique | app/api/auth/send-otp/route.ts:34-50 | Issuing under a fresh id keeps ids unique and keeps at most one row per pair. |
| OtpTable.FindRedeemable | app/api/auth/verify-otp/route.ts:17-27 | The lookup finds a row with that email, code and purpose that is unverified and expires strictly after `now`. It finds nothing iff no such row exists. |
| OtpTable.MarkVerified | app/api/auth/verify-otp/route.ts:37-44 | Only the row with the id changes, and only its `verified` flag, which becomes true. |
| OtpTable.KeptAfterVerify | app/api/auth/verify-otp/route.ts:47-56 | The clean-up keeps every row of another pair, the exempt row and every unverified, unexpired row. It drops every other row of the pair that is verified or expired (`expiresAt < now`). |
| OtpTable.AfterVerify | app/api/auth/verify-otp/route.ts:37-56 | After the mark-and-clean-up, no row of the pair other than the kept one is verified or expired. |
| OtpTable.AfterVerifyKeepsOtherPairs | app/api/auth/verify-otp/route.ts:47-56 | The rows of every other (email, purpose) pair are unchanged by a verification. |
| OtpTable.AfterVerifyEmptiesPair | app/api/auth/verify-otp/route.ts:37-56 | As written, the verified row itself is deleted, so the pair has no rows left. |
| OtpTable.AfterVerifyKeepingSelects | app/api/auth/verify-otp/route.ts:37-56 | With the corrected clean-up, the pair holds exactly the matched row, marked verified. |
| OtpTable.OnlyIndexSelected | app/api/auth/verify-otp/route.ts:47-56 | Used by the two lemmas above: a filter that selects only row i gives exactly that row. |
| OtpTable.AfterVerifyKeepsNoVerified | app/api/auth/verify-otp/route.ts:37-56 | As written, if no row was verified before a verification, none is afterwards. |
| OtpTable.IssueKeepsNoVerified | app/api/auth/send-otp/route.ts:34-50 | Issuing a code never creates a verified row. |
| OtpTable.FindVerified | app/api/auth/register/route.ts:19-28 | Register's lookup finds an EMAIL_VERIFICATION row of the email that is verified and whose expiry is after `now - 30 min`. It finds nothing iff no such row exists. |
| OtpTable.NoVerifiedMeansNoRegistration | app/api/auth/register/route.ts:19-35 | A table with no verified row never satisfies register's lookup. |
| OtpTable.RegisterAfterVerifyFails | app/api/auth/verify-otp/route.ts:47-56 | As written, after a verification register's lookup fails for that email at every later time. |
| OtpTable.RepeatVerifyFails | app/api/auth/verify-otp/route.ts:17-56 | After a verification the same pair matches no code at any time, so repeating the code fails. |
| OtpTable.RegisterAfterCorrectedVerify | app/api/auth/register/route.ts:19-28 | With the corrected clean-up, register's lookup succeeds for up to 30 minutes after the verification. |
| OtpTable.RepeatCorrectedVerifyFails | app/api/auth/verify-otp/route.ts:17-27 | The corrected clean-up still makes a repeated code fail. |
| OtpTable.MarkVerifiedKeepsUnique | app/api/auth/verify-otp/route.ts:37-44 | Marking a row keeps ids unique and keeps one row per pair. |
| OtpTable.AfterVerifyKeepsUnique | app/api/auth/verify-otp/route.ts:37-56 | A verification keeps ids unique and keeps one row per pair. |
| OtpTable.EmailOtps.DeletePair | app/api/auth/send-otp/route.ts:35-40 | The rows become `WithoutPair` of the old rows, and the invariants hold. |
| OtpTable.EmailOtps.Create | app/api/auth/send-otp/route.ts:43-50 | One row is appended under a fresh id, with the given fields and `verified` false. |
| OtpTable.EmailOtps.Replace | app/api/auth/send-otp/route.ts:34-50 | The rows become `Issue` of the old rows, which keeps one row per pair. |
| OtpTable.EmailOtps.UpdateVerified | app/api/auth/verify-otp/route.ts:37-44 | The rows become `MarkVerified` of the old rows. The result says whether the id existed. |
| OtpTable.EmailOtps.DeleteSpent | app/api/auth/verify-otp/route.ts:47-56 | Exactly the verified or expired rows of the pair are removed, except a kept id. |
| UserTable.FindByEmail | app/api/auth/send-otp/route.ts:18-20 | The lookup finds a row with that exact email, or nothing iff none has it. |
| UserTable.FindById | app/api/auth/profile/route.ts:36-37 | The lookup finds a row with that id, or nothing iff none has it. |
| UserTable.FindByEmailUnique | app/api/auth/profile/route.ts:23-27 | With unique emails, the row found by email is the only holder of that email. |
| UserTable.FindByResetToken | app/api/auth/validate-reset-token/route.ts:15-22 | The lookup finds a row whose reset token matches and whose expiry is strictly after `now`, or nothing iff none exists. |
| UserTable.AddUserKeepsUnique | app/api/auth/register/route.ts:53-67 | Adding a user with a new id and a new email keeps both columns unique. |
| UserTable.NewUser | app/api/auth/register/route.ts:53-67 | The row `user.create` inserts: the given id, email, hash and name, `emailVerified` true, the default role, no reset token or expiry, and `createdAt` the registration time. |
| UserTable.SetPassword | app/api/auth/reset-password-otp/route.ts:51-58 | Only that user's row changes. It gets the new password and null reset token and expiry. |
| UserTable.SetProfile | app/api/auth/profile/route.ts:36-41 | Only that user's row changes, and only its name and email. |
| UserTable.SetPasswordKeepsUnique | app/api/auth/reset-password-otp/route.ts:51-58 | A password reset keeps ids and emails unique. |
| UserTable.SetProfileKeepsUnique | app/api/auth/profile/route.ts:22-41 | A profile change keeps emails unique when no other user holds the new email. |
| UserTable.SetProfileKeepsBound | app/api/auth/profile/route.ts:36-41 | A profile change keeps every id below the next id to hand out. |
| UserTable.ProfileLookups | app/api/auth/profile/route.ts:22-41 | The id lookup succeeding, with the email lookup finding no other user, means exactly that the row exists and no other row holds the email. |
| UserTable.WithoutUser | app/api/auth/delete-account/route.ts:51-53 | The user rows left are exactly those with other ids. |
| UserTable.Users.Create | app/api/auth/register/route.ts:53-67 | The insert fails, changing nothing, iff the email is taken. Otherwise it appends the new verified user with the default role under a fresh id. |
| UserTable.Users.UpdatePassword | app/api/auth/reset-password-otp/route.ts:51-58 | The rows become `SetPassword` of the old rows. The result says whether the id existed. |
| UserTable.Users.UpdateProfile | app/api/auth/profile/route.ts:36-49 | The update succeeds iff the id exists and no other row holds the email. It then applies `SetProfile`; otherwise nothing changes. |
| UserTable.Users.Delete | app/api/auth/delete-account/route.ts:51-53 | The rows become `WithoutUser` of the old rows. The result says whether the id existed. |
| Store.Categories.Create | app/api/categories/route.ts:78-83 | One category is appended under a fresh id, with the draft's fields and the given owner. |
| Store.Categories.CreateMany | app/api/auth/register/route.ts:78-96 | The drafts are appended in order, under consecutive fresh ids, all owned by the user. |
| Store.SettingsRows.Create | app/api/settings/route.ts:96-110 | A user without a row gets one under a fresh id, and the one-row-per-user invariant holds. |
| Store.SettingsRows.Update | app/api/settings/route.ts:133-136 | Exactly the user's row is rewritten by the change, which keeps both keys. |
| Store.Transactions.Create | app/api/transactions/route.ts:126-135 | The transaction is appended under a fresh id. |
| Store.Adjusted | app/api/transactions/route.ts:140-155 | Same length, and every row keeps all its fields except the balance, so owner, name and id stay. The row with the id gains delta in its balance, and every other row is kept unchanged. |
| Store.Assets.Adjust | app/api/transactions/route.ts:140-155 | The balance of the row with the id moves by delta, and no other row changes. The result says whether the id existed. |
| SendOtpRoute.ValidRequest | app/api/auth/send-otp/route.ts:6-9 | `sendOTPSchema`: a valid email, and a purpose that is absent (then EMAIL_VERIFICATION) or one of the two enum names. |
| SendOtpRoute.IssueAndMail | app/api/auth/send-otp/route.ts:30-61 | The pair's rows are replaced by one code `GenerateOtp(draw)` with expiry `now + 600000`. The answer is 500 "Failed to send OTP" when the mail throws, and the row still stays stored; otherwise it is 200. |
| SendOtpRoute.Post | app/api/auth/send-otp/route.ts:11-77 | A bad body gives 400 "Invalid request data". For EMAIL_VERIFICATION only, an existing user gives 400 "User already exists with this email". Neither touches the table. Otherwise the code is reissued as in `IssueAndMail`, using the email exactly as given. |
| Strings.Utf16Length | app/api/auth/verify-otp/route.ts:7 | A string's JavaScript `length`, the UTF-16 code units zod compares, lies between its number of characters and twice that, and is zero only for the empty string. |
| Strings.Utf16LengthBasic | app/api/auth/register/route.ts:8 | Without characters above U+FFFF, the JavaScript length is the number of characters. |
| Strings.ThreeEmojiAreSixUnits | app/api/auth/verify-otp/route.ts:7 | Three characters from above U+FFFF have JavaScript length 6, so `length(6)` accepts them. |
| Strings.ToLower | app/api/auth/forgot-password/route.ts:17 | `toLowerCase` on ASCII: same length, each character lowered, and no upper-case ASCII letter left. |
| Strings.ReplaceFirst | middleware.ts:47 | `replace('Bearer ', '')`: a string starting with the pattern becomes the replacement followed by the rest; one without the pattern is returned unchanged. |
| Validation.IsEmail | app/api/auth/send-otp/route.ts:7 | `z.string().email()`: no leading dot and no `..`, a local part of `A-Z0-9_'+-.` not ending in `'` or `.`, an `@`, then dot-separated labels and a top-level domain of two or more letters. |
| Validation.IsUrl | lib/env-validation.ts:4 | `z.string().url()`: a scheme of a letter followed by letters, digits, `+`, `-` or `.`, then a colon; for http, https, ws, wss and ftp something must follow the slashes. |
| VerifyOtpRoute.ValidRequest | app/api/auth/verify-otp/route.ts:5-9 | `verifyOTPSchema`: a valid email, a code of JavaScript length 6, and a purpose that is absent (then EMAIL_VERIFICATION) or one of the two enum names. |
| VerifyOtpRoute.Post | app/api/auth/verify-otp/route.ts:11-81 | A bad body, or a code whose JavaScript length (UTF-16 code units) is not 6, gives 400 "Invalid request data". No matching row gives 400 "Invalid or expired OTP". Neither changes the table. A match gives 200, and the table becomes `AfterVerify`, which deletes the row just verified as well. |
| VerifyOtpRoute.PostCorrected | app/api/auth/verify-otp/route.ts:11-81 | The same checks and responses as `Post`, the six-unit code length included. A match gives 200, and the clean-up keeps the matched, now verified, row while deleting the pair's other spent rows. |
| RegisterRoute.DefaultCategoriesShape | app/api/auth/register/route.ts:78-96 | Registration adds twelve categories owned by the new user: four INCOME, then eight EXPENSE. |
| RegisterRoute.CreateAccount | app/api/auth/register/route.ts:49-105 | One verified user is appended with the hashed password, the default role and `createdAt` equal to the time of the request. Every EMAIL_VERIFICATION code of the email is deleted while PASSWORD_RESET codes stay. The default categories are added, and the token is signed over exactly `{userId, email, role}`. |
| RegisterRoute.ValidRequest | app/api/auth/register/route.ts:6-11 | `registerSchema`: a valid email, a password of JavaScript length at least 6, a non-empty name, and an `otpVerified` that is absent or a boolean. |
| RegisterRoute.Post | app/api/auth/register/route.ts:6-112 | A body failing the schema gives 500, not 400: an invalid email, a password shorter than 6 UTF-16 code units, an empty name, or an `otpVerified` that is present but not a boolean (its value is otherwise unused). No recent verified code gives 400. A verified code with an existing user gives 400 "User already exists". These are checked in that order and change nothing. Otherwise the writes of `CreateAccount` happen, the new user created at `now`, and the answer is 200. With no verified row at all it never succeeds. |
| ForgotPasswordRoute.IssueResetCode | app/api/auth/forgot-password/route.ts:22-53 | For a found account the pair's rows are replaced by one PASSWORD_RESET code `GenerateOtp(draw)` under the lowercased email, carrying the user's id and expiring ten minutes after `now`. Mailing it cannot change the table. |
| ForgotPasswordRoute.Post | app/api/auth/forgot-password/route.ts:10-76 | A bad email gives 400 "Invalid email address". Any valid email gives the same 200 message. The code table changes only when a user holds the lowercased email: all its PASSWORD_RESET rows are replaced by one new code with `userId` set and expiry `now + 600000`. A mail failure changes nothing in the answer, and EMAIL_VERIFICATION rows are never touched. |
| ResetPasswordOtpRoute.SchemaError | app/api/auth/reset-password-otp/route.ts:6-10 | The first failing field's message, in field order. There is none iff the email is valid, the code has JavaScript length (UTF-16 code units) 6 and the password at least 8. |
| ResetPasswordOtpRoute.Post | app/api/auth/reset-password-otp/route.ts:12-86 | A schema failure gives 400 with the first message. No matching code gives 400. A match with no user gives 404, and the code is kept. None of these changes a table. On success only the user's password and reset fields change, every PASSWORD_RESET code of the lowercased email is gone, and no code for it matches any more. |
| ValidateResetTokenRoute.Post | app/api/auth/validate-reset-token/route.ts:9-48 | An empty token gives 400 "Token is required". Otherwise the answer is 200 "Token is valid" iff some user holds the token with an expiry strictly after `now`, and 400 "Invalid or expired reset token" otherwise. |
| ValidateResetTokenRoute.ExpiredLikeUnknown | app/api/auth/validate-reset-token/route.ts:18-29 | A token whose holders have all expired (expiry <= now) is answered exactly like an unknown token. |
| LoginRoute.LookupFailure | app/api/auth/login/route.ts:33-66 | A failed lookup gives 503 iff it is the query timeout, code P2010 or a "Server selection timeout". Anything else gives 500 "Database error occurred". |
| LoginRoute.ValidRequest | app/api/auth/login/route.ts:6-9 | `loginSchema`: a valid email and a non-empty password. |
| LoginRoute.Post | app/api/auth/login/route.ts:11-102 | A bad body gives 500. Lookup failures answer as `LookupFailure`. Every 401 is the same "Invalid credentials", and with unique emails it happens iff no user of that email has a matching password. A 200 carries the token over `{userId, email, role}` of the found user and the user without the password. |
| LoginRoute.FailuresAlike | app/api/auth/login/route.ts:68-82 | A wrong password is answered exactly like an unknown email. |
| ProfileRoute.ValidRequest | app/api/auth/profile/route.ts:6-9 | `updateProfileSchema`: a non-empty name and a valid email. |
| ProfileRoute.Update | app/api/auth/profile/route.ts:36-54 | 200 iff the caller's row exists and no other user holds the email. The answer then carries `{ id, email, name, role, createdAt }` of the updated row: the new name and email, the row's own id, role and creation time. Only those two columns change. Otherwise the answer is 500 and nothing changes. |
| ProfileRoute.Put | app/api/auth/profile/route.ts:11-68 | No identity gives 401. A bad body gives 400 "Invalid input data". A changed email held by another id gives 400 "Email is already taken". None of these changes anything. Success changes only the caller's name and email and answers with the selected columns, `createdAt` included. It happens whenever the request is valid, the row exists and the email is free. On the remaining path the body is valid and the email not taken by another, but the caller's row is gone or the unique email column refuses the change. There the update throws and the answer is 500 "Internal server error", with nothing changed. |
| DeleteAccountRoute.WithoutAccount | app/api/auth/delete-account/route.ts:14-54 | After the cascade, no settings, transaction, receivable, payable, asset, liability or category row of the user remains and the user row is gone. Every other user's rows remain. |
| DeleteAccountRoute.RunTransaction | app/api/auth/delete-account/route.ts:14-54 | Running the eight statements in order, with the user row last, either commits to `WithoutAccount` or fails as a whole iff a statement throws or the user row is missing. |
| DeleteAccountRoute.Commit | app/api/auth/delete-account/route.ts:14-54 | The writes of a committed transaction: every table becomes its part of `WithoutAccount`. |
| DeleteAccountRoute.Delete | app/api/auth/delete-account/route.ts:5-65 | No identity gives 401. A failing transaction gives 500. Neither changes any table. A commit applies `WithoutAccount` and gives 200. |
| AccountFlow.SendAndVerifyAsWritten | app/api/auth/verify-otp/route.ts:37-56 | Sending a code to a new email and verifying it before it expires succeeds, yet afterwards register's lookup fails at every time. |
| AccountFlow.SendAndVerify | app/api/auth/verify-otp/route.ts:37-56 | With the corrected verification, the same exchange leaves a verified code that register accepts for 30 minutes. |
| AccountFlow.SignUpAsWritten | app/api/auth/register/route.ts:19-35 | Send, verify, register with the route as written always ends in 400 "Email verification required". |
| AccountFlow.SignUp | app/api/auth/register/route.ts:49-105 | Send, corrected verify, register creates exactly the new user and answers 200. |
| Middleware.Refuse | middleware.ts:54-70 | API paths (`/api/`) get a 401 with the given error; every other path is redirected to `/auth/login`. |
| Middleware.ExtractToken | middleware.ts:47-48 | The token comes from the header with "Bearer " removed, or else from the cookie. It is empty exactly when both are missing or empty, and a non-empty header token always wins. |
| Middleware.Decide | middleware.ts:30-82 | A skipped path passes. A 401 happens only on a protected `/api/` path, and a redirect to the login page only on a protected page outside `/api/`. A redirect to the dashboard happens only on a public path whose token verifies. On a protected path the request passes exactly when the token is non-empty and verifies. |
| Middleware.SkippedPasses | middleware.ts:34-45 | A skipped path passes without any token check. |
| Middleware.SkippedPaths | middleware.ts:34-45 | Paths under `/_next`, `/api/auth/login` or `/api/auth/verify-otp`, or containing '.', are skipped. |
| Middleware.ProtectedWithoutToken | middleware.ts:54-61 | A protected path without a token gives 401 "Unauthorized" under `/api/` and a redirect to the login page otherwise. |
| Middleware.ProtectedWithInvalidToken | middleware.ts:63-70 | A protected path with a token that fails verification gives 401 "Invalid token" under `/api/` and a redirect to the login page otherwise. |
| Middleware.ThirdCharacter | middleware.ts:6-28 | Every protected prefix has a third character other than 'u' and every public one has 'u'. |
| Middleware.ProtectedNotPublic | middleware.ts:51-52 | No path is both protected and public. |
| Middleware.ProtectedWithValidToken | middleware.ts:54-81 | A protected path with a valid token passes. |
| Middleware.PublicPage | middleware.ts:74-81 | A public auth page redirects to `/dashboard` iff the token is present and valid, and passes otherwise. |
| Middleware.OtherPathPasses | middleware.ts:54-81 | A path that is neither protected nor public always passes. |
| Middleware.ProtectedByPrefix | middleware.ts:51 | Membership is by prefix: any extension of a protected route, `/dashboardX` included, is protected. |
| Middleware.BearerHeader | middleware.ts:47 | `Authorization: Bearer t` yields the token t, whatever the cookie says. |
| Middleware.BareHeader | middleware.ts:47 | A header without "Bearer " is used whole as the token. |
| Middleware.CookieFallback | middleware.ts:47-48 | The cookie is used when the header is missing or is exactly "Bearer ". |
| SettingsRoute.FindSettings | app/api/settings/route.ts:33-35 | The lookup finds the row of that user, or nothing iff none exists. |
| SettingsRoute.FindSettingsUnique | app/api/settings/route.ts:33-35 | With one row per user, the lookup for a row's user finds that row. |
| SettingsRoute.Get | app/api/settings/route.ts:25-79 | No identity gives 401. Without a row the answer is 200 with the defaults: true, true, false, true and USD, MM/DD/YYYY, system, en. With one, it is the row's eight fields grouped into `notifications` and `app`. |
| SettingsRoute.DefaultRow | app/api/settings/route.ts:96-110 | The row `PUT` creates for the user reads back as exactly the `GET` defaults. |
| SettingsRoute.Patch | app/api/settings/route.ts:112-136 | Both keys are kept. A `notifications` change replaces only the notification group and an `app` change only the app group. |
| SettingsRoute.GetReadsOwnRows | app/api/settings/route.ts:33-35 | What `GET` reports depends only on the caller's own rows. |
| SettingsRoute.WithRowForShape | app/api/settings/route.ts:92-110 | After create-if-missing the caller has a row, which reads as `GET` read before. Other users' rows are untouched and rows stay unique. |
| SettingsRoute.AfterPut | app/api/settings/route.ts:92-136 | A `PUT` adds one row exactly when the caller had none, keeps every other user's row as it was, and keeps each row's user. |
| SettingsRoute.UpdateShape | app/api/settings/route.ts:133-136 | The update patches exactly the caller's row and keeps the others. |
| SettingsRoute.GetAfterPut | app/api/settings/route.ts:81-138 | After a `PUT`, the caller's `GET` shows the old view with the changed group replaced. Every other user's `GET` is unchanged. |
| SettingsRoute.Put | app/api/settings/route.ts:81-152 | No identity gives 401 and an invalid body gives 400 "Invalid input data", both before any write. Otherwise the answer is 200 and the table is the old one with a default row created if missing, then the group updated. |
| CategoriesRoute.NameLessEq | app/api/categories/route.ts:36-38 | The `name: 'asc'` order: the empty name first, then by first character, then by the rest. |
| CategoriesRoute.NameLessEqTotal | app/api/categories/route.ts:36-38 | Any two names are ordered one way or the other. |
| CategoriesRoute.ByNameTotal | app/api/categories/route.ts:36-38 | The name order is total, so the listing can be sorted by it. |
| CategoriesRoute.NameLessEqTransitive | app/api/categories/route.ts:36-38 | The name order is transitive. |
| CategoriesRoute.ByNameTransitive | app/api/categories/route.ts:36-38 | The order on rows by name is transitive. |
| CategoriesRoute.TypeFilter | app/api/categories/route.ts:24-32 | The type filter is INCOME or EXPENSE exactly for those two parameter values. Any other value, or none, adds no filter. |
| CategoriesRoute.List | app/api/categories/route.ts:13-48 | No identity gives 401. Otherwise the answer is 200 with the caller's matching categories, sorted by name ascending, none lost or added (the same multiset). |
| CategoriesRoute.ListSelects | app/api/categories/route.ts:26-39 | A category is listed iff it is the caller's and matches the INCOME or EXPENSE filter when one was asked for. |
| Seqs.SortedByAll | app/api/categories/route.ts:36-38 | Under a transitive order, a list whose neighbours are in order has every earlier element before every later one. |
| CategoriesRoute.ListOrdered | app/api/categories/route.ts:36-38 | In the list `GET` returns, every earlier name comes no later than every later name, not only each name before the next. |
| CategoriesRoute.IsHexColor | app/api/categories/route.ts:9 | `/^#[0-9A-F]{6}$/i`: seven characters, a `#` and six hexadecimal digits of either case. |
| CategoriesRoute.HexColorSamples | app/api/categories/route.ts:9 | On sample colours: `#` plus six hex digits, in upper, lower or mixed case, is accepted; shorter, longer, unprefixed and non-hex samples are refused. The general rule is `IsHexColor`, used by `ParseDraft`'s if-and-only-if. |
| CategoriesRoute.ParseDraft | app/api/categories/route.ts:6-11 | A body is accepted iff the name and icon are non-empty, the type is INCOME or EXPENSE and the colour is `#` plus six hex digits. The draft keeps the given fields. |
| CategoriesRoute.Create | app/api/categories/route.ts:50-98 | No identity gives 401 and an invalid body gives 400 "Invalid data". A name the caller already uses gives 400 "Category name already exists"; other users' names do not conflict. None of these changes anything. Otherwise one category owned by the caller is appended and returned with 201. Per-user name uniqueness is preserved. |
| Decimal.DigitChar | lib/email.ts:5 | The character of a digit d is a decimal digit whose offset from '0' is d. |
| Decimal.DecimalString | lib/email.ts:5 | `toString` of a natural number is a non-empty run of decimal digits. |
| Decimal.DecimalRoundTrip | lib/email.ts:5 | Reading back the decimal form of n gives n. |
| Decimal.DecimalShape | lib/email.ts:5 | A number with k digits prints as k characters with no leading zero. |
| Decimal.DigitRun | app/api/transactions/route.ts:27-28 | The length of the leading run of digits. |
| Decimal.TrimStart | app/api/transactions/route.ts:27-28 | `parseInt`'s leading white space is removed; a text not starting with white space is unchanged. |
| Decimal.ParseDigits | app/api/transactions/route.ts:27-28 | A number is read iff the text starts with a digit. |
| Decimal.ParseInt | app/api/transactions/route.ts:27-28 | `parseInt` gives a number iff, after the leading white space, the text starts with a digit, or with a sign followed by a digit. A negative result comes only from a leading '-'. |
| Decimal.ParseDigitsOf | app/api/transactions/route.ts:27-28 | Reading digits off the decimal form of n, with anything else after it, gives n. |
| Decimal.SignForms | app/api/transactions/route.ts:27-28 | `parseInt` accepts a bare number, a leading '-' (negated) and white space then '+'. |
| Decimal.ParseIntReadsDecimal | app/api/transactions/route.ts:27-28 | `parseInt` of the decimal form of n, with trailing non-digits, gives n; with '-' in front, -n; with " +" in front, n. |
| Decimal.DigitRunOf | app/api/transactions/route.ts:27-28 | The digit run of digits followed by a non-digit is exactly those digits. |
| Decimal.ParseIntNaN | app/api/transactions/route.ts:27-28 | The empty text, letters, a lone sign and a sign-less non-digit give `NaN`. |
| TransactionsRoute.ContainsInsensitive | app/api/transactions/route.ts:40-57 | `contains` with `mode: 'insensitive'`: the search occurs in the text once both are lowered. |
| TransactionsRoute.BuildWhere | app/api/transactions/route.ts:35-65 | The filter always has the caller's id. It has a search iff the parameter is non-empty, and a type or category constraint iff that parameter is present and neither empty nor "ALL". |
| TransactionsRoute.Selected | app/api/transactions/route.ts:35-65 | Only the caller's rows are selected. With no search, type or category parameter, every row of the caller is. |
| TransactionsRoute.CeilDiv | app/api/transactions/route.ts:87 | `Math.ceil(total / limit)`: the least r with `total <= r * limit` for a positive limit, and its mirror for a negative one. |
| TransactionsRoute.Window | app/api/transactions/route.ts:77-78 | `skip`/`take` with a non-negative take returns the slice starting at skip, as long as take and the rows allow. A negative take counts from the end: of the rows that remain once `skip` rows are dropped from the end, it returns the last `|take|`, or all of them when fewer remain. |
| TransactionsRoute.PagingDefaults | app/api/transactions/route.ts:27-28 | Missing or empty page and limit parameters mean page 1 and limit 10. |
| TransactionsRoute.Skip | app/api/transactions/route.ts:33 | `(page - 1) * limit`: page 1 skips nothing, a page from 1 on with a non-negative limit never skips a negative number, and a page below 1 with a positive limit does. |
| TransactionsRoute.Paging | app/api/transactions/route.ts:27-28 | There is a page and a limit iff both `parseInt`s give a number, and then they are those two numbers. |
| TransactionsRoute.TotalPages | app/api/transactions/route.ts:87 | There is a page count iff the limit is non-zero. (A zero limit makes `Math.ceil` give Infinity or NaN, sent as `null`.) |
| TransactionsRoute.PagesCover | app/api/transactions/route.ts:33 | For limit >= 1 and page >= 1, the page is within the page count iff its `skip = (page - 1) * limit` is below the total. |
| TransactionsRoute.SortedSlice | app/api/transactions/route.ts:74-78 | A slice of a sorted list is sorted. |
| TransactionsRoute.SliceMembers | app/api/transactions/route.ts:77-78 | A slice holds only members of the list, each at most as often as the list does (a sub-multiset). |
| TransactionsRoute.PageOf | app/api/transactions/route.ts:68-88 | The page reports the total of the selection and the requested page, with `totalPages` as `TotalPages`. Its rows are the window at `skip` of size `limit` of the selection put newest first (some newest-first permutation of it), as `orderBy`, `skip` and `take` give. So they are newest first and a sub-multiset of the selection. There are as many as the window allows, for a negative limit as well as a non-negative one. |
| TransactionsRoute.Refused | app/api/transactions/route.ts:27-78 | The queries the database refuses: a page or limit that `parseInt` reads as `NaN`, a type outside INCOME, EXPENSE and TRANSFER, or a negative skip. |
| TransactionsRoute.List | app/api/transactions/route.ts:16-95 | No identity gives 401. A query Prisma refuses (NaN page or limit, negative skip, unknown type) gives 500. Otherwise the answer is 200: the total counts the rows matching the filter, every listed row is the caller's and matches it, and the body is the page of the selection. |
| TransactionsRoute.ParseKind | app/api/transactions/route.ts:10 | Only INCOME, EXPENSE and TRANSFER parse, each to the type of that name. |
| TransactionsRoute.ValidInput | app/api/transactions/route.ts:6-14 | `createTransactionSchema` on the modelled fields: a positive amount and a type that is INCOME, EXPENSE or TRANSFER. |
| TransactionsRoute.SumAfterAdjust | app/api/transactions/route.ts:139-156 | Adjusting the balance of an id by delta changes the sum of balances by delta times the number of rows with that id. |
| TransactionsRoute.AdjustKeepsCount | app/api/transactions/route.ts:139-156 | A balance change keeps how many rows have each id. |
| TransactionsRoute.CountUnique | app/api/transactions/route.ts:139-156 | With unique ids, an id occurs once if present and not at all otherwise. |
| TransactionsRoute.TransferKeepsTotal | app/api/transactions/route.ts:139-156 | A transfer takes the amount off the total when the from-asset exists and adds it back when the to-asset exists. When both exist the total is unchanged. |
| TransactionsRoute.Moved | app/api/transactions/route.ts:139-156 | The two updates keep the rows, and every row keeps all its fields except the balance (id, owner and name stay). The from-asset's balance goes down by the amount and the to-asset's up by it, both when they are one asset, and every other row stays as it was. |
| TransactionsRoute.AdjustKeepsPresence | app/api/transactions/route.ts:139-156 | A balance change neither adds nor removes ids. |
| TransactionsRoute.TransferMovesTwoRows | app/api/transactions/route.ts:139-156 | For distinct ids, the from-asset loses the amount, the to-asset gains it, and every other row is unchanged. |
| TransactionsRoute.TwoAdjustsMove | app/api/transactions/route.ts:139-156 | The second update, run on the rows the first produced, completes `Moved` of the original rows and finds `to` iff the original rows hold it. |
| TransactionsRoute.MoveBalances | app/api/transactions/route.ts:139-156 | The assets become `Moved` of the old ones. It reports success iff both ids exist. |
| TransactionsRoute.Create | app/api/transactions/route.ts:97-172 | No identity gives 401. An invalid body (amount not positive, unknown type) gives 400. A category the caller does not own gives 404. None of these changes anything. Otherwise the transaction is appended for the caller, and balances move only for a TRANSFER naming both assets. The answer is 500 when such a transfer names a missing asset, and otherwise 201 with the transaction row (its included category is left out). |
| EnvValidation.DatabaseUrlIssues | lib/env-validation.ts:4 | No issue iff DATABASE_URL is set and is a URL. |
| EnvValidation.JwtSecretIssues | lib/env-validation.ts:5 | At most one issue, and none iff JWT_SECRET is set with a JavaScript length of at least 32 UTF-16 code units. |
| EnvValidation.NodeEnvIssues | lib/env-validation.ts:6 | No issue iff NODE_ENV is missing or one of development, production, test. |
| EnvValidation.NextAuthUrlIssues | lib/env-validation.ts:7 | No issue iff NEXTAUTH_URL is missing or a URL. |
| EnvValidation.EmailFromIssues | lib/env-validation.ts:8 | No issue iff EMAIL_FROM is missing or an email address. |
| EnvValidation.ParsesIff | lib/env-validation.ts:3-11 | The schema accepts the environment iff all five field conditions hold. |
| EnvValidation.Issues | lib/env-validation.ts:3-11 | At most one issue per variable, so at most five, and none iff every variable passes. |
| EnvValidation.Join | lib/env-validation.ts:37 | `join(', ')`: one item is itself, and the result is as long as the items together plus two characters for each separator, beginning with the first item. |
| EnvValidation.DatabaseType | lib/env-validation.ts:22-27 | The type is 'mongodb' iff the URL contains "mongodb". Else it is 'sqlite' iff it contains "sqlite" or ".db", and 'unknown' otherwise. |
| EnvValidation.Database | lib/env-validation.ts:21-32 | `isLocal` holds iff the URL contains localhost or 127.0.0.1. The cloud suggestion is given iff it is local and NODE_ENV is production. |
| EnvValidation.Methods | lib/env-validation.ts:56-61 | Gmail iff EMAIL_FROM contains gmail.com. Custom SMTP iff host and port are both set. SendGrid and Ethereal follow their variables. Any method is the disjunction of the four. |
| EnvValidation.GetEnvironmentStatus | lib/env-validation.ts:17-79 | Valid iff the schema accepts. An invalid status carries the joined issues, no email method and NODE_ENV (or development). A valid one has no error, the methods found, and the parsed environment. Both carry the same database part. |
| HealthEnvRoute.Recommended | app/api/health/env/route.ts:65-97 | The recommendation lines of a status, in the order the route pushes them: the local-MongoDB pair, the SQLite pair, the email lines, the development line, then the database suggestions. |
| HealthEnvRoute.GetRecommendations | app/api/health/env/route.ts:65-97 | The pushes build exactly `Recommended`: the local-MongoDB pair, the SQLite pair, the no-method line, the Ethereal line, the development line, and then the database suggestions. |
| HealthEnvRoute.RecommendedIff | app/api/health/env/route.ts:69-94 | Each recommendation line is present iff its guard holds. |
| HealthEnvRoute.RecommendationGuards | app/api/health/env/route.ts:65-97 | For an environment's status, each line appears iff its guard holds, and the cloud suggestion, when given, comes last. |
| HealthEnvRoute.GuardedWithCloudOnly | app/api/health/env/route.ts:65-97 | For any status whose database suggestion, if any, is the cloud one, each line is present iff its guard holds and the cloud suggestion comes last. |
| HealthEnvRoute.Get | app/api/health/env/route.ts:4-51 | An invalid status gives 500 'invalid' with its error and the three fixed suggestions. Otherwise the answer is 200 'healthy' iff some email method is configured, and 206 'warning' iff none is. The body carries the environment, the database part, the four flags and the recommendations. |
| HealthEnvRoute.Post | app/api/health/env/route.ts:99-103 | Always 405 "Use GET method to check environment status". |

## Left out

- Mail transport and the HTML and text templates of `lib/email.ts` are outside the model. A send is one of three outcomes (delivered, logged because no transporter is configured, or thrown). `sendPasswordResetEmail` and `sendWelcomeEmail` are not modelled.
- `lib/auth` (`hashPassword`, `comparePassword`, `generateToken`, `verifyToken`, `getUserFromRequest`) and `bcrypt.hash` are outside the model, as uninterpreted function parameters and an `Option<Claims>` identity.
- CategoriesRoute.List: `GET` calls `getUserFromRequest(request)` without `await` (app/api/categories/route.ts:15), unlike the other routes modelled here. The model assumes the call returns the identity itself, as an `Option<Claims>`. If it returns a Promise instead, `!user` never holds and `user.userId` is undefined, so the filter would not restrict to the caller. That behaviour is not modelled, because `lib/auth` is not part of this model.
- CategoriesRoute.Create: `POST` likewise calls `getUserFromRequest(request)` without `await` (app/api/categories/route.ts:52). The same assumption is made: the identity is the resolved `Option<Claims>`. A Promise there would make the duplicate check ignore the owner and the create fail with 500, which the model does not capture.
- Email.GenerateOtp: the floating-point `Math.floor(100000 + Math.random() * 900000)` is modelled as `100000 + draw` for an integer draw in `[0, 900000)`.
- Concurrency between requests is not modelled, for example two sends racing between delete and create. Each handler is one sequential run. The non-transactional `Promise.all` of the two balance updates is modelled as the decrement followed by the increment.
- Malformed JSON bodies (`request.json()` throwing) are not modelled, and neither are database failures. The exceptions are the login lookup error, the delete-account transaction fault, and the missing rows an update or delete refuses.
- Validation.IsEmail and Validation.IsUrl (with its helper `StripSlashes`) approximate zod's email and URL checks; they are not its exact regular expressions. Zod's `details` arrays of issues are left out of the 400 bodies.
- ForgotPasswordRoute.Post: the development-only `otp` echo in the response is not modelled, because it reads a variable out of its scope. Only the production response is.
- SettingsRoute.Put: the union schema accepts either group's fields under either `type`. The model takes a request whose fields match its `type`.
- TransactionsRoute.Create: the created transaction is returned with `include: { category: true }` (app/api/transactions/route.ts:132-134); the model's 201 body is the transaction row without the nested category.
- TransactionsRoute.List: the `include: { category: true }` objects in the rows are left out. Transactions with equal dates are not ordered by the model; any order of them counts as newest first.
- TransactionsRoute.List: Prisma refusing a `NaN` page or limit, a negative skip or an unknown type is modelled as the 500 of the catch-all. A negative `take` is modelled as Prisma reads it, counting from the end (`Window`, `PageOf`).
- TransactionsRoute.List: the category parameter is compared as text with the decimal form of a category id. An invalid ObjectId, which Prisma would refuse, is just a value that matches nothing.
- Decimal.ParseInt models `parseInt` for decimal text only: ASCII white space, an optional sign, then digits. A `0x` prefix and non-ASCII white space are treated as plain characters.
- TransactionsRoute.TransferKeepsTotal: amounts and balances are integers (for example cents), while the source holds them as JavaScript numbers. The total is kept exactly only because integer addition does not round; floating-point rounding is not modelled.
- TransactionsRoute.ContainsInsensitive: the `mode: 'insensitive'` search folds only the ASCII letters A to Z. Prisma's insensitive mode also folds other letters (`É` matches `é`), which the model does not. This applies to TransactionsRoute.List and TransactionsRoute.Selected as well.
- Strings.ToLower: `toLowerCase` is modelled on the ASCII letters only. Forgot-password and reset-password apply it to emails that passed `IsEmail`, and the URL check to a scheme that passed `IsScheme`. Both are all ASCII, so there it agrees with JavaScript. The transaction search is the exception (see TransactionsRoute.ContainsInsensitive).
- VerifyOtpRoute.Post: the route reads the clock twice, once for the lookup and once for the clean-up (`new Date()` at lines 24 and 53); the model uses one instant `now` for both. The same holds for VerifyOtpRoute.PostCorrected.
- Dates are integers (milliseconds); `z.string().datetime()` on the transaction date is not checked.
- The `catch` blocks of `getEnvironmentStatus` and of `GET /api/health/env` cannot be reached, because `safeParse` and the status computation do not throw, so they are not modelled.
- Reports, exports, the dashboard, the assets, liabilities, receivables and payables routes, the other health probes and all pages and components are outside the model.
- `lib/logger.ts`, `lib/prisma.ts` and the console output are outside the model.

## Findings

| source | as written | input that shows it | evidently intended | confidence | as-written member | corrected member |
|---|---|---|---|---|---|---|
| app/api/auth/verify-otp/route.ts:47-56 | After marking the matched row verified, the clean-up deletes every verified row of the pair, the one just verified included. Register then looks for a verified EMAIL_VERIFICATION row (app/api/auth/register/route.ts:19-28), which is gone, so sign-up through the OTP routes always fails with 400. | Send a code to a new email, verify it before it expires, then register with that email. | The clean-up removes the other spent rows and keeps the row just verified, so register accepts it for the following 30 minutes. | not executed | VerifyOtpRoute.Post, OtpTable.RegisterAfterVerifyFails, AccountFlow.SignUpAsWritten | VerifyOtpRoute.PostCorrected, OtpTable.RegisterAfterCorrectedVerify, AccountFlow.SignUp |
