# learn-ai sign-in, profile gating and onboarding, in Dafny

This project models the request path of the learn-ai education app. The path
runs from sign-up and sign-in to the student-profile wizard and the lesson
explorer. It also models the small pure helpers around that path. The
database becomes in-memory tables held in sequences. The session, bcrypt, Zod's
e-mail check, uuids, the middleware's own HTTP request and every thrown store
error become inputs.

Modules, one per source file or shared concern:

- `Js`: the JavaScript string semantics the code relies on. It covers
  truthiness, ASCII `toLowerCase`/`toUpperCase`, `startsWith`, `includes`, and
  `split`, which keeps empty pieces.
- `Seqs`: `filter`, `find` / `LIMIT 1`, subsequences and unique key columns.
- `Schema` (`db/schema.ts`): one datatype per table and the insert defaults.
  It also holds the primary keys, unique columns and foreign keys as the
  predicate `Valid`, and the `onDelete: cascade` deletion of a user.
- `ProfileCheck` (`app/api/profile/check/route.ts`): the 401 / 200 / 500
  answers and the `hasProfile` value.
- `Middleware` (`middleware.ts`): the request gate as a decision function.
- `Validator` (`lib/validator.ts`): the three Zod schemas as lists of issues.
- `Profiles` (`lib/actions/profile.actions.ts`): the class `ProfileStore`
  holds the profile table. Its method `CreateStudentProfile` performs the
  upsert.
- `Registration` (`app/api/auth/register/route.ts`): the class `UserTable`
  holds the user table. Its method `Register` is the POST handler.
- `Auth` (`auth.ts`): `authorize`, and the `jwt` and `session` callbacks as
  methods that update a `Token` and a `Session` in place. The session
  lifetime is the constant `SessionMaxAge`, 30·24·60·60 = 2592000 seconds.
- `Lessons` (`lib/actions/lesson.actions.ts`): the search pipeline over the
  two sample lessons, and starting a lesson.
- `PasswordInput` (`components/shared/PasswordInput.tsx`): strength scoring,
  the bar colours, and the component state as the class `Field`.
- `AuthError` (`app/auth/error/page.tsx`), `SiteHeader`
  (`components/site-header.tsx`) and `UserProfileView`
  (`components/auth/user-profile.tsx`).

Two behaviours of the code worth stating first:

- The middleware fails open. When its request to the profile-check endpoint
  throws, or its body is not JSON, the request continues (`FetchFailureFailsOpen`).
- A signed-in user whose profile is complete is not sent away from `/setup`.
  The setup page always continues (`SetupPageAlwaysContinues`).

Behaviour of the code worth knowing, each stated as a lemma:

- The middleware's own request goes to `/api/profile/check`. That path is
  neither public nor the setup page, so the request is itself gated
  (`ProfileCheckPathIsGated`).
- The profile form admits six age brackets. The column type declares three, so
  "14-16" passes the form and is stored outside the declared type
  (`FormAdmitsBracketOutsideColumn`, `UpsertMayStoreUndeclaredAgeGroup`).
- The username pattern's character class holds twelve literal code points
  besides letters, digits, `_` and `-`: U+011F, U+0178, U+0152, U+0161,
  U+20AC, U+201D, U+00A5, U+02C6, U+2019, U+00AB, U+00E2 and U+00AD. These are
  the emoji of the pattern read through the wrong character encoding, and no
  emoji is accepted. The model uses exactly these characters.
- Before any input, the strength indicator starts at score 0 and shows one red
  bar, although no criterion is met. The empty password scores −1 and shows
  none (`InitialIndicatorShowsOneBar`).
- Only the exact lower-case `"all"` switches the category filter off. `"ALL"`
  keeps no lesson (`UpperCaseAllKeepsNothing`).
- The update branch of the profile upsert rewrites every row of the user.
  With two or more such rows, they all get the same username, and the unique
  column rejects the upsert (`UpsertUniqueIff`).
- An e-mail stored with capitals, as an OAuth sign-in may store it, is not found
  by the lower-cased lookup. Registering the same address then succeeds
  (`MixedCaseRowNotFound`).

## Model

| member | source | states |
|---|---|---|
| Js.Lower | app/api/auth/register/route.ts:24 | `toLowerCase` keeps the length and lowers exactly the ASCII capitals |
| Js.Upper | components/site-header.tsx:27 | `toUpperCase` keeps the length and raises exactly the ASCII lower-case letters |
| Js.StartsWith | middleware.ts:17-29 | `startsWith` holds iff the prefix fits and agrees with the string character by character |
| Js.Includes | lib/actions/lesson.actions.ts:65-67 | a string that starts with `sub` includes it |
| Js.IncludesAt | lib/actions/lesson.actions.ts:65-67 | `includes` holds iff `sub` is the slice of the string at some index; the empty string is included in every string |
| Js.Split | components/site-header.tsx:24 | `split` gives at least one piece, no piece holds the separator, and a string without the separator is its own single piece |
| Js.JoinSplit | components/site-header.tsx:24-26 | joining the pieces of a split with the same separator gives back the string |
| Seqs.Filter | lib/actions/lesson.actions.ts:64-68 | the result is no longer than the input and holds exactly the elements that satisfy the condition |
| Seqs.FirstWhere | lib/actions/profile.actions.ts:46-50 | `LIMIT 1` gives no row iff nothing matches, else the first matching row |
| Seqs.FilterIsSubsequence | lib/actions/lesson.actions.ts:59-94 | a filter keeps the remaining rows in their original order |
| Schema.InsertedUser | db/schema.ts:5-15 | an insert that leaves `role` out stores "user"; `password` defaults to null |
| Schema.InsertedProfile | db/schema.ts:135-146 | an insert that leaves `isCompleted` out stores false; school and colour default to null |
| Schema.DeleteUser | db/schema.ts:18-146 | deleting a user leaves topics, quizzes, questions and verification tokens as they were |
| Schema.DeleteUserRemovesEverything | db/schema.ts:18-146 | after the cascade no account, session, character, conversation, progress or profile row refers to the user; other users and their accounts, sessions, characters, progress and profiles are kept, and so are conversations whose user and character survive and messages whose conversation survives |
| Schema.DeleteUserKeepsValid | db/schema.ts:18-146 | the cascade keeps every primary key, unique column and foreign key intact |
| ProfileCheck.ProfileOf | app/api/profile/check/route.ts:22-26 | the row found belongs to the user; none is found iff the user has no row |
| ProfileCheck.CheckProfile | app/api/profile/check/route.ts:7-37 | 401 iff no session user id, 500 iff the query fails, both with `hasProfile:false`; a 200 carries false for no row, else the first row's flag |
| ProfileCheck.HasProfileIff | app/api/profile/check/route.ts:28 | `hasProfile` is true iff there is a session user, the query succeeds and the user's first row is marked completed |
| ProfileCheck.SingleProfileDecides | app/api/profile/check/route.ts:28 | with one profile per user the answer is that profile's flag |
| Middleware.Decide | middleware.ts:5-71 | in the source's order: sign-in iff signed out on a non-public path; home iff signed in on an auth page; setup iff the profile is asked, answers, and `hasProfile` is falsy; otherwise continue |
| Middleware.AuthPagesArePublic | middleware.ts:16-30 | a sign-in or sign-up path is also a public path |
| Middleware.SignedOutGated | middleware.ts:9-24 | without a session, a path outside the three public prefixes goes to `/sign-in` |
| Middleware.SignedOutPublicContinues | middleware.ts:16-24 | without a session, a public path continues and the profile is not asked |
| Middleware.SignedInAuthPageGoesHome | middleware.ts:27-33 | with a session, the sign-in and sign-up pages go to `/`, before any profile check |
| Middleware.SetupPageAlwaysContinues | middleware.ts:36-42 | with a session, exactly `/setup` continues whatever the profile state |
| Middleware.GatedPathFollowsProfile | middleware.ts:57-63 | on a gated path a falsy `hasProfile` (false or null) goes to `/setup`, a true one continues |
| Middleware.FetchFailureFailsOpen | middleware.ts:64-67 | a failing profile fetch never redirects to setup; on a gated path it continues |
| Middleware.UncheckedPathIgnoresProfile | middleware.ts:42-70 | where the profile is not asked, its answer cannot change the outcome |
| Middleware.PrefixMatchingExamples | middleware.ts:16-37 | `/sign-inX` and `/api/authfoo` are public; `/setup/x` is gated |
| Middleware.NoImmediateRedirectLoop | middleware.ts:21-63 | no redirect target triggers the same redirect again |
| Middleware.ProfileCheckPathIsGated | middleware.ts:42-49 | the endpoint the gate asks is itself a gated path |
| Middleware.GateOverProfileCheck | middleware.ts:57-63 | composed with the endpoint, a gated path continues iff the user's first profile row is completed; 401 and 500 both send to setup |
| Validator.MinIssues | lib/validator.ts:8 | a required string field passes iff present and at least the minimum length; issues are attached to that field |
| Validator.EmailIssues | lib/validator.ts:7 | the e-mail passes iff present, well-formed and at least 3 characters |
| Validator.SignInAcceptedIff | lib/validator.ts:6-9 | sign-in accepts exactly a well-formed e-mail and a password of 3 or more characters |
| Validator.SignUpAcceptedIff | lib/validator.ts:12-24 | sign-up accepts exactly four present fields of 3 or more characters, a well-formed e-mail and matching passwords |
| Validator.MismatchReportedOnConfirm | lib/validator.ts:21-24 | a password mismatch is reported on `confirmPassword`, even when other fields are too short |
| Validator.UsernameIssues | lib/validator.ts:27-33 | a username passes iff present, 3 to 20 characters, every character in the pattern's class; its issues are on `username` |
| Validator.AgeGroupIssues | lib/validator.ts:35-37 | an age group passes iff present and one of the six brackets; its issues are on `ageGroup` |
| Validator.SignInIssues | lib/validator.ts:6-9 | every sign-in issue is reported on `email` or `password` |
| Validator.SignUpIssues | lib/validator.ts:12-24 | every sign-up issue is on one of the four fields, and the mismatch issue appears only when all four are present and the passwords differ |
| Validator.ProfileIssues | lib/validator.ts:26-40 | every profile issue is on `username`, `grade` or `ageGroup`; school and colour are never reported |
| Validator.ParseProfile | lib/validator.ts:26-42 | the form parses iff it has no issue, and the parsed data carries the input's username, grade, age group, school and colour |
| Validator.ProfileAcceptedIff | lib/validator.ts:26-40 | the profile form is accepted exactly for a valid username, a non-empty grade and a listed bracket; school and colour never matter |
| Validator.FormAdmitsBracketOutsideColumn | lib/validator.ts:35 | "14-16" passes the form but is not one of the column's three brackets |
| Profiles.Upserted | lib/actions/profile.actions.ts:46-79 | the upsert adds at most one row and leaves the rows of other users where they were, unchanged |
| Profiles.UpdateRowsOf | lib/actions/profile.actions.ts:54-65 | the update rewrites exactly the user's rows, in place, and keeps the table's length |
| Profiles.ProfileStore.UsernameAvailable | lib/actions/profile.actions.ts:13-29 | available iff the query succeeds and no row holds exactly that username |
| Profiles.ProfileStore.CurrentUserProfile | lib/actions/profile.actions.ts:95-118 | null without a session user id or on a query error, else a row of that user, null only when the user has none |
| Profiles.ProfileStore.CreateStudentProfile | lib/actions/profile.actions.ts:34-90 | succeeds iff there is a session user id, the queries succeed and usernames stay unique; on success the table is the upserted one, on failure the rows are unchanged and the message is "Failed to create student profile"; the serial advances exactly when the insert is attempted, even if the unique column rejects it; ids and usernames stay unique |
| Profiles.RejectedInsertSkipsSerial | lib/actions/profile.actions.ts:66-113 | u1 takes "ada", u2 is refused "ada" and then takes "bob": the profile u2 reads back has id 3, because the refused insert used up id 2 |
| Profiles.UpsertKeepsIds | db/schema.ts:136 | the upsert keeps ids unique, every id stays below the next serial value, and an appended row has id `nextId` |
| Profiles.UpsertShape | lib/actions/profile.actions.ts:46-79 | existing rows of the user are all overwritten and nothing is added; otherwise exactly one completed row of the user is appended; other users' rows are unchanged |
| Profiles.UpsertCompletesProfile | lib/actions/profile.actions.ts:62-75 | after the upsert the user's first row is completed with the new username, so the check endpoint answers true |
| Profiles.UpsertUniqueIff | lib/actions/profile.actions.ts:54-78 | the unique username column accepts the upsert iff no other user holds the username and the user owns at most one row |
| Profiles.AvailabilityDecidesCreate | lib/actions/profile.actions.ts:13-90 | an available username lets a user with at most one row complete the upsert; one held by another user makes it fail |
| Profiles.UpsertMayStoreUndeclaredAgeGroup | lib/actions/profile.actions.ts:72 | a form accepted by the schema can store an age group outside the column's declared type |
| Registration.NewUser | app/api/auth/register/route.ts:37-46 | the inserted row has the uuid, the name, the lower-cased e-mail, the hash (never the plaintext) and role "user" |
| Registration.RegisterOutcome | app/api/auth/register/route.ts:8-59 | the status is 201, 400, 409 or 500; every status but 201 leaves the table as it was, and a 201 appends exactly one row |
| Registration.UserTable.Register | app/api/auth/register/route.ts:8-59 | the handler answers and updates the table as `RegisterOutcome` says, keeping ids and e-mails unique |
| Registration.InsertAcceptedIff | app/api/auth/register/route.ts:38-46 | after the e-mail lookup, the insert is rejected only for a uuid already in use |
| Registration.RegisterResponses | app/api/auth/register/route.ts:8-59 | 400 iff a field is missing or empty; 409 iff the lower-cased e-mail is taken; 201 iff neither and nothing throws; each status with its message; the table is unchanged except for the single row a 201 appends |
| Registration.CaseVariantRefused | app/api/auth/register/route.ts:21-46 | after a registration, any case variant of the address gets 409; the stored e-mail is already lower-case and the stored password is the hash |
| Registration.MixedCaseRowNotFound | app/api/auth/register/route.ts:21-31 | a stored e-mail with capitals is not found by the lower-cased lookup, so the same address registers again |
| Auth.Authorize | auth.ts:34-70 | null for a missing field or any error; a result is the stored user with the lower-cased e-mail, a non-empty password and a matching comparison |
| Auth.AuthorizeIff | auth.ts:39-65 | with unique e-mails, authorize succeeds iff the lower-cased e-mail names a user with a stored password the submitted one matches |
| Auth.RegisterThenAuthorize | auth.ts:41-65 | a user who just registered signs in with the same password and any case variant of the e-mail, getting {id, name, e-mail, no image} |
| Auth.WrongPasswordRejected | auth.ts:51-58 | a password the comparison rejects never signs in |
| Auth.Token.OnJwt | auth.ts:74-79 | the token takes the user's id when a user is present, else is unchanged |
| Auth.Session.OnSession | auth.ts:80-85 | the session user takes the token's id when both are truthy; nothing else changes |
| Auth.SignInCarriesId | auth.ts:74-85 | after authorize and both callbacks, the session carries the authorised user's id |
| Lessons.ParseNumber | lib/actions/lesson.actions.ts:81-82 | `Number("")` is 0 and an unsigned numeral is non-negative |
| Lessons.ParseDecimal | lib/actions/lesson.actions.ts:82 | parsing the decimal form of a natural number gives it back |
| Lessons.InGradeRange | lib/actions/lesson.actions.ts:79-85 | a lesson is in range only if the grade is a number and the lesson's range holds a hyphen; a range without an upper bound keeps nothing |
| Lessons.SearchIn | lib/actions/lesson.actions.ts:54-99 | the result is drawn from the lessons, no longer than them, and equal to them when no filter is active |
| Lessons.SearchLessons | lib/actions/lesson.actions.ts:54-99 | the search returns sample lessons only, at most both of them |
| Lessons.SearchIsFilter | lib/actions/lesson.actions.ts:54-99 | the search equals one filter by all active conditions: an order-preserving subsequence holding exactly the matching lessons |
| Lessons.NoParamsReturnsAll | lib/actions/lesson.actions.ts:59-94 | without parameters every sample lesson is returned |
| Lessons.SampleGradeRanges | lib/actions/lesson.actions.ts:79-85 | for every grade string, lesson 1 keeps it iff it reads as a number from 1 to 2, lesson 2 iff from 1 to 3 |
| Lessons.GradeFilterExamples | lib/actions/lesson.actions.ts:79-85 | grade "3" keeps only lesson 2; grade "1" keeps both |
| Lessons.UpperCaseAllKeepsNothing | lib/actions/lesson.actions.ts:72-76 | category "ALL" is compared like any other value and keeps no lesson |
| Lessons.StartLesson | lib/actions/lesson.actions.ts:104-144 | succeeds iff a sample lesson has that id, returning it; otherwise "Failed to start lesson" |
| Lessons.StartLessonFindsIt | lib/actions/lesson.actions.ts:112 | each sample id starts its own lesson; id 3 fails |
| PasswordInput.CheckPasswordStrength | components/shared/PasswordInput.tsx:38-50 | each flag holds iff its criterion does (length ≥ 8, a capital, a lower-case letter, a digit, a listed symbol) and −1 ≤ score ≤ 4 |
| PasswordInput.ScoreCountsCriteria | components/shared/PasswordInput.tsx:48 | the score is the number of criteria met minus one |
| PasswordInput.Bars | components/shared/PasswordInput.tsx:94-106 | five bars, the bar at index i coloured iff i is at most the score |
| PasswordInput.BarColor | components/shared/PasswordInput.tsx:94-106 | a bar is coloured iff its index is at most the score |
| PasswordInput.StrengthBars | components/shared/PasswordInput.tsx:94-106 | the number of coloured bars equals the number of criteria met, all in the score's colour |
| PasswordInput.StrengthExamples | components/shared/PasswordInput.tsx:41-48 | the empty password scores −1; "Secret#2024" scores 4 |
| PasswordInput.InitialIndicatorShowsOneBar | components/shared/PasswordInput.tsx:29-36 | the initial state shows one red bar with no criterion met |
| PasswordInput.Field.InputType | components/shared/PasswordInput.tsx:67 | the input type is "text" iff the password is shown, else "password" |
| PasswordInput.Field.ToggleLabel | components/shared/PasswordInput.tsx:81 | the label reads "Hide password" iff the password is shown |
| PasswordInput.Field.HandleChange | components/shared/PasswordInput.tsx:52-59 | the strength is recomputed only with the indicator on; the value is forwarded only when a handler was given |
| PasswordInput.Field.Toggle | components/shared/PasswordInput.tsx:80 | toggling flips visibility and nothing else |
| PasswordInput.ToggleTwiceRestores | components/shared/PasswordInput.tsx:52-80 | toggling, typing and toggling again restores the input type and shows the typed password's strength |
| AuthError.ErrorMessage | app/auth/error/page.tsx:12-45 | an absent or unknown code gives the unknown-error message and a known one never does; the initial message is never the result |
| AuthError.KnownCodeMessages | app/auth/error/page.tsx:15-42 | each of the nine codes shows its own message; "CredentialsSignin" shows "Invalid email or password" |
| SiteHeader.FirstChars | components/site-header.tsx:25-26 | one character at most per piece |
| SiteHeader.WordInitials | components/site-header.tsx:23-26 | the split-map-join chain never yields a space: each character it keeps begins a piece of the name |
| SiteHeader.WordStarts | components/site-header.tsx:23-26 | the reference definition of the word initials holds no space and is no longer than the name |
| SiteHeader.WordInitialsAreWordStarts | components/site-header.tsx:23-26 | the split-map-join chain takes exactly the first character of every word, in order; runs of spaces add nothing |
| SiteHeader.Initials | components/site-header.tsx:22-29 | at most two characters, no lower-case letter, "AI" for an absent or empty name |
| SiteHeader.InitialsOfWords | components/site-header.tsx:22-28 | for a name, the initials are its first two word starts, upper-cased |
| SiteHeader.InitialsExample | components/site-header.tsx:22-28 | "al  b c" gives "AB" |
| SiteHeader.ViewFor | components/site-header.tsx:59-116 | no user gives only the `/sign-in` link; a user gives the menu with their name, e-mail and initials |
| UserProfileView.Fallback | components/auth/user-profile.tsx:54-59 | the word starts of the name, not upper-cased or cut; "U" without a name |
| UserProfileView.Select | components/auth/user-profile.tsx:9-75 | loading view iff loading; not-signed-in view linking to `/auth/signin` iff unauthenticated or no session; otherwise the card, with an image iff the user's image is truthy |
| UserProfileView.HeaderInitialsFromFallback | components/auth/user-profile.tsx:54-58 | the header's initials are the card's fallback upper-cased and cut to two characters |

## Left out

- Database and framework I/O. Queries become functions over sequences.
  `revalidatePath`, `console.*`, the response objects beyond status and
  body fields, cookies and redirect URLs beyond their path are left out.
- Row order. A `LIMIT 1` query without `ORDER BY` (the profile lookups) may
  return any matching row. The model returns the first matching row in
  sequence order. This only matters for a user with two profile rows.
- Concurrency. Calls run one after another, so the read-then-write race of the
  profile upsert and of registration is not modelled.
- bcrypt. The hash is a function parameter, so its random salt is not
  modelled. The comparison is a predicate parameter. JWT signing and expiry
  are not modelled.
- Zod's e-mail format check is a predicate parameter. Its message, "Invalid
  email", is modelled, and so are the default messages of the missing-field
  and enum checks.
- Non-string JSON values in request bodies and credentials are not modelled.
  A field is a string or absent.
- In the profile actions, one flag stands for a failing lookup, before anything
  is written. An insert that throws for a reason other than the unique
  username column, such as a lost connection, is not modelled, and neither is
  whether such an insert used up a serial value.
- Timestamps (`createdAt`, `updatedAt`, `new Date()`) and uuid generation
  are not modelled. The uuid is an input.
- The Next.js matcher regex is not modelled. Every path reaching
  `Middleware.Decide` is taken as matched.
- Lessons.ParseNumber: reads only optionally signed decimal integers and "".
  `Number` also parses fractions, exponents, hexadecimal, surrounding
  whitespace and "Infinity", and the model treats those as not-a-number. So
  grade "1.5" keeps no lesson here, while the source keeps lessons whose range
  contains 1.5.
- Unicode. Upper- and lower-casing are ASCII only. Characters stand for UTF-16
  code units, so `n[0]` of a name piece starting with an astral character is
  not modelled.
- JSX, CSS classes other than the strength-bar colours, and icons are not
  modelled.
- The presentational and wrapper files are not modelled: the sign-in and
  sign-out pages, the dashboard, the layouts, the footer, the current-user
  hook, the session route, the user actions and the constants.
