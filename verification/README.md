# AgroHelp: authorization, sign-in and crop handlers in Dafny

This project models the decision and state-update logic of the AgroHelp
knowledge-base web application. That application has an Express/Mongoose back
end and a React front end. The modelled parts are:

- **Authorization middleware.** `protect` makes a three-way decision on the
  `token` cookie: no token, verification failed, or verified. On a verified
  token it attaches the user record without its password. The role gates
  `admin`, `adminMod` and `adminContributor` are exact-membership tests on
  `req.user.role`, each with a fixed denial message.
- **Passport setup.** `serializeUser` and `deserializeUser` form an id round
  trip. The Google strategy's verify callback finds a user by `googleId` or
  inserts exactly one new record.
- **Crop handlers.** `getCrops`, `getCropById`, `deleteCrop`, `createCrop` and
  `updateCrop` work over a crop collection. `updateCrop` assigns eight fields
  one by one on the fetched document and saves it.
- **Admin user table.** The case-insensitive "some field contains the query"
  filter, the choice of rendered rows, the Promote/Demote buttons and the role
  they send.
- **Login and Register pages.** The redirect derived from the query string,
  the guards that decide whether the API is called, and the state each outcome
  leaves behind.

Collections are maps from id to record. A counter stands for the database's
supply of fresh ObjectIds. Four things outside the code are oracles, passed in
as parameters:

- `jwt.verify` is a function from the token to the decoded id, or None where
  it throws.
- The Google profile and access token are inputs to the verify callback.
- Whether a database call throws is `fault`, the message of the error.
- The front-end API helpers' results are `Reply` values.

State that the source updates in place is modelled as classes:

- the request (`req.user`) and the response (`res.status`, `res.json`);
- the user and crop collections;
- the crop document that `updateCrop` edits;
- each page's React state.

When the decoded id has no record, `protect` sets `req.user` to null and
calls `next` (authMiddleware.js:12-13); it does not answer 401
(`AuthMiddleware.Protect`, case `Verified(None)`). `req.user` is modelled as
three cases: never set (undefined), null, or a user. A missing crop gets
status 400, not 404: the handler sets 404 and then throws into its own
`catch`, which resets the status to 400.

## Model

| member | source | states |
|---|---|---|
| `UserModel.WithoutPassword` | BackEnd/middleware/authMiddleware.js:12 | `select('-password')`: the result has no password and equals the input on every other field |
| `AuthMiddleware.HasToken` | BackEnd/middleware/authMiddleware.js:9 | JavaScript truthiness of the cookie: a token counts exactly when the cookie is present and non-empty; a missing cookie and the empty string both count as no token |
| `AuthMiddleware.Authenticate` | BackEnd/middleware/authMiddleware.js:5-23 | "no token" exactly when the cookie is missing or empty (falsy); "token failed" exactly when verification throws; otherwise verified, with a user exactly when the decoded id is stored |
| `AuthMiddleware.VerifiedUserIsStoredRecordWithoutPassword` | BackEnd/middleware/authMiddleware.js:11-13 | a user attached by `protect` has no password and is otherwise the stored record for the decoded id |
| `AuthMiddleware.Protect` | BackEnd/middleware/authMiddleware.js:5-23 | no token: 401 "Not authorized, no token", no next, `req.user` untouched. Verification throws: 401 "Not authorized, token failed", no next. Verified: `req.user` is the record without password, or null when none exists, and next is called with the status unchanged |
| `AuthMiddleware.DenialMessage` | BackEnd/middleware/authMiddleware.js:30-55 | each gate's fixed message, all opening with "Not authorized as an admin" |
| `AuthMiddleware.DenialMessagesDistinct` | BackEnd/middleware/authMiddleware.js:30-55 | distinct gates have distinct messages (lines 30, 42, 55), so the message tells which gate denied |
| `AuthMiddleware.Check` | BackEnd/middleware/authMiddleware.js:25-57 | every denial carries its gate's fixed message |
| `AuthMiddleware.CheckIsExactMembership` | BackEnd/middleware/authMiddleware.js:25-57 | each gate permits exactly when a user is present and its role is in the gate's table: {admin}, {admin, moderator}, {admin, contributor} |
| `AuthMiddleware.AbsentUserIsDenied` | BackEnd/middleware/authMiddleware.js:26-57 | an undefined or null user is denied by every gate, with that gate's message |
| `AuthMiddleware.AdminPassesEveryGate` | BackEnd/middleware/authMiddleware.js:26-50 | passing `admin` implies passing `adminMod` and `adminContributor` |
| `AuthMiddleware.NoRoleHierarchy` | BackEnd/middleware/authMiddleware.js:34-57 | a moderator fails `admin` and `adminContributor` but passes `adminMod`; a contributor fails `admin` and `adminMod` but passes `adminContributor`; a plain user fails all three |
| `AuthMiddleware.Guard` | BackEnd/middleware/authMiddleware.js:25-57 | the gate reads `req.user` with undefined and null both falsy. Permit: next with the status unchanged; deny: status 401 and the gate's message thrown; `req.user` is never modified |
| `PassportSetup.SerializeUser` | BackEnd/passport-setup.js:11-13 | the session keeps exactly the user's id; `SerializeRoundTrip` is its partner |
| `PassportSetup.DeserializeUser` | BackEnd/passport-setup.js:15-19 | the record stored under the id, or null exactly when there is none |
| `PassportSetup.SerializeRoundTrip` | BackEnd/passport-setup.js:11-19 | for a collection keyed by id, deserializing a stored user's serialized id returns that user |
| `PassportSetup.NewGoogleUser` | BackEnd/passport-setup.js:34-41 | the new record carries the profile's Google id, its first e-mail, its given and family names as first and last name and its picture; no password or access token; the default role |
| `PassportSetup.NewUsernameConcatenatesNames` | BackEnd/passport-setup.js:35 | the username is the given name immediately followed by the family name, with no separator |
| `PassportSetup.UserStore.GoogleVerify` | BackEnd/passport-setup.js:28-48 | existing match: collection unchanged, the matching record is handed on with `accessToken` set on the returned object only. No match: exactly one record built from the profile is inserted under a fresh id, and no other record changes. No e-mail: `done` is never called and nothing changes. A handed-on user always carries the supplied token and deserializes to its stored record |
| `PassportSetup.UserStore.SignInTwice` | BackEnd/passport-setup.js:29-47 | two sign-ins with the same profile insert at most one record between them, change no existing record, and the second hands on a user with that Google id and the second token |
| `CropController.CropDocument.Load` | BackEnd/controllers/cropController.js:107-119 | the fetched document `updateCrop` edits: after loading, `Value()` reads back exactly the stored record; the eight assignments then change only the descriptive fields |
| `CropController.Overwrite` | BackEnd/controllers/cropController.js:110-117 | the saved record has the body's eight fields, absent ones included, and the old id and author |
| `CropController.AllCropsOnePerId` | BackEnd/controllers/cropController.js:7-15 | in a collection keyed by id, a crop is in the `getCrops` answer exactly when it is the record stored under its own id |
| `CropController.CropStore.Fail` | BackEnd/controllers/cropController.js:29-32 | the shared catch block: status 400 and `{message}` with the error's message |
| `CropController.CropStore.GetCrops` | BackEnd/controllers/cropController.js:7-15 | answers with every stored crop and the status unchanged, or 400 with the database's message |
| `CropController.CropStore.GetCropById` | BackEnd/controllers/cropController.js:20-33 | stored id: that crop. Missing id: status 400 (the 404 is overwritten) with "Crop not found". Database error: 400 with its message |
| `CropController.CropStore.DeleteCrop` | BackEnd/controllers/cropController.js:38-52 | stored id: only that key is removed and the reply is "Crop removed". Missing id or database error: collection unchanged, 400 with "Crop not found" or the error's message |
| `CropController.CropStore.CreateCrop` | BackEnd/controllers/cropController.js:57-89 | inserts exactly one crop under a fresh id, holding the eight body fields with `author = req.user._id`, and replies 201 with it. An undefined `req.user` replies 400 "Cannot read properties of undefined (reading '_id')", a null one the same with "null", a database error 400 with its message; in each of these the collection is unchanged |
| `CropController.CropStore.UpdateCrop` | BackEnd/controllers/cropController.js:94-129 | stored id: that record gets exactly the eight body fields, with author, id and every other record unchanged. Missing id or database error: collection unchanged, 400 with "Crop not found" or the error's message |
| `CropController.OverwriteTouchesOnlyTheEightFields` | BackEnd/controllers/cropController.js:107-120 | an update keeps the key set, every other crop and the author; repeating the same update changes nothing more |
| `JsString.ToLower` | FrontEnd/src/pages/admin/ManageUsers.jsx:25 | lower-casing keeps the length, leaves no upper-case ASCII letter, and changes each character at most in its ASCII case |
| `JsString.ToLowerOfEqualIgnoringCase` | FrontEnd/src/pages/admin/ManageUsers.jsx:25 | strings equal up to ASCII case lower-case to the same string |
| `JsString.ToLowerIdempotent` | FrontEnd/src/pages/admin/ManageUsers.jsx:25 | lower-casing twice equals lower-casing once |
| `JsString.Includes` | FrontEnd/src/pages/admin/ManageUsers.jsx:25 | `includes` never finds a needle longer than the string, and always finds the empty needle |
| `JsString.OccurrenceIsFound` | FrontEnd/src/pages/admin/ManageUsers.jsx:25 | if the query occurs at some position, `includes` finds it |
| `JsString.FoundIsOccurrence` | FrontEnd/src/pages/admin/ManageUsers.jsx:25 | whatever `includes` finds occurs at some position |
| `JsString.IncludesIffOccurs` | FrontEnd/src/pages/admin/ManageUsers.jsx:25 | `includes` holds exactly when the query occurs at some position |
| `JsString.IncludesEmpty` | FrontEnd/src/pages/admin/ManageUsers.jsx:25 | every string includes the empty string |
| `JsString.Split` | FrontEnd/src/pages/common/Login.jsx:25 | `split` always yields at least one piece |
| `JsString.JoinSplit` | FrontEnd/src/pages/common/Login.jsx:25 | joining the pieces with the separator gives back the original string |
| `JsString.SplitPiecesHaveNoSeparator` | FrontEnd/src/pages/common/Login.jsx:25 | no piece contains the separator |
| `JsString.SplitAtFirstSeparator` | FrontEnd/src/pages/common/Login.jsx:25 | the first piece is the longest separator-free prefix; the other pieces are the split of the text after the first separator |
| `JsString.SplitHasSecondPieceIff` | FrontEnd/src/pages/common/Login.jsx:25 | `split(...)[1]` exists exactly when the separator occurs |
| `LocationSearch.RedirectFrom` | FrontEnd/src/pages/common/Login.jsx:25 | the redirect derivation (also Register.jsx:33): an empty query string gives "/"; a non-empty one gives a path exactly when it contains "=", and undefined otherwise; a path never contains "=" |
| `LocationSearch.RedirectWithoutEquals` | FrontEnd/src/pages/common/Login.jsx:25 | a non-empty query string without "=" yields an undefined redirect |
| `LocationSearch.RedirectIsSecondSegment` | FrontEnd/src/pages/common/Register.jsx:33 | with its first "=" at position i, the redirect is the text after it up to the next "=" or the end |
| `LocationSearch.RedirectSinglePair` | FrontEnd/src/pages/common/Login.jsx:25 | example illustrating `RedirectIsSecondSegment`: "?r=/a" redirects to "/a" |
| `LocationSearch.RedirectValueWithEquals` | FrontEnd/src/pages/common/Register.jsx:33 | example illustrating `RedirectIsSecondSegment`: "?r=a=b" redirects to "a", the value being cut at its own "=" |
| `LocationSearch.AfterSignIn` | FrontEnd/src/pages/common/Login.jsx:25-31 | the page's effect navigates exactly when a user is present, and then to the redirect derived from the query string; the Register page's effect (Register.jsx:33-39) is the same |
| `ManageUsers.FieldTexts` | FrontEnd/src/pages/admin/ManageUsers.jsx:24-25 | the texts searched are exactly the row's properties: the id (`_id`), first and last name, e-mail, role and every other property, and nothing else |
| `ManageUsers.RowMatches` | FrontEnd/src/pages/admin/ManageUsers.jsx:24-26 | a row matches exactly when the lower-cased query occurs at some position of some lower-cased field text |
| `ManageUsers.FilterRows` | FrontEnd/src/pages/admin/ManageUsers.jsx:23-28 | the filtered table is no longer than `users`, and every row in it is from `users` and matches the query |
| `ManageUsers.FilterIsSubsequence` | FrontEnd/src/pages/admin/ManageUsers.jsx:23-28 | the filtered table is an order-preserving subsequence of `users` |
| `ManageUsers.FilterKeepsExactlyMatches` | FrontEnd/src/pages/admin/ManageUsers.jsx:21-28 | each matching row appears as often as in `users`, and each non-matching row not at all |
| `ManageUsers.FilterIsCaseInsensitive` | FrontEnd/src/pages/admin/ManageUsers.jsx:25 | queries equal up to the case of ASCII letters filter to the same table |
| `ManageUsers.FilterIgnoresQueryCase` | FrontEnd/src/pages/admin/ManageUsers.jsx:25 | filtering by the lower-cased query gives the same table as the query itself |
| `ManageUsers.EmptyQueryKeepsAll` | FrontEnd/src/pages/admin/ManageUsers.jsx:23-28 | the filter expression keeps every row for the empty query; `filterData` never applies it to "" (line 21) and shows all users then |
| `ManageUsers.RoleSent` | FrontEnd/src/pages/admin/ManageUsers.jsx:34-41 | the sent role is "admin" exactly when "admin" was requested, and "user" otherwise |
| `ManageUsers.PromoteDisabled` | FrontEnd/src/pages/admin/ManageUsers.jsx:73 | Promote is disabled exactly when the "admin" it sends would re-send the current role |
| `ManageUsers.DemoteDisabled` | FrontEnd/src/pages/admin/ManageUsers.jsx:81 | Demote is disabled exactly when the "user" it sends would re-send the current role |
| `ManageUsers.EnabledButtonChangesRole` | FrontEnd/src/pages/admin/ManageUsers.jsx:71-85 | Promote is enabled exactly when its request changes the role, and likewise Demote; moderators and contributors have both enabled |
| `ManageUsers.ManageUsersPage.RenderedRows` | FrontEnd/src/pages/admin/ManageUsers.jsx:150-152 | `tableFilter` while `value` is non-empty, otherwise all `users` |
| `ManageUsers.ManageUsersPage.GetAllUsers` | FrontEnd/src/pages/admin/ManageUsers.jsx:11-14 | a fetched list replaces `users`; a failed fetch changes nothing; `value` and `tableFilter` are unchanged |
| `ManageUsers.ManageUsersPage.FilterData` | FrontEnd/src/pages/admin/ManageUsers.jsx:20-32 | `value` becomes the input. A non-empty input sets `tableFilter` to the filter of the current users; an empty one leaves it. The rendered rows are the filter or all users, and the table is in sync |
| `ManageUsers.ManageUsersPage.HandleRole` | FrontEnd/src/pages/admin/ManageUsers.jsx:34-41 | sends the mapped role for the id, then re-fetches `users`; `value` and `tableFilter` are left as they were |
| `ManageUsers.ManageUsersPage.HandleRoleAndRefilter` | FrontEnd/src/pages/admin/ManageUsers.jsx:34-41 | corrected `handleRole`: same request and re-fetch, and afterwards the rendered rows are the filter of the fetched users; with an empty search box `tableFilter` is left as it was |
| `ManageUsers.PromoteWhileSearching` | FrontEnd/src/pages/admin/ManageUsers.jsx:150-152 | as written: after searching "bob" and promoting Bob, the table still shows Bob as "user" with Promote enabled |
| `ManageUsers.PromoteWhileSearchingRefiltered` | FrontEnd/src/pages/admin/ManageUsers.jsx:34-41 | with the correction, the same steps show Bob as "admin" with Promote disabled |
| `LoginPage.Login.SubmitHandler` | FrontEnd/src/pages/common/Login.jsx:44-52 | `login` is called, with the form's e-mail and password, exactly when both are non-empty. The user is set only from truthy response data. An undefined helper result rejects the handler and leaves the user unchanged |
| `RegisterPage.Register.SubmitHandler` | FrontEnd/src/pages/common/Register.jsx:41-63 | `register` is called, with the form's five fields, exactly when password equals confirmation and e-mail and password are non-empty. A mismatch sets "Passwords do not match". An undefined helper result sets "Registration failed. Please try again.". The user is set only from truthy response data |

## Findings

| source | as written | input that shows it | evidently intended | confidence | as-written member | corrected member |
|---|---|---|---|---|---|---|
| FrontEnd/src/pages/admin/ManageUsers.jsx:34-41 | `handleRole` re-fetches `users`, but while the search box is non-empty the table renders `tableFilter`, which was computed from the list before the re-fetch | search "bob", press Promote on Bob, the re-fetch returns Bob as admin | the rendered rows reflect the re-fetched users: Bob shown as admin, Promote disabled | not executed; high | `ManageUsers.PromoteWhileSearching` | `ManageUsers.ManageUsersPage.HandleRoleAndRefilter` |

## Left out

- `searchCrops` is not modelled: its result depends on the database's `$regex` matching of user input.
- JWT signature checking and the Google OAuth exchange are not modelled: `jwt.verify` is the `verify` parameter, and the profile and access token are inputs.
- Database behaviour beyond a map is not modelled: no atomicity, no uniqueness indexes, no concurrent duplicate OAuth callbacks. Saves always succeed unless `fault` says otherwise.
- A crop handler's `fault` stands for the first failing database call. A failing `save` after a successful `findById` has the same visible effect (400 with its message, nothing stored), so one parameter covers both.
- `findById` failing on a malformed id is not modelled. Ids are naturals, so the lookups in `protect` and `deserializeUser` cannot fail. In the source a failing `protect` lookup lands in "token failed", and a failing `deserializeUser` lookup never calls `done`.
- The model does not follow control past `next()`: `Flow.Next` only records that `protect` or a gate handed the request on.
- `CropController.CropStore.GetCrops`: the reply is modelled as the set of stored crops; the order of the array `Crop.find({})` returns is not modelled.
- `AuthMiddleware.Protect` assumes a cookie parser has filled `req.cookies`; the application wiring in `BackEnd/index.js` is not part of this model, and without such a parser reading `req.cookies.token` would throw before the three-way decision.
- Logging (`console.log`, `console.error`) is not modelled. Express's error handler, which turns a thrown error into the JSON reply, is not part of this model: `Flow.Thrown` records the message and the status.
- `PassportSetup.UserStore.GoogleVerify` does not model a missing name. With `profile.name` absent, reading `profile.name.givenName` throws inside the `.then` and `done` is never called. With only `givenName` or `familyName` absent, the username holds "undefined" text (such as "Johnundefined") and that name field is undefined. It also does not model a failing `save`, which would leave `done` uncalled.
- The user and crop schema files are not part of this model. The default role "user" and the default picture (None) are assumed.
- `JsString.ToLower`: lower-cases the ASCII letters only. JavaScript's `toLowerCase` also maps other Unicode letters.
- `ManageUsers.FieldTexts` takes each property's `String(...)` form as given. JavaScript's conversion of numbers, dates and nested objects to strings is not modelled.
- The OAuth callback route in `BackEnd/index.js` is not part of this model. It repeats a find-or-create by Google id.
- Rendering is not modelled: the JSX markup, toasts and localStorage writes of the API helpers.
