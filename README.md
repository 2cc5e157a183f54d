# Le Garde-Manger: request decisions, navigation guard and auth store

This project models the decision logic of a small food-catalogue web application and proves
properties of it. The application has three parts:

- an HTTP API;
- a single-page front end with a router;
- a client-side auth store.

The model covers three pieces of that code:

- **The API server's request-side logic** (`server/index.js`), split into pure parts:
  - the `basicAuth` middleware's header classification. It tries Bearer `uid:<digits>` tokens
    first, then Basic `email:password` credentials, and otherwise answers `auth_required`;
  - the token the login route forms, `uid:<id>`;
  - the list handler's query builder, which trims `q` and `type`, pushes onto `where` and
    `params` and appends to `sql`;
  - the create/update payload validation, with the normalisation of `description` and
    `calories`;
  - the update/delete path-id check, and the status each handler answers with.
- **The router** (`src/router/index.js`): its route table and the `beforeEach` guard. The guard
  redirects to `login` or `home`, or lets the navigation proceed.
- **The auth store** (`src/stores/auth.js`): a class whose fields (`isAuthenticated`, `email`,
  `password`) are read from local storage at start-up and written back by `login` and `logout`.
  Local storage is a class of its own holding a `map<string, string>`.

Some things are parameters of the model rather than part of it:

- base64 decoding (`decodeBase64`);
- the database lookup behind Basic authentication, including the `SHA2` digest (`findUser`);
- JavaScript's `Number()` on a string (`numberOfText`; `None` stands for `NaN`);
- the row count an UPDATE or DELETE reports (`affectedRows`).

Each module follows one source file or one concern:

- `Wrappers`: Option and Result.
- `JsStrings`: the JavaScript string operations the server uses.
- `JsValues`: request-body values with JavaScript truthiness.
- `ApiErrors`: the error codes and their statuses.
- `AuthMiddleware`: `basicAuth` and the login token.
- `FoodTypes`: the type enumeration.
- `FoodListQuery`: the list handler.
- `FoodsApi`: create, update and delete.
- `Router`: the route table and the guard.
- `ClientAuth`: the auth store and local storage.

The model follows what the code does, including some points that are easy to misread:

- The login route is a POST (server/index.js:85) that reads `u` and `p` from the query string
  (lines 87-88), not from the body.
- A create or update stores `description || null`. So an empty string, `0` or `false` is stored as
  NULL too, not only an absent description.
- The auth store also caches the password in plain text (src/stores/auth.js:6, 13, 21), and the
  model keeps that.

## Model

| member | source | states |
|---|---|---|
| `AuthMiddleware.Authenticate` | server/index.js:9-39 | the middleware either resolves a caller or fails with one of `auth_required`, `invalid_token`, `invalid_auth_header`, `invalid_credentials`, always with status 401 |
| `AuthMiddleware.BearerHeader` | server/index.js:13-21 | a `Bearer ` header is accepted iff the rest is `uid:` followed by one or more ASCII digits and nothing else; the caller id is the digits' decimal value, with no lookup (the result does not depend on `findUser`); anything else is `invalid_token` |
| `AuthMiddleware.NoScheme` | server/index.js:11-22 | a missing or empty header, or one starting with neither `Bearer ` nor `Basic `, is `auth_required` |
| `AuthMiddleware.SchemeNeedsExactPrefix` | server/index.js:11-22 | the scheme match is case sensitive and needs the space: for every rest `t`, `bearer t` and `basic t` are `auth_required`, and so are the bare `Bearer` and `Basic` and a missing header |
| `AuthMiddleware.BasicWithoutColon` | server/index.js:22-25 | Basic credentials whose decoded text has no `:` are `invalid_auth_header` |
| `AuthMiddleware.BasicCredentials` | server/index.js:23-35 | decoded credentials split at the first `:`, and later colons belong to the password; an empty email or password is `invalid_credentials` before any lookup; no returned row is `invalid_credentials`; otherwise the caller is the first row returned |
| `AuthMiddleware.LoginToken` | server/index.js:91-92 | the login route forms a token iff the query returned a row, and the token starts with `uid:` |
| `AuthMiddleware.TokenRoundTrip` | server/index.js:15-17 | for every natural id, the token `uid:` + decimal(id) built at line 92 has the Bearer shape and parses back to exactly that id |
| `AuthMiddleware.TokenCanonical` | server/index.js:15-17 | conversely, an accepted token without superfluous leading zeros is exactly the login token of the id it names |
| `AuthMiddleware.LoginThenBearer` | server/index.js:92 | sending back a successful login's token as `Bearer <token>` authenticates as the row's id when the id is non-negative; a negative id would render as `uid:-n`, which is `invalid_token` |
| `AuthMiddleware.ParseToken` | server/index.js:15-17 | a token names an id iff it matches `/^uid:(\d+)$/`, that is `uid:` then one or more ASCII digits and nothing else; a token without superfluous leading zeros is then exactly `uid:` followed by its id's decimal text |
| `JsStrings.NatToDecimal` | server/index.js:92 | the decimal text of a number is a non-empty digit string with no leading zero |
| `JsStrings.IntToString` | server/index.js:92 | an integer's text starts with `-` exactly when the integer is negative |
| `JsStrings.DecimalRoundTrip` | server/index.js:17 | reading back the decimal text of `n` (`Number(m[1])`) gives `n` |
| `JsStrings.DecimalCanonical` | server/index.js:17 | rendering the value of a digit string without leading zeros gives the same string |
| `JsStrings.IndexOf` | server/index.js:24 | `indexOf` finds the first occurrence, if there is one, and reports none iff the character is absent |
| `JsStrings.IndexOfSplit` | server/index.js:24-27 | the first `:` of `email + ":" + password` is the one after `email` whenever `email` has no colon |
| `JsStrings.TrimStart` | server/index.js:101-102 | the leading whitespace (ECMAScript WhiteSpace and LineTerminator) is dropped and only that |
| `JsStrings.TrimEnd` | server/index.js:101-102 | the trailing whitespace is dropped and only that |
| `JsStrings.TrimDropsOuterWhitespace` | server/index.js:101-102 | `trim` returns a contiguous part of its input; everything outside that part is whitespace, and the part neither starts nor ends with whitespace |
| `JsStrings.TrimIdempotent` | server/index.js:101-102 | trimming twice is trimming once |
| `JsStrings.TrimOfTrimmed` | server/index.js:101-102 | a string with no outer whitespace is its own trim |
| `ApiErrors.ApiError.Status` | server/index.js:20-180 | the error replies carry status 401 exactly for the four authentication errors, 400 exactly for `invalid_payload` and `invalid_id`, and 404 exactly for `not_found` |
| `ApiErrors.CodesDistinct` | server/index.js:20-180 | distinct errors carry distinct `error` codes |
| `FoodTypes.ParseFoodType` | server/index.js:137-138 | a type name denotes an enumeration member iff it is one of aliment, plat, dessert, boisson, hippo, and the member's name is that text |
| `FoodTypes.FoodTypeRoundTrip` | server/index.js:137-138 | every member's name is allowed and parses back to that member |
| `FoodListQuery.ListFoodsQuery` | server/index.js:100-125 | the handler's SQL and parameters are those of the list query for the trimmed `q` and `type` |
| `FoodListQuery.BuildListQuery` | server/index.js:111-125 | the step-by-step construction (push onto `where` and `params`, append to `sql`) yields exactly the list query and its parameter list |
| `FoodListQuery.ListQueryShapes` | server/index.js:111-125 | of the four possible queries, a `WHERE` clause appears iff the trimmed `q` is non-empty or the type is allowed; the two conditions are joined with `AND`; the parameters are `%q%` twice, then the type |
| `FoodListQuery.UnknownTypeIgnored` | server/index.js:118-121 | a type outside the enumeration is silently ignored: query and parameters are those of an empty type |
| `FoodListQuery.ListQueryFrame` | server/index.js:111-125 | the query always starts with the select and ends with ` ORDER BY name LIMIT 200` |
| `FoodListQuery.PlaceholdersMatchParams` | server/index.js:114-121 | the query has exactly as many `?` placeholders as parameters: 2 for `q` plus 1 for an allowed type |
| `FoodsApi.StoredCalories` | server/index.js:141-143 | calories are stored as NULL when absent, null, empty or unreadable by `Number()`; otherwise the number is stored (a body number as is, a boolean as 1 or 0) |
| `FoodsApi.StoredDescription` | server/index.js:143 | `description \|\| null`: the stored description is NULL exactly when the value sent is falsy, and otherwise it is the value sent |
| `FoodsApi.ValidatePayload` | server/index.js:136-143 | the payload is `invalid_payload` iff the name is falsy, the type is falsy, or the type's text is not one of the five names; otherwise the bound name and type are the texts sent, the description is NULL iff it was falsy (else it is kept as sent), and calories are normalised as above |
| `FoodsApi.OnlyStringTypesPass` | server/index.js:138 | among the modelled body values (absent, null, booleans, integers, strings), only a string type can pass: no number or boolean renders as a type name; arrays are not modelled (see "Left out") |
| `FoodsApi.PayloadTypeNotTrimmed` | server/index.js:138 | the payload's type is compared untrimmed: every body whose type is a string with whitespace at either end (such as `" plat"`) is `invalid_payload` |
| `FoodsApi.MissingBodyRejected` | server/index.js:136-140 | a missing body (`req.body || {}`) is `invalid_payload` |
| `FoodsApi.ParseId` | server/index.js:155-156 | a path id is accepted iff `Number()` reads it as a positive integer, and the id is that number |
| `FoodsApi.HandleCreate` | server/index.js:134-146 | create answers `invalid_payload` iff validation fails, else 201 with exactly the validated values |
| `FoodsApi.HandleUpdate` | server/index.js:153-168 | update answers `invalid_id` iff the path id is not a positive integer. Otherwise it answers `invalid_payload` iff the payload is invalid. Otherwise it answers `not_found` iff the UPDATE affected no row. Otherwise it answers 200 with that id and the validated values |
| `FoodsApi.HandleDelete` | server/index.js:175-181 | delete answers `invalid_id` iff the path id is not a positive integer, otherwise `not_found` iff the DELETE affected no row, otherwise 204 |
| `FoodsApi.Reply.Status` | server/index.js:139-181 | a reply's status is 201 for a create, 200 for an update, 204 for a delete, and the error's own status (400, 401 or 404) otherwise |
| `FoodsApi.IdCheckedFirst` | server/index.js:155-156 | with a bad path id, update and delete answer 400 `invalid_id` for every body and every database answer, so neither is consulted |
| `FoodsApi.PayloadCheckedBeforeWrite` | server/index.js:157-165 | with an invalid payload, the update's reply does not depend on what the UPDATE would report |
| `FoodsApi.CreateAndUpdateAgree` | server/index.js:157-164 | create and update reject the same payloads and bind the same values |
| `Router.ResolveName` | src/router/index.js:8-26 | a name resolves iff the table has a route of that name, and it resolves to that route's own location (its path, name and `requiresAuth`) |
| `Router.Guard` | src/router/index.js:30-43 | the guard redirects to `login` iff the target requires auth and the user is not logged in; it redirects to `home` iff that does not hold, the target is `login` and the user is logged in; it proceeds in every other case |
| `Router.BeforeEach` | src/router/index.js:30-43 | the registered callback's decision is the guard applied to the store's `isAuthenticated` |
| `Router.GuardReadsOnlyNameAndMeta` | src/router/index.js:30-43 | the decision depends only on the target's name and `requiresAuth` and on the auth flag; `from` and the rest of the target are never read |
| `Router.TableProtection` | src/router/index.js:8-26 | every route of the table requires authentication except `login` |
| `Router.NoRedirectLoop` | src/router/index.js:30-43 | a redirect target is always a route of the table, and the guard lets the navigation proceed when run on it under the same auth state |
| `Router.Landing` | src/router/index.js:30-43 | a navigation ends on a route the guard accepts: never a protected route when logged out, never `login` when logged in, and the target itself whenever the guard proceeds |
| `Router.LoggedOutLandsOnLogin` | src/router/index.js:33-36 | logged out, navigating to a protected route of the table lands on `login`, and to `login` stays there |
| `Router.LoggedInSkipsLogin` | src/router/index.js:37-39 | logged in, navigating to `login` lands on `home` |
| `ClientAuth.Restore` | src/stores/auth.js:4-6 | the initial state is logged in iff `user_logged` is exactly `"true"`; email and password are the stored texts, or `""` when their keys are absent |
| `ClientAuth.OnlyTrueIsLoggedIn` | src/stores/auth.js:4 | any other stored flag text restores the logged-out flag |
| `ClientAuth.LoginFrame` | src/stores/auth.js:11-13 | after login, storage maps `user_logged` to `"true"`, `user_email` to the email and `user_password` to the password; every other key is unchanged |
| `ClientAuth.LogoutFrame` | src/stores/auth.js:19-21 | after logout, the three keys are absent, every other key is unchanged, and a second logout changes nothing |
| `ClientAuth.RestoreAfterLogin` | src/stores/auth.js:4-13 | re-initialising from storage after `login(e, p)` gives `(true, e, p)` |
| `ClientAuth.RestoreAfterLogout` | src/stores/auth.js:4-21 | re-initialising from storage after `logout()` gives `(false, "", "")` |
| `ClientAuth.AuthStore.constructor` | src/stores/auth.js:3-6 | the store starts in the state read from local storage, which it mirrors |
| `ClientAuth.AuthStore.Login` | src/stores/auth.js:7-14 | after `login(e, p)` the in-memory state is `(true, e, p)`, storage is the old storage with the three keys written, and memory still mirrors storage |
| `ClientAuth.AuthStore.Logout` | src/stores/auth.js:15-22 | after `logout()` the in-memory state is `(false, "", "")`, storage is the old storage without the three keys, and memory still mirrors storage |
| `ClientAuth.ReloadAfterLogin` | src/stores/auth.js:4-14 | a store created after a login (a page reload) starts in the same logged-in state as the store that logged in |
| `ClientAuth.ReloadAfterLogout` | src/stores/auth.js:4-22 | a store created after a logout starts logged out |

## Left out

- Express setup, route registration and `app.listen` (server/index.js:1-6, 187-190): HTTP plumbing.
- `/api/health` and `/api/_tables` (server/index.js:41-58): thin wrappers over `db.js`, which is not part of this model.
- Registration (server/index.js:61-82): a check-then-insert of two database statements, whose uniqueness depends on the database and on concurrent requests.
- The login query itself (server/index.js:85-97): the SQL built by string interpolation and its execution are not modelled; only the token formation at line 92 is (`LoginToken`).
- SQL evaluation: `LIKE` matching, collation of `ORDER BY`, `insertId` and the re-fetch after create and update (server/index.js:145-146, 167-168). The replies carry the values bound to the statement rather than the re-fetched row, and the fallback object built when the re-fetch finds nothing is not modelled.
- The `SHA2(?, 256)` digest and the users table: both sit inside the `findUser` parameter.
- Base64 decoding (server/index.js:23): the `decodeBase64` parameter; the model starts from the decoded text.
- JavaScript `Number()` on strings (server/index.js:141, 155, 162, 177): the `numberOfText` parameter, returning `None` for `NaN`; infinities are not modelled.
- AuthMiddleware.BearerHeader: the id is the exact value of the digits, while `Number(m[1])` rounds values above 2^53 to the nearest double, and gives `Infinity` when the digits' value is about 1.8e308 (`Number.MAX_VALUE`) or more, leading zeros being accepted and not counted (so `req.user.id` is then not the digits' value).
- FoodListQuery.ListFoodsQuery: the raw `q` and `type` are modelled as strings or absent. Express's query parser can also hand the handler an array or an object, and lines 101-102 apply `.toString()` to it before trimming. So `?q=a&q=b` searches for `%a,b%`, `?type=plat&type=plat` becomes `"plat,plat"` and is ignored, `?type[]=plat` becomes `"plat"` and does filter by plat, and an object becomes `"[object Object]"`; none of these is modelled.
- JsValues.ToText: numbers in a request body are integers here, rendered in plain decimal; fractional numbers and the exponent form `toString` uses from 1e21 up are not modelled. Arrays and objects in a body are not modelled either; in the program a one-element array such as `{"type": ["plat"]}` passes the check at line 138, because `["plat"].toString()` is `"plat"`.
- The `catch` blocks answering 500 with the error message: database failures are not modelled.
- Strings are sequences of Unicode scalar values, not of UTF-16 code units.
- Vue reactivity, vue-router internals, `createWebHistory` and the lazily imported views (src/router/index.js:1-7, 23). After a redirect, vue-router runs the guard again; `Landing` models that second run.
- `localStorage.setItem` converts non-string values to text; here `login` takes strings only. Other tabs or code writing the same local storage keys are not modelled.
