# course-app session store and remote helpers, in Dafny

This project models the logic of a course-catalog web client:

- the **session store** (`AuthProvider`): the signed-in user kept in memory, a loading flag, and
  the browser's durable storage, where the session token lives under the key `"jwt"`. It has a
  mount step, `login`, `logout`, and `useAuth`, which fails outside a provider;
- the two **formatters**: `formatDuration` (minutes to `HH:MM hour(s)`) and `formatDate`
  (day, month and year to `DD.MM.YYYY`);
- the **remote-call helpers**: `getStrapiData` (content fetch with a four-way error message),
  `registerUser` / `loginUser` (identity calls with server message or fallback), and
  `getAuthenticatedUserName` (display name lookup that never raises).

Layout, one module per source file plus shared helpers:

| file | module | models |
|---|---|---|
| `Wrappers.dfy` | `Wrappers` | `Option` and `Result` |
| `Decimal.dfy` | `Decimal` | integer `toString`, the `n < 10 ? "0" + n : n.toString()` padding rule, and the digit parser and `split` used to read the output back |
| `AuthContext.dfy` | `AuthContext` | `src/context/authContext.tsx` |
| `FormatDuration.dfy` | `FormatDuration` | `src/lib/formatDuration.ts` |
| `FormatDate.dfy` | `FormatDate` | `src/lib/formatDate.ts` after the date has been split into day, month and year |
| `Http.dfy` | `Http` | the HTTP client as a value: the request sent, and what it comes to |
| `StrapiData.dfy` | `StrapiData` | `src/lib/getStrapiData.ts` and the response shapes of `src/data/types.ts`, nesting included (`Meta.pagination`, `CourseAuthorRelation.data`) |
| `StrapiAuth.dfy` | `StrapiAuth` | `src/lib/strapiAuth.ts` |
| `UserName.dfy` | `UserName` | `src/lib/getAuthenticatedUserName.ts` |

How the model is built:

- **The network.** Each remote helper takes a `server: Request -> Outcome<T>` parameter, so the
  request a helper sends (URL, headers, body) shows up in its contract. `Outcome` lists the
  shapes the `catch` blocks tell apart: a success with its body, an axios error with a response
  (status and body), an axios error with a request but no response, an axios error with neither
  (setup failure, with its message), and a non-axios error. A raised error is `Err(Thrown)`:
  either `Error(message)`, or `TypeError`, the error JavaScript raises when code reads a property
  of a missing object.
- **The session store.** This is a class whose fields are updated in place. `storage` is a
  `map<string, string>` field standing for local storage, and the React mount effect is an
  explicit `Mount` method.

Behaviour of the code worth knowing:

- `getStrapiData` has a fourth failure class, "An unexpected error occurred", for non-axios
  errors (src/lib/getStrapiData.ts:50-53).
- The year in `formatDate` is printed without padding, so it is not always four digits.
- `login` accepts any token, the empty string included. The mount step only restores a
  non-empty token (`if (jwt)`), so an empty token stored by `login` does not survive a reload.
  `ReloadAfterLogin` states this.
- In `registerUser`/`loginUser`, a response is never turned into the fallback message. If the
  response body has no `error` object, reading `error.message` raises a `TypeError`. If that
  object has no `message`, the raised `Error` has the empty message. The model covers both
  cases (`StrapiAuth.ServerError`). It does not require callers to avoid them.
- `getAuthenticatedUserName` is documented with `@throws`, but it catches every failure and
  returns `"User"`.
- A provider mounted over a stored empty token keeps the `"jwt"` entry but has no user, so
  memory and storage disagree until the next login or logout (`MountOverEmptyToken`).
- When the mount step finds no usable token, it leaves `user` as it was instead of clearing it
  (`Mount`'s `old(user)` case). On a fresh provider, `user` is already empty.

## Model

| member | source | states |
|---|---|---|
| `Decimal.NatToString` | src/lib/formatDuration.ts:9-10 | `toString` of a whole number gives digits only, one digit exactly when the number is below 10, and no leading zero |
| `Decimal.NatToStringRoundTrip` | src/lib/formatDuration.ts:9-10 | reading the decimal text of `n` back gives `n` |
| `Decimal.ZeroPad` | src/lib/formatDate.ts:13-14 | the padded field is all digits and at least two long. It is exactly two long below 100 and starts with '0' exactly below 10 |
| `Decimal.ZeroPadRoundTrip` | src/lib/formatDuration.ts:9-10 | reading a padded field back gives the number; the extra '0' changes nothing |
| `Decimal.IntToString` | src/lib/formatDate.ts:16 | the year text has a leading '-' exactly for negative years, and is digits otherwise. It is unpadded: the digits are non-empty and start with '0' only for the year 0 |
| `Decimal.IntToStringRoundTrip` | src/lib/formatDate.ts:16 | reading the year text back gives the year |
| `FormatDuration.FormatDuration` | src/lib/formatDuration.ts:6-13 | read from the end, the text is the unit word, a space, two digits, a colon, and at least two hour digits |
| `FormatDuration.UnitWord` | src/lib/formatDuration.ts:11 | the unit is "hour" exactly when hours == 1, and "hours" otherwise, 0 included |
| `FormatDuration.Decomposition` | src/lib/formatDuration.ts:7-8 | hours * 60 + minutes == duration, with minutes < 60 |
| `FormatDuration.FormatDurationFields` | src/lib/formatDuration.ts:7-12 | the output is `hourField ":" minuteField " " unit`. The hour field has at least two digits, exactly two below 100 hours and a leading '0' below 10, and reads back as duration / 60. The minute field has exactly two digits and reads back as duration % 60. The unit is singular exactly at one hour |
| `FormatDuration.FormatDurationRoundTrip` | src/lib/formatDuration.ts:7-12 | parsing the output (two or more digits, ":", two digits, " ", then "hour" or "hours") as h * 60 + m recovers the duration |
| `FormatDuration.FormatDurationInjective` | src/lib/formatDuration.ts:12 | different durations give different texts |
| `FormatDuration.ExampleTwoHoursFive` | src/lib/formatDuration.ts:12 | 125 minutes gives "02:05 hours" |
| `FormatDuration.ExampleOneHour` | src/lib/formatDuration.ts:11-12 | 60 minutes gives "01:00 hour" |
| `FormatDuration.ExampleNoHours` | src/lib/formatDuration.ts:9-12 | 45 minutes gives "00:45 hours" |
| `FormatDate.FormatDate` | src/lib/formatDate.ts:9-16 | the text starts with two digits and ends with a '.' followed by the unpadded year text |
| `FormatDate.FormatDateTwoDots` | src/lib/formatDate.ts:16 | for every day, month and year the text holds exactly two dots |
| `FormatDate.FormatDateRoundTrip` | src/lib/formatDate.ts:9-16 | splitting the output on '.' and parsing the pieces gives the day, the zero-based month plus one, and the year |
| `FormatDate.FormatDateLayout` | src/lib/formatDate.ts:13-16 | for day 1..31 and month index 0..11: two digits, '.', two digits, '.', then the unpadded year. There are exactly two dots, and the day or month starts with '0' exactly when it is below 10 |
| `FormatDate.Example` | src/lib/formatDate.ts:16 | 5 January 2024 gives "05.01.2024" |
| `AuthContext.StoredUser` | src/context/authContext.tsx:67-70 | the token the mount step restores is present in storage and non-empty |
| `AuthContext.AuthProvider.Synced` | src/context/authContext.tsx:74-84 | the token-sync invariant: when it holds, `user` is empty exactly when storage has no "jwt" entry, and a present user's token is the stored one |
| `AuthContext.AuthProvider.IsAuthenticated` | src/components/custom/Navbar.tsx:29 | signed in (`!!user`) means a user is present; while in sync, it means storage holds a "jwt" entry |
| `AuthContext.AuthProvider.constructor` | src/context/authContext.tsx:62-63 | a new provider has no user and is loading |
| `AuthContext.AuthProvider.Mount` | src/context/authContext.tsx:65-72 | afterwards the provider is not loading and storage is unchanged. `user` becomes the stored token when it is non-empty, and otherwise stays as it was |
| `AuthContext.AuthProvider.Login` | src/context/authContext.tsx:74-78 | storage maps "jwt" to the token and `user` is that user. No other key changes, `isLoading` is unchanged, and the token-sync invariant holds |
| `AuthContext.AuthProvider.Logout` | src/context/authContext.tsx:80-84 | the "jwt" key is removed and `user` is empty. No other key changes, `isLoading` is unchanged, and the token-sync invariant holds |
| `AuthContext.UseAuth` | src/context/authContext.tsx:41-47 | outside a provider this fails with "useAuth must be used within an AuthProvider" and never gives a default. Inside one it gives the provider |
| `AuthContext.LogoutTwice` | src/context/authContext.tsx:80-84 | two logouts leave the same state as one |
| `AuthContext.LoginThenLogout` | src/context/authContext.tsx:74-84 | logging in with "abc" and then out leaves nobody signed in and no "jwt" entry |
| `AuthContext.MountRestores` | src/context/authContext.tsx:65-72 | mounting over storage that holds "xyz" signs the user in without a login |
| `AuthContext.ReloadAfterLogin` | src/context/authContext.tsx:67-78 | a later mount restores the token `login` stored exactly when that token is non-empty |
| `AuthContext.ReloadAfterLogout` | src/context/authContext.tsx:80-84 | a later mount restores nothing after `logout` |
| `AuthContext.MountSyncs` | src/context/authContext.tsx:65-72 | when storage holds a non-empty token or none, the user the mount step restores is exactly the mirror of storage |
| `AuthContext.FreshMountSyncs` | src/context/authContext.tsx:62-72 | a fresh provider mounted over storage with a non-empty token or none is in sync and not loading |
| `AuthContext.MountOverEmptyToken` | src/context/authContext.tsx:67-71 | a fresh provider mounted over a stored empty token has no user while the entry stays, so it is not in sync |
| `StrapiData.DataRequest` | src/lib/getStrapiData.ts:28 | the request is a header-less GET of "http://localhost:1337/api/" followed by the path |
| `StrapiData.GetStrapiData` | src/lib/getStrapiData.ts:25-56 | data is returned exactly when the GET succeeds, and then unchanged. Every failure raises an `Error` with its exact message: "Error fetching data: " and the status as `toString` writes it, "No response received", "Error setting up request: " and the setup message, or "An unexpected error occurred" |
| `StrapiData.GetStrapiDataClassifies` | src/lib/getStrapiData.ts:36-55 | each failure raises exactly the message of its failure class (server rejected, no response, setup failed, or unexpected), and reading that message back gives the class with its status code or setup message |
| `StrapiData.ReadFetchErrorExact` | src/lib/getStrapiData.ts:40-53 | reading back is exact: a message that reads as a failure class is precisely that class's message, with the status unpadded |
| `StrapiData.PaddedStatusNotRead` | src/lib/getStrapiData.ts:42 | "Error fetching data: 0404" is not a message the fetch raises, so it reads back as nothing |
| `StrapiData.FetchMessagesDistinguish` | src/lib/getStrapiData.ts:36-55 | two failures that raise the same message are of the same class |
| `StrapiAuth.ServerError` | src/lib/strapiAuth.ts:34-37 | the raised error is exactly the body's `error.message`. An `error` object without a message gives an `Error` with the empty message, and a missing `error` object gives a TypeError |
| `StrapiAuth.Settle` | src/lib/strapiAuth.ts:32-41 | the shared handling: data exactly on success, and unchanged. A response raises the server's error; any other failure raises the given fallback |
| `StrapiAuth.RegisterRequest` | src/lib/strapiAuth.ts:28-31 | registration posts the credentials unchanged to http://localhost:1337/api/auth/local/register |
| `StrapiAuth.LoginRequest` | src/lib/strapiAuth.ts:53-56 | login posts the credentials unchanged to http://localhost:1337/api/auth/local |
| `StrapiAuth.RegisterUser` | src/lib/strapiAuth.ts:26-43 | the call posts to .../auth/local/register. It returns data exactly on success, and unchanged. A response raises the server's error, and no response raises "An unknown error occurred during registration." |
| `StrapiAuth.LoginUser` | src/lib/strapiAuth.ts:51-67 | the call posts to .../auth/local. It returns data exactly on success, and unchanged. A response raises the server's error, and no response raises "An unknown error occurred during login." |
| `StrapiAuth.Endpoints` | src/lib/strapiAuth.ts:28-56 | the register and login endpoints differ; register is login followed by "/register" |
| `StrapiAuth.FallbackOnlyWithoutResponse` | src/lib/strapiAuth.ts:33-41 | the fallback is raised exactly when no response arrived, or when the server's own message is that same text |
| `StrapiAuth.RejectedLoginRaisesServerMessage` | src/lib/strapiAuth.ts:58-61 | a rejected login whose body carries a message raises exactly that message |
| `StrapiAuth.FallbacksTellOperationsApart` | src/lib/strapiAuth.ts:38-40 | without a response, registration and login raise different messages |
| `UserName.MeRequest` | src/lib/getAuthenticatedUserName.ts:38-40 | the lookup is a GET of .../api/users/me whose only header is Authorization: "Bearer " + token |
| `UserName.HasToken` | src/lib/getAuthenticatedUserName.ts:33 | there is a token to send exactly when the user is present and its token is non-empty (the negation of the guard on `!user` or `!user.jwt`) |
| `UserName.GetAuthenticatedUserName` | src/lib/getAuthenticatedUserName.ts:32-46 | the name is never empty, and is "User" when there is no token. Any other name is the non-empty username of a successful lookup |
| `UserName.NoTokenNoRequest` | src/lib/getAuthenticatedUserName.ts:33-35 | with no user or an empty token, the answer does not depend on the server: nothing is requested |
| `UserName.NameFromOutcome` | src/lib/getAuthenticatedUserName.ts:37-41 | with a token, the answer is the username when the lookup succeeds with a non-empty one, and "User" otherwise |
| `UserName.FailureDegrades` | src/lib/getAuthenticatedUserName.ts:42-45 | every failure shape gives "User"; nothing is raised |

## Left out

- The UI components (`PrimaryButton`, `Navbar`, `Logo`): rendering only.
- React machinery: context creation and propagation, re-render notification and effect scheduling. The mount effect is the `Mount` method. The model does not enforce that it runs once.
- HTTP transport, JSON decoding and header transport: the server is a parameter of each helper. A success body is taken to already have the declared shape; a missing `username` is `None`.
- `console.error` logging: it has no observable effect on results.
- Date parsing and time-zone decomposition (src/lib/formatDate.ts:7-10): this depends on the runtime. `FormatDate` takes day, zero-based month and year. An unparseable date string, which the source prints as "NaN.NaN.NaN", is not modelled.
- Fractional, negative and non-finite durations: these depend on floating point and on JavaScript's `%` for negative numbers. `FormatDuration` takes a natural number.
- JavaScript number limits: integers are unbounded here, so very large durations or years do not switch to exponent notation.
- Concurrency, meaning racing login and logout calls: the source neither orders nor locks them.
- Failures of storage writes: the source treats storage as always available.
- Request credentials are carried in the request unchanged; what the server does with them is outside the model.
