# Mission Control pings and sessions, modelled in Dafny

Mission Control is a small web application. Field agents and handlers sign in
with an email and a password and record location-tagged messages called
*pings*. A ping may name a parent ping. This project models and proves three
parts of it:

- **The ping table's search box** (`components/PingTable.tsx`). Typing a query
  keeps the pings whose id, latitude, longitude or message contains it,
  ignoring case. Module `PingTable` models the filter as pure functions.
  Module `JsString` provides ASCII `toLowerCase` and a substring `includes`
  with an index-based specification.
- **The pings API** (`app/api/pings/route.ts`). `POST` stores one ping owned by
  the caller and stamped with the server's time. `GET` lists every ping for a
  handler and only their own pings for anyone else, newest first. Module
  `PingsRoute` models the ping collection as the class `PingStore` over a
  `seq<Ping>`. The listing is the pure function `ListPings`.
- **The auth API** (`app/api/auth/route.ts`). `POST` registers or logs in, and
  `GET` logs out. Module `AuthRoute` models the user collection as the class
  `UserStore`, a map from email to user. Register is a method on it; login and
  logout are pure functions.

Two libraries are kept abstract. bcrypt and JWT are the `Crypto` value of
module `Crypto` (`hash`, `matches`, `sign`, `verify`). The routes are proved
for every such value. Where a property needs the libraries to behave, it
assumes `Crypto.Sound`: a password matches its own hash, and a signed token
is non-empty and verifies to the claims it was signed over. `verifyJWT` is
`Crypto.VerifyJWT`, which returns an `Option<Identity>` read from the
request's cookies. Module `Cookies` says what a browser does with a
`Set-Cookie` (section 5.3 of RFC 6265). That lets the logout and login
lemmas state what happens to the *next* request. Module `Scenarios` proves what
the filter returns on the three-ping fixture of `lib/pingData.ts`, and has a
client that calls both routes relying only on their contracts.

The clock, database-generated ids and `createdAt` are parameters. A
generated id must be fresh.

Four behaviours of the code worth knowing:
- A `POST /pings` body missing `lat`, `lng` or `message`, or giving one as
  an empty string, is not a 400. The Ping schema's `required: true` makes
  the insert throw, so the route answers 500. `PingsRoute.Reply.ServerError`
  models that answer, and the store is unchanged.
- `parentId` is not stored verbatim: `parentId || null` turns a missing or
  empty parent id into null.
- The listing is ordered by the database's `createdAt`, newest first.
  MongoDB leaves the order of pings with equal `createdAt` unspecified. The
  model's sort keeps store order for ties, but its contract promises only
  "sorted and a permutation", which every tie order meets.
- The role check compares the stored role string with `"handler"`. Any other
  role, including one never validated at registration, sees only its own
  pings.

## Model

| member | source | states |
|---|---|---|
| `JsString.Lower` | components/PingTable.tsx:20 | `toLowerCase` keeps the length, leaves no upper-case ASCII letter, and changes no character other than an upper-case letter |
| `JsString.Includes` | components/PingTable.tsx:22-25 | `s.includes(q)` is true exactly when `q` occurs in `s` at some index; proved against the index-based `Substring` through the recursive calls |
| `JsString.EmptyIncluded` | components/PingTable.tsx:20-22 | the empty query is included in every string |
| `JsString.AbsentCharExcludes` | components/PingTable.tsx:22-25 | a query holding a character the text lacks is not included in it |
| `PingTable.KeepMatching` | components/PingTable.tsx:19-27 | `Array.filter` with the match callback: never longer than the input, and a ping is in the result iff it is in the input and matches |
| `PingTable.Filter` | components/PingTable.tsx:18-28 | the `filtered` value: a ping is shown iff it is in the list and the lower-cased search is a substring of its lower-cased id, lat, lng or present message |
| `PingTable.FilterIsSubsequence` | components/PingTable.tsx:19 | the result is a subsequence of the input: order kept, nothing added or duplicated |
| `PingTable.KeepMatchingIsSubsequence` | components/PingTable.tsx:19 | the same for the filter over an already lower-cased query (by induction) |
| `PingTable.FilterCounts` | components/PingTable.tsx:19-27 | each ping occurs in the result exactly as often as in the input when it matches, and not at all otherwise |
| `PingTable.KeepMatchingCounts` | components/PingTable.tsx:19-27 | the same count statement for the lower-cased query (by induction) |
| `PingTable.FilterSound` | components/PingTable.tsx:21-26 | soundness: every shown ping is from the input and has the lower-cased query in id, lat, lng or message |
| `PingTable.FilterComplete` | components/PingTable.tsx:21-26 | completeness: every input ping with the lower-cased query in a searchable field is shown |
| `PingTable.FilterEmptySearch` | components/PingTable.tsx:20-22 | an empty search shows every ping, in order, because the empty string is included in every id |
| `PingTable.FilterCaseInsensitive` | components/PingTable.tsx:20 | searching for a string or for its lower-cased form gives the same result |
| `PingTable.NoMessageMatch` | components/PingTable.tsx:25 | a ping without a message matches iff the query is in its id, lat or lng |
| `PingTable.FilterIdempotent` | components/PingTable.tsx:19-27 | filtering the result again with the same search returns it unchanged |
| `PingTable.KeepMatchingIdempotent` | components/PingTable.tsx:19-27 | the same idempotence for the lower-cased query (by induction) |
| `Scenarios.FixtureSearchExtraction` | lib/pingData.ts:1-26 | on the three fixture pings, the search "EXTRACTION" keeps exactly the London ping, matched through its lower-case message |
| `Crypto.VerifyJWT` | lib/auth.ts:10-18 | a missing or empty `token` cookie yields no identity; a non-empty one yields exactly what verifying its token yields |
| `Cookies.Store` | app/api/auth/route.ts:60-64 | a cookie with Max-Age 0 or less is removed from the browser's store; any other replaces its namesake; other cookies are untouched |
| `AuthRoute.UserById` | app/api/pings/route.ts:34 | `User.findById` on an existing id returns the stored user with that id, stored under its own email |
| `AuthRoute.SessionCookie` | app/api/auth/route.ts:28-30 | the session cookie is named `token`, holds the token signed over the user's id and email, is HTTP-only with path `/`, and has no Max-Age |
| `AuthRoute.SessionReply` | app/api/auth/route.ts:51-54 | a successful register or login answers 200 `{ success: true }` and sets the user's session cookie |
| `AuthRoute.Login` | app/api/auth/route.ts:34-55 | login succeeds iff the email is stored and the password matches its hash; success is a session cookie over that user's id and email; every failure is the same 401 "Invalid credentials" with no cookie |
| `AuthRoute.Logout` | app/api/auth/route.ts:60-65 | logout answers 200 "Logged out" and sets `token` to the empty string with maxAge 0 |
| `AuthRoute.UserStore.Register` | app/api/auth/route.ts:11-32 | a taken email gives 400 "Email already exists" and no change; otherwise exactly one user is added under that email with the given agentCode and role and the password's hash, and the reply is that user's session |
| `AuthRoute.UserStore.Post` | app/api/auth/route.ts:7-58 | dispatch on `type`: register as above, login leaves the store unchanged and answers as `Login`, any other type gives 400 "Invalid request" and no change |
| `AuthRoute.LoginFailuresIndistinguishable` | app/api/auth/route.ts:35-49 | an unknown email and a known email with a wrong password get identical replies |
| `AuthRoute.RegisterThenLogin` | app/api/auth/route.ts:20-54 | after registering a fresh email, logging in with the same password opens that user's session |
| `AuthRoute.LoginStartsSession` | app/api/auth/route.ts:51-54 | the cookie of a successful login makes the next request authenticate as that user's id and email |
| `AuthRoute.LogoutEndsSession` | app/api/auth/route.ts:60-64 | after the logout cookie is stored, the next request carries no identity |
| `PingsRoute.NormalizeParent` | app/api/pings/route.ts:22 | a missing or empty parent id becomes null; any other parent id is kept as given |
| `PingsRoute.Required` | lib/models/Ping.ts:10-14 | a `required: true` String path accepts a value iff it is present and not the empty string |
| `PingsRoute.Storable` | lib/models/Ping.ts:10-14 | a body is rejected iff one of lat, lng or message is missing or empty |
| `PingsRoute.NewPing` | app/api/pings/route.ts:16-23 | the new record's owner is the token's id, lat, lng and message are copied from the body, the timestamp is the server time, the parent id is normalised |
| `PingsRoute.PingStore.Create` | app/api/pings/route.ts:7-26 | no identity gives 401 and no change; a body the schema rejects gives 500 and no change; otherwise exactly one ping is appended and the existing pings are unchanged |
| `PingsRoute.InsertNewestFirst` | app/api/pings/route.ts:38 | inserting into a newest-first list keeps it newest-first and adds exactly the one ping |
| `PingsRoute.SortNewestFirst` | app/api/pings/route.ts:38 | `.sort({ createdAt: -1 })`: the result is newest-first and a permutation of the input |
| `PingsRoute.OwnedBy` | app/api/pings/route.ts:40 | `Ping.find({ userId })`: each ping of that owner is kept as often as it is stored, and no other ping |
| `PingsRoute.ListPings` | app/api/pings/route.ts:28-46 | no identity gives 401; otherwise a newest-first list that, for a handler, is a permutation of all pings and, for anyone else, holds exactly the caller's pings |
| `PingsRoute.NonHandlerSeesOwnPings` | app/api/pings/route.ts:39-42 | a non-handler's listing contains a ping iff it is stored and owned by the caller |
| `PingsRoute.HandlerSeesAllPings` | app/api/pings/route.ts:37-38 | a handler's listing contains every stored ping, whoever owns it |
| `PingsRoute.DistinctIdsAtMostOnce` | app/api/pings/route.ts:16-23 | a store whose pings have distinct ids holds each ping at most once (by induction) |
| `PingsRoute.ListingHasNoDuplicates` | app/api/pings/route.ts:36-43 | a listing of such a store shows each ping at most once, for a handler and for anyone else |
| `PingsRoute.CreatedPingIsListed` | app/api/pings/route.ts:16-42 | a ping a caller has just created appears in that caller's next listing |

## Left out

- Rendering and UI state: the table markup and detail modal, the other components and pages. They hold no logic to state.
- The login and register forms. They check only that fields are non-empty and never call the API.
- The ancestry ("trail") route `app/api/pings/[id]/route.ts`. It is outside the modelled core.
- bcrypt and JWT internals: salting, cost factor, signature algorithm and the 7-day expiry. `Crypto` treats them as uninterpreted functions, and `hash` is a function, so salting is not modelled.
- Database plumbing: the connection singleton, query casting, and `_id`/`createdAt` generation. Generated ids and times are parameters.
- The User schema. `lib/models/User` is not part of this model, so the collection's own validation of email, agentCode and role is not modelled. Register stores whatever the body gives.
- Missing JSON fields in `POST /auth`. The request is modelled with string fields. An absent `email`, which MongoDB would drop from the `findOne` filter, is not modelled.
- Non-string JSON values in `POST /pings`. `PingBody` holds optional strings only, so the schema's cast of a number `lat` to a string is not modelled. Neither is `parentId || null` turning `0` or `false` into null.
- Malformed JSON bodies and database failures. Both throw and give 500, which is not modelled.
- `PingsRoute.ListPings`: requires that the caller's user record exists. The route reads `user.role` without a check and would crash otherwise.
- Full Unicode lower-casing: `JsString.Lower` lower-cases ASCII letters only.
- Concurrency between requests. Each operation is one atomic step on the store.
