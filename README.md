# Movie watchlist API: a Dafny model of its auth core and per-user watchlist

The service keeps an ordered, in-memory list of users, each with a username, a
password digest and an ordered watchlist of movies. Clients register, log in to
receive a signed bearer token, and then create, list, read, patch and delete
movies in their own watchlist. Each movie route first passes the
`authorization` header through an auth gate that turns it into a principal
`{id, username}` or a 401.

This project models that core as Dafny, in the form the source has:

- `Seqs` holds the array operations the server relies on, as functions over
  sequences: `findIndex`/`find`, `filter` and `splice(i, 1)`. It also holds the
  lemmas that filtering and removal keep order (`IsSubsequence`) and which
  elements they keep (multisets).
- `Records` holds the records as datatypes: `User`, `Movie`, and `Identity`
  (the `{id, username}` shape of the register reply, the token payload and the
  principal). It also holds the request's movie fields, `Truthy` (JavaScript
  truthiness of an optional string), the faults with their status codes and
  messages, and the reply type.
- `Users` holds the two first-match lookups, the invariant that usernames are
  unique, and the "only this user's movie list changed" relation.
- `Auth` holds bearer-token extraction, the gate's decision and the login
  decision. It also holds round-trip lemmas: register then log in, and log in
  then authenticate.
- `Watchlist` holds the defaults of a new movie, the status filter, the lookup
  by path id and the field-by-field patch.
- `Server` holds a `Store` class whose field `users: seq<User>` the route
  methods reassign. `Register`, `AddMovie`, `PatchMovie` and `DeleteMovie`
  change it (`modifies this`). `Login`, `ListMovies` and `GetMovie` have no
  `modifies` clause, so a login, a listing or a read cannot change the store.
  Two client methods play the service's own scenario end to end:
  `SignUpSession` (register, a duplicate registration, login, authenticate) and
  `WatchlistSession` (add "Dune", list, delete, get gives 404). The second one
  has no postcondition: its assertions, checked by the verifier, are its content.

Foreign and nondeterministic parts are parameters:
- `hash: string -> string` stands for bcrypt's hash.
- `matches: (string, string) -> bool` stands for bcrypt's compare.
- `sign: Identity -> string` stands for JWT signing.
- `verify: string -> Option<Identity>` stands for JWT verification. It answers
  with the payload of a token whose signature is good and that has not expired
  at the time of the request.
- `newId: Id` stands for `generateId()`.

An unparseable `:id` path parameter (`Number(...)` gives NaN) is `None` and
matches no movie.

Points where the code's behaviour is easy to misread:
- The gate compares the `"Bearer "` prefix case-sensitively (`startsWith`),
  while section 2.1 of RFC 6750 treats the scheme name case-insensitively. The
  token is the second piece of `split(' ')`, so a double space after "Bearer"
  gives an empty piece and a 401.
- The principal's username comes from the stored user, not from the token's
  claims.
- The code never checks ids for uniqueness, and no route method of the model
  assumes fresh ids. Three lemmas take freshness as a stated hypothesis:
  `FindOwnId` and `LoginThenAuthenticate` (unique user ids, `IdsUnique`) and
  `AddThenFind` (a new movie id not yet in the list). Without unique user ids,
  the gate admits the first user holding the claimed id.
- Movie ids come from `generateId` as well, with the same lack of a check. When
  a new movie draws the id of an earlier movie in the same list, GET, PATCH and
  DELETE on that id reach the earlier one (`IdCollisionFindsEarlier`). With a
  fresh id, the movie just added is the one found (`AddThenFind`).
- Every failure of token verification gets the same reply: the one 401
  "Invalid or expired token." (`TokenInvalid`).

## Model

| member | source | states |
|---|---|---|
| `Seqs.FindIndex` | server.js:157 | the result is the position of the first element satisfying the predicate, and None exactly when no element does |
| `Seqs.Filter` | server.js:123-124 | every element kept satisfies the predicate, and the result is no longer than the input |
| `Seqs.FilterIsSubsequence` | server.js:123-124 | what `filter` returns is a subsequence of its input, so relative order is kept |
| `Seqs.FilterMultiset` | server.js:123-124 | `filter` keeps every occurrence of each element satisfying the predicate and no occurrence of any other |
| `Seqs.RemoveAt` | server.js:160 | `splice(k, 1)` shrinks the list by one, keeps the elements before `k` in place, shifts the ones after down by one, and removes exactly one copy of `s[k]` |
| `Seqs.RemoveAtIsSubsequence` | server.js:160 | the movies a delete leaves are a subsequence of the list before it |
| `Users.FindUserByUsername` | server.js:22-24 | the lookup finds the first user whose username is exactly the one given; None exactly when no user has it |
| `Users.FindUserById` | server.js:26-28 | the lookup finds the first user whose id is exactly the one given; None exactly when no user has it |
| `Users.SetMovies` | server.js:113 | replacing a user's movie list changes only that user's `movies`: the same number of users, every other user the same, this user's id, username and digest the same, and usernames stay unique |
| `Users.FindOwnId` | server.js:43 | when ids are unique, looking a user up by its own id finds that user |
| `Users.FindAppended` | server.js:57-68 | after a username not yet taken is appended, the lookup by that username finds the new last record |
| `Auth.FirstPiece` | server.js:34 | the piece is a prefix with no space, and either the whole text or followed by a space |
| `Auth.BearerToken` | server.js:32-35 | a token exists exactly when the header is present, starts with "Bearer " and the next character is not a space; the token is then non-empty, has no space and is followed by the end of the header or a space |
| `Auth.BearerRoundTrip` | server.js:33-35 | a non-empty token without spaces, sent as "Bearer <token>" with or without trailing space-led text, is extracted unchanged |
| `Auth.Authenticate` | server.js:31-49 | no token gives TokenMissing whatever the verifier says; a verifier rejection gives TokenInvalid; an accepted token whose id no stored user has gives UserGone; success holds exactly when the verifier accepts and the claimed id is in the store; every refusal is a 401; the principal carries the claimed id and is exactly `{id, username}` of the first stored user with that id |
| `Auth.VerifierSeesOnlyToken` | server.js:37-41 | two verifiers that agree on the extracted token give the same gate decision |
| `Auth.LoginDecision` | server.js:81-92 | a falsy field is MissingCredentials; with both fields present an unknown user and a wrong password give the same InvalidCredentials; success holds exactly when the user found by name has a digest matching the password; the payload is exactly that user's `{id, username}` |
| `Auth.LoginFindsOnlyHolder` | server.js:86-92 | with unique usernames, every user holding the login's username is the one the login found, and the payload is its `{id, username}` |
| `Auth.RegisterThenLogin` | server.js:61-68 | with a hasher whose digest matches its plaintext, logging in right after a registration appended the user succeeds with `{id, username}` of the new user |
| `Auth.LoginThenAuthenticate` | server.js:41-46 | a token the verifier maps back to the login payload (line 92) admits a principal with the payload's id, and exactly the logged-in user when ids are unique |
| `Watchlist.NewMovie` | server.js:102-112 | the new movie keeps the given title; a falsy language becomes "Unknown"; a falsy overview becomes ""; watched is true only when given as true; title and language are never empty |
| `Watchlist.ApplyPatch` | server.js:146-149 | each supplied field is overwritten, each absent field and the id are kept, and an empty patch changes nothing |
| `Watchlist.PatchIdempotent` | server.js:146-149 | applying the same patch twice equals applying it once |
| `Watchlist.FindMovie` | server.js:132-134 | gives the position of the first movie whose id equals the path id; None exactly when none has it, and always None for an unparseable path id |
| `Watchlist.AddThenFind` | server.js:106-113 | when the new id is not in the list yet, looking it up after the append finds the appended movie, with the given title and the defaulted fields |
| `Watchlist.IdCollisionFindsEarlier` | server.js:134 | when an added movie draws the id of a movie already in the list, the lookup by that id after the append gives the same position as before it, so it reaches the earlier movie |
| `Watchlist.AlienHidesDune` | server.js:134 | an instance: an earlier movie with id 7 hides a newly added "Dune" that drew id 7 |
| `Watchlist.SelectByStatus` | server.js:120-126 | a falsy status gives every movie; "watched" or "unwatched" gives a subsequence holding exactly the movies with that flag; any other status is InvalidStatus |
| `Watchlist.StatusesPartition` | server.js:123-124 | the watched and unwatched listings together hold every movie of the list exactly once |
| `Server.Store.constructor` | server.js:10 | the store starts with no users |
| `Server.Store.Register` | server.js:51-77 | falsy fields give 400 and a taken username gives 409, both leaving the store unchanged; otherwise exactly one user (the given username, the digest of the password, no movies) is appended after the unchanged earlier users, usernames stay unique, and the reply is 201 with only that user's `{id, username}` |
| `Server.Store.Login` | server.js:79-95 | the reply is 200 with the token signed over the login decision's payload, or that decision's 400/401 fault; the store is untouched |
| `Server.Store.AddMovie` | server.js:101-115 | a gate refusal or a falsy title is sent back with the store unchanged; otherwise the reply is 201 with the defaulted movie, appended to the end of the caller's list only |
| `Server.Store.ListMovies` | server.js:117-129 | a gate refusal is sent back; otherwise the reply is the status filter's answer on the caller's own list, with 200 or its 400 |
| `Server.Store.GetMovie` | server.js:131-137 | a gate refusal is sent back; otherwise the reply is 200 with the first movie of the caller's own list with the path id, or 404 when the caller's list has none, even if another user's list has it |
| `Server.Store.PatchMovie` | server.js:139-152 | a gate refusal or an id absent from the caller's list leaves the store unchanged; otherwise only the first matching movie of the caller's list is replaced by its patched version, which is sent back with 200 |
| `Server.Store.DeleteMovie` | server.js:154-162 | a gate refusal or an id absent from the caller's list leaves the store unchanged; otherwise exactly the first matching movie is removed from the caller's list only, and it is sent back with 200 |
| `Server.SignUpSession` | server.js:51-99 | register, a repeated registration (409), login and authentication compose: the store then holds exactly alice and the received token authenticates as `{1, "alice"}` |

## Left out

- Password hashing and comparison (bcrypt, 10 salt rounds) are the oracles `hash` and `matches`. Their cost, salting and timing behaviour are not modelled.
- Token signing and verification (JSON Web Tokens with an HMAC and a fixed secret, 2-hour expiry) are the oracles `sign` and `verify`. Signatures, the secret and expiry time are not modelled; `verify` answers as of the request's moment.
- `generateId` (clock plus random number) is the `newId` parameter. No route method assumes that ids are fresh; only the lemmas `FindOwnId`, `LoginThenAuthenticate` and `AddThenFind` do, each as a stated hypothesis.
- The 500 replies of register and login (an exception from bcrypt) are not modelled: the oracles cannot fail.
- The routes' success message texts ("User registered successfully." and the like) are not modelled. The error messages are, in `Fault.Message`.
- JavaScript coercions are not modelled: a body field that is not a string (or, for `watched`, a non-boolean coerced by `!!`), a query `status` given as an array, a `null` patch value, and `Number()` on path parameters. The path id arrives already parsed: `None` for NaN, which matches nothing.
- Users and movies are values inside the store rather than shared objects. The in-place `push`, field assignment and `splice` become replacing the caller's record at the position the first-match lookup found. The aliasing of the returned movie object with the stored one is not modelled; it is not observable once the reply is serialised.
- Concurrency is not modelled: every route is one atomic step. This includes the `await` between the duplicate-username check and the append in register.
- Express plumbing is not modelled: JSON body parsing, the root route, `app.listen`, and the `/debug/users` reporting endpoint.
