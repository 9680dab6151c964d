# Multi-tenant notes service: authentication gate, notes collection and signup

This project models the request-handling core of a multi-tenant note-taking
service. Tenants (organisations) own users and notes; a tenant on the FREE
plan may hold at most three notes. Three pieces of the service carry its
security and provisioning rules, and each is modelled as a pure function
over an immutable store:

- **The authentication gate** (`Middleware`). It takes the second
  space-separated word of the `authorization` header as the token. It asks a
  token verifier for the payload. It answers 401 when there is no token or
  the verifier rejects it, or when the serialised payload holds a character
  that an HTTP header value cannot carry. Otherwise it forwards the request
  with the `x-user-payload` header overwritten by the serialised verified
  payload. It
  runs only on paths matching `/api/notes/:path*` and `/api/tenants/:path*`.
- **The notes collection route** (`NotesApi`). It reads the caller only from
  `x-user-payload`. `GET` lists the notes of the caller's tenant. `POST`
  creates a note stamped with the caller's tenant, and refuses with 403 when
  the tenant is on the FREE plan and already holds three notes. Other
  methods get 405.
- **The signup route** (`Signup`). It checks, in this order: the method, the
  three required fields, that the email is unused, and that the tenant's slug
  is unused. Then it creates one tenant with exactly one ADMIN user whose
  stored password is the hash of the given one.

`Database` holds the store: sequences of tenants, users and notes, plus an id
counter standing in for the database's generated ids. Every stored id is
below the counter, so each created row gets an id no stored row holds. The
module also defines the store invariant `Valid`: unique tenant ids, unique
slugs, unique emails, ids below the counter, every user and note referring
to an existing tenant, and every FREE tenant within quota. `Text` models
JavaScript's `split(' ')` and the trimming of whitespace from both ends that
`Headers.get` applies to a header value. `System` wires the gate in front of
the handlers, serves a sequence of requests, and holds the seeded
Acme/Globex sample store.

External services are parameters (see `System.Env`):

- the JWT verifier (`verify: string -> Option<Claims>`), carried by each
  request, because a token can expire or a key can change between requests;
- `JSON.stringify` of the payload and `JSON.parse` of the header;
- `slugify`;
- `bcrypt.hash`, passed per signup call because each call draws a fresh salt;
- the plan the database schema gives a new tenant.

Three points about the code's behaviour:

- Section 2.1 of RFC 6750 defines the header as `Authorization: Bearer <token>`.
  The code never checks the first word, so any scheme word is accepted
  (`Middleware.AnySchemeAccepted`).
- The quota refusal is a 403 with the message "Free plan limit of 3 notes
  reached. Please upgrade.".
- Signup is modelled because it establishes the email and slug uniqueness
  that the other handlers rely on.

## Model

| member | source | states |
|---|---|---|
| Text.Split | src/middleware.ts:10 | `split(' ')`: at least one piece, no piece contains the separator, and the pieces joined with the separator give back the header |
| Text.SplitJoin | src/middleware.ts:10 | splitting is the inverse of joining pieces that contain no separator |
| Text.SplitAfterSeparator | src/middleware.ts:10 | the text before the first separator is the first piece and the rest splits on its own |
| Text.SplitWithoutSeparator | src/middleware.ts:10 | a string without the separator splits into itself alone |
| Text.JoinEndsWithLastPart | src/middleware.ts:40-42 | the last piece is a suffix of the joined string |
| Text.LeadingWhitespace | src/middleware.ts:10 | the count covers only whitespace and stops at the first character that is not whitespace |
| Text.TrimStart | src/middleware.ts:10 | what is left is a suffix that starts with no whitespace, and only whitespace was removed |
| Text.TrimEnd | src/middleware.ts:10 | what is left is a prefix that ends with no whitespace, and only whitespace was removed |
| Text.Trim | src/middleware.ts:10 | `Headers.get` returns the value with its leading whitespace and its trailing whitespace cut off and nothing else changed: the result is the run of the input between those two whitespace stretches, has no whitespace at either end, and a value already in that form is unchanged |
| Middleware.Token | src/middleware.ts:10-12 | no `authorization` header gives no token; a token found is non-empty and contains no space |
| Middleware.AnySchemeAccepted | src/middleware.ts:10 | when the trimmed header is `scheme + " " + token + rest`, the token is found for ANY first word, so the `Bearer` scheme is never checked |
| Middleware.TokenIsSecondWord | src/middleware.ts:10 | whenever a token is found, the trimmed header is `scheme + " " + token + rest` with a non-empty, space-free scheme and a rest that is empty or starts with a space |
| Middleware.LeadingSpaceStripped | src/middleware.ts:10-17 | a header that is one space followed by one word yields no token, because `get` strips the space |
| Middleware.EmptySecondWordRejected | src/middleware.ts:10-17 | a trimmed header with no space, or with nothing between its first space and the next space or the end, yields no token |
| Middleware.Authenticate | src/middleware.ts:9-37 | no token gives 401 "Authentication token is required."; a rejected token gives 401 "Invalid or expired token.", and so does a verified payload whose serialisation holds a character above U+00FF, which `Headers.set` refuses inside the same `try`; the request is forwarded if and only if verification succeeded and the serialisation is a valid header value, with `x-user-payload` equal to the serialised payload and every other header unchanged |
| Middleware.VerifierNotConsultedWithoutToken | src/middleware.ts:12-20 | without a token the verifier's answer makes no difference to the outcome |
| Middleware.ClientPayloadIgnored | src/middleware.ts:20-29 | two requests that differ only in the client's `x-user-payload`, present or absent, get the same decision and the same forwarded headers |
| Middleware.InScope | src/middleware.ts:40-42 | a path the matcher accepts starts with `/api/notes` or `/api/tenants` (its exact shape is `Middleware.InScopeIsSegmentPath`) |
| Middleware.Gate | src/middleware.ts:40-42 | a path outside the matcher is forwarded with its headers untouched; a path inside it gets exactly the authentication decision |
| Middleware.SegmentPathsGated | src/middleware.ts:40-42 | every path below a protected prefix made of non-empty segments, with or without a trailing slash, is inside the gate |
| Middleware.InScopeIsSegmentPath | src/middleware.ts:40-42 | the converse of `SegmentPathsGated`: every path the matcher accepts is a protected prefix alone, that prefix and a slash, or that prefix, a slash and non-empty, slash-free segments joined by slashes with at most one trailing slash; so `/api/notesearch` and `/api/notes//x` are never accepted |
| Middleware.MatchedSegments | src/middleware.ts:40-42 | a path accepted by the pattern `prefix/:path*` is that prefix, that prefix and a slash, or that prefix followed by its non-empty, slash-free segments, with at most one trailing slash |
| Middleware.JoinedSegments | src/middleware.ts:40-42 | non-empty, slash-free segments joined by slashes form a non-empty segment list without a trailing slash |
| Middleware.ItemRoutesGated | src/middleware.ts:40-42 | both collection paths, with or without a trailing slash, and every one-segment item path below them are inside the gate |
| Middleware.UpgradeRouteGated | src/middleware.ts:40-42 | `/api/tenants/<slug>/upgrade` is inside the gate |
| Middleware.PublicRoutesNotGated | src/middleware.ts:40-42 | `/api/auth/signup`, `/api/health` and `/api/notesearch` are outside the gate |
| Database.NotesOf | src/pages/api/notes/index.ts:23-25 | a note is in the tenant-filtered list if and only if it is stored and has that tenantId |
| Database.NotesOfAppend | src/pages/api/notes/index.ts:40-48 | appending a note extends only its own tenant's list, by that note |
| Database.NotesOfAbsentTenant | src/pages/api/auth/signup.ts:33-48 | a tenant none of whose notes are stored has an empty list |
| Database.FindTenant | src/pages/api/notes/index.ts:31 | a lookup by id finds a stored tenant with that id, and finds nothing exactly when no stored tenant has it |
| Database.FindTenantIsTheTenant | src/pages/api/notes/index.ts:31-33 | with unique tenant ids, the lookup finds THE tenant with that id |
| Database.CreateNote | src/pages/api/notes/index.ts:41-47 | the store refuses a note for a tenant that does not exist; otherwise it appends one note with the given fields and tenant and leaves tenants and users alone; in a store whose ids are below the counter, the new id is held by no stored note and that property is kept |
| Database.CreateTenantWithUser | src/pages/api/auth/signup.ts:33-48 | one tenant with the given fields and one user in it are appended; notes are untouched; in a store whose ids are below the counter, neither new id is held by a stored row of its kind and that property is kept |
| NotesApi.GetUser | src/pages/api/notes/index.ts:9-15 | a request without `x-user-payload` has no identity |
| NotesApi.Handle | src/pages/api/notes/index.ts:17-53 | 401 exactly when there is no identity; only 201 changes the store; GET lists exactly the caller's tenant's notes; POST gets 403 exactly when the tenant is found, FREE and at the cap; an uncapped POST for an existing tenant gets 201; a missing tenant is not capped and the store refuses the note (500); 201 appends one note with the body's title and content and the caller's tenantId and touches nothing else; the new note's id is held by no stored note; other methods get 405 with `Allow: GET, POST` |
| NotesApi.CapOnlyForFreeTenants | src/pages/api/notes/index.ts:31-38 | an existing tenant on a plan other than FREE always gets its note created, whatever its count |
| NotesApi.QuotaPreserved | src/pages/api/notes/index.ts:31-48 | a FREE tenant with at most three notes still has at most three after any request |
| NotesApi.HandlePreservesValid | src/pages/api/notes/index.ts:17-53 | every request to the route keeps the store invariant, the quota included |
| Signup.Handle | src/pages/api/auth/signup.ts:8-50 | the checks run in order: non-POST gives 405; a falsy field gives 400; a used email gives 409 "Email already in use" whatever the slug; a used slug gives 409 "Tenant name already in use"; 201 happens exactly when all pass; any other outcome leaves the store unchanged; success appends one tenant (the given name, its slug, the default plan, an id no stored tenant holds) and one ADMIN user in it, under an id no stored user holds, with the given email and the HASH of the password |
| Signup.HandlePreservesValid | src/pages/api/auth/signup.ts:20-48 | a signup keeps emails unique, slugs unique, tenant ids unique, references valid and every FREE tenant within quota |
| Signup.NewTenantHasSoleAdmin | src/pages/api/auth/signup.ts:33-48 | after a successful signup the new tenant has exactly one user, the ADMIN just created |
| Signup.CredentialOnlyThroughHash | src/pages/api/auth/signup.ts:31-40 | the plaintext password reaches the store and the response only through its hash: passwords with equal hashes give equal outcomes |
| System.ServeNotes | src/middleware.ts:12-36 | a notes request with no token, with a token the verifier rejects, or with a verified payload whose serialisation cannot be a header value, gets the gate's 401 and leaves the store unchanged |
| System.ServeSignup | src/middleware.ts:40-42 | a signup request passes the gate untouched and is answered by the signup handler alone |
| System.ClientCannotSpoofIdentity | src/middleware.ts:20-23 | what a client sends under `x-user-payload`, or its absence, never changes the outcome of a notes request |
| System.CreatorIsVerified | src/pages/api/notes/index.ts:40-48 | a note is created only for a request whose token the verifier accepted, and it belongs to the tenant named in that verified payload |
| System.ListingIsTenantScoped | src/pages/api/notes/index.ts:22-26 | when the payload's encoding is a valid header value, a verified caller's listing holds exactly the notes of the tenant in its verified payload |
| System.VerifiedCreate | src/pages/api/notes/index.ts:30-48 | when the payload's encoding is a valid header value, for a verified caller of a FREE tenant a POST below the cap gives 201 and raises the count by one; at the cap it gives 403 and leaves the store unchanged |
| System.RunPreservesValid | src/pages/api/notes/index.ts:30-48 | any sequence of notes and signup requests keeps the store invariant, so no FREE tenant ever exceeds three notes and emails and slugs stay unique |
| System.Seed | prisma/seed.ts:13-54 | the seeded Acme/Globex store, each tenant with an ADMIN and a MEMBER, satisfies the store invariant |
| System.FourthFreeNoteRefused | src/pages/api/notes/index.ts:33-37 | when the payload's encoding is a valid header value, on the seeded FREE store the Acme admin's first three notes are created and the fourth is refused with 403 |

## Left out

- The note-by-id route, the tenant upgrade route and the login route are not part of this model. Only the gate's coverage of their paths is proved.
- The React pages are not modelled. Their client-side three-note limit is presentation only, and their token decoding is unverified.
- The health route is not modelled. It returns a constant.
- JWT signature and expiry checking is not modelled. It is the `verify` parameter.
- `JSON.stringify` and `JSON.parse` are parameters. A parsed header is a payload, a falsy value, or a thrown error. A payload is assumed to carry a tenantId; a payload without one is not modelled.
- `slugify` is a parameter, so slug character rules are not modelled.
- `bcrypt.hash` is a parameter, so salting and hashing are not modelled.
- Header names are kept in lower case, as Node.js presents them. Case folding of names is not modelled.
- The headers the framework sets on its own 500 response are not modelled.
- The path matcher models `:path*` as zero or more non-empty segments with an optional trailing slash. Query strings and other Next.js path normalisation are not modelled.
- Request bodies are modelled as strings or missing values. Non-string JSON values in the body are not modelled, and neither is the database's validation of a missing note title.
- Signup.Handle: the `catch` that answers 500 on a database error is not modelled, because the store here never fails during signup.
- The database default for a new tenant's plan is not shown, so it is the `defaultPlan` parameter.
- Database.CreateNote: the database schema is not part of this model. The store is assumed to hold a note's `tenantId` as a reference to a tenant, and so to refuse a note for a tenant id no tenant has. The handler at src/pages/api/notes/index.ts:31-47 skips the cap when its tenant lookup finds nothing (`tenant?.plan` is `undefined`) and then calls `create`; with the reference the thrown error becomes the framework's 500, which is what the model does. Without it the code would store an orphan note and answer 201. The notes half of the reference invariant, and quota preservation across signup, rest on this assumption.
- Middleware.Authenticate: payloads are the modelled claims. Other things `JSON.stringify` could fail on, such as a cyclic or `BigInt` value, are not modelled, because a verified JWT payload is parsed JSON.
- The count-then-create race between concurrent note creations is not modelled. Requests are served one at a time.
