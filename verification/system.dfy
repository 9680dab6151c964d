/**
 The application as deployed: the authentication gate in front of the route
 handlers, requests served one after another against one store, and the
 seeded sample data. The external services are bundled in `Env`.
 */
module System {
  import opened Wrappers
  import opened Database
  import opened Http
  import Middleware
  import NotesApi
  import Signup

  const NotesPath := "/api/notes"
  const SignupPath := "/api/auth/signup"

  /** The token verifier as it stands when a request arrives (keys and clock included). */
  type Verifier = string -> Option<NotesApi.Claims>

  /**
   The collaborators that do not change between requests: the JSON encoding
   of the verified payload and its decoding in the handler, the slug function,
   and the plan the database gives a new tenant.
   */
  datatype Env = Env(serialize: NotesApi.Claims -> string,
                     parse: string -> NotesApi.Parsed,
                     slugify: string -> string,
                     defaultPlan: Plan)

  /** Decoding what was encoded gives back the payload (`JSON.parse(JSON.stringify(p))`). */
  ghost predicate PayloadRoundTrips(env: Env) {
    forall c :: env.parse(env.serialize(c)) == NotesApi.Identity(c)
  }

  /**
   The encoding of a payload is a value `Headers.set` accepts. `JSON.stringify`
   of the modelled claims (two numbers and a role name) is plain ASCII.
   */
  ghost predicate PayloadFitsHeader(env: Env) {
    forall c :: IsByteString(env.serialize(c))
  }

  /**
   One request, with the verifier at its arrival: to the notes collection, or
   a signup with its call of the hash.
   */
  datatype Call =
    | NotesCall(notesReq: Request<NotesApi.NoteInput>, verify: Verifier)
    | SignupCall(signupReq: Request<Signup.SignupInput>, verify: Verifier, hash: string -> string)

  /** A request to `/api/notes`: first the gate, then the handler with the gate's headers. */
  function ServeNotes(db: Store, req: Request<NotesApi.NoteInput>, verify: Verifier, env: Env)
    : (out: Outcome)
    ensures Middleware.Token(req.headers).None? ==>
              out == Outcome(Middleware.Unauthenticated(Middleware.TokenRequired), db)
    ensures Middleware.Token(req.headers).Some?
            && verify(Middleware.Token(req.headers).value).None? ==>
              out == Outcome(Middleware.Unauthenticated(Middleware.TokenInvalid), db)
    ensures Middleware.Token(req.headers).Some?
            && verify(Middleware.Token(req.headers).value).Some?
            && !IsByteString(env.serialize(verify(Middleware.Token(req.headers).value).value)) ==>
              out == Outcome(Middleware.Unauthenticated(Middleware.TokenInvalid), db)
  {
    match Middleware.Gate(NotesPath, req.headers, verify, env.serialize)
    case Reject(response) => Outcome(response, db)
    case Forward(headers) => NotesApi.Handle(db, req.(headers := headers), env.parse)
  }

  /** A request to `/api/auth/signup`, which the gate lets through untouched. */
  function ServeSignup(db: Store, req: Request<Signup.SignupInput>, verify: Verifier,
                       hash: string -> string, env: Env): (out: Outcome)
    ensures out == Signup.Handle(db, req, env.slugify, hash, env.defaultPlan)
  {
    Middleware.PublicRoutesNotGated();
    match Middleware.Gate(SignupPath, req.headers, verify, env.serialize)
    case Reject(response) => Outcome(response, db)
    case Forward(headers) => Signup.Handle(db, req.(headers := headers), env.slugify, hash, env.defaultPlan)
  }

  function Step(db: Store, call: Call, env: Env): Outcome {
    match call
    case NotesCall(req, verify) => ServeNotes(db, req, verify, env)
    case SignupCall(req, verify, hash) => ServeSignup(db, req, verify, hash, env)
  }

  /** The store after serving the calls in order. */
  function Run(db: Store, calls: seq<Call>, env: Env): Store
    decreases |calls|
  {
    if |calls| == 0 then db else Run(Step(db, calls[0], env).store, calls[1..], env)
  }

  // ---------------------------------------------------------------------------
  // Properties of the deployed application

  /**
   A client cannot choose its identity: whatever it sends under
   `x-user-payload`, or if it sends nothing there, the outcome is the same.
   */
  lemma ClientCannotSpoofIdentity(db: Store, req: Request<NotesApi.NoteInput>, headers: Headers,
                                   verify: Verifier, env: Env)
    requires forall k | k != Middleware.UserPayload :: k in req.headers <==> k in headers
    requires forall k | k in req.headers && k in headers && k != Middleware.UserPayload ::
               req.headers[k] == headers[k]
    ensures ServeNotes(db, req, verify, env) == ServeNotes(db, req.(headers := headers), verify, env)
  {
    Middleware.ClientPayloadIgnored(req.headers, headers, verify, env.serialize);
  }

  /**
   A note is only ever created for a verified caller, and it belongs to the
   tenant named in the verified payload.
   */
  lemma CreatorIsVerified(db: Store, req: Request<NotesApi.NoteInput>, verify: Verifier, env: Env)
    returns (claims: NotesApi.Claims)
    requires PayloadRoundTrips(env)
    requires ServeNotes(db, req, verify, env).response.status == 201
    ensures Middleware.Token(req.headers).Some?
    ensures verify(Middleware.Token(req.headers).value) == Some(claims)
    ensures ServeNotes(db, req, verify, env).response.body.OneNote?
    ensures ServeNotes(db, req, verify, env).response.body.note.tenantId == claims.tenantId
  {
    var token := Middleware.Token(req.headers).value;
    claims := verify(token).value;
    assert env.parse(env.serialize(claims)) == NotesApi.Identity(claims);
  }

  /** A verified caller's listing holds exactly the notes of the tenant in its payload. */
  lemma ListingIsTenantScoped(db: Store, req: Request<NotesApi.NoteInput>, verify: Verifier,
                              env: Env,
                                claims: NotesApi.Claims)
    requires PayloadRoundTrips(env) && PayloadFitsHeader(env)
    requires req.verb == "GET"
    requires Middleware.Token(req.headers).Some?
    requires verify(Middleware.Token(req.headers).value) == Some(claims)
    ensures ServeNotes(db, req, verify, env).response.status == 200
    ensures ServeNotes(db, req, verify, env).response.body.NoteList?
    ensures forall n :: n in ServeNotes(db, req, verify, env).response.body.notes <==>
                        n in db.notes && n.tenantId == claims.tenantId
  {
  }

  /** Serving any sequence of requests keeps the store's invariants. */
  lemma {:induction false} RunPreservesValid(db: Store, calls: seq<Call>, env: Env)
    requires Valid(db)
    ensures Valid(Run(db, calls, env))
    decreases |calls|
  {
    if |calls| > 0 {
      match calls[0] {
        case NotesCall(req, verify) =>
          match Middleware.Gate(NotesPath, req.headers, verify, env.serialize) {
            case Reject(_) =>
            case Forward(headers) => NotesApi.HandlePreservesValid(db, req.(headers := headers), env.parse);
          }
        case SignupCall(req, _, hash) =>
          Signup.HandlePreservesValid(db, req, env.slugify, hash, env.defaultPlan);
      }
      RunPreservesValid(Step(db, calls[0], env).store, calls[1..], env);
    }
  }

  /**
   For a verified caller of a FREE tenant, creating a note succeeds while the
   tenant is below the cap and adds one note to its count; at the cap it is
   refused with 403.
   */
  lemma VerifiedCreate(db: Store, req: Request<NotesApi.NoteInput>, verify: Verifier, env: Env,
                                claims: NotesApi.Claims)
    requires PayloadRoundTrips(env) && PayloadFitsHeader(env)
    requires req.verb == "POST"
    requires Middleware.Token(req.headers).Some?
    requires verify(Middleware.Token(req.headers).value) == Some(claims)
    requires FindTenant(db.tenants, claims.tenantId).Some?
    requires FindTenant(db.tenants, claims.tenantId).value.plan == FREE
    ensures var out := ServeNotes(db, req, verify, env);
      if |NotesOf(db.notes, claims.tenantId)| < FreeNoteLimit then
        && out.response.status == 201
        && out.store.tenants == db.tenants
        && |NotesOf(out.store.notes, claims.tenantId)| == |NotesOf(db.notes, claims.tenantId)| + 1
      else
        out == Outcome(JsonMessage(403, NotesApi.QuotaReached), db)
  {
    assert env.parse(env.serialize(claims)) == NotesApi.Identity(claims);
    var out := ServeNotes(db, req, verify, env);
    if out.response.status == 201 {
      NotesOfAppend(db.notes, out.response.body.note, claims.tenantId);
    }
  }

  // ---------------------------------------------------------------------------
  // Sample data

  /**
   The seeded store: tenants Acme and Globex, each with an ADMIN and a MEMBER
   sharing one password hash, and no notes.
   */
  function Seed(hashed: string, plan: Plan): (db: Store)
    ensures Valid(db)
    ensures |db.tenants| == 2 && |db.users| == 4 && db.notes == []
  {
    var acme := Tenant(0, "Acme", "acme", plan);
    var globex := Tenant(3, "Globex", "globex", plan);
    Store([acme, globex],
          [User(1, "admin@acme.test", hashed, ADMIN, acme.id),
           User(2, "user@acme.test", hashed, MEMBER, acme.id),
           User(4, "admin@globex.test", hashed, ADMIN, globex.id),
           User(5, "user@globex.test", hashed, MEMBER, globex.id)],
          [], 6)
  }

  /**
   On a FREE plan, the Acme admin's first three notes are created and the
   fourth is refused.
   */
  lemma FourthFreeNoteRefused(hashed: string, verify: Verifier, env: Env,
                              req: Request<NotesApi.NoteInput>)
    requires PayloadRoundTrips(env) && PayloadFitsHeader(env)
    requires req.verb == "POST"
    requires Middleware.Token(req.headers).Some?
    requires verify(Middleware.Token(req.headers).value) == Some(NotesApi.Claims(1, 0, ADMIN))
    ensures
      var db0 := Seed(hashed, FREE);
      var o1 := ServeNotes(db0, req, verify, env);
      var o2 := ServeNotes(o1.store, req, verify, env);
      var o3 := ServeNotes(o2.store, req, verify, env);
      var o4 := ServeNotes(o3.store, req, verify, env);
      && o1.response.status == 201 && o2.response.status == 201 && o3.response.status == 201
      && o4.response == JsonMessage(403, NotesApi.QuotaReached)
  {
    var acmeAdmin := NotesApi.Claims(1, 0, ADMIN);
    var db0 := Seed(hashed, FREE);
    assert FindTenant(db0.tenants, 0) == Some(db0.tenants[0]);
    assert NotesOf(db0.notes, 0) == [];
    VerifiedCreate(db0, req, verify, env, acmeAdmin);
    var o1 := ServeNotes(db0, req, verify, env);
    VerifiedCreate(o1.store, req, verify, env, acmeAdmin);
    var o2 := ServeNotes(o1.store, req, verify, env);
    VerifiedCreate(o2.store, req, verify, env, acmeAdmin);
    var o3 := ServeNotes(o2.store, req, verify, env);
    VerifiedCreate(o3.store, req, verify, env, acmeAdmin);
  }
}
