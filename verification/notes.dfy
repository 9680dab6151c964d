/**
 The notes collection route (`GET`/`POST /api/notes`). The caller's identity
 is read only from the `x-user-payload` header, which the gate in front of
 the route has overwritten with the verified token payload. Reading a list is
 filtered by the caller's tenant; creating a note stamps it with the caller's
 tenant and, for a tenant on the FREE plan, is refused once the tenant holds
 three notes.
 */
module NotesApi {
  import opened Wrappers
  import opened Database
  import opened Http
  import Middleware

  /** The fields of the verified payload the handlers use. */
  datatype Claims = Claims(userId: Id, tenantId: Id, role: Role)

  /**
   The result of `JSON.parse` on the header value: a payload object, a falsy
   value (`null`, `0`, `""`, `false`), or a thrown syntax error.
   */
  datatype Parsed = Identity(claims: Claims) | NoIdentity | ParseError

  datatype NoteInput = NoteInput(title: string, content: Option<string>)

  const Unauthorized := "Unauthorized"
  const QuotaReached := "Free plan limit of 3 notes reached. Please upgrade."

  /** `getUser`: no `x-user-payload` header means no identity; otherwise its value is parsed. */
  function GetUser(headers: Headers, parse: string -> Parsed): (p: Parsed)
    ensures Middleware.UserPayload !in headers ==> p == NoIdentity
  {
    if Middleware.UserPayload in headers then parse(headers[Middleware.UserPayload]) else NoIdentity
  }

  /** The FREE-plan cap applies: the tenant row exists, is FREE, and already holds the limit. */
  predicate QuotaBlocks(db: Store, tenantId: Id) {
    match FindTenant(db.tenants, tenantId)
    case Some(t) => t.plan == FREE && |NotesOf(db.notes, tenantId)| >= FreeNoteLimit
    case None => false
  }

  function MethodNotAllowed(verb: string): Response {
    Response(405, map[Allow := "GET, POST"], PlainText("Method " + verb + " Not Allowed"))
  }

  /** The route handler: the response and the store after the request. */
  function Handle(db: Store, req: Request<NoteInput>, parse: string -> Parsed): (out: Outcome)
    // no identity: 401, whatever the method
    ensures GetUser(req.headers, parse).NoIdentity? <==> out.response == JsonMessage(401, Unauthorized)
    // a header that is not valid JSON makes the handler throw
    ensures GetUser(req.headers, parse).ParseError? ==> out == Outcome(InternalServerError, db)
    // only a created note changes the store
    ensures out.response.status != 201 ==> out.store == db
    // listing: exactly the caller's tenant's notes
    ensures GetUser(req.headers, parse).Identity? && req.verb == "GET" ==>
      var caller := GetUser(req.headers, parse).claims;
      && out.response.status == 200
      && out.response.body.NoteList?
      && forall n :: n in out.response.body.notes <==> n in db.notes && n.tenantId == caller.tenantId
    // creating: refused with 403 exactly when the FREE cap applies
    ensures GetUser(req.headers, parse).Identity? && req.verb == "POST" ==>
      (QuotaBlocks(db, GetUser(req.headers, parse).claims.tenantId) <==>
       out.response == JsonMessage(403, QuotaReached))
    // an existing tenant below its cap (or on another plan) gets its note created
    ensures GetUser(req.headers, parse).Identity? && req.verb == "POST"
            && HasTenant(db.tenants, GetUser(req.headers, parse).claims.tenantId)
            && !QuotaBlocks(db, GetUser(req.headers, parse).claims.tenantId) ==>
      out.response.status == 201
    // a payload naming no stored tenant: the cap is skipped and the store refuses the note
    ensures GetUser(req.headers, parse).Identity? && req.verb == "POST"
            && !HasTenant(db.tenants, GetUser(req.headers, parse).claims.tenantId) ==>
      out == Outcome(InternalServerError, db)
    // a created note: one new note, the caller's tenant, the body's fields, nothing else touched
    ensures out.response.status == 201 ==>
      && GetUser(req.headers, parse).Identity? && req.verb == "POST"
      && out.response.body.OneNote?
      && var n := out.response.body.note;
      && out.store.notes == db.notes + [n]
      && n.tenantId == GetUser(req.headers, parse).claims.tenantId
      && n.title == req.body.title && n.content == req.body.content
      && out.store.tenants == db.tenants && out.store.users == db.users
    // the created note's id is one no stored note holds
    ensures out.response.status == 201 && IdsFresh(db) ==>
      forall m | m in db.notes :: m.id != out.response.body.note.id
    // any other method
    ensures GetUser(req.headers, parse).Identity? && req.verb != "GET" && req.verb != "POST" ==>
      out.response == MethodNotAllowed(req.verb)
  {
    match GetUser(req.headers, parse)
    case ParseError => Outcome(InternalServerError, db)
    case NoIdentity => Outcome(JsonMessage(401, Unauthorized), db)
    case Identity(user) =>
      if req.verb == "GET" then
        Outcome(Response(200, JsonHeaders, NoteList(NotesOf(db.notes, user.tenantId))), db)
      else if req.verb == "POST" then
        if QuotaBlocks(db, user.tenantId) then
          Outcome(JsonMessage(403, QuotaReached), db)
        else
          match CreateNote(db, req.body.title, req.body.content, user.tenantId)
          case None => Outcome(InternalServerError, db)
          case Some((note, db')) => Outcome(Response(201, JsonHeaders, OneNote(note)), db')
      else
        Outcome(MethodNotAllowed(req.verb), db)
  }

  /**
   The cap is skipped unless the tenant row is found and FREE: for an existing
   tenant on any other plan, creation succeeds whatever the count.
   */
  lemma CapOnlyForFreeTenants(db: Store, req: Request<NoteInput>, parse: string -> Parsed)
    requires GetUser(req.headers, parse).Identity? && req.verb == "POST"
    requires FindTenant(db.tenants, GetUser(req.headers, parse).claims.tenantId).Some?
    requires FindTenant(db.tenants, GetUser(req.headers, parse).claims.tenantId).value.plan != FREE
    ensures Handle(db, req, parse).response.status == 201
  {
  }

  /** A FREE tenant at or under the cap stays at or under it after any request. */
  lemma QuotaPreserved(db: Store, req: Request<NoteInput>, parse: string -> Parsed, t: Tenant)
    requires UniqueTenantIds(db.tenants)
    requires t in db.tenants && t.plan == FREE
    requires |NotesOf(db.notes, t.id)| <= FreeNoteLimit
    ensures |NotesOf(Handle(db, req, parse).store.notes, t.id)| <= FreeNoteLimit
  {
    var out := Handle(db, req, parse);
    if out.response.status == 201 {
      var n := out.response.body.note;
      NotesOfAppend(db.notes, n, t.id);
      if n.tenantId == t.id {
        FindTenantIsTheTenant(db.tenants, t);
        assert !QuotaBlocks(db, t.id);
      }
    }
  }

  /** Every request keeps the store's invariants, in particular the FREE-plan quota. */
  lemma HandlePreservesValid(db: Store, req: Request<NoteInput>, parse: string -> Parsed)
    requires Valid(db)
    ensures Valid(Handle(db, req, parse).store)
  {
    var out := Handle(db, req, parse);
    if out.response.status == 201 {
      var db' := out.store;
      var n := out.response.body.note;
      var r := CreateNote(db, req.body.title, req.body.content, n.tenantId);
      assert r.Some?;
      assert HasTenant(db.tenants, n.tenantId);
      forall m | m in db'.notes
        ensures HasTenant(db'.tenants, m.tenantId)
      {
        if m != n { assert m in db.notes; }
      }
      forall t | t in db'.tenants && t.plan == FREE
        ensures |NotesOf(db'.notes, t.id)| <= FreeNoteLimit
      {
        QuotaPreserved(db, req, parse, t);
      }
    }
  }
}
