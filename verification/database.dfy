/**
 The persistent store behind the request handlers: tenants, users and notes,
 as an immutable value. Identifiers are drawn from a counter, standing in for
 the database's generated ids. The queries and `create` calls the handlers
 make are the functions of this module.
 */
module Database {
  import opened Wrappers

  type Id = nat

  datatype Plan = FREE | PRO
  datatype Role = ADMIN | MEMBER

  datatype Tenant = Tenant(id: Id, name: string, slug: string, plan: Plan)
  datatype User = User(id: Id, email: string, password: string, role: Role, tenantId: Id)
  datatype Note = Note(id: Id, title: string, content: Option<string>, tenantId: Id)

  datatype Store = Store(tenants: seq<Tenant>, users: seq<User>, notes: seq<Note>, nextId: Id)

  /** Number of notes a tenant on the FREE plan may hold. */
  const FreeNoteLimit: nat := 3

  /** `note.findMany({ where: { tenantId } })`: the notes of one tenant, in store order. */
  function NotesOf(notes: seq<Note>, tenantId: Id): (r: seq<Note>)
    ensures forall n :: n in r <==> n in notes && n.tenantId == tenantId
    ensures |r| <= |notes|
  {
    if |notes| == 0 then []
    else
      var rest := NotesOf(notes[1..], tenantId);
      assert forall n :: n in notes <==> n == notes[0] || n in notes[1..];
      if notes[0].tenantId == tenantId then [notes[0]] + rest else rest
  }

  /** Appending a note extends only its own tenant's list. */
  lemma {:induction false} NotesOfAppend(notes: seq<Note>, n: Note, tenantId: Id)
    ensures NotesOf(notes + [n], tenantId)
         == NotesOf(notes, tenantId) + (if n.tenantId == tenantId then [n] else [])
    decreases |notes|
  {
    if |notes| > 0 {
      assert (notes + [n])[1..] == notes[1..] + [n];
      NotesOfAppend(notes[1..], n, tenantId);
    } else {
      assert (notes + [n])[1..] == [];
    }
  }

  /** A tenant none of whose notes are stored has an empty list. */
  lemma {:induction false} NotesOfAbsentTenant(notes: seq<Note>, tenantId: Id)
    requires forall n | n in notes :: n.tenantId != tenantId
    ensures NotesOf(notes, tenantId) == []
    decreases |notes|
  {
    if |notes| > 0 {
      assert notes[0] in notes;
      assert forall n | n in notes[1..] :: n in notes;
      NotesOfAbsentTenant(notes[1..], tenantId);
    }
  }

  /** `tenant.findUnique({ where: { id } })`. */
  function FindTenant(tenants: seq<Tenant>, id: Id): (r: Option<Tenant>)
    ensures r.Some? ==> r.value in tenants && r.value.id == id
    ensures r.None? <==> forall t | t in tenants :: t.id != id
  {
    if |tenants| == 0 then None
    else if tenants[0].id == id then Some(tenants[0])
    else
      assert forall t :: t in tenants <==> t == tenants[0] || t in tenants[1..];
      FindTenant(tenants[1..], id)
  }

  /** `user.findUnique({ where: { email } })` finds a row. */
  predicate EmailTaken(users: seq<User>, email: string) {
    exists u | u in users :: u.email == email
  }

  /** `tenant.findUnique({ where: { slug } })` finds a row. */
  predicate SlugTaken(tenants: seq<Tenant>, slug: string) {
    exists t | t in tenants :: t.slug == slug
  }

  predicate HasTenant(tenants: seq<Tenant>, id: Id) {
    exists t | t in tenants :: t.id == id
  }

  /**
   `note.create`: the note is appended under a newly generated id. The
   store is taken to hold `tenantId` as a reference to a tenant, so it
   refuses a note for a tenant that does not exist.
   */
  function CreateNote(db: Store, title: string, content: Option<string>, tenantId: Id)
    : (r: Option<(Note, Store)>)
    ensures r.None? <==> !HasTenant(db.tenants, tenantId)
    ensures r.Some? ==>
      var (note, db') := r.value;
      && db'.notes == db.notes + [note]
      && note.title == title && note.content == content && note.tenantId == tenantId
      && db'.tenants == db.tenants && db'.users == db.users
    // the id is one no stored row holds, and the counter stays ahead of every id
    ensures r.Some? && IdsFresh(db) ==>
      var (note, db') := r.value;
      && IdsFresh(db')
      && forall m | m in db.notes :: m.id != note.id
  {
    if HasTenant(db.tenants, tenantId) then
      var note := Note(db.nextId, title, content, tenantId);
      Some((note, db.(notes := db.notes + [note], nextId := db.nextId + 1)))
    else None
  }

  /**
   `tenant.create` with a nested `users.create` of one user: both rows get
   newly generated ids and the user belongs to the new tenant.
   */
  function CreateTenantWithUser(db: Store, name: string, slug: string, plan: Plan,
                                email: string, password: string, role: Role)
    : (r: (Tenant, User, Store))
    ensures
      var (t, u, db') := r;
      && db'.tenants == db.tenants + [t]
      && db'.users == db.users + [u]
      && db'.notes == db.notes
      && t.name == name && t.slug == slug && t.plan == plan
      && u.email == email && u.password == password && u.role == role && u.tenantId == t.id
    // both ids are ones no stored row holds, and the counter stays ahead of every id
    ensures IdsFresh(db) ==>
      var (t, u, db') := r;
      && IdsFresh(db')
      && !HasTenant(db.tenants, t.id)
      && forall v | v in db.users :: v.id != u.id
  {
    var t := Tenant(db.nextId, name, slug, plan);
    var u := User(db.nextId + 1, email, password, role, t.id);
    (t, u, Store(db.tenants + [t], db.users + [u], db.notes, db.nextId + 2))
  }

  // ---------------------------------------------------------------------------
  // Store invariants

  ghost predicate UniqueTenantIds(tenants: seq<Tenant>) {
    forall i, j | 0 <= i < j < |tenants| :: tenants[i].id != tenants[j].id
  }

  /** Tenant slugs are unique (the slug identifies a tenant in URLs). */
  ghost predicate UniqueSlugs(tenants: seq<Tenant>) {
    forall i, j | 0 <= i < j < |tenants| :: tenants[i].slug != tenants[j].slug
  }

  /** User emails are unique across the whole system. */
  ghost predicate UniqueEmails(users: seq<User>) {
    forall i, j | 0 <= i < j < |users| :: users[i].email != users[j].email
  }

  /** Every user and every note belongs to a tenant that exists. */
  ghost predicate ReferencesValid(db: Store) {
    && (forall u | u in db.users :: HasTenant(db.tenants, u.tenantId))
    && (forall n | n in db.notes :: HasTenant(db.tenants, n.tenantId))
  }

  /** Every id handed out so far, of any row, is below the counter. */
  ghost predicate IdsFresh(db: Store) {
    && (forall t | t in db.tenants :: t.id < db.nextId)
    && (forall u | u in db.users :: u.id < db.nextId)
    && (forall n | n in db.notes :: n.id < db.nextId)
  }

  /** No FREE tenant holds more notes than the plan allows. */
  ghost predicate WithinQuota(db: Store) {
    forall t | t in db.tenants && t.plan == FREE :: |NotesOf(db.notes, t.id)| <= FreeNoteLimit
  }

  ghost predicate Valid(db: Store) {
    && UniqueTenantIds(db.tenants)
    && UniqueSlugs(db.tenants)
    && UniqueEmails(db.users)
    && ReferencesValid(db)
    && IdsFresh(db)
    && WithinQuota(db)
  }

  /** With unique ids, the tenant a lookup finds is the only one with that id. */
  lemma FindTenantIsTheTenant(tenants: seq<Tenant>, t: Tenant)
    requires UniqueTenantIds(tenants)
    requires t in tenants
    ensures FindTenant(tenants, t.id) == Some(t)
  {
  }
}
