/**
 The account-provisioning route (`POST /api/auth/signup`). The checks run in
 a fixed order — method, required fields, email already used, tenant slug
 already used — and only a request that passes all of them changes the
 store, by creating one tenant with exactly one ADMIN user. The slug function
 and the password hash are parameters; the hash stands for one call of
 `bcrypt.hash`, salt included.
 */
module Signup {
  import opened Wrappers
  import opened Database
  import opened Http

  /** The JSON body; `None` is a missing or `null` field. */
  datatype SignupInput = SignupInput(email: Option<string>, password: Option<string>,
                                     tenantName: Option<string>)

  const MethodRejected := "Method not allowed"
  const FieldsRequired := "All fields are required"
  const EmailInUse := "Email already in use"
  const TenantInUse := "Tenant name already in use"
  const AccountCreated := "Account created successfully"

  /** JavaScript truthiness of a string field: present and non-empty. */
  predicate Truthy(field: Option<string>) {
    field.Some? && field.value != ""
  }

  predicate FieldsPresent(body: SignupInput) {
    Truthy(body.email) && Truthy(body.password) && Truthy(body.tenantName)
  }

  /**
   The route handler. `defaultPlan` is the plan a new tenant row receives
   from the database schema.
   */
  function Handle(db: Store, req: Request<SignupInput>, slugify: string -> string,
                  hash: string -> string, defaultPlan: Plan): (out: Outcome)
    ensures req.verb != "POST" ==> out == Outcome(JsonMessage(405, MethodRejected), db)
    ensures req.verb == "POST" && !FieldsPresent(req.body) ==>
              out == Outcome(JsonMessage(400, FieldsRequired), db)
    // the email check comes first, whatever the slug
    ensures req.verb == "POST" && FieldsPresent(req.body) && EmailTaken(db.users, req.body.email.value) ==>
              out == Outcome(JsonMessage(409, EmailInUse), db)
    ensures req.verb == "POST" && FieldsPresent(req.body) && !EmailTaken(db.users, req.body.email.value)
            && SlugTaken(db.tenants, slugify(req.body.tenantName.value)) ==>
              out == Outcome(JsonMessage(409, TenantInUse), db)
    ensures out.response.status == 201 <==>
              && req.verb == "POST" && FieldsPresent(req.body)
              && !EmailTaken(db.users, req.body.email.value)
              && !SlugTaken(db.tenants, slugify(req.body.tenantName.value))
    ensures out.response.status != 201 ==> out.store == db
    // success: one new tenant, one new ADMIN user in it, hashed credential
    ensures out.response.status == 201 ==>
      && out.response.body.Account?
      && |out.response.body.users| == 1
      && var t, u := out.response.body.tenant, out.response.body.users[0];
      && out.store.tenants == db.tenants + [t]
      && out.store.users == db.users + [u]
      && out.store.notes == db.notes
      && t == Tenant(t.id, req.body.tenantName.value, slugify(req.body.tenantName.value), defaultPlan)
      && u == User(u.id, req.body.email.value, hash(req.body.password.value), ADMIN, t.id)
      && out.store.nextId > u.id && out.store.nextId > t.id
    // the new tenant's id is fresh
    ensures out.response.status == 201 && IdsFresh(db) ==>
      && !HasTenant(db.tenants, out.response.body.tenant.id)
      && forall v | v in db.users :: v.id != out.response.body.users[0].id
  {
    if req.verb != "POST" then Outcome(JsonMessage(405, MethodRejected), db)
    else if !FieldsPresent(req.body) then Outcome(JsonMessage(400, FieldsRequired), db)
    else
      var email, password, tenantName :=
        req.body.email.value, req.body.password.value, req.body.tenantName.value;
      if EmailTaken(db.users, email) then Outcome(JsonMessage(409, EmailInUse), db)
      else
        var slug := slugify(tenantName);
        if SlugTaken(db.tenants, slug) then Outcome(JsonMessage(409, TenantInUse), db)
        else
          var (t, u, db') := CreateTenantWithUser(db, tenantName, slug, defaultPlan,
                                                  email, hash(password), ADMIN);
          Outcome(Response(201, JsonHeaders, Account(AccountCreated, t, [u])), db')
  }

  /** Email uniqueness, slug uniqueness, the quota and all references survive a signup. */
  lemma HandlePreservesValid(db: Store, req: Request<SignupInput>, slugify: string -> string,
                             hash: string -> string, defaultPlan: Plan)
    requires Valid(db)
    ensures Valid(Handle(db, req, slugify, hash, defaultPlan).store)
  {
    var out := Handle(db, req, slugify, hash, defaultPlan);
    if out.response.status == 201 {
      var db' := out.store;
      var t, u := out.response.body.tenant, out.response.body.users[0];
      assert !HasTenant(db.tenants, t.id);
      assert !EmailTaken(db.users, u.email);
      assert !SlugTaken(db.tenants, t.slug);
      forall i, j | 0 <= i < j < |db'.users| ensures db'.users[i].email != db'.users[j].email {
        if j == |db.users| { assert db'.users[i] in db.users; }
      }
      forall i, j | 0 <= i < j < |db'.tenants|
        ensures db'.tenants[i].slug != db'.tenants[j].slug
        ensures db'.tenants[i].id != db'.tenants[j].id
      {
        if j == |db.tenants| { assert db'.tenants[i] in db.tenants; }
      }
      forall v | v in db'.users ensures HasTenant(db'.tenants, v.tenantId) {
        if v != u { assert v in db.users; }
      }
      forall n | n in db'.notes ensures HasTenant(db'.tenants, n.tenantId) {
        assert HasTenant(db.tenants, n.tenantId);
      }
      forall s | s in db'.tenants && s.plan == FREE
        ensures |NotesOf(db'.notes, s.id)| <= FreeNoteLimit
      {
        if s == t {
          forall n | n in db.notes ensures n.tenantId != t.id {
            assert HasTenant(db.tenants, n.tenantId);
          }
          NotesOfAbsentTenant(db.notes, t.id);
        }
      }
    }
  }

  /** The new tenant has exactly one user: the ADMIN just created. */
  lemma NewTenantHasSoleAdmin(db: Store, req: Request<SignupInput>, slugify: string -> string,
                              hash: string -> string, defaultPlan: Plan)
    requires Valid(db)
    requires Handle(db, req, slugify, hash, defaultPlan).response.status == 201
    ensures
      var out := Handle(db, req, slugify, hash, defaultPlan);
      forall v | v in out.store.users && v.tenantId == out.response.body.tenant.id ::
        v == out.response.body.users[0] && v.role == ADMIN
  {
  }

  /**
   The password reaches the store only through its hash: two requests that
   differ only in passwords hashing to the same value give the same outcome.
   */
  lemma CredentialOnlyThroughHash(db: Store, r1: Request<SignupInput>, r2: Request<SignupInput>,
                                  slugify: string -> string, hash1: string -> string,
                                  hash2: string -> string, defaultPlan: Plan)
    requires r1.verb == r2.verb
    requires r1.body.email == r2.body.email && r1.body.tenantName == r2.body.tenantName
    requires Truthy(r1.body.password) == Truthy(r2.body.password)
    requires Truthy(r1.body.password) ==>
               hash1(r1.body.password.value) == hash2(r2.body.password.value)
    ensures Handle(db, r1, slugify, hash1, defaultPlan) == Handle(db, r2, slugify, hash2, defaultPlan)
  {
  }
}
