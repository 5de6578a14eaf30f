/** The authentication handlers: register a tenant with its first admin,
    log in against a tenant's subdomain (or as a super admin without one),
    and read the caller's own profile. */
module AuthController {
  import opened Common
  import opened Text
  import opened Db

  // ---- registerTenant

  /** The `adminUser` block of the response: `RETURNING id, email, full_name, role`. */
  datatype AdminUser = AdminUser(id: Id, email: string, fullName: string, role: string)

  datatype Registration = Registration(tenantId: Id, subdomain: string, adminUser: AdminUser)

  predicate SubdomainTaken(tenants: map<Id, Tenant>, subdomain: string) {
    exists t | t in tenants :: tenants[t].subdomain == subdomain
  }

  /** The starting subscription of every new tenant. */
  function FreeTenant(name: string, subdomain: string, now: Time): (t: Tenant)
    ensures t.status == "active" && t.plan == "free" && t.maxUsers == 5 && t.maxProjects == 3
    ensures t.name == name && t.subdomain == subdomain
  {
    Tenant(name, subdomain, "active", "free", 5, 3, now)
  }

  /** `POST /auth/register-tenant`: a tenant row and then its admin row, in
      one transaction. `is_active` is left to its column default, `true`. */
  method RegisterTenant(
    db: Store, tenantName: string, subdomain: string, adminEmail: string, adminPassword: string,
    adminFullName: string, now: Time)
    returns (r: Reply<Registration>)
    requires db.Valid()
    modifies db
    ensures db.Valid()
    ensures r.Fail? ==> unchanged(db)
    ensures tenantName == "" || subdomain == "" || adminEmail == "" || adminPassword == "" || adminFullName == ""
      ==> r == Fail(400, "All fields are required")
    ensures tenantName != "" && subdomain != "" && adminEmail != "" && adminPassword != "" && adminFullName != ""
      && !IsSubdomain(subdomain)
      ==> r == Fail(400, "Invalid subdomain format")
    ensures tenantName != "" && subdomain != "" && adminEmail != "" && adminPassword != "" && adminFullName != ""
      && IsSubdomain(subdomain) && SubdomainTaken(old(db.tenants), subdomain)
      ==> r == Fail(409, "Subdomain already exists")
    ensures r.Ok? <==>
      tenantName != "" && subdomain != "" && adminEmail != "" && adminPassword != "" && adminFullName != ""
      && IsSubdomain(subdomain) && !SubdomainTaken(old(db.tenants), subdomain)
    ensures r.Ok? ==>
      var tid, uid := old(db.nextId), old(db.nextId) + 1;
      var u := User(Some(tid), adminEmail, Hash(adminPassword), adminFullName, TenantAdmin, Some(true), now);
      && tid !in old(db.tenants) && uid !in old(db.users)
      && r == Ok(201, "Tenant registered successfully",
                 Some(Registration(tid, subdomain, AdminUser(uid, adminEmail, adminFullName, TenantAdmin))))
      && db.tenants == old(db.tenants)[tid := FreeTenant(tenantName, subdomain, now)]
      && db.users == old(db.users)[uid := u]
      && db.projects == old(db.projects) && db.tasks == old(db.tasks) && db.nextId == uid + 1
      && db.audit == old(db.audit) + [AuditEvent(Some(tid), Some(uid), "REGISTER_TENANT", "tenant", tid)]
    ensures r.Ok? ==> UsersOf(db.users, old(db.nextId)) == {old(db.nextId) + 1}
  {
    if tenantName == "" || subdomain == "" || adminEmail == "" || adminPassword == "" || adminFullName == "" {
      return Fail(400, "All fields are required");
    }
    if !IsSubdomain(subdomain) {
      return Fail(400, "Invalid subdomain format");
    }
    if SubdomainTaken(db.tenants, subdomain) {
      return Fail(409, "Subdomain already exists");
    }
    var tid := db.nextId;
    var t := FreeTenant(tenantName, subdomain, now);
    TenantWritten(db.tenants, db.users, db.projects, db.tasks, db.nextId, tid + 1, tid, t);
    var uid := tid + 1;
    var u := User(Some(tid), adminEmail, Hash(adminPassword), adminFullName, TenantAdmin, Some(true), now);
    // the tenant is new, so none of its rows can hold the email
    assert forall v :: v in db.users ==> db.users[v].tenantId != Some(tid);
    UserWritten(db.tenants[tid := t], db.users, db.projects, db.tasks, tid + 1, uid + 1, uid, u);
    assert UsersOf(db.users[uid := u], tid) == {uid};
    db.Commit(db.tenants[tid := t], db.users[uid := u], db.projects, db.tasks, uid + 1);
    db.Log(AuditEvent(Some(tid), Some(uid), "REGISTER_TENANT", "tenant", tid));
    r := Ok(201, "Tenant registered successfully",
            Some(Registration(tid, subdomain, AdminUser(uid, adminEmail, adminFullName, TenantAdmin))));
  }

  // ---- login

  /** The `user` block of the login response. */
  datatype LoginUser = LoginUser(id: Id, email: string, fullName: string, role: string, tenantId: Option<Id>)

  /** The signed token is the claims it carries; it expires after 86400 s. */
  datatype Session = Session(user: LoginUser, token: Claims, expiresIn: nat)

  /** The row the login query finds: with a subdomain, the user of that
      (active or not) tenant with the email; without one, the tenant-less
      super admin with the email. */
  ghost predicate Resolves(tenants: map<Id, Tenant>, users: map<Id, User>, email: string, sub: string, u: Id) {
    && u in users && users[u].email == email
    && if sub != "" then
         exists t :: t in tenants && tenants[t].subdomain == sub && users[u].tenantId == Some(t)
       else
         users[u].tenantId.None? && users[u].role == SuperAdmin
  }

  /** No subdomain was given, or it names an active tenant. */
  predicate TenantOpen(tenants: map<Id, Tenant>, sub: string) {
    sub == "" || exists t | t in tenants :: tenants[t].subdomain == sub && tenants[t].status == "active"
  }

  /** The login gets past the tenant checks to row `u`, whose password is
      then compared. */
  ghost predicate Reached(
    tenants: map<Id, Tenant>, users: map<Id, User>, email: string, password: string, sub: string, u: Id)
  {
    && email != "" && password != ""
    && Resolves(tenants, users, email, sub, u)
    && (sub != "" ==> tenants[users[u].tenantId.value].status == "active")
  }

  /** The session issued to row `u`: its claims are exactly its id, tenant and role. */
  function SessionOf(u: Id, user: User): (s: Session)
    ensures s.token == Claims(u, user.tenantId, user.role) && s.expiresIn == 86400
  {
    Session(LoginUser(u, user.email, user.fullName, user.role, user.tenantId),
            Claims(u, user.tenantId, user.role), 86400)
  }

  /** `POST /auth/login`. Only the audit log changes. */
  method Login(db: Store, email: string, password: string, sub: string) returns (r: Reply<Session>)
    requires db.Valid()
    modifies db`audit
    ensures email == "" || password == "" ==> r == Fail(400, "Email and password are required")
    ensures email != "" && password != "" && sub != "" && !SubdomainTaken(db.tenants, sub)
      ==> r == Fail(404, "Tenant not found")
    ensures email != "" && password != "" && sub != ""
      && (exists t :: t in db.tenants && db.tenants[t].subdomain == sub && db.tenants[t].status != "active")
      ==> r == Fail(403, "Tenant account is not active")
    ensures email != "" && password != ""
      && TenantOpen(db.tenants, sub)
      && (forall u :: !Resolves(db.tenants, db.users, email, sub, u))
      ==> r == Fail(401, "Invalid credentials")
    ensures forall u ::
      Reached(db.tenants, db.users, email, password, sub, u)
      && !PasswordMatches(password, db.users[u].passwordHash)
      ==> r == Fail(401, "Invalid credentials")
    ensures forall u ::
      Reached(db.tenants, db.users, email, password, sub, u)
      && PasswordMatches(password, db.users[u].passwordHash) && !Active(db.users[u])
      ==> r == Fail(403, "Account is deactivated")
    ensures forall u ::
      Reached(db.tenants, db.users, email, password, sub, u)
      && PasswordMatches(password, db.users[u].passwordHash) && Active(db.users[u])
      ==> r == Ok(200, "Login successful", Some(SessionOf(u, db.users[u])))
    ensures r.Ok? <==> exists u ::
      Reached(db.tenants, db.users, email, password, sub, u)
      && PasswordMatches(password, db.users[u].passwordHash) && Active(db.users[u])
    ensures r.Fail? ==> db.audit == old(db.audit)
    ensures r.Ok? ==>
      && r.data.Some? && r.data.value.token.userId in db.users
      && r.data.value == SessionOf(r.data.value.token.userId, db.users[r.data.value.token.userId])
      && db.audit == old(db.audit) + [AuditEvent(r.data.value.token.tenantId, Some(r.data.value.token.userId),
                                                   "LOGIN", "user", r.data.value.token.userId)]
  {
    if email == "" || password == "" {
      return Fail(400, "Email and password are required");
    }
    var tenant: Option<Id> := None;
    if sub != "" {
      tenant := FindTenant(db.tenants, sub);
      if tenant.None? {
        return Fail(404, "Tenant not found");
      }
      if db.tenants[tenant.value].status != "active" {
        assert !TenantOpen(db.tenants, sub);
        return Fail(403, "Tenant account is not active");
      }
    }
    var found := FindUser(db.tenants, db.users, email, sub, tenant);
    if found.None? {
      return Fail(401, "Invalid credentials");
    }
    var u := found.value;
    var user := db.users[u];
    if !PasswordMatches(password, user.passwordHash) {
      return Fail(401, "Invalid credentials");
    }
    if !Active(user) {
      return Fail(403, "Account is deactivated");
    }
    db.Log(AuditEvent(user.tenantId, Some(u), "LOGIN", "user", u));
    r := Ok(200, "Login successful", Some(SessionOf(u, user)));
    assert Resolves(db.tenants, db.users, email, sub, u);
  }

  /** `SELECT id, status FROM tenants WHERE subdomain = $1`: at most one row,
      since subdomains are unique. */
  method FindTenant(tenants: map<Id, Tenant>, sub: string) returns (t: Option<Id>)
    requires SubdomainsUnique(tenants)
    ensures t.None? <==> !SubdomainTaken(tenants, sub)
    ensures t.Some? ==> t.value in tenants && tenants[t.value].subdomain == sub
    ensures t.Some? ==> forall k :: k in tenants && tenants[k].subdomain == sub ==> k == t.value
  {
    if !SubdomainTaken(tenants, sub) {
      return None;
    }
    var k :| k in tenants && tenants[k].subdomain == sub;
    t := Some(k);
  }

  /** The user query of the login, in the tenant found for `sub` or among
      the tenant-less super admins: at most one row, since an email is
      unique within a tenant. */
  method FindUser(tenants: map<Id, Tenant>, users: map<Id, User>, email: string, sub: string, tenant: Option<Id>)
    returns (u: Option<Id>)
    requires SubdomainsUnique(tenants) && EmailsUnique(users)
    requires sub != "" ==> tenant.Some? && tenant.value in tenants && tenants[tenant.value].subdomain == sub
    ensures u.None? <==> forall v :: !Resolves(tenants, users, email, sub, v)
    ensures u.Some? ==> Resolves(tenants, users, email, sub, u.value)
    ensures u.Some? ==> forall v :: Resolves(tenants, users, email, sub, v) ==> v == u.value
  {
    assert forall v :: Resolves(tenants, users, email, sub, v) <==>
      v in users && UserRowMatches(users[v], email, sub, tenant);
    if !exists v | v in users :: UserRowMatches(users[v], email, sub, tenant) {
      return None;
    }
    var v :| v in users && UserRowMatches(users[v], email, sub, tenant);
    u := Some(v);
  }

  /** The `WHERE` of the login's user query. */
  predicate UserRowMatches(user: User, email: string, sub: string, tenant: Option<Id>) {
    && user.email == email
    && if sub != "" then user.tenantId == tenant else user.tenantId.None? && user.role == SuperAdmin
  }

  /** A login through a subdomain only ever opens a session of that
      tenant; a login without one only of a super admin. */
  lemma LoginStaysInTenant(tenants: map<Id, Tenant>, users: map<Id, User>, email: string, sub: string, u: Id)
    requires Resolves(tenants, users, email, sub, u)
    ensures sub != "" ==>
      users[u].tenantId.Some? && users[u].tenantId.value in tenants
      && tenants[users[u].tenantId.value].subdomain == sub
    ensures sub == "" ==> SessionOf(u, users[u]).token.role == SuperAdmin && SessionOf(u, users[u]).token.tenantId.None?
  {
  }

  // ---- getMe

  /** `SELECT id, email, full_name, role, is_active, tenant_id`. */
  datatype ProfileUser = ProfileUser(
    id: Id, email: string, fullName: string, role: string, isActive: Option<bool>, tenantId: Option<Id>)

  /** `SELECT id, name, subdomain, subscription_plan, max_users, max_projects, status`. */
  datatype ProfileTenant = ProfileTenant(
    id: Id, name: string, subdomain: string, plan: string, maxUsers: int, maxProjects: int, status: string)

  datatype Profile = Profile(user: ProfileUser, tenant: Option<ProfileTenant>)

  /** `GET /auth/me`: the caller's row as stored now (not as the token
      remembers it), and its tenant if it has one. */
  function GetMe(db: Store, c: Claims): (r: Reply<Profile>)
    reads db
    ensures r.Ok? <==> c.userId in db.users
    ensures r.Fail? ==> r == Fail(404, "User not found")
    ensures r.Ok? ==>
      var u := db.users[c.userId];
      && r.status == 200 && r.message == "User profile" && r.data.Some?
      && r.data.value.user.id == c.userId && r.data.value.user.role == u.role
      && r.data.value.user.tenantId == u.tenantId
      && r.data.value.user.email == u.email && r.data.value.user.fullName == u.fullName
      && r.data.value.user.isActive == u.isActive
      && (r.data.value.tenant.Some? <==> u.tenantId.Some? && u.tenantId.value in db.tenants)
      && (r.data.value.tenant.Some? ==>
            var t, p := db.tenants[u.tenantId.value], r.data.value.tenant.value;
            && p.id == u.tenantId.value && p.name == t.name && p.subdomain == t.subdomain
            && p.plan == t.plan && p.maxUsers == t.maxUsers && p.maxProjects == t.maxProjects
            && p.status == t.status)
  {
    if c.userId !in db.users then Fail(404, "User not found")
    else
      var u := db.users[c.userId];
      var tenant := if u.tenantId.Some? && u.tenantId.value in db.tenants then
        var t := db.tenants[u.tenantId.value];
        Some(ProfileTenant(u.tenantId.value, t.name, t.subdomain, t.plan, t.maxUsers, t.maxProjects, t.status))
      else None;
      Ok(200, "User profile",
         Some(Profile(ProfileUser(c.userId, u.email, u.fullName, u.role, u.isActive, u.tenantId), tenant)))
  }
}
