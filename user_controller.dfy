/** The user handlers of a tenant: add a member under the subscription's
    user limit, list the members, update a member field by field, delete a
    member and release the rows that point at it. */
module UserController {
  import opened Common
  import opened Text
  import opened Listing
  import opened Db

  // ---- addUser

  /** Roles a tenant admin may hand out. */
  predicate GrantableRole(role: string) {
    role == Member || role == TenantAdmin
  }

  /** Some row of the tenant already carries the email. */
  predicate EmailTaken(users: map<Id, User>, tenant: Id, email: string) {
    exists v | v in users :: users[v].tenantId == Some(tenant) && users[v].email == email
  }

  /** A fresh user row joins exactly one tenant's member set. */
  lemma UsersOfInsert(users: map<Id, User>, id: Id, u: User, t: Id)
    requires id !in users
    ensures UsersOf(users[id := u], t) == if u.tenantId == Some(t) then UsersOf(users, t) + {id} else UsersOf(users, t)
    ensures |UsersOf(users[id := u], t)| == |UsersOf(users, t)| + (if u.tenantId == Some(t) then 1 else 0)
  {
    if u.tenantId == Some(t) {
      assert UsersOf(users[id := u], t) == UsersOf(users, t) + {id};
      assert id !in UsersOf(users, t);
    } else {
      assert UsersOf(users[id := u], t) == UsersOf(users, t);
    }
  }

  /** `POST /tenants/:tenantId/users`. A missing tenant row makes
      `tenantRes.rows[0].max_users` throw, which the handler reports as 500. */
  method AddUser(
    db: Store, c: Claims, tenantId: Id, email: string, password: string, fullName: string,
    role: string, now: Time)
    returns (r: Reply<UserInfo>)
    requires db.Valid()
    modifies db
    ensures db.Valid()
    ensures r.Fail? ==> unchanged(db)
    ensures c.role != TenantAdmin || c.tenantId != Some(tenantId) ==> r == Fail(403, "Not authorized")
    ensures c.role == TenantAdmin && c.tenantId == Some(tenantId) && (email == "" || password == "" || fullName == "")
      ==> r == Fail(400, "Email, password, and name are required")
    ensures c.role == TenantAdmin && c.tenantId == Some(tenantId) && email != "" && password != "" && fullName != ""
      && |password| < 8
      ==> r == Fail(400, "Password must be at least 8 characters")
    ensures c.role == TenantAdmin && c.tenantId == Some(tenantId) && email != "" && password != "" && fullName != ""
      && |password| >= 8 && !GrantableRole(OrElse(role, Member))
      ==> r == Fail(400, "Invalid role")
    ensures c.role == TenantAdmin && c.tenantId == Some(tenantId) && email != "" && password != "" && fullName != ""
      && |password| >= 8 && GrantableRole(OrElse(role, Member)) && tenantId !in old(db.tenants)
      ==> r == Fail(500, ServerError)
    ensures c.role == TenantAdmin && c.tenantId == Some(tenantId) && email != "" && password != "" && fullName != ""
      && |password| >= 8 && GrantableRole(OrElse(role, Member)) && tenantId in old(db.tenants)
      && |UsersOf(old(db.users), tenantId)| >= old(db.tenants)[tenantId].maxUsers
      ==> r == Fail(403, "Subscription user limit reached")
    ensures c.role == TenantAdmin && c.tenantId == Some(tenantId) && email != "" && password != "" && fullName != ""
      && |password| >= 8 && GrantableRole(OrElse(role, Member)) && tenantId in old(db.tenants)
      && |UsersOf(old(db.users), tenantId)| < old(db.tenants)[tenantId].maxUsers
      && EmailTaken(old(db.users), tenantId, email)
      ==> r == Fail(409, "Email already exists in this tenant")
    ensures r.Ok? <==>
      c.role == TenantAdmin && c.tenantId == Some(tenantId) && email != "" && password != "" && fullName != ""
      && |password| >= 8 && GrantableRole(OrElse(role, Member)) && tenantId in old(db.tenants)
      && |UsersOf(old(db.users), tenantId)| < old(db.tenants)[tenantId].maxUsers
      && !EmailTaken(old(db.users), tenantId, email)
    ensures r.Ok? ==>
      var id := old(db.nextId);
      var u := User(Some(tenantId), email, Hash(password), fullName, OrElse(role, Member), Some(true), now);
      && id !in old(db.users)
      && r == Ok(201, "User created successfully", Some(InfoOf(id, u)))
      && db.users == old(db.users)[id := u] && db.nextId == id + 1
      && db.tenants == old(db.tenants) && db.projects == old(db.projects) && db.tasks == old(db.tasks)
      && db.audit == old(db.audit) + [AuditEvent(Some(tenantId), Some(c.userId), "CREATE_USER", "user", id)]
    ensures r.Ok? ==> |UsersOf(db.users, tenantId)| <= db.tenants[tenantId].maxUsers
  {
    if c.role != TenantAdmin || c.tenantId != Some(tenantId) {
      return Fail(403, "Not authorized");
    }
    if email == "" || password == "" || fullName == "" {
      return Fail(400, "Email, password, and name are required");
    }
    if |password| < 8 {
      return Fail(400, "Password must be at least 8 characters");
    }
    var newRole := OrElse(role, Member);
    if !GrantableRole(newRole) {
      return Fail(400, "Invalid role");
    }
    if tenantId !in db.tenants {
      return Fail(500, ServerError);
    }
    var maxUsers := db.tenants[tenantId].maxUsers;
    var count := |UsersOf(db.users, tenantId)|;
    if count >= maxUsers {
      return Fail(403, "Subscription user limit reached");
    }
    if EmailTaken(db.users, tenantId, email) {
      return Fail(409, "Email already exists in this tenant");
    }
    var id := db.nextId;
    var u := User(Some(tenantId), email, Hash(password), fullName, newRole, Some(true), now);
    UserWritten(db.tenants, db.users, db.projects, db.tasks, db.nextId, id + 1, id, u);
    UsersOfInsert(db.users, id, u, tenantId);
    db.Commit(db.tenants, db.users[id := u], db.projects, db.tasks, id + 1);
    db.Log(AuditEvent(Some(tenantId), Some(c.userId), "CREATE_USER", "user", id));
    r := Ok(201, "User created successfully", Some(InfoOf(id, u)));
  }

  // ---- listUsers

  /** The query string of `GET /tenants/:tenantId/users`. */
  datatype UserQuery = UserQuery(search: string, role: string, page: Option<int>, limit: Option<int>)

  datatype UserClause =
    | InTenant(tenant: Id)
    | EmailOrNameLike(search: string)
    | HasRole(role: string)

  predicate UserHolds(c: UserClause, u: User) {
    match c
    case InTenant(t) => u.tenantId == Some(t)
    case EmailOrNameLike(s) => ILike(u.email, s) || ILike(u.fullName, s)
    case HasRole(role) => u.role == role
  }

  predicate UserWhere(cs: seq<UserClause>, u: User) {
    forall i :: 0 <= i < |cs| ==> UserHolds(cs[i], u)
  }

  /** Which members the list shows, stated directly. */
  predicate UserListed(tenantId: Id, q: UserQuery, u: User) {
    && u.tenantId == Some(tenantId)
    && (q.search != "" ==> ILike(u.email, q.search) || ILike(u.fullName, q.search))
    && (q.role != "" ==> u.role == q.role)
  }

  /** Builds the `WHERE` clause list, anchored on the tenant. */
  method UserFilter(tenantId: Id, q: UserQuery) returns (cs: seq<UserClause>)
    ensures |cs| >= 1 && cs[0] == InTenant(tenantId)
    ensures forall u :: UserWhere(cs, u) <==> UserListed(tenantId, q, u)
  {
    cs := [InTenant(tenantId)];
    if q.search != "" { cs := cs + [EmailOrNameLike(q.search)]; }
    if q.role != "" { cs := cs + [HasRole(q.role)]; }
    forall u ensures UserWhere(cs, u) <==> UserListed(tenantId, q, u) {
      if UserWhere(cs, u) {
        assert UserHolds(cs[0], u);
        if q.search != "" { assert UserHolds(cs[1], u); }
        if q.role != "" { assert UserHolds(cs[|cs| - 1], u); }
      }
    }
  }

  function UserKey(u: User): Key {
    NewestFirst(u.createdAt)
  }

  /** One row of `SELECT id, email, full_name, role, is_active, created_at`. */
  datatype MemberView = MemberView(
    id: Id, email: string, fullName: string, role: string, isActive: Option<bool>, createdAt: Time)

  function FormatUsers(users: map<Id, User>, ids: seq<Id>): (vs: seq<MemberView>)
    requires forall i :: 0 <= i < |ids| ==> ids[i] in users
    ensures |vs| == |ids|
    ensures forall i :: 0 <= i < |ids| ==>
      var u := users[ids[i]];
      vs[i] == MemberView(ids[i], u.email, u.fullName, u.role, u.isActive, u.createdAt)
  {
    seq(|ids|, i requires 0 <= i < |ids| =>
      var u := users[ids[i]];
      MemberView(ids[i], u.email, u.fullName, u.role, u.isActive, u.createdAt))
  }

  /** `GET /tenants/:tenantId/users`, open to every member of the tenant.
      The ghost `ordered` is the whole ordered result before `LIMIT`/`OFFSET`. */
  method ListUsers(db: Store, c: Claims, tenantId: Id, q: UserQuery)
    returns (r: Reply<Page<MemberView>>, ghost ordered: seq<Id>)
    ensures c.tenantId != Some(tenantId) ==> r == Fail(403, "Not authorized")
    ensures var page, limit := q.page.GetOr(1), q.limit.GetOr(50);
      c.tenantId == Some(tenantId) && (limit < 0 || Offset(page, limit) < 0) ==> r == Fail(500, ServerError)
    ensures var page, limit := q.page.GetOr(1), q.limit.GetOr(50);
      r.Ok? <==> c.tenantId == Some(tenantId) && limit >= 0 && Offset(page, limit) >= 0
    ensures forall i :: 0 <= i < |ordered| ==>
      ordered[i] in db.users && UserListed(tenantId, q, db.users[ordered[i]])
    ensures r.Ok? ==> forall k :: k in db.users && UserListed(tenantId, q, db.users[k]) ==> k in ordered
    ensures forall i, j :: 0 <= i < j < |ordered| ==> ordered[i] != ordered[j]
    ensures forall i, j :: 0 <= i < j < |ordered| ==>
      db.users[ordered[i]].createdAt >= db.users[ordered[j]].createdAt
    ensures r.Ok? ==>
      var page, limit := q.page.GetOr(1), q.limit.GetOr(50);
      && r.status == 200 && r.message == "Users list" && r.data.Some?
      && r.data.value.total == |ordered|
      && r.data.value.total == |set k | k in db.users && UserListed(tenantId, q, db.users[k])|
      && r.data.value.items == FormatUsers(db.users, Window(ordered, Offset(page, limit), limit))
      && r.data.value.currentPage == page && r.data.value.limit == limit
      && r.data.value.totalPages == TotalPages(|ordered|, limit)
  {
    ordered := [];
    if c.tenantId != Some(tenantId) {
      return Fail(403, "Not authorized"), ordered;
    }
    var page, limit := q.page.GetOr(1), q.limit.GetOr(50);
    var offset := Offset(page, limit);
    var cs := UserFilter(tenantId, q);
    var ids := Select(db.users, (u: User) => UserWhere(cs, u), UserKey);
    ordered := ids;
    assert (set k | k in db.users && UserListed(tenantId, q, db.users[k]))
        == Matching(db.users, (u: User) => UserWhere(cs, u));
    forall i, j | 0 <= i < j < |ordered|
      ensures db.users[ordered[i]].createdAt >= db.users[ordered[j]].createdAt
    {
      NewestFirstOrder(db.users[ordered[i]].createdAt, db.users[ordered[j]].createdAt);
    }
    if limit < 0 || offset < 0 {
      return Fail(500, ServerError), ordered;
    }
    var shown := Window(ids, offset, limit);
    r := Ok(200, "Users list", Some(Page(FormatUsers(db.users, shown), |ids|, page,
                                        TotalPages(|ids|, limit), limit)));
  }

  // ---- updateUser

  /** The body of `PUT /users/:userId`: `fullName` and `role` are tested for
      truthiness (`""` is "not supplied"), `isActive` against `undefined`. */
  datatype UserPatch = UserPatch(fullName: string, role: string, isActive: Field<bool>)

  /** One `column = $idx` entry of the `updates` list. */
  datatype UserSet =
    | SetFullName(name: string)
    | SetRole(role: string)
    | SetActive(active: Option<bool>)

  function ApplySet(u: User, s: UserSet): User {
    match s
    case SetFullName(n) => u.(fullName := n)
    case SetRole(role) => u.(role := role)
    case SetActive(a) => u.(isActive := a)
  }

  function ApplySets(u: User, sets: seq<UserSet>): User {
    ApplyAll(u, sets, ApplySet)
  }

  /** The row after the update, stated directly: the name when supplied;
      for an admin, a supplied role other than `super_admin` and a supplied
      `isActive` (a JSON `null` stores `NULL`). */
  function UserPatched(u: User, p: UserPatch, isAdmin: bool): User {
    u.(fullName := OrElse(p.fullName, u.fullName),
       role := if isAdmin && p.role != "" && p.role != SuperAdmin then p.role else u.role,
       isActive := if isAdmin && !p.isActive.Undefined? then p.isActive.Stored() else u.isActive)
  }

  /** At least one column besides `updated_at` is written. */
  predicate UserEffective(p: UserPatch, isAdmin: bool) {
    p.fullName != "" || (isAdmin && ((p.role != "" && p.role != SuperAdmin) || !p.isActive.Undefined?))
  }

  /** Builds the `updates` list by pushing one entry per written column. */
  method UserUpdates(p: UserPatch, isAdmin: bool) returns (sets: seq<UserSet>)
    ensures sets == [] <==> !UserEffective(p, isAdmin)
    ensures forall u :: ApplySets(u, sets) == UserPatched(u, p, isAdmin)
    ensures forall i :: 0 <= i < |sets| ==> sets[i] != SetRole(SuperAdmin)
  {
    sets := [];
    if p.fullName != "" {
      sets := sets + [SetFullName(p.fullName)];
    }
    if isAdmin {
      if p.role != "" && p.role != SuperAdmin {
        sets := sets + [SetRole(p.role)];
      }
      if !p.isActive.Undefined? {
        sets := sets + [SetActive(p.isActive.Stored())];
      }
    }
    assert sets == (if p.fullName != "" then [SetFullName(p.fullName)] else [])
      + (if isAdmin && p.role != "" && p.role != SuperAdmin then [SetRole(p.role)] else [])
      + (if isAdmin && !p.isActive.Undefined? then [SetActive(p.isActive.Stored())] else []);
    forall u ensures ApplySets(u, sets) == UserPatched(u, p, isAdmin) {
      PatchBySets(u, p, isAdmin);
    }
  }

  /** The three pushes applied in order give the stated row. */
  lemma PatchBySets(u: User, p: UserPatch, isAdmin: bool)
    ensures ApplySets(u, (if p.fullName != "" then [SetFullName(p.fullName)] else [])
      + (if isAdmin && p.role != "" && p.role != SuperAdmin then [SetRole(p.role)] else [])
      + (if isAdmin && !p.isActive.Undefined? then [SetActive(p.isActive.Stored())] else []))
      == UserPatched(u, p, isAdmin)
  {
    var a := if p.fullName != "" then [SetFullName(p.fullName)] else [];
    var b := if isAdmin && p.role != "" && p.role != SuperAdmin then [SetRole(p.role)] else [];
    var d := if isAdmin && !p.isActive.Undefined? then [SetActive(p.isActive.Stored())] else [];
    var u1 := ApplySets(u, a);
    var u2 := ApplySets(u1, b);
    ApplyAllAppend(u, a, b, ApplySet);
    ApplyAllAppend(u, a + b, d, ApplySet);
    assert ApplySets(u, a + b + d) == ApplySets(u2, d);
  }


  /** No update turns a row into a super admin, and the tenant, email and
      password of the row stay as they were. */
  lemma PatchKeepsSuperAdminOut(u: User, p: UserPatch, isAdmin: bool)
    ensures UserPatched(u, p, isAdmin).role == SuperAdmin ==> u.role == SuperAdmin
    ensures UserPatched(u, p, isAdmin).tenantId == u.tenantId
    ensures UserPatched(u, p, isAdmin).email == u.email
    ensures UserPatched(u, p, isAdmin).passwordHash == u.passwordHash
    ensures !UserEffective(p, isAdmin) ==> UserPatched(u, p, isAdmin) == u
  {
  }

  /** `RETURNING id, email, full_name, role, is_active` (the update time is
      left out). */
  datatype UpdatedUser = UpdatedUser(id: Id, email: string, fullName: string, role: string, isActive: Option<bool>)

  method UpdateUser(db: Store, c: Claims, target: Id, p: UserPatch) returns (r: Reply<UpdatedUser>)
    requires db.Valid()
    modifies db
    ensures db.Valid()
    ensures r.Fail? || !UserEffective(p, c.role == TenantAdmin) ==> unchanged(db)
    ensures target !in old(db.users) ==> r == Fail(404, "User not found")
    ensures target in old(db.users) && c.tenantId != old(db.users)[target].tenantId
      ==> r == Fail(403, "Not authorized")
    ensures target in old(db.users) && c.tenantId == old(db.users)[target].tenantId
      && target != c.userId && c.role != TenantAdmin
      ==> r == Fail(403, "Not authorized")
    ensures target in old(db.users) && c.tenantId == old(db.users)[target].tenantId
      && target == c.userId && c.role != TenantAdmin && (p.role != "" || !p.isActive.Undefined?)
      ==> r == Fail(403, "Only admins can update role/status")
    ensures r.Ok? <==>
      target in old(db.users) && c.tenantId == old(db.users)[target].tenantId
      && (c.role == TenantAdmin || (target == c.userId && p.role == "" && p.isActive.Undefined?))
    ensures r.Ok? && !UserEffective(p, c.role == TenantAdmin) ==> r == Ok(200, "No changes made", None)
    ensures r.Ok? && UserEffective(p, c.role == TenantAdmin) ==>
      var u := UserPatched(old(db.users)[target], p, c.role == TenantAdmin);
      && r == Ok(200, "User updated successfully", Some(UpdatedUser(target, u.email, u.fullName, u.role, u.isActive)))
      && db.users == old(db.users)[target := u]
      && db.tenants == old(db.tenants) && db.projects == old(db.projects) && db.tasks == old(db.tasks)
      && db.nextId == old(db.nextId)
      && db.audit == old(db.audit) + [AuditEvent(c.tenantId, Some(c.userId), "UPDATE_USER", "user", target)]
    ensures NoNewSuperAdmin(old(db.users), db.users)
  {
    if target !in db.users {
      return Fail(404, "User not found");
    }
    if c.tenantId != db.users[target].tenantId {
      return Fail(403, "Not authorized");
    }
    var isSelf := target == c.userId;
    var isAdmin := c.role == TenantAdmin;
    if !isSelf && !isAdmin {
      return Fail(403, "Not authorized");
    }
    if !isAdmin && (p.role != "" || !p.isActive.Undefined?) {
      return Fail(403, "Only admins can update role/status");
    }
    var sets := UserUpdates(p, isAdmin);
    if sets == [] {
      return Ok(200, "No changes made", None);
    }
    var u := ApplySets(db.users[target], sets);
    PatchKeepsSuperAdminOut(db.users[target], p, isAdmin);
    UserWritten(db.tenants, db.users, db.projects, db.tasks, db.nextId, db.nextId, target, u);
    db.Commit(db.tenants, db.users[target := u], db.projects, db.tasks, db.nextId);
    db.Log(AuditEvent(c.tenantId, Some(c.userId), "UPDATE_USER", "user", target));
    r := Ok(200, "User updated successfully", Some(UpdatedUser(target, u.email, u.fullName, u.role, u.isActive)));
  }

  // ---- deleteUser

  /** `UPDATE tasks SET assigned_to = NULL WHERE assigned_to = $1`. */
  function Unassigned(tasks: map<Id, Task>, user: Id): map<Id, Task> {
    map k | k in tasks :: if tasks[k].assignedTo == Some(user) then tasks[k].(assignedTo := None) else tasks[k]
  }

  /** `UPDATE projects SET created_by = NULL WHERE created_by = $1`. */
  function Uncredited(projects: map<Id, Project>, user: Id): map<Id, Project> {
    map k | k in projects :: if projects[k].createdBy == Some(user) then projects[k].(createdBy := None) else projects[k]
  }

  /** The two releases touch only the rows that named the user, and only
      that column of them; afterwards no row names the user. */
  lemma ReleaseOnlyTouchesReferences(tasks: map<Id, Task>, projects: map<Id, Project>, user: Id)
    ensures Unassigned(tasks, user).Keys == tasks.Keys
    ensures Uncredited(projects, user).Keys == projects.Keys
    ensures forall k :: k in tasks ==>
      Unassigned(tasks, user)[k].assignedTo != Some(user) &&
      Unassigned(tasks, user)[k] == (if tasks[k].assignedTo == Some(user) then tasks[k].(assignedTo := None) else tasks[k])
    ensures forall k :: k in projects ==>
      Uncredited(projects, user)[k].createdBy != Some(user) &&
      Uncredited(projects, user)[k].tenantId == projects[k].tenantId
  {
  }

  /** Releasing the references first is what lets the row go without
      breaking the integrity. */
  lemma UserRemovedKeepsIntegrity(
    tenants: map<Id, Tenant>, users: map<Id, User>, projects: map<Id, Project>,
    tasks: map<Id, Task>, n: Id, user: Id)
    requires Consistent(tenants, users, projects, tasks, n)
    ensures Consistent(tenants, users - {user}, Uncredited(projects, user), Unassigned(tasks, user), n)
  {
    UncreditedLinked(tenants, users, projects, user);
    UnassignedLinked(projects, tasks, user);
    UnassignedInTenant(users, tasks, user);
  }

  lemma UncreditedLinked(tenants: map<Id, Tenant>, users: map<Id, User>, projects: map<Id, Project>, user: Id)
    requires ProjectsLinked(tenants, users, projects)
    ensures ProjectsLinked(tenants, users - {user}, Uncredited(projects, user))
  {
    var ps := Uncredited(projects, user);
    forall k | k in ps
      ensures ps[k].tenantId in tenants && (ps[k].createdBy.Some? ==> ps[k].createdBy.value in users - {user})
    {
      assert k in projects;
    }
  }

  lemma UnassignedLinked(projects: map<Id, Project>, tasks: map<Id, Task>, user: Id)
    requires TasksLinked(projects, tasks)
    ensures TasksLinked(Uncredited(projects, user), Unassigned(tasks, user))
  {
    var ps, ts := Uncredited(projects, user), Unassigned(tasks, user);
    forall k | k in ts
      ensures ts[k].projectId in ps && ps[ts[k].projectId].tenantId == ts[k].tenantId
    {
      assert k in tasks && tasks[k].projectId in projects;
    }
  }

  lemma UnassignedInTenant(users: map<Id, User>, tasks: map<Id, Task>, user: Id)
    requires AssigneesInTenant(users, tasks)
    ensures AssigneesInTenant(users - {user}, Unassigned(tasks, user))
  {
    var ts := Unassigned(tasks, user);
    forall k | k in ts && ts[k].assignedTo.Some?
      ensures ts[k].assignedTo.value in users - {user}
        && (users - {user})[ts[k].assignedTo.value].tenantId == Some(ts[k].tenantId)
    {
      assert k in tasks;
    }
  }

  method DeleteUser(db: Store, c: Claims, target: Id) returns (r: Reply<()>)
    requires db.Valid()
    modifies db
    ensures db.Valid()
    ensures r.Fail? ==> unchanged(db)
    ensures c.role != TenantAdmin ==> r == Fail(403, "Not authorized")
    ensures c.role == TenantAdmin && target == c.userId ==> r == Fail(403, "Cannot delete yourself")
    ensures c.role == TenantAdmin && target != c.userId && target !in old(db.users)
      ==> r == Fail(404, "User not found")
    ensures c.role == TenantAdmin && target != c.userId && target in old(db.users)
      && old(db.users)[target].tenantId != c.tenantId
      ==> r == Fail(403, "Not authorized")
    ensures r.Ok? <==>
      c.role == TenantAdmin && target != c.userId && target in old(db.users)
      && old(db.users)[target].tenantId == c.tenantId
    ensures r.Ok? ==>
      && r == Ok(200, "User deleted successfully", None)
      && db.users == old(db.users) - {target}
      && db.tasks == Unassigned(old(db.tasks), target)
      && db.projects == Uncredited(old(db.projects), target)
      && db.tenants == old(db.tenants) && db.nextId == old(db.nextId)
      && db.audit == old(db.audit) + [AuditEvent(c.tenantId, Some(c.userId), "DELETE_USER", "user", target)]
  {
    if c.role != TenantAdmin {
      return Fail(403, "Not authorized");
    }
    if target == c.userId {
      return Fail(403, "Cannot delete yourself");
    }
    if target !in db.users {
      return Fail(404, "User not found");
    }
    if db.users[target].tenantId != c.tenantId {
      return Fail(403, "Not authorized");
    }
    UserRemovedKeepsIntegrity(db.tenants, db.users, db.projects, db.tasks, db.nextId, target);
    db.Commit(db.tenants, db.users - {target}, Uncredited(db.projects, target), Unassigned(db.tasks, target),
              db.nextId);
    db.Log(AuditEvent(c.tenantId, Some(c.userId), "DELETE_USER", "user", target));
    r := Ok(200, "User deleted successfully", None);
  }
}
