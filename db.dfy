/** The database the controllers share: the `tenants`, `users`, `projects`,
    `tasks` and `audit_logs` tables, with the integrity the schema's keys
    and the controllers' checks maintain between them. */
module Db {
  import opened Common

  type Date = int

  /** bcrypt is opaque here: an injective digest, so that a password
      verifies against exactly the digest made from it. */
  datatype Digest = Digest(secret: string)

  function Hash(password: string): Digest {
    Digest(password)
  }

  lemma HashInjective(p: string, q: string)
    ensures Hash(p) == Hash(q) ==> p == q
  {
  }

  predicate PasswordMatches(password: string, d: Digest) {
    Hash(password) == d
  }

  datatype Tenant = Tenant(
    name: string, subdomain: string, status: string, plan: string,
    maxUsers: int, maxProjects: int, createdAt: Time)

  datatype User = User(
    tenantId: Option<Id>, email: string, passwordHash: Digest, fullName: string,
    role: string, isActive: Option<bool>, createdAt: Time)

  /** `is_active` is a nullable column; `!user.is_active` rejects both
      `false` and `NULL`. */
  predicate Active(u: User) {
    u.isActive == Some(true)
  }

  datatype Project = Project(
    tenantId: Id, name: string, description: Option<string>, status: string,
    createdBy: Option<Id>, createdAt: Time)

  datatype Task = Task(
    projectId: Id, tenantId: Id, title: string, description: Option<string>,
    status: string, priority: string, assignedTo: Option<Id>, dueDate: Option<Date>,
    createdAt: Time)

  /** One `audit_logs` row; the request's IP address is left out. */
  datatype AuditEvent = AuditEvent(
    tenantId: Option<Id>, userId: Option<Id>, action: string, entityType: string, entityId: Id)

  /** A user row as the handlers return it: every column but the hash. */
  datatype UserInfo = UserInfo(
    id: Id, tenantId: Option<Id>, email: string, fullName: string, role: string,
    isActive: Option<bool>, createdAt: Time)

  function InfoOf(id: Id, u: User): (i: UserInfo)
    ensures i.id == id && i.email == u.email && i.role == u.role && i.tenantId == u.tenantId
  {
    UserInfo(id, u.tenantId, u.email, u.fullName, u.role, u.isActive, u.createdAt)
  }

  // ---- per-tenant row sets, the `COUNT(*) ... WHERE tenant_id = $1` queries

  function UsersOf(users: map<Id, User>, t: Id): set<Id> {
    set u | u in users && users[u].tenantId == Some(t)
  }

  function ProjectsOf(projects: map<Id, Project>, t: Id): set<Id> {
    set p | p in projects && projects[p].tenantId == t
  }

  function TasksOf(tasks: map<Id, Task>, t: Id): set<Id> {
    set k | k in tasks && tasks[k].tenantId == t
  }

  function TasksOfProject(tasks: map<Id, Task>, p: Id): set<Id> {
    set k | k in tasks && tasks[k].projectId == p
  }

  // ---- integrity

  ghost predicate IdsBelow<T>(m: map<Id, T>, bound: Id) {
    forall k :: k in m ==> k < bound
  }

  /** `users.tenant_id` references `tenants`. */
  ghost predicate UsersLinked(tenants: map<Id, Tenant>, users: map<Id, User>) {
    forall u :: u in users && users[u].tenantId.Some? ==> users[u].tenantId.value in tenants
  }

  /** `projects.tenant_id` and `projects.created_by` reference their tables. */
  ghost predicate ProjectsLinked(tenants: map<Id, Tenant>, users: map<Id, User>, projects: map<Id, Project>) {
    forall p :: p in projects ==>
      projects[p].tenantId in tenants &&
      (projects[p].createdBy.Some? ==> projects[p].createdBy.value in users)
  }

  /** `tasks.project_id` references `projects`, and a task's `tenant_id` is
      the copy of its project's. */
  ghost predicate TasksLinked(projects: map<Id, Project>, tasks: map<Id, Task>) {
    forall t :: t in tasks ==>
      tasks[t].projectId in projects && projects[tasks[t].projectId].tenantId == tasks[t].tenantId
  }

  /** An assignee is a user of the task's own tenant. */
  ghost predicate AssigneesInTenant(users: map<Id, User>, tasks: map<Id, Task>) {
    forall t :: t in tasks && tasks[t].assignedTo.Some? ==>
      tasks[t].assignedTo.value in users &&
      users[tasks[t].assignedTo.value].tenantId == Some(tasks[t].tenantId)
  }

  ghost predicate SubdomainsUnique(tenants: map<Id, Tenant>) {
    forall a, b :: a in tenants && b in tenants && tenants[a].subdomain == tenants[b].subdomain ==> a == b
  }

  /** An email is unique within a tenant (and among tenant-less users). */
  ghost predicate EmailsUnique(users: map<Id, User>) {
    forall a, b ::
      (a in users && b in users && users[a].tenantId == users[b].tenantId && users[a].email == users[b].email)
      ==> a == b
  }

  /** No step of a handler turns a user into a super admin or adds one. */
  ghost predicate NoNewSuperAdmin(before: map<Id, User>, after: map<Id, User>) {
    forall u :: u in after && after[u].role == SuperAdmin ==> u in before && before[u].role == SuperAdmin
  }

  /** The integrity the schema's keys and the handlers' checks keep. */
  ghost predicate Consistent(
    tenants: map<Id, Tenant>, users: map<Id, User>, projects: map<Id, Project>,
    tasks: map<Id, Task>, nextId: Id)
  {
    && IdsBelow(tenants, nextId) && IdsBelow(users, nextId)
    && IdsBelow(projects, nextId) && IdsBelow(tasks, nextId)
    && UsersLinked(tenants, users)
    && ProjectsLinked(tenants, users, projects)
    && TasksLinked(projects, tasks)
    && AssigneesInTenant(users, tasks)
    && SubdomainsUnique(tenants)
    && EmailsUnique(users)
  }

  // ---- the integrity under each kind of write

  /** Writing a task row that names a project of its own tenant and, if
      assigned, a user of that tenant keeps the integrity; `bound` covers a
      freshly handed-out id. */
  lemma TaskWritten(
    tenants: map<Id, Tenant>, users: map<Id, User>, projects: map<Id, Project>,
    tasks: map<Id, Task>, n: Id, bound: Id, id: Id, t: Task)
    requires Consistent(tenants, users, projects, tasks, n)
    requires n <= bound && id < bound
    requires t.projectId in projects && projects[t.projectId].tenantId == t.tenantId
    requires t.assignedTo.Some? ==>
      t.assignedTo.value in users && users[t.assignedTo.value].tenantId == Some(t.tenantId)
    ensures Consistent(tenants, users, projects, tasks[id := t], bound)
  {
  }

  /** Deleting task rows keeps the integrity. */
  lemma TasksRemoved(
    tenants: map<Id, Tenant>, users: map<Id, User>, projects: map<Id, Project>,
    tasks: map<Id, Task>, n: Id, gone: set<Id>)
    requires Consistent(tenants, users, projects, tasks, n)
    ensures Consistent(tenants, users, projects, tasks - gone, n)
  {
  }

  /** Writing a user row keeps the integrity when its tenant exists, no
      other row of that tenant has its email, and an existing row keeps its
      tenant (so assignments and references stay within the tenant). */
  lemma UserWritten(
    tenants: map<Id, Tenant>, users: map<Id, User>, projects: map<Id, Project>,
    tasks: map<Id, Task>, n: Id, bound: Id, id: Id, u: User)
    requires Consistent(tenants, users, projects, tasks, n)
    requires n <= bound && id < bound
    requires u.tenantId.Some? ==> u.tenantId.value in tenants
    requires id in users ==> users[id].tenantId == u.tenantId
    requires forall v :: v in users && v != id && users[v].tenantId == u.tenantId ==> users[v].email != u.email
    ensures Consistent(tenants, users[id := u], projects, tasks, bound)
  {
  }

  /** Writing a project row keeps the integrity when its tenant and creator
      exist and an existing row keeps its tenant (its tasks copy it). */
  lemma ProjectWritten(
    tenants: map<Id, Tenant>, users: map<Id, User>, projects: map<Id, Project>,
    tasks: map<Id, Task>, n: Id, bound: Id, id: Id, p: Project)
    requires Consistent(tenants, users, projects, tasks, n)
    requires n <= bound && id < bound
    requires p.tenantId in tenants
    requires p.createdBy.Some? ==> p.createdBy.value in users
    requires id in projects ==> projects[id].tenantId == p.tenantId
    ensures Consistent(tenants, users, projects[id := p], tasks, bound)
  {
  }

  /** Deleting a project together with its tasks keeps the integrity. */
  lemma ProjectRemoved(
    tenants: map<Id, Tenant>, users: map<Id, User>, projects: map<Id, Project>,
    tasks: map<Id, Task>, n: Id, id: Id)
    requires Consistent(tenants, users, projects, tasks, n)
    ensures Consistent(tenants, users, projects - {id}, tasks - TasksOfProject(tasks, id), n)
  {
  }

  /** Writing a tenant row keeps the integrity while no other tenant has
      its subdomain. */
  lemma TenantWritten(
    tenants: map<Id, Tenant>, users: map<Id, User>, projects: map<Id, Project>,
    tasks: map<Id, Task>, n: Id, bound: Id, id: Id, t: Tenant)
    requires Consistent(tenants, users, projects, tasks, n)
    requires n <= bound && id < bound
    requires forall k :: k in tenants && k != id ==> tenants[k].subdomain != t.subdomain
    ensures Consistent(tenants[id := t], users, projects, tasks, bound)
  {
  }

  class Store {
    var tenants: map<Id, Tenant>
    var users: map<Id, User>
    var projects: map<Id, Project>
    var tasks: map<Id, Task>
    var audit: seq<AuditEvent>
    /** The next identifier the database hands out. */
    var nextId: Id

    ghost predicate Valid()
      reads this`tenants, this`users, this`projects, this`tasks, this`nextId
    {
      Consistent(tenants, users, projects, tasks, nextId)
    }

    constructor ()
      ensures Valid()
      ensures tenants == map[] && users == map[] && projects == map[] && tasks == map[]
      ensures audit == [] && nextId == 0
    {
      tenants, users, projects, tasks := map[], map[], map[], map[];
      audit, nextId := [], 0;
    }

    /** Replaces the tables in one transaction that keeps the integrity. */
    method Commit(
      tenants': map<Id, Tenant>, users': map<Id, User>, projects': map<Id, Project>,
      tasks': map<Id, Task>, nextId': Id)
      requires Consistent(tenants', users', projects', tasks', nextId')
      modifies this`tenants, this`users, this`projects, this`tasks, this`nextId
      ensures Valid()
      ensures tenants == tenants' && users == users' && projects == projects'
      ensures tasks == tasks' && nextId == nextId'
    {
      tenants, users, projects, tasks, nextId := tenants', users', projects', tasks', nextId';
    }

    /** Appends one row to `audit_logs`; a failure there is swallowed by the
        source, so the call has no outcome. */
    method Log(e: AuditEvent)
      modifies this`audit
      ensures audit == old(audit) + [e]
    {
      audit := audit + [e];
    }
  }
}
