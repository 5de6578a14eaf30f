/** The project handlers: create under the subscription's project limit,
    list the tenant's projects with their task counts, show one, update it
    field by field, delete it with its tasks. */
module ProjectController {
  import opened Common
  import opened Text
  import opened Listing
  import opened Db

  // ---- createProject

  /** A fresh project row joins exactly one tenant's project set. */
  lemma ProjectsOfInsert(projects: map<Id, Project>, id: Id, p: Project, t: Id)
    requires id !in projects
    ensures |ProjectsOf(projects[id := p], t)| == |ProjectsOf(projects, t)| + (if p.tenantId == t then 1 else 0)
  {
    if p.tenantId == t {
      assert ProjectsOf(projects[id := p], t) == ProjectsOf(projects, t) + {id};
      assert id !in ProjectsOf(projects, t);
    } else {
      assert ProjectsOf(projects[id := p], t) == ProjectsOf(projects, t);
    }
  }

  /** `POST /projects`. A caller without a tenant row makes
      `tenantRes.rows[0].max_projects` throw, and a caller whose own row is
      gone violates the `created_by` reference; both are reported as 500. */
  method CreateProject(db: Store, c: Claims, name: string, description: string, status: string, now: Time)
    returns (r: Reply<(Id, Project)>)
    requires db.Valid()
    modifies db
    ensures db.Valid()
    ensures r.Fail? ==> unchanged(db)
    ensures name == "" ==> r == Fail(400, "Project name is required")
    ensures name != "" && (c.tenantId.None? || c.tenantId.value !in old(db.tenants)) ==> r == Fail(500, ServerError)
    ensures name != "" && c.tenantId.Some? && c.tenantId.value in old(db.tenants)
      && |ProjectsOf(old(db.projects), c.tenantId.value)| >= old(db.tenants)[c.tenantId.value].maxProjects
      ==> r == Fail(403, "Subscription project limit reached")
    ensures name != "" && c.tenantId.Some? && c.tenantId.value in old(db.tenants)
      && |ProjectsOf(old(db.projects), c.tenantId.value)| < old(db.tenants)[c.tenantId.value].maxProjects
      && c.userId !in old(db.users)
      ==> r == Fail(500, ServerError)
    ensures r.Ok? <==>
      name != "" && c.tenantId.Some? && c.tenantId.value in old(db.tenants)
      && |ProjectsOf(old(db.projects), c.tenantId.value)| < old(db.tenants)[c.tenantId.value].maxProjects
      && c.userId in old(db.users)
    ensures r.Ok? ==>
      var id := old(db.nextId);
      var p := Project(c.tenantId.value, name, if description == "" then None else Some(description),
                       OrElse(status, "active"), Some(c.userId), now);
      && id !in old(db.projects)
      && r == Ok(201, "Project created successfully", Some((id, p)))
      && db.projects == old(db.projects)[id := p] && db.nextId == id + 1
      && db.tenants == old(db.tenants) && db.users == old(db.users) && db.tasks == old(db.tasks)
      && db.audit == old(db.audit) + [AuditEvent(c.tenantId, Some(c.userId), "CREATE_PROJECT", "project", id)]
    ensures r.Ok? ==> |ProjectsOf(db.projects, c.tenantId.value)| <= db.tenants[c.tenantId.value].maxProjects
  {
    if name == "" {
      return Fail(400, "Project name is required");
    }
    if c.tenantId.None? || c.tenantId.value !in db.tenants {
      return Fail(500, ServerError);
    }
    var tenant := c.tenantId.value;
    var maxProjects := db.tenants[tenant].maxProjects;
    var count := |ProjectsOf(db.projects, tenant)|;
    if count >= maxProjects {
      return Fail(403, "Subscription project limit reached");
    }
    if c.userId !in db.users {
      return Fail(500, ServerError);
    }
    var id := db.nextId;
    var p := Project(tenant, name, if description == "" then None else Some(description),
                     OrElse(status, "active"), Some(c.userId), now);
    ProjectWritten(db.tenants, db.users, db.projects, db.tasks, db.nextId, id + 1, id, p);
    ProjectsOfInsert(db.projects, id, p, tenant);
    db.Commit(db.tenants, db.users, db.projects[id := p], db.tasks, id + 1);
    db.Log(AuditEvent(c.tenantId, Some(c.userId), "CREATE_PROJECT", "project", id));
    r := Ok(201, "Project created successfully", Some((id, p)));
  }

  // ---- listProjects

  /** The query string of `GET /projects`. */
  datatype ProjectQuery = ProjectQuery(status: string, search: string, page: Option<int>, limit: Option<int>)

  datatype ProjectClause =
    | OfTenant(tenant: Option<Id>)
    | StatusIs(status: string)
    | NameLike(search: string)

  /** `p.tenant_id = NULL` holds for no row. */
  predicate ProjectHolds(c: ProjectClause, p: Project) {
    match c
    case OfTenant(o) => o == Some(p.tenantId)
    case StatusIs(s) => p.status == s
    case NameLike(s) => ILike(p.name, s)
  }

  predicate ProjectWhere(cs: seq<ProjectClause>, p: Project) {
    forall i :: 0 <= i < |cs| ==> ProjectHolds(cs[i], p)
  }

  /** Which projects the list shows, stated directly. */
  predicate ProjectListed(tenant: Option<Id>, q: ProjectQuery, p: Project) {
    && tenant == Some(p.tenantId)
    && (q.status != "" ==> p.status == q.status)
    && (q.search != "" ==> ILike(p.name, q.search))
  }

  /** Builds the `WHERE` clause list, anchored on the caller's tenant. */
  method ProjectFilter(tenant: Option<Id>, q: ProjectQuery) returns (cs: seq<ProjectClause>)
    ensures |cs| >= 1 && cs[0] == OfTenant(tenant)
    ensures forall p :: ProjectWhere(cs, p) <==> ProjectListed(tenant, q, p)
  {
    cs := [OfTenant(tenant)];
    if q.status != "" { cs := cs + [StatusIs(q.status)]; }
    if q.search != "" { cs := cs + [NameLike(q.search)]; }
    forall p ensures ProjectWhere(cs, p) <==> ProjectListed(tenant, q, p) {
      if ProjectWhere(cs, p) {
        assert ProjectHolds(cs[0], p);
        if q.status != "" { assert ProjectHolds(cs[1], p); }
        if q.search != "" { assert ProjectHolds(cs[|cs| - 1], p); }
      }
    }
  }

  function ProjectKey(p: Project): Key {
    NewestFirst(p.createdAt)
  }

  /** `createdBy: { id, fullName }` from the `LEFT JOIN users`: both are
      `null` for a released creator, the name is `null` for a missing row. */
  datatype Creator = Creator(id: Option<Id>, fullName: Option<string>)

  function CreatorOf(users: map<Id, User>, p: Project): Creator {
    Creator(p.createdBy, if p.createdBy.Some? && p.createdBy.value in users then Some(users[p.createdBy.value].fullName) else None)
  }

  /** The `completed` tasks of a project. */
  function CompletedOf(tasks: map<Id, Task>, project: Id): set<Id> {
    set k | k in tasks && tasks[k].projectId == project && tasks[k].status == "completed"
  }

  /** Completed tasks are among the project's tasks, so
      `completedTaskCount <= taskCount`. */
  lemma CompletedWithinTasks(tasks: map<Id, Task>, project: Id)
    ensures CompletedOf(tasks, project) <= TasksOfProject(tasks, project)
    ensures |CompletedOf(tasks, project)| <= |TasksOfProject(tasks, project)|
  {
    assert CompletedOf(tasks, project) <= TasksOfProject(tasks, project);
    SubsetCard(CompletedOf(tasks, project), TasksOfProject(tasks, project));
  }

  lemma {:induction false} SubsetCard(a: set<Id>, b: set<Id>)
    requires a <= b
    ensures |a| <= |b|
    decreases |b|
  {
    if a != {} {
      var x :| x in a;
      SubsetCard(a - {x}, b - {x});
    }
  }

  /** One formatted row of the list. */
  datatype ProjectView = ProjectView(
    id: Id, name: string, description: Option<string>, status: string, createdBy: Creator,
    taskCount: nat, completedTaskCount: nat, createdAt: Time)

  function ViewOf(users: map<Id, User>, tasks: map<Id, Task>, id: Id, p: Project): (v: ProjectView)
    ensures v.id == id && v.name == p.name && v.status == p.status && v.createdBy.id == p.createdBy
    ensures v.taskCount == |TasksOfProject(tasks, id)|
    ensures v.completedTaskCount == |CompletedOf(tasks, id)| <= v.taskCount
  {
    CompletedWithinTasks(tasks, id);
    ProjectView(id, p.name, p.description, p.status, CreatorOf(users, p),
                |TasksOfProject(tasks, id)|, |CompletedOf(tasks, id)|, p.createdAt)
  }

  function FormatProjects(users: map<Id, User>, tasks: map<Id, Task>, projects: map<Id, Project>, ids: seq<Id>)
    : (vs: seq<ProjectView>)
    requires forall i :: 0 <= i < |ids| ==> ids[i] in projects
    ensures |vs| == |ids|
    ensures forall i :: 0 <= i < |ids| ==> vs[i] == ViewOf(users, tasks, ids[i], projects[ids[i]])
  {
    seq(|ids|, i requires 0 <= i < |ids| => ViewOf(users, tasks, ids[i], projects[ids[i]]))
  }

  /** `GET /projects`: the caller's tenant only. The ghost `ordered` is the
      whole ordered result before `LIMIT`/`OFFSET`. */
  method ListProjects(db: Store, c: Claims, q: ProjectQuery)
    returns (r: Reply<Page<ProjectView>>, ghost ordered: seq<Id>)
    ensures var page, limit := q.page.GetOr(1), q.limit.GetOr(20);
      r.Fail? <==> limit < 0 || Offset(page, limit) < 0
    ensures r.Fail? ==> r == Fail(500, ServerError)
    ensures forall i :: 0 <= i < |ordered| ==>
      ordered[i] in db.projects && ProjectListed(c.tenantId, q, db.projects[ordered[i]])
    ensures forall k :: k in db.projects && ProjectListed(c.tenantId, q, db.projects[k]) ==> k in ordered
    ensures forall i, j :: 0 <= i < j < |ordered| ==> ordered[i] != ordered[j]
    ensures forall i, j :: 0 <= i < j < |ordered| ==>
      db.projects[ordered[i]].createdAt >= db.projects[ordered[j]].createdAt
    ensures r.Ok? ==>
      var page, limit := q.page.GetOr(1), q.limit.GetOr(20);
      && r.status == 200 && r.message == "Projects list" && r.data.Some?
      && r.data.value.total == |ordered|
      && r.data.value.total == |set k | k in db.projects && ProjectListed(c.tenantId, q, db.projects[k])|
      && r.data.value.items == FormatProjects(db.users, db.tasks, db.projects, Window(ordered, Offset(page, limit), limit))
      && r.data.value.currentPage == page && r.data.value.limit == limit
      && r.data.value.totalPages == TotalPages(|ordered|, limit)
  {
    var page, limit := q.page.GetOr(1), q.limit.GetOr(20);
    var offset := Offset(page, limit);
    var cs := ProjectFilter(c.tenantId, q);
    var ids := Select(db.projects, (p: Project) => ProjectWhere(cs, p), ProjectKey);
    ordered := ids;
    assert (set k | k in db.projects && ProjectListed(c.tenantId, q, db.projects[k]))
        == Matching(db.projects, (p: Project) => ProjectWhere(cs, p));
    forall i, j | 0 <= i < j < |ordered|
      ensures db.projects[ordered[i]].createdAt >= db.projects[ordered[j]].createdAt
    {
      NewestFirstOrder(db.projects[ordered[i]].createdAt, db.projects[ordered[j]].createdAt);
    }
    if limit < 0 || offset < 0 {
      return Fail(500, ServerError), ordered;
    }
    var shown := Window(ids, offset, limit);
    r := Ok(200, "Projects list", Some(Page(FormatProjects(db.users, db.tasks, db.projects, shown), |ids|, page,
                                           TotalPages(|ids|, limit), limit)));
  }

  // ---- getProject

  /** The single-project response (no task counts). */
  datatype ProjectDetails = ProjectDetails(
    id: Id, name: string, description: Option<string>, status: string, createdBy: Creator, createdAt: Time)

  /** `GET /projects/:projectId`: the lookup is anchored on the caller's
      tenant, so a project of another tenant is simply not found. */
  function GetProject(db: Store, c: Claims, projectId: Id): (r: Reply<ProjectDetails>)
    reads db
    ensures r.Ok? <==> projectId in db.projects && c.tenantId == Some(db.projects[projectId].tenantId)
    ensures r.Fail? ==> r == Fail(404, "Project not found")
    ensures r.Ok? ==>
      var p := db.projects[projectId];
      && r.status == 200 && r.message == "Project details" && r.data.Some?
      && r.data.value.id == projectId && r.data.value.name == p.name && r.data.value.status == p.status
      && r.data.value.createdBy.id == p.createdBy
  {
    if projectId in db.projects && c.tenantId == Some(db.projects[projectId].tenantId) then
      var p := db.projects[projectId];
      Ok(200, "Project details", Some(ProjectDetails(projectId, p.name, p.description, p.status,
                                                     CreatorOf(db.users, p), p.createdAt)))
    else
      Fail(404, "Project not found")
  }

  // ---- updateProject

  /** The body of `PUT /projects/:projectId`: `name` and `status` are tested
      for truthiness, `description` against `undefined`. */
  datatype ProjectPatch = ProjectPatch(name: string, description: Field<string>, status: string)

  /** One `column = $idx` entry of the `updates` list. */
  datatype ProjectSet =
    | SetName(name: string)
    | SetDescription(description: Option<string>)
    | SetStatus(status: string)

  function ApplySet(p: Project, s: ProjectSet): Project {
    match s
    case SetName(n) => p.(name := n)
    case SetDescription(d) => p.(description := d)
    case SetStatus(st) => p.(status := st)
  }

  function ApplySets(p: Project, sets: seq<ProjectSet>): Project {
    ApplyAll(p, sets, ApplySet)
  }


  /** The row after the update, stated directly. */
  function ProjectPatched(p: Project, u: ProjectPatch): Project {
    p.(name := OrElse(u.name, p.name),
       description := if u.description.Undefined? then p.description else u.description.Stored(),
       status := OrElse(u.status, p.status))
  }

  predicate ProjectEffective(u: ProjectPatch) {
    u.name != "" || !u.description.Undefined? || u.status != ""
  }

  /** Only the three columns change, and only when supplied. */
  lemma PatchedKeepsOwnership(p: Project, u: ProjectPatch)
    ensures ProjectPatched(p, u).tenantId == p.tenantId && ProjectPatched(p, u).createdBy == p.createdBy
    ensures ProjectPatched(p, u).createdAt == p.createdAt
    ensures !ProjectEffective(u) ==> ProjectPatched(p, u) == p
    ensures u.name == "" ==> ProjectPatched(p, u).name == p.name
    ensures u.description.Null? ==> ProjectPatched(p, u).description.None?
    ensures u.description.Undefined? ==> ProjectPatched(p, u).description == p.description
    ensures u.status == "" ==> ProjectPatched(p, u).status == p.status
    ensures u.name != "" ==> ProjectPatched(p, u).name == u.name
    ensures u.status != "" ==> ProjectPatched(p, u).status == u.status
  {
  }

  /** Builds the `updates` list by pushing one entry per supplied column. */
  method ProjectUpdates(u: ProjectPatch) returns (sets: seq<ProjectSet>)
    ensures sets == [] <==> !ProjectEffective(u)
    ensures forall p :: ApplySets(p, sets) == ProjectPatched(p, u)
  {
    var a := if u.name != "" then [SetName(u.name)] else [];
    var b := if !u.description.Undefined? then [SetDescription(u.description.Stored())] else [];
    var d := if u.status != "" then [SetStatus(u.status)] else [];
    sets := [];
    if u.name != "" { sets := sets + [SetName(u.name)]; }
    if !u.description.Undefined? { sets := sets + [SetDescription(u.description.Stored())]; }
    if u.status != "" { sets := sets + [SetStatus(u.status)]; }
    assert sets == a + b + d;
    forall p ensures ApplySets(p, sets) == ProjectPatched(p, u) {
      ApplyAllAppend(p, a, b, ApplySet);
      ApplyAllAppend(p, a + b, d, ApplySet);
    }
  }

  /** A tenant admin of the project's tenant, or its creator. */
  predicate MayChange(c: Claims, p: Project) {
    c.role == TenantAdmin || p.createdBy == Some(c.userId)
  }

  method UpdateProject(db: Store, c: Claims, projectId: Id, u: ProjectPatch) returns (r: Reply<(Id, Project)>)
    requires db.Valid()
    modifies db
    ensures db.Valid()
    ensures r.Fail? || !ProjectEffective(u) ==> unchanged(db)
    ensures projectId !in old(db.projects) ==> r == Fail(404, "Project not found")
    ensures projectId in old(db.projects) && Some(old(db.projects)[projectId].tenantId) != c.tenantId
      ==> r == Fail(404, "Project not found")
    ensures projectId in old(db.projects) && Some(old(db.projects)[projectId].tenantId) == c.tenantId
      && !MayChange(c, old(db.projects)[projectId])
      ==> r == Fail(403, "Not authorized")
    ensures r.Ok? <==>
      projectId in old(db.projects) && Some(old(db.projects)[projectId].tenantId) == c.tenantId
      && MayChange(c, old(db.projects)[projectId])
    ensures r.Ok? && !ProjectEffective(u) ==> r == Ok(200, "No changes made", None)
    ensures r.Ok? && ProjectEffective(u) ==>
      var p := ProjectPatched(old(db.projects)[projectId], u);
      && r == Ok(200, "Project updated successfully", Some((projectId, p)))
      && db.projects == old(db.projects)[projectId := p]
      && db.tenants == old(db.tenants) && db.users == old(db.users) && db.tasks == old(db.tasks)
      && db.nextId == old(db.nextId)
      && db.audit == old(db.audit) + [AuditEvent(c.tenantId, Some(c.userId), "UPDATE_PROJECT", "project", projectId)]
  {
    if projectId !in db.projects {
      return Fail(404, "Project not found");
    }
    var project := db.projects[projectId];
    if Some(project.tenantId) != c.tenantId {
      return Fail(404, "Project not found");
    }
    if c.role != TenantAdmin && project.createdBy != Some(c.userId) {
      return Fail(403, "Not authorized");
    }
    var sets := ProjectUpdates(u);
    if sets == [] {
      return Ok(200, "No changes made", None);
    }
    var p := ApplySets(project, sets);
    PatchedKeepsOwnership(project, u);
    ProjectWritten(db.tenants, db.users, db.projects, db.tasks, db.nextId, db.nextId, projectId, p);
    db.Commit(db.tenants, db.users, db.projects[projectId := p], db.tasks, db.nextId);
    db.Log(AuditEvent(c.tenantId, Some(c.userId), "UPDATE_PROJECT", "project", projectId));
    r := Ok(200, "Project updated successfully", Some((projectId, p)));
  }

  // ---- deleteProject

  /** The `ON DELETE CASCADE` leaves exactly the tasks of other projects,
      each as it was. */
  lemma CascadeKeepsOtherProjects(tasks: map<Id, Task>, project: Id)
    ensures forall k :: k in tasks - TasksOfProject(tasks, project) <==> k in tasks && tasks[k].projectId != project
    ensures forall k :: k in tasks - TasksOfProject(tasks, project) ==> (tasks - TasksOfProject(tasks, project))[k] == tasks[k]
  {
  }

  method DeleteProject(db: Store, c: Claims, projectId: Id) returns (r: Reply<()>)
    requires db.Valid()
    modifies db
    ensures db.Valid()
    ensures r.Fail? ==> unchanged(db)
    ensures projectId !in old(db.projects) ==> r == Fail(404, "Project not found")
    ensures projectId in old(db.projects) && Some(old(db.projects)[projectId].tenantId) != c.tenantId
      ==> r == Fail(404, "Project not found")
    ensures projectId in old(db.projects) && Some(old(db.projects)[projectId].tenantId) == c.tenantId
      && !MayChange(c, old(db.projects)[projectId])
      ==> r == Fail(403, "Not authorized")
    ensures r.Ok? <==>
      projectId in old(db.projects) && Some(old(db.projects)[projectId].tenantId) == c.tenantId
      && MayChange(c, old(db.projects)[projectId])
    ensures r.Ok? ==>
      && r == Ok(200, "Project deleted successfully", None)
      && db.projects == old(db.projects) - {projectId}
      && db.tasks == old(db.tasks) - TasksOfProject(old(db.tasks), projectId)
      && db.tenants == old(db.tenants) && db.users == old(db.users) && db.nextId == old(db.nextId)
      && db.audit == old(db.audit) + [AuditEvent(c.tenantId, Some(c.userId), "DELETE_PROJECT", "project", projectId)]
    ensures r.Ok? ==> forall k :: k in db.tasks ==> db.tasks[k].projectId != projectId
  {
    if projectId !in db.projects {
      return Fail(404, "Project not found");
    }
    var project := db.projects[projectId];
    if Some(project.tenantId) != c.tenantId {
      return Fail(404, "Project not found");
    }
    if c.role != TenantAdmin && project.createdBy != Some(c.userId) {
      return Fail(403, "Not authorized");
    }
    ProjectRemoved(db.tenants, db.users, db.projects, db.tasks, db.nextId, projectId);
    db.Commit(db.tenants, db.users, db.projects - {projectId}, db.tasks - TasksOfProject(db.tasks, projectId),
              db.nextId);
    db.Log(AuditEvent(c.tenantId, Some(c.userId), "DELETE_PROJECT", "project", projectId));
    r := Ok(200, "Project deleted successfully", None);
  }
}
