/** The task handlers: create under a project, list a project's tasks,
    change the status, patch fields, delete. */
module TaskController {
  import opened Common
  import opened Text
  import opened Listing
  import opened Db

  // ---- ordering: CASE priority WHEN 'high' THEN 1 WHEN 'medium' THEN 2 ELSE 3 END, due_date ASC NULLS LAST

  function PriorityRank(priority: string): (n: int)
    ensures 1 <= n <= 3
    ensures n == 1 <==> priority == "high"
    ensures n == 2 <==> priority == "medium"
  {
    if priority == "high" then 1 else if priority == "medium" then 2 else 3
  }

  function TaskKey(t: Task): Key {
    Key(PriorityRank(t.priority), if t.dueDate.Some? then 0 else 1, t.dueDate.GetOr(0))
  }

  /** `due_date ASC NULLS LAST` as a relation. */
  predicate DueNoLater(a: Option<Date>, b: Option<Date>) {
    b.None? || (a.Some? && a.value <= b.value)
  }

  /** The key order is the ordering the list query asks for: by priority
      rank, then by due date with missing due dates last. */
  lemma TaskKeyOrder(a: Task, b: Task)
    ensures KeyLe(TaskKey(a), TaskKey(b)) <==>
      PriorityRank(a.priority) < PriorityRank(b.priority) ||
      (PriorityRank(a.priority) == PriorityRank(b.priority) && DueNoLater(a.dueDate, b.dueDate))
  {
  }

  /** In a list sorted by `TaskKey`, a row whose key is strictly smaller
      comes first. */
  lemma Precedes(tasks: map<Id, Task>, ordered: seq<Id>, i: nat, j: nat)
    requires forall i :: 0 <= i < |ordered| ==> ordered[i] in tasks
    requires forall i, j :: 0 <= i < j < |ordered| ==> KeyLe(TaskKey(tasks[ordered[i]]), TaskKey(tasks[ordered[j]]))
    requires i < |ordered| && j < |ordered|
    requires !KeyLe(TaskKey(tasks[ordered[j]]), TaskKey(tasks[ordered[i]]))
    ensures i < j
  {
  }

  /** A listing holding every row of `tasks` once is as long as the table. */
  lemma ListsEveryRowOnce(tasks: map<Id, Task>, ordered: seq<Id>)
    requires forall k :: k in tasks ==> k in ordered
    requires forall i :: 0 <= i < |ordered| ==> ordered[i] in tasks
    requires forall i, j :: 0 <= i < j < |ordered| ==> ordered[i] != ordered[j]
    ensures |ordered| == |tasks.Keys|
  {
    assert Elements(ordered) == tasks.Keys by {
      forall x | x in tasks.Keys ensures x in Elements(ordered) {
        assert x in ordered;
      }
    }
    DistinctLength(ordered);
  }

  /** Four increasing positions of a four-element list are all of it. */
  lemma InIncreasingPositions(s: seq<Id>, a: nat, b: nat, c: nat, d: nat)
    requires |s| == 4 && a < b < c < d < |s|
    ensures s == [s[a], s[b], s[c], s[d]]
  {
    assert a == 0 && b == 1 && c == 2 && d == 3;
  }

  lemma FourIds(s: set<Id>)
    requires s == {0, 1, 2, 3}
    ensures |s| == 4
  {
  }

  /** The rows a sorted four-row listing places at four increasing positions. */
  lemma FourInOrder(ordered: seq<Id>, size: nat, j0: nat, j1: nat, j2: nat, j3: nat)
    requires |ordered| == size == 4 && j3 < j1 < j2 < j0 < |ordered|
    requires ordered[j0] == 0 && ordered[j1] == 1 && ordered[j2] == 2 && ordered[j3] == 3
    ensures ordered == [3, 1, 2, 0]
  {
    InIncreasingPositions(ordered, j3, j1, j2, j0);
  }

  /** A listing of four rows sorted by `TaskKey` and holding each row once
      follows the order of their keys. */
  lemma FourSortedByKey(tasks: map<Id, Task>, ordered: seq<Id>)
    requires tasks.Keys == {0, 1, 2, 3}
    requires KeyLe(TaskKey(tasks[3]), TaskKey(tasks[1])) && !KeyLe(TaskKey(tasks[1]), TaskKey(tasks[3]))
    requires KeyLe(TaskKey(tasks[1]), TaskKey(tasks[2])) && !KeyLe(TaskKey(tasks[2]), TaskKey(tasks[1]))
    requires KeyLe(TaskKey(tasks[2]), TaskKey(tasks[0])) && !KeyLe(TaskKey(tasks[0]), TaskKey(tasks[2]))
    requires forall k :: k in tasks ==> k in ordered
    requires forall i :: 0 <= i < |ordered| ==> ordered[i] in tasks
    requires forall i, j :: 0 <= i < j < |ordered| ==> ordered[i] != ordered[j]
    requires forall i, j :: 0 <= i < j < |ordered| ==> KeyLe(TaskKey(tasks[ordered[i]]), TaskKey(tasks[ordered[j]]))
    ensures ordered == [3, 1, 2, 0]
  {
    var j0 :| 0 <= j0 < |ordered| && ordered[j0] == 0;
    var j1 :| 0 <= j1 < |ordered| && ordered[j1] == 1;
    var j2 :| 0 <= j2 < |ordered| && ordered[j2] == 2;
    var j3 :| 0 <= j3 < |ordered| && ordered[j3] == 3;
    Precedes(tasks, ordered, j3, j1);
    Precedes(tasks, ordered, j1, j2);
    Precedes(tasks, ordered, j2, j0);
    ListsEveryRowOnce(tasks, ordered);
    FourIds(tasks.Keys);
    FourInOrder(ordered, |tasks.Keys|, j0, j1, j2, j3);
  }

  /** Tasks with priorities `[low, high, medium, high]` and due dates
      `[2024-01-01, null, 2024-01-02, 2023-12-31]`: any result ordered as
      `ListTasks` promises lists them as high/2023-12-31, high/null,
      medium/2024-01-02, low/2024-01-01. */
  lemma OrderingExample(tasks: map<Id, Task>, ordered: seq<Id>)
    requires tasks.Keys == {0, 1, 2, 3}
    requires tasks[0].priority == "low" && tasks[0].dueDate == Some(20240101)
    requires tasks[1].priority == "high" && tasks[1].dueDate == None
    requires tasks[2].priority == "medium" && tasks[2].dueDate == Some(20240102)
    requires tasks[3].priority == "high" && tasks[3].dueDate == Some(20231231)
    requires forall k :: k in tasks ==> k in ordered
    requires forall i :: 0 <= i < |ordered| ==> ordered[i] in tasks
    requires forall i, j :: 0 <= i < j < |ordered| ==> ordered[i] != ordered[j]
    requires forall i, j :: 0 <= i < j < |ordered| ==> KeyLe(TaskKey(tasks[ordered[i]]), TaskKey(tasks[ordered[j]]))
    ensures ordered == [3, 1, 2, 0]
  {
    assert TaskKey(tasks[0]) == Key(3, 0, 20240101);
    assert TaskKey(tasks[1]) == Key(1, 1, 0);
    assert TaskKey(tasks[2]) == Key(2, 0, 20240102);
    assert TaskKey(tasks[3]) == Key(1, 0, 20231231);
    FourSortedByKey(tasks, ordered);
  }

  // ---- filters: the `whereClause` list

  datatype TaskClause =
    | ProjectIs(project: Id)
    | TenantIs(tenant: Option<Id>)
    | StatusIs(status: string)
    | AssigneeIs(user: Id)
    | PriorityIs(priority: string)
    | TitleLike(search: string)

  /** One clause of the `WHERE`; `tenant_id = NULL` holds for no row. */
  predicate TaskHolds(c: TaskClause, t: Task) {
    match c
    case ProjectIs(p) => t.projectId == p
    case TenantIs(o) => o == Some(t.tenantId)
    case StatusIs(s) => t.status == s
    case AssigneeIs(u) => t.assignedTo == Some(u)
    case PriorityIs(p) => t.priority == p
    case TitleLike(s) => ILike(t.title, s)
  }

  /** The clauses joined with `AND`. */
  predicate TaskWhere(cs: seq<TaskClause>, t: Task) {
    forall i :: 0 <= i < |cs| ==> TaskHolds(cs[i], t)
  }

  /** The query string of `GET /projects/:projectId/tasks`; an empty string
      is a filter that was not given. */
  datatype TaskQuery = TaskQuery(
    status: string, assignedTo: Option<Id>, priority: string, search: string,
    page: Option<int>, limit: Option<int>)

  /** Which tasks the list shows, stated directly. */
  predicate TaskListed(projectId: Id, tenant: Option<Id>, q: TaskQuery, t: Task) {
    && t.projectId == projectId && tenant == Some(t.tenantId)
    && (q.status != "" ==> t.status == q.status)
    && (q.assignedTo.Some? ==> t.assignedTo == q.assignedTo)
    && (q.priority != "" ==> t.priority == q.priority)
    && (q.search != "" ==> ILike(t.title, q.search))
  }

  /** Pushing a clause narrows the `WHERE` by exactly that clause. */
  lemma TaskWhereAppend(cs: seq<TaskClause>, c: TaskClause)
    ensures forall t :: TaskWhere(cs + [c], t) <==> TaskWhere(cs, t) && TaskHolds(c, t)
  {
    forall t | TaskWhere(cs, t) && TaskHolds(c, t) ensures TaskWhere(cs + [c], t) {
      forall i | 0 <= i < |cs + [c]| ensures TaskHolds((cs + [c])[i], t) {
        if i < |cs| { assert (cs + [c])[i] == cs[i]; }
      }
    }
    forall t | TaskWhere(cs + [c], t) ensures TaskWhere(cs, t) && TaskHolds(c, t) {
      assert TaskHolds((cs + [c])[|cs|], t);
      forall i | 0 <= i < |cs| ensures TaskHolds(cs[i], t) {
        assert TaskHolds((cs + [c])[i], t);
      }
    }
  }

  /** Builds the `WHERE` clause list by pushing one clause per supplied
      filter after the project and tenant anchors. */
  method TaskFilter(projectId: Id, tenant: Option<Id>, q: TaskQuery) returns (cs: seq<TaskClause>)
    ensures |cs| >= 2 && cs[0] == ProjectIs(projectId) && cs[1] == TenantIs(tenant)
    ensures forall t :: TaskWhere(cs, t) <==> TaskListed(projectId, tenant, q, t)
  {
    cs := [ProjectIs(projectId), TenantIs(tenant)];
    assert forall t: Task :: TaskWhere(cs, t) <==> t.projectId == projectId && tenant == Some(t.tenantId) by {
      forall t: Task | t.projectId == projectId && tenant == Some(t.tenantId) ensures TaskWhere(cs, t) {
      }
      forall t | TaskWhere(cs, t) ensures t.projectId == projectId && tenant == Some(t.tenantId) {
        assert TaskHolds(cs[0], t) && TaskHolds(cs[1], t);
      }
    }
    if q.status != "" {
      TaskWhereAppend(cs, StatusIs(q.status));
      cs := cs + [StatusIs(q.status)];
    }
    if q.assignedTo.Some? {
      TaskWhereAppend(cs, AssigneeIs(q.assignedTo.value));
      cs := cs + [AssigneeIs(q.assignedTo.value)];
    }
    if q.priority != "" {
      TaskWhereAppend(cs, PriorityIs(q.priority));
      cs := cs + [PriorityIs(q.priority)];
    }
    if q.search != "" {
      TaskWhereAppend(cs, TitleLike(q.search));
      cs := cs + [TitleLike(q.search)];
    }
  }

  // ---- column names: the `WHERE` over `tasks` alone and over `tasks t LEFT JOIN users u`

  /** The columns of `tasks` and of `users` that the handlers name. */
  const TaskColumns: set<string> := {"id", "project_id", "tenant_id", "title", "description",
                                      "status", "priority", "assigned_to", "due_date",
                                      "created_at", "updated_at"}
  const UserColumns: set<string> := {"id", "tenant_id", "email", "password_hash", "full_name",
                                      "role", "is_active", "created_at"}

  /** `FROM tasks` of the count query. */
  const CountFrom: map<string, set<string>> := map["tasks" := TaskColumns]

  /** `FROM tasks t LEFT JOIN users u` of the list query. */
  const ListFrom: map<string, set<string>> := map["t" := TaskColumns, "u" := UserColumns]

  function ClauseColumn(c: TaskClause): (n: string)
    ensures n in TaskColumns
  {
    match c
    case ProjectIs(_) => "project_id"
    case TenantIs(_) => "tenant_id"
    case StatusIs(_) => "status"
    case AssigneeIs(_) => "assigned_to"
    case PriorityIs(_) => "priority"
    case TitleLike(_) => "title"
  }

  /** The columns `whereString` names: bare when `alias` is `None`, as the
      source writes them, or prefixed with the alias. */
  function WhereColumns(cs: seq<TaskClause>, alias: Option<string>): seq<ColumnRef> {
    seq(|cs|, i requires 0 <= i < |cs| =>
      if alias.Some? then Of(alias.value, ClauseColumn(cs[i])) else Bare(ClauseColumn(cs[i])))
  }

  /** The count query reads `tasks` alone, so its bare columns resolve. */
  lemma CountWhereResolves(cs: seq<TaskClause>)
    ensures AllResolve(CountFrom, WhereColumns(cs, None))
  {
    forall i | 0 <= i < |cs| ensures Resolves(CountFrom, WhereColumns(cs, None)[i]) {
      var n := ClauseColumn(cs[i]);
      assert Holders(CountFrom, n) == {"tasks"};
    }
  }

  /** Both `tasks` and `users` have `tenant_id`, so in the join the bare
      anchor clause is ambiguous and the list query is refused, whatever
      filters follow it. */
  lemma ListWhereAmbiguous(cs: seq<TaskClause>, tenant: Option<Id>)
    requires |cs| >= 2 && cs[1] == TenantIs(tenant)
    ensures !Resolves(ListFrom, Bare("tenant_id"))
    ensures !AllResolve(ListFrom, WhereColumns(cs, None))
  {
    assert Holders(ListFrom, "tenant_id") == {"t", "u"};
    assert WhereColumns(cs, None)[1] == Bare("tenant_id");
  }

  /** Prefixed with `t.`, every clause resolves in the join; the bare
      `ORDER BY` columns `priority` and `due_date` resolve as they are,
      since `users` has neither. */
  lemma ListWhereQualifiedResolves(cs: seq<TaskClause>)
    ensures AllResolve(ListFrom, WhereColumns(cs, Some("t")))
    ensures AllResolve(ListFrom, [Bare("priority"), Bare("due_date")])
  {
    assert Holders(ListFrom, "priority") == {"t"};
    assert Holders(ListFrom, "due_date") == {"t"};
  }

  // ---- formatting

  /** `assignedTo: { id, fullName, email }` from the `LEFT JOIN users`. */
  datatype Assignee = Assignee(id: Id, fullName: Option<string>, email: Option<string>)

  datatype TaskView = TaskView(
    id: Id, title: string, description: Option<string>, status: string, priority: string,
    assignedTo: Option<Assignee>, dueDate: Option<Date>)

  function ListedView(users: map<Id, User>, id: Id, t: Task): (v: TaskView)
    ensures v.id == id && v.title == t.title && v.status == t.status && v.priority == t.priority
    ensures v.assignedTo.Some? <==> t.assignedTo.Some?
    ensures v.assignedTo.Some? ==> v.assignedTo.value.id == t.assignedTo.value
  {
    var a := match t.assignedTo
      case None => None
      case Some(u) =>
        if u in users then Some(Assignee(u, Some(users[u].fullName), Some(users[u].email)))
        else Some(Assignee(u, None, None));
    TaskView(id, t.title, t.description, t.status, t.priority, a, t.dueDate)
  }

  function FormatTasks(users: map<Id, User>, tasks: map<Id, Task>, ids: seq<Id>): (vs: seq<TaskView>)
    requires forall i :: 0 <= i < |ids| ==> ids[i] in tasks
    ensures |vs| == |ids|
    ensures forall i :: 0 <= i < |ids| ==> vs[i] == ListedView(users, ids[i], tasks[ids[i]])
  {
    seq(|ids|, i requires 0 <= i < |ids| => ListedView(users, ids[i], tasks[ids[i]]))
  }

  // ---- handlers

  /** A supplied assignee must be a user of the caller's tenant. */
  predicate AssigneeAllowed(users: map<Id, User>, assignee: Id, tenant: Option<Id>) {
    assignee in users && users[assignee].tenantId == tenant
  }

  method CreateTask(
    db: Store, c: Claims, projectId: Id, title: string, description: Field<string>,
    assignedTo: Option<Id>, priority: string, dueDate: Option<Date>, now: Time)
    returns (r: Reply<(Id, Task)>)
    requires db.Valid()
    modifies db
    ensures db.Valid()
    ensures r.Fail? ==> unchanged(db)
    ensures title == "" ==> r == Fail(400, "Task title is required")
    ensures title != "" && projectId !in old(db.projects) ==> r == Fail(404, "Project not found")
    ensures title != "" && projectId in old(db.projects) && Some(old(db.projects)[projectId].tenantId) != c.tenantId
      ==> r == Fail(403, "Not authorized")
    ensures title != "" && projectId in old(db.projects) && Some(old(db.projects)[projectId].tenantId) == c.tenantId
      && assignedTo.Some? && !AssigneeAllowed(old(db.users), assignedTo.value, c.tenantId)
      ==> r == Fail(400, "Assigned user does not belong to this tenant")
    ensures r.Ok? <==>
      title != "" && projectId in old(db.projects) && Some(old(db.projects)[projectId].tenantId) == c.tenantId
      && (assignedTo.Some? ==> AssigneeAllowed(old(db.users), assignedTo.value, c.tenantId))
    ensures r.Ok? ==>
      var id := old(db.nextId);
      var t := Task(projectId, old(db.projects)[projectId].tenantId, title, description.Stored(),
                    "todo", OrElse(priority, "medium"), assignedTo, dueDate, now);
      && id !in old(db.tasks)
      && r == Ok(201, "Task created successfully", Some((id, t)))
      && db.tasks == old(db.tasks)[id := t] && db.nextId == id + 1
      && db.tenants == old(db.tenants) && db.users == old(db.users) && db.projects == old(db.projects)
      && db.audit == old(db.audit) + [AuditEvent(c.tenantId, Some(c.userId), "CREATE_TASK", "task", id)]
  {
    if title == "" {
      return Fail(400, "Task title is required");
    }
    if projectId !in db.projects {
      return Fail(404, "Project not found");
    }
    if Some(db.projects[projectId].tenantId) != c.tenantId {
      return Fail(403, "Not authorized");
    }
    if assignedTo.Some? && !AssigneeAllowed(db.users, assignedTo.value, c.tenantId) {
      return Fail(400, "Assigned user does not belong to this tenant");
    }
    var id := db.nextId;
    var t := Task(projectId, c.tenantId.value, title, description.Stored(),
                  "todo", OrElse(priority, "medium"), assignedTo, dueDate, now);
    TaskWritten(db.tenants, db.users, db.projects, db.tasks, db.nextId, id + 1, id, t);
    db.Commit(db.tenants, db.users, db.projects, db.tasks[id := t], id + 1);
    db.Log(AuditEvent(c.tenantId, Some(c.userId), "CREATE_TASK", "task", id));
    r := Ok(201, "Task created successfully", Some((id, t)));
  }

  /** `GET /projects/:projectId/tasks` as written: the count query runs,
      then the list query repeats the bare `WHERE` over the join with
      `users`; PostgreSQL refuses a statement with a column that does not
      resolve, and the refusal lands in the `catch`. */
  method ListTasksAsWritten(db: Store, c: Claims, projectId: Id, q: TaskQuery)
    returns (r: Reply<Page<TaskView>>)
    ensures r == Fail(500, ServerError)
  {
    var cs := TaskFilter(projectId, c.tenantId, q);
    CountWhereResolves(cs);
    ListWhereAmbiguous(cs, c.tenantId);
    assert !AllResolve(ListFrom, WhereColumns(cs, None));
    r := Fail(500, ServerError);
  }

  /** `GET /projects/:projectId/tasks` with the `WHERE` columns prefixed
      with `t.` (see `ListWhereQualifiedResolves`). The ghost `ordered` is
      the whole ordered result before `LIMIT`/`OFFSET`. An unknown project
      or one of another tenant gives an empty list, not an error. */
  method ListTasks(db: Store, c: Claims, projectId: Id, q: TaskQuery)
    returns (r: Reply<Page<TaskView>>, ghost ordered: seq<Id>)
    ensures var page, limit := q.page.GetOr(1), q.limit.GetOr(50);
      r.Fail? <==> limit < 0 || Offset(page, limit) < 0
    ensures r.Fail? ==> r == Fail(500, ServerError)
    ensures forall i :: 0 <= i < |ordered| ==>
      ordered[i] in db.tasks && TaskListed(projectId, c.tenantId, q, db.tasks[ordered[i]])
    ensures forall k :: k in db.tasks && TaskListed(projectId, c.tenantId, q, db.tasks[k]) ==> k in ordered
    ensures forall i, j :: 0 <= i < j < |ordered| ==> ordered[i] != ordered[j]
    ensures forall i, j :: 0 <= i < j < |ordered| ==>
      KeyLe(TaskKey(db.tasks[ordered[i]]), TaskKey(db.tasks[ordered[j]]))
    ensures r.Ok? ==>
      var page, limit := q.page.GetOr(1), q.limit.GetOr(50);
      && r.status == 200 && r.message == "Tasks list" && r.data.Some?
      && r.data.value.total == |ordered|
      && r.data.value.total == |set k | k in db.tasks && TaskListed(projectId, c.tenantId, q, db.tasks[k])|
      && r.data.value.items == FormatTasks(db.users, db.tasks, Window(ordered, Offset(page, limit), limit))
      && r.data.value.currentPage == page && r.data.value.limit == limit
      && r.data.value.totalPages == TotalPages(|ordered|, limit)
  {
    var page, limit := q.page.GetOr(1), q.limit.GetOr(50);
    var cs := TaskFilter(projectId, c.tenantId, q);
    var ids := Select(db.tasks, (t: Task) => TaskWhere(cs, t), TaskKey);
    ordered := ids;
    assert (set k | k in db.tasks && TaskListed(projectId, c.tenantId, q, db.tasks[k]))
        == Matching(db.tasks, (t: Task) => TaskWhere(cs, t));
    var offset := Offset(page, limit);
    if limit < 0 || offset < 0 {
      return Fail(500, ServerError), ordered;
    }
    var shown := Window(ids, offset, limit);
    r := Ok(200, "Tasks list", Some(Page(FormatTasks(db.users, db.tasks, shown), |ids|, page,
                                        TotalPages(|ids|, limit), limit)));
  }

  method UpdateTaskStatus(db: Store, c: Claims, taskId: Id, status: string)
    returns (r: Reply<(Id, string)>)
    requires db.Valid()
    modifies db
    ensures db.Valid()
    ensures r.Fail? ==> unchanged(db)
    ensures status == "" ==> r == Fail(400, "Status is required")
    ensures status != "" && taskId !in old(db.tasks) ==> r == Fail(404, "Task not found")
    ensures status != "" && taskId in old(db.tasks) && Some(old(db.tasks)[taskId].tenantId) != c.tenantId
      ==> r == Fail(403, "Not authorized")
    ensures r.Ok? <==> status != "" && taskId in old(db.tasks) && Some(old(db.tasks)[taskId].tenantId) == c.tenantId
    ensures r.Ok? ==>
      && r == Ok(200, "Task status updated", Some((taskId, status)))
      && db.tasks == old(db.tasks)[taskId := old(db.tasks)[taskId].(status := status)]
      && db.tenants == old(db.tenants) && db.users == old(db.users) && db.projects == old(db.projects)
      && db.nextId == old(db.nextId)
      && db.audit == old(db.audit) + [AuditEvent(c.tenantId, Some(c.userId), "UPDATE_TASK_STATUS", "task", taskId)]
  {
    if status == "" {
      return Fail(400, "Status is required");
    }
    if taskId !in db.tasks {
      return Fail(404, "Task not found");
    }
    if Some(db.tasks[taskId].tenantId) != c.tenantId {
      return Fail(403, "Not authorized");
    }
    TaskWritten(db.tenants, db.users, db.projects, db.tasks, db.nextId, db.nextId, taskId,
                db.tasks[taskId].(status := status));
    db.Commit(db.tenants, db.users, db.projects, db.tasks[taskId := db.tasks[taskId].(status := status)],
              db.nextId);
    db.Log(AuditEvent(c.tenantId, Some(c.userId), "UPDATE_TASK_STATUS", "task", taskId));
    r := Ok(200, "Task status updated", Some((taskId, status)));
  }

  /** The body of `PUT /tasks/:taskId`. Strings tested for truthiness use
      `""` for "not supplied"; the other three are compared to `undefined`. */
  datatype TaskPatch = TaskPatch(
    title: string, description: Field<string>, status: string, priority: string,
    assignedTo: Field<Id>, dueDate: Field<Date>)

  /** At least one column besides `updated_at` is written. */
  predicate Effective(p: TaskPatch) {
    p.title != "" || !p.description.Undefined? || p.status != "" || p.priority != ""
    || !p.assignedTo.Undefined? || !p.dueDate.Undefined?
  }

  function Written<T>(f: Field<T>, current: Option<T>): Option<T> {
    if f.Undefined? then current else f.Stored()
  }

  /** The row after the `UPDATE ... SET` the handler assembles. */
  function Patched(t: Task, p: TaskPatch): (u: Task)
    ensures u.projectId == t.projectId && u.tenantId == t.tenantId && u.createdAt == t.createdAt
  {
    t.(title := OrElse(p.title, t.title),
       description := Written(p.description, t.description),
       status := OrElse(p.status, t.status),
       priority := OrElse(p.priority, t.priority),
       assignedTo := Written(p.assignedTo, t.assignedTo),
       dueDate := Written(p.dueDate, t.dueDate))
  }

  /** Only supplied fields change; a `null` assignee unassigns the task. */
  lemma PatchedWritesOnlySupplied(t: Task, p: TaskPatch)
    ensures !Effective(p) ==> Patched(t, p) == t
    ensures p.title == "" ==> Patched(t, p).title == t.title
    ensures p.assignedTo.Null? ==> Patched(t, p).assignedTo.None?
    ensures p.assignedTo.Undefined? ==> Patched(t, p).assignedTo == t.assignedTo
    ensures p.description.Undefined? ==> Patched(t, p).description == t.description
    ensures p.status == "" ==> Patched(t, p).status == t.status
    ensures p.priority == "" ==> Patched(t, p).priority == t.priority
    ensures p.dueDate.Undefined? ==> Patched(t, p).dueDate == t.dueDate
    ensures p.status != "" ==> Patched(t, p).status == p.status
    ensures p.priority != "" ==> Patched(t, p).priority == p.priority
  {
  }

  method UpdateTask(db: Store, c: Claims, taskId: Id, p: TaskPatch) returns (r: Reply<TaskView>)
    requires db.Valid()
    modifies db
    ensures db.Valid()
    ensures r.Fail? || !Effective(p) ==> unchanged(db)
    ensures taskId !in old(db.tasks) ==> r == Fail(404, "Task not found")
    ensures taskId in old(db.tasks) && Some(old(db.tasks)[taskId].tenantId) != c.tenantId
      ==> r == Fail(403, "Not authorized")
    ensures taskId in old(db.tasks) && Some(old(db.tasks)[taskId].tenantId) == c.tenantId
      && p.assignedTo.Value? && !AssigneeAllowed(old(db.users), p.assignedTo.value, c.tenantId)
      ==> r == Fail(400, "Assigned user does not belong to this tenant")
    ensures r.Ok? <==>
      taskId in old(db.tasks) && Some(old(db.tasks)[taskId].tenantId) == c.tenantId
      && (p.assignedTo.Value? ==> AssigneeAllowed(old(db.users), p.assignedTo.value, c.tenantId))
    ensures r.Ok? && !Effective(p) ==> r == Ok(200, "No changes made", None)
    ensures r.Ok? && Effective(p) ==>
      var t := Patched(old(db.tasks)[taskId], p);
      && r.status == 200 && r.message == "Task updated successfully" && r.data.Some?
      && r.data.value.id == taskId && r.data.value.title == t.title && r.data.value.status == t.status
      && (r.data.value.assignedTo.Some? <==> t.assignedTo.Some?)
      && db.tasks == old(db.tasks)[taskId := t]
      && db.tenants == old(db.tenants) && db.users == old(db.users) && db.projects == old(db.projects)
      && db.nextId == old(db.nextId)
      && db.audit == old(db.audit) + [AuditEvent(c.tenantId, Some(c.userId), "UPDATE_TASK", "task", taskId)]
  {
    if taskId !in db.tasks {
      return Fail(404, "Task not found");
    }
    if Some(db.tasks[taskId].tenantId) != c.tenantId {
      return Fail(403, "Not authorized");
    }
    if p.assignedTo.Value? && !AssigneeAllowed(db.users, p.assignedTo.value, c.tenantId) {
      return Fail(400, "Assigned user does not belong to this tenant");
    }
    if !Effective(p) {
      return Ok(200, "No changes made", None);
    }
    var t := Patched(db.tasks[taskId], p);
    TaskWritten(db.tenants, db.users, db.projects, db.tasks, db.nextId, db.nextId, taskId, t);
    db.Commit(db.tenants, db.users, db.projects, db.tasks[taskId := t], db.nextId);
    // the response re-reads the assignee; a missing row gives `assignedTo: null`
    var assignee := match t.assignedTo
      case None => None
      case Some(u) =>
        if u in db.users then Some(Assignee(u, Some(db.users[u].fullName), Some(db.users[u].email))) else None;
    db.Log(AuditEvent(c.tenantId, Some(c.userId), "UPDATE_TASK", "task", taskId));
    r := Ok(200, "Task updated successfully",
            Some(TaskView(taskId, t.title, t.description, t.status, t.priority, assignee, t.dueDate)));
  }

  method DeleteTask(db: Store, c: Claims, taskId: Id) returns (r: Reply<()>)
    requires db.Valid()
    modifies db
    ensures db.Valid()
    ensures r.Fail? ==> unchanged(db)
    ensures taskId !in old(db.tasks) ==> r == Fail(404, "Task not found")
    ensures taskId in old(db.tasks) && Some(old(db.tasks)[taskId].tenantId) != c.tenantId
      ==> r == Fail(403, "Not authorized")
    ensures r.Ok? <==> taskId in old(db.tasks) && Some(old(db.tasks)[taskId].tenantId) == c.tenantId
    ensures r.Ok? ==>
      && r == Ok(200, "Task deleted successfully", None)
      && db.tasks == old(db.tasks) - {taskId}
      && db.tenants == old(db.tenants) && db.users == old(db.users) && db.projects == old(db.projects)
      && db.nextId == old(db.nextId)
      && db.audit == old(db.audit) + [AuditEvent(c.tenantId, Some(c.userId), "DELETE_TASK", "task", taskId)]
  {
    if taskId !in db.tasks {
      return Fail(404, "Task not found");
    }
    if Some(db.tasks[taskId].tenantId) != c.tenantId {
      return Fail(403, "Not authorized");
    }
    TasksRemoved(db.tenants, db.users, db.projects, db.tasks, db.nextId, {taskId});
    db.Commit(db.tenants, db.users, db.projects, db.tasks - {taskId}, db.nextId);
    db.Log(AuditEvent(c.tenantId, Some(c.userId), "DELETE_TASK", "task", taskId));
    r := Ok(200, "Task deleted successfully", None);
  }
}
