# Multi-tenant workspace: the controllers' authorization and lifecycle

The system is a multi-tenant project and task workspace. A **tenant** is an
organisation with a subdomain and a subscription: a plan, a status, and
`max_users` and `max_projects` limits. It has **users** with the roles
`tenant_admin` and `user`. Above every tenant sits the tenant-less
`super_admin`. Users own **projects**, projects hold **tasks**, and every
write appends a row to the **audit log**.

Five HTTP controllers implement the core. Each handler takes the caller's
decoded token (user id, tenant id and role) and a request. It answers with a
`{ success, message, data }` envelope and an HTTP status. This model states
and proves, handler by handler:

- which caller may act on which row (tenant isolation, role checks, the
  creator's rights);
- which status and message every refusal carries, and that a refusal leaves
  the database unchanged;
- the exact new state and audit row of every successful write;
- that the subscription limits hold after every insert;
- which rows a listing shows, in which order, behind which page window, and
  with which counts.

The database is one object, `Db.Store`. It has a map per table and an
append-only audit sequence. `Store.Valid()` is the integrity that the schema's
keys and the handlers' checks keep together:

- fresh ids;
- every reference points to an existing row;
- a task's tenant is its project's tenant;
- an assignee belongs to the task's tenant;
- subdomains are unique;
- an email is unique within a tenant.

Every handler preserves `Valid()`. The SQL that builds a `WHERE` or an
`UPDATE ... SET` by pushing clauses onto a list becomes a method that pushes
onto a sequence. That method is proved equal to a predicate or patch function
stated directly. The scan-and-sort of a `SELECT ... ORDER BY` is a method
proved to return every matching row exactly once, in key order.

Modules follow the source:

| module | models |
|---|---|
| `Common` | ids, claims, envelope, field shapes, the `UPDATE ... SET` list |
| `Text` | the subdomain pattern, `ILIKE` |
| `Listing` | ordering, `LIMIT`/`OFFSET`, page count, select |
| `Db` | tables, integrity, the store, the audit log |
| `TaskController` | `taskController.js` |
| `UserController` | `userController.js` |
| `ProjectController` | `projectController.js` |
| `AuthController` | `authController.js` |
| `TenantController` | `tenantController.js` |

## Model

| member | source | states |
|---|---|---|
| Common.OrElse | backend/src/controllers/taskController.js:52 | a supplied (truthy) string wins over the fallback; the result is truthy whenever the fallback is |
| Common.ApplyAllAppend | backend/src/controllers/userController.js:222-226 | the entries of an `UPDATE ... SET` list pushed in two parts apply as the first part and then the second |
| Text.ClassMatch | backend/src/controllers/authController.js:29-32 | a one-character string matches the class `[a-z0-9-]` exactly when that character is a lower-case letter, a digit or a hyphen |
| Text.SubdomainCheckIsPattern | backend/src/controllers/authController.js:29-32 | the character test used for subdomains accepts exactly the strings matched by the anchored regular expression `^[a-z0-9-]+$` |
| Text.Lower | backend/src/controllers/taskController.js:84 | folding adds 32 to the code of each of `A`-`Z`, giving `a`-`z`, leaves every other character alone, and never yields an upper-case letter |
| Text.Fold | backend/src/controllers/taskController.js:84 | folding keeps the length, turns each upper-case letter into its lower-case one and keeps every other character, so the result holds no `A`-`Z` |
| Text.FoldIdempotent | backend/src/controllers/taskController.js:84 | folding twice is folding once |
| Text.ILikeIgnoresCase | backend/src/controllers/userController.js:117 | `ILIKE '%s%'` gives the same answer whichever side is folded first |
| Text.ContainsIsILike | backend/src/controllers/projectController.js:84 | an exact substring occurrence is also an `ILIKE` match |
| Listing.NewestFirstOrder | backend/src/controllers/userController.js:140 | the `created_at DESC` key puts row a before row b exactly when a was created no earlier |
| Listing.Insert | backend/src/controllers/taskController.js:103-105 | insertion adds exactly one occurrence of the element |
| Listing.InsertSorted | backend/src/controllers/taskController.js:103-105 | inserting into a sorted list gives a sorted list |
| Listing.SortBy | backend/src/controllers/taskController.js:103-105 | `ORDER BY` returns a permutation of its input, sorted by the key |
| Listing.Window | backend/src/controllers/taskController.js:106-109 | `LIMIT n OFFSET o` yields at most n rows, exactly the rows from position o onward, and its length is stated for every case |
| Listing.TotalPages | backend/src/controllers/taskController.js:132 | `Math.ceil(total / limit)` is null (Infinity or NaN in JSON) exactly when the limit is 0 |
| Listing.TotalPagesIsCeiling | backend/src/controllers/taskController.js:132 | the page count is the least number of pages of `limit` rows that hold all rows |
| Listing.PagesCoverResult | backend/src/controllers/taskController.js:76 | for a positive limit, page p is non-empty exactly when p is at most the page count |
| Listing.RowOnItsPage | backend/src/controllers/taskController.js:76 | row i of the result appears on page `i / limit + 1`, at position `i % limit` |
| Listing.Scan | backend/src/controllers/userController.js:136-143 | a table scan returns every row matching the `WHERE` exactly once |
| Listing.Select | backend/src/controllers/userController.js:136-143 | `SELECT id ... WHERE ... ORDER BY` returns only matching rows and every one of them, without repeats, in key order, as many as the `COUNT(*)` |
| Db.HashInjective | backend/src/controllers/authController.js:150 | a password verifies only against the digest made from that password |
| Db.InfoOf | backend/src/controllers/userController.js:79 | the returned user columns keep the row's id, email, role and tenant, and leave out the hash |
| Db.TaskWritten | backend/src/controllers/taskController.js:30-53 | writing a task keeps the integrity when its project belongs to its tenant and its assignee (if any) is a user of that tenant |
| Db.TasksRemoved | backend/src/controllers/taskController.js:285-292 | deleting tasks keeps the integrity |
| Db.UserWritten | backend/src/controllers/userController.js:62-85 | writing a user keeps the integrity when its tenant exists, no other user of the tenant has the email, and an existing row keeps its tenant |
| Db.ProjectWritten | backend/src/controllers/projectController.js:42-54 | writing a project keeps the integrity when its tenant and creator exist and an existing row keeps its tenant |
| Db.ProjectRemoved | backend/src/controllers/projectController.js:268-272 | deleting a project together with its tasks (the cascade) keeps the integrity |
| Db.TenantWritten | backend/src/controllers/authController.js:40-58 | writing a tenant keeps the integrity while no other tenant holds its subdomain |
| Db.Store.Commit | backend/src/controllers/userController.js:47-83 | a transaction replaces the tables with a consistent set |
| Db.Store.Log | backend/src/utils/auditLogger.js:21-32 | an audit call appends exactly one row and changes nothing else |
| TaskController.PriorityRank | backend/src/controllers/taskController.js:104 | `high` ranks 1, `medium` ranks 2, anything else ranks 3 |
| TaskController.TaskKeyOrder | backend/src/controllers/taskController.js:103-105 | the sort key orders tasks by priority rank, then by due date ascending with missing due dates last |
| TaskController.Precedes | backend/src/controllers/taskController.js:103-105 | in a listing sorted by the key, a task with a strictly smaller key comes first |
| TaskController.FourSortedByKey | backend/src/controllers/taskController.js:103-105 | a key-sorted listing of four rows with strictly increasing keys is exactly their key order |
| TaskController.OrderingExample | backend/src/controllers/taskController.js:103-105 | priorities low/high/medium/high with due dates 2024-01-01/null/2024-01-02/2023-12-31 are listed as high 2023-12-31, high null, medium, low |
| TaskController.TaskWhereAppend | backend/src/controllers/taskController.js:77-86 | pushing a clause narrows the `WHERE` by exactly that clause |
| TaskController.TaskFilter | backend/src/controllers/taskController.js:77-86 | the clause list starts with the project and the caller's tenant, and a task passes it exactly when it is of the project and tenant and matches each supplied status, assignee, priority and search |
| TaskController.ListedView | backend/src/controllers/taskController.js:112-125 | a listed task shows its own id, title, status and priority, and an assignee exactly when it has one |
| TaskController.CreateTask | backend/src/controllers/taskController.js:18-66 | 400 without a title, 404 for a missing project, 403 when the project is another tenant's, 400 when the assignee is not a user of the caller's tenant; otherwise one new `todo` task in the project's tenant plus its audit row, and there is no other success |
| TaskController.CountWhereResolves | backend/src/controllers/taskController.js:79-94 | every bare column of the `WHERE` resolves in the count query over `tasks` alone |
| TaskController.ListWhereAmbiguous | backend/src/controllers/taskController.js:79-107 | over `tasks t LEFT JOIN users u` the bare `tenant_id` is ambiguous, so the list query's `WHERE` never resolves |
| TaskController.ListWhereQualifiedResolves | backend/src/controllers/taskController.js:96-107 | with every `WHERE` column prefixed by `t.`, the list query resolves, and so do its bare `ORDER BY` columns |
| TaskController.ListTasksAsWritten | backend/src/controllers/taskController.js:71-143 | the handler as written answers 500 "Server Error" to every request, since the list query's bare `tenant_id` does not resolve in the join |
| TaskController.ListTasks | backend/src/controllers/taskController.js:71-143 | with the list query's `WHERE` prefixed by `t.`: exactly the project's tasks in the caller's tenant that match the filters, each once, ordered by priority and due date; the page window, the total and the page count; 500 when the offset or limit is negative |
| TaskController.UpdateTaskStatus | backend/src/controllers/taskController.js:148-180 | 400 without a status, 404 for a missing task, 403 for another tenant's task; otherwise only the status changes and one audit row is added |
| TaskController.Patched | backend/src/controllers/taskController.js:205-229 | a patch never moves a task to another project or tenant, and never changes its creation time |
| TaskController.PatchedWritesOnlySupplied | backend/src/controllers/taskController.js:205-229 | title, status and priority change only when supplied (non-empty) and then take the supplied value; description, assignee and due date change only when not `undefined`; a `null` assignee unassigns; a patch that supplies nothing is the identity |
| TaskController.UpdateTask | backend/src/controllers/taskController.js:185-274 | 404 for a missing task, 403 for another tenant's task, 400 for an assignee that is not a user of the caller's tenant; "No changes made" with nothing supplied; otherwise the task becomes its patch and one audit row is added |
| TaskController.DeleteTask | backend/src/controllers/taskController.js:279-302 | 404 for a missing task, 403 for another tenant's task; otherwise exactly that task goes and one audit row is added |
| UserController.UsersOfInsert | backend/src/controllers/userController.js:50-59 | a new user row adds one to the member count of its own tenant only |
| UserController.AddUser | backend/src/controllers/userController.js:19-96 | only a tenant admin of the tenant may add; 400 for missing fields; 400 for a password under 8 characters; roles limited to `user` and `tenant_admin`; 403 at the `max_users` limit; 409 for a known email; 500 for a missing tenant row; on success one new active user plus its audit row, and the member count stays within `max_users` |
| UserController.UserFilter | backend/src/controllers/userController.js:111-128 | the clause list is anchored on the tenant, and a user passes it exactly when the user is of the tenant and matches each supplied role and search |
| UserController.ListUsers | backend/src/controllers/userController.js:101-163 | 403 outside the tenant; otherwise exactly the tenant's matching users, each once, newest first, with the window, the total and the page count |
| UserController.UserUpdates | backend/src/controllers/userController.js:199-220 | the `SET` list is empty exactly when nothing is written, applying it gives the stated patch, and it never sets the role `super_admin` |
| UserController.PatchBySets | backend/src/controllers/userController.js:199-220 | the three pushes, applied in order, give the stated row |
| UserController.PatchKeepsSuperAdminOut | backend/src/controllers/userController.js:207-208 | an update never makes a super admin, and never changes tenant, email or password |
| UserController.UpdateUser | backend/src/controllers/userController.js:168-242 | 404 for a missing user; 403 outside the tenant; 403 unless a tenant admin or the user themself; 403 when a non-admin touches role or status; "No changes made" with nothing written; otherwise the row becomes its patch and one audit row is added; no super admin ever appears |
| UserController.ReleaseOnlyTouchesReferences | backend/src/controllers/userController.js:269-279 | unassigning and uncrediting keep every row and clear exactly the references to the deleted user |
| UserController.UserRemovedKeepsIntegrity | backend/src/controllers/userController.js:269-285 | releasing a user's references, then deleting the user, keeps the integrity |
| UserController.UncreditedLinked | backend/src/controllers/userController.js:276 | after uncrediting, every project reference still resolves without the user |
| UserController.UnassignedLinked | backend/src/controllers/userController.js:272 | unassigning keeps every task in a project of its own tenant |
| UserController.UnassignedInTenant | backend/src/controllers/userController.js:272 | after unassigning, every assignee is a remaining user of the task's tenant |
| UserController.DeleteUser | backend/src/controllers/userController.js:247-294 | 403 unless a tenant admin; 403 on deleting oneself; 404 for a missing user; 403 for a user of another tenant; otherwise the user goes, their tasks are unassigned, their projects uncredited, and one audit row is added |
| ProjectController.ProjectsOfInsert | backend/src/controllers/projectController.js:31-40 | a new project adds one to the project count of its own tenant only |
| ProjectController.CreateProject | backend/src/controllers/projectController.js:18-63 | 400 without a name; 403 at the `max_projects` limit; 500 for a missing tenant row or creator row; on success one new project of the caller's tenant plus its audit row, and the count stays within `max_projects` |
| ProjectController.ProjectFilter | backend/src/controllers/projectController.js:72-89 | the clause list is anchored on the caller's tenant, and a project passes it exactly when it is of the tenant and matches each supplied status and search |
| ProjectController.CompletedWithinTasks | backend/src/controllers/projectController.js:100-101 | a project's completed tasks are among its tasks, so the completed count never exceeds the task count |
| ProjectController.ViewOf | backend/src/controllers/projectController.js:113-125 | a listed project shows its creator, its task count, and a completed count no larger than the task count |
| ProjectController.ListProjects | backend/src/controllers/projectController.js:68-143 | exactly the caller's tenant's matching projects, each once, newest first, with the window, the total and the page count; 500 for a negative offset or limit |
| ProjectController.GetProject | backend/src/controllers/projectController.js:148-187 | a project is returned exactly when it exists in the caller's tenant, and otherwise the answer is 404 |
| ProjectController.PatchedKeepsOwnership | backend/src/controllers/projectController.js:199-213 | an update never changes tenant, creator or creation time; name and status change only when non-empty and then take the supplied value; description changes only when not `undefined`, and a `null` clears it; a patch that supplies nothing is the identity |
| ProjectController.ProjectUpdates | backend/src/controllers/projectController.js:199-213 | the `SET` list is empty exactly when nothing is supplied, and applying it gives the stated patch |
| ProjectController.UpdateProject | backend/src/controllers/projectController.js:192-243 | 404 for a missing project or one of another tenant; 403 unless a tenant admin or the creator; "No changes made" with nothing supplied; otherwise the project becomes its patch and one audit row is added |
| ProjectController.CascadeKeepsOtherProjects | backend/src/controllers/projectController.js:268-272 | the cascade leaves exactly, and unchanged, the tasks of other projects |
| ProjectController.DeleteProject | backend/src/controllers/projectController.js:248-284 | 404 for a missing project or one of another tenant; 403 unless a tenant admin or the creator; otherwise the project and its tasks go, no task refers to it any more, and one audit row is added |
| AuthController.FreeTenant | backend/src/controllers/authController.js:51-55 | a new tenant starts active on the free plan, with 5 users and 3 projects |
| AuthController.RegisterTenant | backend/src/controllers/authController.js:20-89 | 400 for missing fields, 400 for a bad subdomain, 409 for a taken subdomain; otherwise a fresh tenant and its single active tenant admin, with one audit row |
| AuthController.SessionOf | backend/src/controllers/authController.js:161-185 | the token carries exactly the row's id, tenant and role, and expires after 24 hours |
| AuthController.Login | backend/src/controllers/authController.js:94-193 | 400 without email or password; 404 for an unknown subdomain; 403 for an inactive tenant; 401 when no row resolves or the password is wrong; 403 for a deactivated account; otherwise the session of the one row that resolves; only the audit log changes |
| AuthController.FindTenant | backend/src/controllers/authController.js:115-125 | the subdomain lookup finds the one tenant holding the subdomain, or none |
| AuthController.FindUser | backend/src/controllers/authController.js:127-136 | the user lookup finds the one row of that tenant (or the one tenant-less super admin) with the email, or none |
| AuthController.LoginStaysInTenant | backend/src/controllers/authController.js:127-136 | a login through a subdomain reaches only users of that tenant; a login without one reaches only super admins |
| AuthController.GetMe | backend/src/controllers/authController.js:198-229 | the caller's stored id, email, full name, role, active flag and tenant id and, when it has a tenant, that tenant's id, name, subdomain, plan, limits and status; 404 when the row is gone |
| TenantController.GetTenant | backend/src/controllers/tenantController.js:18-55 | 403 unless a super admin or a member of the tenant; 404 for a missing tenant; otherwise the row with its user, project and task counts |
| TenantController.TenantTasksInItsProjects | backend/src/controllers/tenantController.js:36-46 | every task counted for a tenant lies in one of the tenant's projects |
| TenantController.OnlySuperAdminChangesSubscription | backend/src/controllers/tenantController.js:84-95 | apart from a super admin, an update can only rename the tenant; it never changes the subdomain |
| TenantController.ApplyOptional | backend/src/controllers/tenantController.js:90-95 | a conditionally pushed entry applies exactly when it is pushed |
| TenantController.TenantSetsEmpty | backend/src/controllers/tenantController.js:97-99 | the `SET` list is empty exactly when the patch writes nothing |
| TenantController.TenantSetsPatch | backend/src/controllers/tenantController.js:84-95 | applying the list entry by entry gives the stated row |
| TenantController.TenantUpdates | backend/src/controllers/tenantController.js:84-97 | the pushed list is empty exactly when nothing is written, and applying it gives the stated patch |
| TenantController.UpdateTenant | backend/src/controllers/tenantController.js:60-121 | 403 outside the tenant; 403 when a tenant admin touches the subscription; "No changes made" with nothing written; 404 for a missing tenant; otherwise the row becomes its patch and one audit row is added |
| TenantController.TenantFilter | backend/src/controllers/tenantController.js:134-150 | no clause is pushed exactly when neither filter is supplied, and a tenant passes exactly when it matches each supplied status and plan |
| TenantController.ListTenants | backend/src/controllers/tenantController.js:126-187 | 403 unless a super admin; otherwise exactly the matching tenants, each once, newest first, with the window, the total and the page count; 500 for a negative offset or limit |

## Findings

| source | as written | input that shows it | evidently intended | confidence | as-written member | corrected member |
|---|---|---|---|---|---|---|
| backend/src/controllers/taskController.js:79-107 | the `WHERE` built for the count over `tasks` (`project_id = $1 AND tenant_id = $2 ...`) is reused unqualified in the list query over `tasks t LEFT JOIN users u`, and `users` has a `tenant_id` column too (backend/src/controllers/userController.js:77), so PostgreSQL refuses the list query as ambiguous and the `catch` answers 500 | any `GET /projects/:projectId/tasks`, for instance with no query string at all | the page of the project's tasks, filtering on `t.tenant_id` and the other columns of `t` | medium: depends on the schema implied by the inserts; not executed | TaskController.ListTasksAsWritten, TaskController.ListWhereAmbiguous | TaskController.ListTasks, TaskController.ListWhereQualifiedResolves |

## Left out

- SQL, the connection pool and `BEGIN`/`COMMIT`/`ROLLBACK`: a transaction is one replacement of the tables, and a rolled-back handler leaves the store unchanged.
- Concurrency: the quota check and the insert in `addUser` and `createProject` run as one step, so the race between two concurrent requests is not modelled.
- bcrypt and JWT: a password digest is an injective function of the password, and a token is the claims it carries. Salts, signatures, secrets, and an expired or forged token (rejected by middleware) are not modelled.
- The request's IP address in audit rows is dropped.
- A failure of the audit insert itself is swallowed by the source, so `Store.Log` always appends.
- Clock and ids: `NOW()` is a `now` parameter. The `updated_at` column is not stored. Database UUIDs are naturals handed out from a counter.
- A path or body id of `0` is an ordinary id. In the source a numeric 0 would be falsy: `createTask` would store a null assignee and `updateTask` would skip the assignee check. Ids are UUID strings in the schema, so this does not arise there.
- Path ids are compared as ids. The string-versus-uuid comparison the source does on tenant ids is not modelled.
- logout (`authController.js:231-241`): it writes only an audit row and touches no state the model keeps. It is left out.
- Storage errors other than the ones the model derives (negative `LIMIT`/`OFFSET`, a missing tenant or creator row) are not modelled. These are dropped connections, constraint violations the handlers do not provoke, and malformed uuids. For the same reason the "Server Error during registration" branch cannot be reached.
- Query strings that are not numbers: `page` and `limit` are integers, or absent with the source's defaults. `NaN` is not modelled.
- `ILIKE`: case folding is ASCII. The `%` and `_` metacharacters inside a search text are matched literally, as plain characters.
- The password length rule of `addUser` counts characters, not UTF-16 code units.
- Super-admin emails: `Db.EmailsUnique` also treats tenant-less users as one tenant, so two super admins never share an email. A SQL `UNIQUE (tenant_id, email)` would let NULL tenants repeat an email. The handlers never create a tenant-less user, so only seeded rows could break this, and the login without a subdomain then reads the first matching row, which the model does not capture.
- The schema is assumed: foreign keys from users, projects and tasks with the cascade from projects to tasks; `is_active` defaulting to `true`; unique subdomains and unique (tenant, email) pairs. The columns of `tasks` and `users` are the ones the handlers name. `Store.Valid()` states these. `registerTenant` writes `is_active` as that default.
- `RETURNING` column lists are modelled by their columns. The timestamps and the exact JSON key names of each response are not.
- Choices the source makes are followed as written. A task in another tenant answers 403 while a project in another tenant answers 404. Any member of a tenant, including a plain `user`, may rename the tenant.
